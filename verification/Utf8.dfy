/** The UTF-8 encoder and decoder of string_utils.cc, against the grammar in section 4 of RFC 3629.
  *
  * Text is a sequence of numbers. The methods compute on 32-bit words with the shifts and masks of the source, which
  * module BitArithmetic relates to the arithmetic of the specification. */
module Utf8 {
  import opened Options
  import Bits = BitArithmetic

  type Byte = b: int | 0 <= b <= 0xFF

  predicate Surrogate(c: int) {
    0xD800 <= c <= 0xDFFF
  }

  /** A Unicode scalar value: what RFC 3629 allows to be encoded. */
  predicate Scalar(c: int) {
    0 <= c <= 0x10FFFF && !Surrogate(c)
  }

  type CodePoint = c: int | 0 <= c <= 0x10FFFF && !(0xD800 <= c <= 0xDFFF)

  /** `w & 0x3F`. */
  function Low6(w: int): (r: nat)
    ensures r < 0x40
  {
    w % 0x40
  }

  // ---- The grammar of RFC 3629, section 4 ----

  predicate Tail(b: Byte) {
    0x80 <= b <= 0xBF
  }

  predicate Utf8Char1(a: Byte) {
    a <= 0x7F
  }

  predicate Utf8Char2(a: Byte, b: Byte) {
    0xC2 <= a <= 0xDF && Tail(b)
  }

  predicate Utf8Char3(a: Byte, b: Byte, c: Byte) {
    && ((a == 0xE0 && 0xA0 <= b <= 0xBF)
        || (0xE1 <= a <= 0xEC && Tail(b))
        || (a == 0xED && 0x80 <= b <= 0x9F)
        || (0xEE <= a <= 0xEF && Tail(b)))
    && Tail(c)
  }

  predicate Utf8Char4(a: Byte, b: Byte, c: Byte, d: Byte) {
    && ((a == 0xF0 && 0x90 <= b <= 0xBF)
        || (0xF1 <= a <= 0xF3 && Tail(b))
        || (a == 0xF4 && 0x80 <= b <= 0x8F))
    && Tail(c) && Tail(d)
  }

  predicate Utf8Char(s: seq<Byte>) {
    if |s| == 1 then Utf8Char1(s[0])
    else if |s| == 2 then Utf8Char2(s[0], s[1])
    else if |s| == 3 then Utf8Char3(s[0], s[1], s[2])
    else |s| == 4 && Utf8Char4(s[0], s[1], s[2], s[3])
  }

  /** The bits of the code point in a lead byte that n more bytes follow. */
  function LeadBits(first: int, n: nat): nat
    requires 0 <= first
  {
    if n == 0 then first else if n == 1 then first % 0x20 else if n == 2 then first % 0x10 else first % 0x08
  }

  /** The code point whose bits the table in section 3 spreads over the bytes. */
  function Value(s: seq<Byte>): int
    requires Utf8Char(s)
  {
    if |s| == 1 then s[0]
    else if |s| == 2 then LeadBits(s[0], |s| - 1) * 0x40 + Low6(s[1])
    else if |s| == 3 then LeadBits(s[0], |s| - 1) * 0x1000 + Low6(s[1]) * 0x40 + Low6(s[2])
    else LeadBits(s[0], |s| - 1) * 0x40000 + Low6(s[1]) * 0x1000 + Low6(s[2]) * 0x40 + Low6(s[3])
  }

  /** The length of the character that `s` starts with, or 0 when it starts with none. */
  function CharLength(s: seq<Byte>): (n: nat)
    ensures n <= |s|
    ensures n > 0 <==> exists k :: 0 < k <= |s| && Utf8Char(s[..k])
    ensures n > 0 ==> Utf8Char(s[..n])
    ensures forall k :: 0 < k <= |s| && Utf8Char(s[..k]) ==> k == n
  {
    if |s| >= 1 && Utf8Char1(s[0]) then assert Utf8Char(s[..1]); 1
    else if |s| >= 2 && Utf8Char2(s[0], s[1]) then assert Utf8Char(s[..2]); 2
    else if |s| >= 3 && Utf8Char3(s[0], s[1], s[2]) then assert Utf8Char(s[..3]); 3
    else if |s| >= 4 && Utf8Char4(s[0], s[1], s[2], s[3]) then assert Utf8Char(s[..4]); 4
    else 0
  }

  // ---- One code point ----

  /** The bytes that AppendUtf8 pushes. */
  function Encode(c: int): (s: seq<Byte>)
    requires 0 <= c <= 0x10FFFF
    ensures 1 <= |s| <= 4
  {
    if c <= 0x7F then [c]
    else if c <= 0x7FF then [0xC0 + c / 0x40, 0x80 + Low6(c)]
    else if c <= 0xFFFF then [0xE0 + c / 0x1000, 0x80 + Low6(c / 0x40), 0x80 + Low6(c)]
    else [0xF0 + c / 0x40000, 0x80 + Low6(c / 0x1000), 0x80 + Low6(c / 0x40), 0x80 + Low6(c)]
  }

  /** The base-64 digits of a code point. */
  lemma Digits(c: nat)
    ensures c == c / 0x40 * 0x40 + Low6(c)
    ensures c / 0x40 == c / 0x1000 * 0x40 + Low6(c / 0x40)
    ensures c / 0x1000 == c / 0x40000 * 0x40 + Low6(c / 0x1000)
  {
    assert c / 0x40 / 0x40 == c / 0x1000;
    assert c / 0x1000 / 0x40 == c / 0x40000;
  }

  lemma DigitsOf(h: nat, m: nat, x: nat, y: nat)
    requires m < 0x40 && x < 0x40 && y < 0x40
    ensures var c := h * 0x40000 + m * 0x1000 + x * 0x40 + y;
            c / 0x40000 == h && Low6(c / 0x1000) == m && Low6(c / 0x40) == x && Low6(c) == y
            && c / 0x1000 == h * 0x40 + m && c / 0x40 == h * 0x1000 + m * 0x40 + x
  {
    var c := h * 0x40000 + m * 0x1000 + x * 0x40 + y;
    assert c / 0x40 == h * 0x1000 + m * 0x40 + x;
    assert c / 0x1000 == c / 0x40 / 0x40 == h * 0x40 + m;
    assert c / 0x40000 == c / 0x1000 / 0x40 == h;
  }

  lemma Meets2(c: int)
    requires 0x7F < c <= 0x7FF
    ensures Utf8Char(Encode(c)) && Value(Encode(c)) == c
  {
  }

  lemma Meets3(c: int)
    requires 0x7FF < c <= 0xFFFF && !Surrogate(c)
    ensures Utf8Char(Encode(c)) && Value(Encode(c)) == c
  {
    Digits(c);
    var a, x, y := c / 0x1000, Low6(c / 0x40), Low6(c);
    assert Encode(c) == [0xE0 + a, 0x80 + x, 0x80 + y];
    assert LeadBits(0xE0 + a, 2) == a && Low6(0x80 + x) == x && Low6(0x80 + y) == y;
  }

  lemma Meets4(c: int)
    requires 0xFFFF < c <= 0x10FFFF
    ensures Utf8Char(Encode(c)) && Value(Encode(c)) == c
  {
    Digits(c);
    var a, m, x, y := c / 0x40000, Low6(c / 0x1000), Low6(c / 0x40), Low6(c);
    assert Encode(c) == [0xF0 + a, 0x80 + m, 0x80 + x, 0x80 + y];
    assert LeadBits(0xF0 + a, 3) == a && Low6(0x80 + m) == m && Low6(0x80 + x) == x && Low6(0x80 + y) == y;
  }

  /** Encoding a scalar value gives one character of the grammar, with that value. */
  lemma EncodeMeets(c: CodePoint)
    ensures Utf8Char(Encode(c)) && Value(Encode(c)) == c
  {
    if c <= 0x7F {
    } else if c <= 0x7FF {
      Meets2(c);
    } else if c <= 0xFFFF {
      Meets3(c);
    } else {
      Meets4(c);
    }
  }

  lemma Inverts2(s: seq<Byte>)
    requires |s| == 2 && Utf8Char(s)
    ensures Scalar(Value(s)) && Encode(Value(s)) == s
  {
    DigitsOf(0, 0, s[0] - 0xC0, s[1] - 0x80);
  }

  lemma Parts3(s: seq<Byte>)
    requires |s| == 3 && Utf8Char(s)
    ensures 0xE0 <= s[0] <= 0xEF && Tail(s[1]) && Tail(s[2])
    ensures var a: int, x: int, y: int := s[0] - 0xE0, s[1] - 0x80, s[2] - 0x80; Value(s) == a * 0x1000 + x * 0x40 + y
    ensures 0x7FF < Value(s) <= 0xFFFF && !Surrogate(Value(s))
  {
    var a: int, x: int, y: int := s[0] - 0xE0, s[1] - 0x80, s[2] - 0x80;
    assert LeadBits(s[0], 2) == a && Low6(s[1]) == x && Low6(s[2]) == y;
  }

  lemma Inverts3(s: seq<Byte>)
    requires |s| == 3 && Utf8Char(s)
    ensures Scalar(Value(s)) && Encode(Value(s)) == s
  {
    hide Utf8Char, Value;
    Parts3(s);
    var a: int, x: int, y: int := s[0] - 0xE0, s[1] - 0x80, s[2] - 0x80;
    DigitsOf(0, a, x, y);
    assert Encode(Value(s)) == [0xE0 + a, 0x80 + x, 0x80 + y];
  }

  lemma Parts4(s: seq<Byte>)
    requires |s| == 4 && Utf8Char(s)
    ensures 0xF0 <= s[0] <= 0xF4 && Tail(s[1]) && Tail(s[2]) && Tail(s[3])
    ensures var a: int, m: int, x: int, y: int := s[0] - 0xF0, s[1] - 0x80, s[2] - 0x80, s[3] - 0x80;
            Value(s) == a * 0x40000 + m * 0x1000 + x * 0x40 + y
    ensures 0xFFFF < Value(s) <= 0x10FFFF
  {
    var a: int, m: int, x: int, y: int := s[0] - 0xF0, s[1] - 0x80, s[2] - 0x80, s[3] - 0x80;
    assert LeadBits(s[0], 3) == a && Low6(s[1]) == m && Low6(s[2]) == x && Low6(s[3]) == y;
  }

  lemma Inverts4(s: seq<Byte>)
    requires |s| == 4 && Utf8Char(s)
    ensures Scalar(Value(s)) && Encode(Value(s)) == s
  {
    hide Utf8Char, Value;
    Parts4(s);
    var a: int, m: int, x: int, y: int := s[0] - 0xF0, s[1] - 0x80, s[2] - 0x80, s[3] - 0x80;
    DigitsOf(a, m, x, y);
    assert Encode(Value(s)) == [0xF0 + a, 0x80 + m, 0x80 + x, 0x80 + y];
  }

  /** Every character of the grammar is the encoding of its value, which is a scalar value. */
  lemma EncodeInverts(s: seq<Byte>)
    requires Utf8Char(s)
    ensures Scalar(Value(s)) && Encode(Value(s)) == s
  {
    if |s| == 2 {
      Inverts2(s);
    } else if |s| == 3 {
      Inverts3(s);
    } else if |s| == 4 {
      Inverts4(s);
    }
  }

  /** What is decoded from an encoding followed by anything is the code point, and exactly its bytes are taken. */
  lemma DecodeEncoded(c: CodePoint, suffix: seq<Byte>)
    ensures var s := Encode(c) + suffix;
            var n := CharLength(s);
            n == |Encode(c)| && Utf8Char(s[..n]) && Value(s[..n]) == c
  {
    EncodeMeets(c);
    assert (Encode(c) + suffix)[..|Encode(c)|] == Encode(c);
  }

  /** A std::string that bytes are pushed onto. */
  class ByteString {
    var bytes: seq<Byte>

    constructor ()
      ensures bytes == []
    {
      bytes := [];
    }

    method PushBack(b: Byte)
      modifies this
      ensures bytes == old(bytes) + [b]
    {
      bytes := bytes + [b];
    }

    /** `push_back(static_cast<char>(w))` of a word that fits a byte. */
    method PushWord(w: bv32)
      requires Bits.Num(w) <= 0xFF
      modifies this
      ensures bytes == old(bytes) + [Bits.Num(w)]
    {
      PushBack(Bits.Num(w));
    }

    /** Called only with code points of the Unicode range. */
    method AppendUtf8(c: bv32)
      requires Bits.Num(c) <= 0x10FFFF
      modifies this
      ensures bytes == old(bytes) + Encode(Bits.Num(c))
    {
      hide Bits.Num, Bits.Lead2, Bits.Lead3, Bits.Lead4, Bits.Trailing, Bits.Shift6, Bits.Shift12;
      Bits.Compare(c);
      if c <= 0x7F {
        PushWord(c);
      } else if c <= 0x7FF {
        Bits.TwoBytes(c);
        PushWord(Bits.Lead2(c));
        PushWord(Bits.Trailing(c));
      } else if c <= 0xFFFF {
        Bits.ThreeBytes(c);
        PushWord(Bits.Lead3(c));
        PushWord(Bits.Trailing(Bits.Shift6(c)));
        PushWord(Bits.Trailing(c));
      } else {
        Bits.FourBytes(c);
        PushWord(Bits.Lead4(c));
        PushWord(Bits.Trailing(Bits.Shift12(c)));
        PushWord(Bits.Trailing(Bits.Shift6(c)));
        PushWord(Bits.Trailing(c));
      }
    }
  }

  // ---- The decoder ----

  /** How many bytes the lead byte asks for after it; none when it leads nothing. */
  function Count(first: Byte): Option<nat> {
    if first <= 0x7F then Some(0)
    else if 0xC2 <= first <= 0xDF then Some(1)
    else if 0xE0 <= first <= 0xEF then Some(2)
    else if 0xF0 <= first <= 0xF4 then Some(3)
    else None
  }

  /** The least code point that needs n bytes after the lead byte. */
  function Minimum(n: nat): nat {
    if n == 0 then 0 else if n == 1 then 0x80 else if n == 2 then 0x800 else 0x10000
  }

  predicate IsContinuation(b: Byte) {
    b / 0x40 == 2
  }

  predicate Continuations(tail: seq<Byte>) {
    forall i :: 0 <= i < |tail| ==> IsContinuation(tail[i])
  }

  /** The accumulation of the decoder's loop. */
  function Gather(lead: nat, tail: seq<Byte>): nat {
    if tail == [] then lead else Gather(lead, tail[..|tail| - 1]) * 0x40 + Low6(tail[|tail| - 1])
  }

  lemma GatherAll(lead: nat, tail: seq<Byte>)
    ensures |tail| == 1 ==> Gather(lead, tail) == lead * 0x40 + Low6(tail[0])
    ensures |tail| == 2 ==> Gather(lead, tail) == lead * 0x1000 + Low6(tail[0]) * 0x40 + Low6(tail[1])
    ensures |tail| == 3 ==>
              Gather(lead, tail) == lead * 0x40000 + Low6(tail[0]) * 0x1000 + Low6(tail[1]) * 0x40 + Low6(tail[2])
  {
    if |tail| >= 2 {
      assert tail[..|tail| - 1][..|tail| - 2] == tail[..|tail| - 2];
    }
    if |tail| == 3 {
      assert tail[..2][..1] == tail[..1];
    }
  }

  /** The lead byte fixes the length of a character. */
  lemma LengthIsFixed(s: seq<Byte>)
    requires |s| > 0
    ensures Utf8Char(s) ==> Count(s[0]) == Some(|s| - 1)
  {
  }

  /** The decoder's tests on a complete sequence. */
  predicate Accepts(s: seq<Byte>, n: nat)
    requires |s| == 1 + n
  {
    var c := Gather(LeadBits(s[0], n), s[1..]);
    Continuations(s[1..]) && Minimum(n) <= c <= 0x10FFFF && !Surrogate(c)
  }

  lemma Accepts2(s: seq<Byte>)
    requires |s| == 2 && Count(s[0]) == Some(1)
    ensures Accepts(s, 1) <==> Utf8Char(s)
    ensures Utf8Char(s) ==> Gather(LeadBits(s[0], 1), s[1..]) == Value(s)
  {
    GatherAll(LeadBits(s[0], 1), s[1..]);
    assert s[1..][0] == s[1];
  }

  lemma Accepts3(s: seq<Byte>)
    requires |s| == 3 && Count(s[0]) == Some(2)
    ensures Accepts(s, 2) <==> Utf8Char(s)
    ensures Utf8Char(s) ==> Gather(LeadBits(s[0], 2), s[1..]) == Value(s)
  {
    GatherAll(LeadBits(s[0], 2), s[1..]);
    assert s[1..][0] == s[1] && s[1..][1] == s[2];
    assert Continuations(s[1..]) <==> IsContinuation(s[1]) && IsContinuation(s[2]);
    assert LeadBits(s[0], 2) == s[0] - 0xE0;
  }

  lemma Accepts4(s: seq<Byte>)
    requires |s| == 4 && Count(s[0]) == Some(3)
    ensures Accepts(s, 3) <==> Utf8Char(s)
    ensures Utf8Char(s) ==> Gather(LeadBits(s[0], 3), s[1..]) == Value(s)
  {
    GatherAll(LeadBits(s[0], 3), s[1..]);
    assert s[1..][0] == s[1] && s[1..][1] == s[2] && s[1..][2] == s[3];
    assert Continuations(s[1..]) <==> IsContinuation(s[1]) && IsContinuation(s[2]) && IsContinuation(s[3]);
    assert LeadBits(s[0], 3) == s[0] - 0xF0;
  }

  /** The range tests of the decoder accept exactly the characters of the grammar, and the loop computes their value. */
  lemma AcceptsTheGrammar(s: seq<Byte>, n: nat)
    requires |s| == 1 + n && Count(s[0]) == Some(n)
    ensures Accepts(s, n) <==> Utf8Char(s)
    ensures Utf8Char(s) ==> Gather(LeadBits(s[0], n), s[1..]) == Value(s)
  {
    if n == 1 {
      Accepts2(s);
    } else if n == 2 {
      Accepts3(s);
    } else if n == 3 {
      Accepts4(s);
    }
  }

  /** When the prefix of the length that the lead byte asks for is no character, no prefix is. */
  lemma NoCharacter(s: seq<Byte>)
    requires |s| > 0
    requires Count(s[0]).Some? ==> |s| < 1 + Count(s[0]).value || !Utf8Char(s[..1 + Count(s[0]).value])
    ensures CharLength(s) == 0
  {
    forall k | 0 < k <= |s|
      ensures !Utf8Char(s[..k])
    {
      LengthIsFixed(s[..k]);
    }
  }

  lemma RefusesEarly(s: seq<Byte>, n: nat, i: nat)
    requires 0 < i <= n < |s| && Count(s[0]) == Some(n) && !IsContinuation(s[i])
    ensures CharLength(s) == 0
  {
    assert s[..1 + n][1..][i - 1] == s[i];
    AcceptsTheGrammar(s[..1 + n], n);
    NoCharacter(s);
  }

  lemma OneByte(s: seq<Byte>)
    requires |s| > 0 && Count(s[0]) == Some(0)
    ensures CharLength(s) == 1 && Utf8Char(s[..1]) && Value(s[..1]) == s[0]
  {
  }

  /** The end of the decoder: the tests on a complete sequence tell whether a character starts here. */
  lemma Decided(s: seq<Byte>, n: nat)
    requires n < |s| && Count(s[0]) == Some(n)
    ensures Accepts(s[..1 + n], n) <==> CharLength(s) > 0
    ensures Accepts(s[..1 + n], n) ==>
              CharLength(s) == 1 + n && Utf8Char(s[..1 + n])
                  && Gather(LeadBits(s[0], n), s[..1 + n][1..]) == Value(s[..1 + n])
  {
    hide CharLength, Accepts, Utf8Char, Value, Gather;
    AcceptsTheGrammar(s[..1 + n], n);
    if !Accepts(s[..1 + n], n) {
      NoCharacter(s);
    }
  }

  lemma NothingGathered(lead: nat)
    ensures Gather(lead, []) == lead && Continuations([])
  {
  }

  lemma GatherMore(lead: nat, tail: seq<Byte>, b: Byte)
    ensures Gather(lead, tail + [b]) == Gather(lead, tail) * 0x40 + Low6(b)
    ensures Continuations(tail) && IsContinuation(b) ==> Continuations(tail + [b])
  {
    assert (tail + [b])[..|tail|] == tail;
  }

  /** What the lead byte says: the range tests and masks of the decoder on words, in terms of numbers. */
  lemma LeadWord(first: bv32)
    requires Bits.Num(first) <= 0xFF
    ensures var n := Count(Bits.Num(first));
            && (n.Some? ==> n.value <= 3)
            && (first <= 0x7F <==> n == Some(0))
            && (0xC2 <= first <= 0xDF <==> n == Some(1))
            && (0xE0 <= first <= 0xEF <==> n == Some(2))
            && (0xF0 <= first <= 0xF4 <==> n == Some(3))
            && (n.Some? && n.value > 0 ==>
                  Bits.Num(Bits.LeadMask(first, n.value)) == LeadBits(Bits.Num(first), n.value))
            && (n.Some? && n.value > 0 ==> LeadBits(Bits.Num(first), n.value) < LeadLimit(n.value))
  {
    hide Bits.Num, Bits.LeadMask;
    Bits.Compare(first);
    Bits.CompareBytes(first);
    Bits.LeadMasks(first);
  }

  function LeadLimit(n: nat): nat {
    if n == 1 then 0x20 else if n == 2 then 0x10 else 0x08
  }

  /** A bound on what has been gathered after `i` of `n` continuation bytes. */
  function GatherLimit(n: nat, i: nat): nat {
    LeadLimit(n) * (if i == 0 then 1 else if i == 1 then 0x40 else if i == 2 then 0x1000 else 0x40000)
  }

  /** The final tests on the code point. */
  lemma FinalTests(c: bv32, n: nat)
    requires 1 <= n <= 3
    ensures var minimum: bv32 := if n == 1 then 0x80 else if n == 2 then 0x800 else 0x10000;
            (c < minimum || c > 0x10FFFF || 0xD800 <= c <= 0xDBFF || 0xDC00 <= c <= 0xDFFF)
            <==> (Bits.Num(c) < Minimum(n) || Bits.Num(c) > 0x10FFFF || Surrogate(Bits.Num(c)))
  {
    hide Bits.Num;
    Bits.Compare(c);
    Bits.CompareMinimum(c);
    Bits.CompareSurrogates(c);
  }

  lemma ContinuationWord(b: bv32)
    requires Bits.Num(b) <= 0xFF
    ensures Bits.Continues(b) <==> IsContinuation(Bits.Num(b))
  {
    hide Bits.Num, Bits.Continues;
    Bits.CompareBytes(b);
    Bits.ContinuesBits(b);
  }

  lemma GatherStep(n: nat, i: nat, c: nat, b: nat)
    requires i < n <= 3 && c < GatherLimit(n, i) && b < 0x40
    ensures c <= 0x7FFF && c * 0x40 + b < GatherLimit(n, i + 1)
  {
  }

  /** The loop over the continuation bytes; it stops at the first byte that is none. */
  method GatherWords(text: seq<Byte>, start: nat, lead: bv32, count: nat)
    returns (ok: bool, offset: nat, codePoint: bv32)
    requires start + count <= |text| && 1 <= count <= 3 && Bits.Num(lead) < LeadLimit(count)
    ensures ok <==> Continuations(text[start..start + count])
    ensures ok ==> offset == start + count && Bits.Num(codePoint) == Gather(Bits.Num(lead), text[start..offset])
    ensures !ok ==> start < offset <= start + count && !IsContinuation(text[offset - 1])
  {
    hide Bits.Num, Bits.Word, Bits.Continues, Bits.Accumulate, IsContinuation, Gather;
    offset, codePoint := start, lead;
    NothingGathered(Bits.Num(lead));
    assert text[start..offset] == [];
    for i := 0 to count
      invariant offset == start + i
      invariant Continuations(text[start..offset])
      invariant Bits.Num(codePoint) == Gather(Bits.Num(lead), text[start..offset])
      invariant Bits.Num(codePoint) < GatherLimit(count, i)
    {
      Bits.Cast(text[offset]);
      var continuation := Bits.Word(text[offset]);
      offset := offset + 1;
      ContinuationWord(continuation);
      if !Bits.Continues(continuation) {
        assert text[start..start + count][i] == text[offset - 1];
        return false, offset, codePoint;
      }
      GatherStep(count, i, Bits.Num(codePoint), Low6(text[offset - 1]));
      GatherMore(Bits.Num(lead), text[start..offset - 1], text[offset - 1]);
      assert text[start..offset] == text[start..offset - 1] + [text[offset - 1]];
      Bits.Accumulates(codePoint, continuation);
      codePoint := Bits.Accumulate(codePoint, continuation);
    }
    ok := true;
  }

  lemma SliceOf(text: seq<Byte>, start: nat, n: nat)
    requires n > 0 && start + n <= |text|
    ensures text[start..][..n] == text[start..start + n]
    ensures text[start..][..n][1..] == text[start + 1..start + n]
  {
  }

  /** DecodeUtf8CodePoint: succeeds exactly when a character of the grammar starts at the offset, and then gives its
    * value and the offset after it. */
  method DecodeUtf8CodePoint(text: seq<Byte>, start: nat) returns (ok: bool, offset: nat, codePoint: bv32)
    requires start < |text|
    ensures ok <==> CharLength(text[start..]) > 0
    ensures ok ==> offset == start + CharLength(text[start..]) <= |text|
    ensures ok ==> Utf8Char(text[start..offset]) && Bits.Num(codePoint) == Value(text[start..offset])
  {
    hide CharLength, Utf8Char, Value, Gather, Continuations, IsContinuation, Count, LeadBits, Minimum;
    hide Bits.Num, Bits.Word, Bits.LeadMask;
    ghost var s := text[start..];
    Bits.Cast(text[start]);
    var first := Bits.Word(text[start]);
    LeadWord(first);
    offset := start + 1;
    codePoint := 0;
    if first <= 0x7F {
      OneByte(s);
      assert text[start..offset] == s[..1];
      return true, offset, first;
    }
    var minimum: bv32, count := 0, 0;
    if first >= 0xC2 && first <= 0xDF {
      codePoint, minimum, count := Bits.LeadMask(first, 1), 0x80, 1;
    } else if first >= 0xE0 && first <= 0xEF {
      codePoint, minimum, count := Bits.LeadMask(first, 2), 0x800, 2;
    } else if first >= 0xF0 && first <= 0xF4 {
      codePoint, minimum, count := Bits.LeadMask(first, 3), 0x10000, 3;
    } else {
      NoCharacter(s);
      return false, offset, codePoint;
    }
    if |text| - offset < count {
      NoCharacter(s);
      return false, offset, codePoint;
    }
    ghost var lead := Bits.Num(codePoint);
    var gathered;
    gathered, offset, codePoint := GatherWords(text, offset, codePoint, count);
    if !gathered {
      RefusesEarly(s, count, offset - 1 - start);
      return false, offset, codePoint;
    }
    SliceOf(text, start, 1 + count);
    Decided(s, count);
    FinalTests(codePoint, count);
    if codePoint < minimum || codePoint > 0x10FFFF || (codePoint >= 0xD800 && codePoint <= 0xDBFF)
       || (codePoint >= 0xDC00 && codePoint <= 0xDFFF) {
      return false, offset, codePoint;
    }
    ok := true;
  }
}
