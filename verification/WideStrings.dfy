/** WstringToString and StringToWstring, for a 16-bit and a 32-bit wchar_t, with assertions that do not abort: an
  * ill-formed input gives the empty string. */
module WideStrings {
  import opened Options
  import Bits = BitArithmetic
  import opened Utf8
  import opened Utf8Sequences

  /** sizeof(wchar_t) is two or four bytes. */
  datatype Width = W16 | W32

  /** A wchar_t as an unsigned 32-bit word, which is what the source casts it to. */
  type Unit = u: int | 0 <= u < 0x1_0000_0000

  /** The units that a wchar_t of the given width can hold. */
  ghost predicate Fits(w: seq<Unit>, width: Width) {
    width == W16 ==> forall i :: 0 <= i < |w| ==> w[i] <= 0xFFFF
  }

  predicate High(u: Unit) {
    0xD800 <= u <= 0xDBFF
  }

  predicate Low(u: Unit) {
    0xDC00 <= u <= 0xDFFF
  }

  // ---- UTF-16 (RFC 2781) and UTF-32 ----

  /** RFC 2781, section 2.1: a code point from 0x10000 up becomes a high and a low surrogate. */
  function Widen(c: CodePoint, width: Width): (w: seq<Unit>)
    ensures 1 <= |w| <= 2 && Fits(w, width)
  {
    if width == W32 || c <= 0xFFFF then [c]
    else [0xD800 + (c - 0x10000) / 0x400, 0xDC00 + (c - 0x10000) % 0x400]
  }

  function WidenAll(cs: seq<CodePoint>, width: Width): (w: seq<Unit>)
    ensures Fits(w, width)
  {
    if cs == [] then [] else Widen(cs[0], width) + WidenAll(cs[1..], width)
  }

  /** RFC 2781, section 2.2: the first code point and how many units it takes; none when the units are ill-formed. */
  function First(w: seq<Unit>, width: Width): Option<(CodePoint, nat)>
    requires w != []
  {
    if width == W32 then
      if Scalar(w[0]) then Some((w[0], 1)) else None
    else if High(w[0]) then
      if |w| >= 2 && Low(w[1]) then Some((0x10000 + (w[0] - 0xD800) * 0x400 + (w[1] - 0xDC00), 2)) else None
    else if Low(w[0]) || w[0] > 0x10FFFF then None
    else Some((w[0], 1))
  }

  /** The code points of well-formed wide text. */
  function CodePoints(w: seq<Unit>, width: Width): Option<seq<CodePoint>>
    decreases |w|
  {
    if w == [] then Some([])
    else
      match First(w, width)
      case None => None
      case Some(first) =>
        if first.1 > |w| then None
        else
          match CodePoints(w[first.1..], width)
          case None => None
          case Some(cs) => Some([first.0] + cs)
  }

  ghost predicate WellFormed(w: seq<Unit>, width: Width) {
    Fits(w, width) && CodePoints(w, width).Some?
  }

  lemma FirstWidened(c: CodePoint, rest: seq<Unit>, width: Width)
    ensures First(Widen(c, width) + rest, width) == Some((c, |Widen(c, width)|))
  {
  }

  lemma WidenFirst(w: seq<Unit>, width: Width)
    requires w != [] && Fits(w, width) && First(w, width).Some?
    ensures var first := First(w, width).value; first.1 <= |w| && Widen(first.0, width) == w[..first.1]
  {
    if width == W16 && High(w[0]) {
      var c: int := (w[0] - 0xD800) * 0x400 + (w[1] - 0xDC00);
      assert c / 0x400 == w[0] - 0xD800 && c % 0x400 == w[1] - 0xDC00;
    }
  }

  lemma {:induction false} CodePointsWidened(cs: seq<CodePoint>, width: Width)
    ensures CodePoints(WidenAll(cs, width), width) == Some(cs)
  {
    if cs != [] {
      var rest := WidenAll(cs[1..], width);
      CodePointsWidened(cs[1..], width);
      FirstWidened(cs[0], rest, width);
      assert (Widen(cs[0], width) + rest)[|Widen(cs[0], width)|..] == rest;
      assert [cs[0]] + cs[1..] == cs;
    }
  }

  lemma {:induction false} WidenedCodePoints(w: seq<Unit>, width: Width)
    requires WellFormed(w, width)
    ensures WidenAll(CodePoints(w, width).value, width) == w
    decreases |w|
  {
    hide First, Widen;
    if w != [] {
      var (c, n) := First(w, width).value;
      WidenFirst(w, width);
      WidenedCodePoints(w[n..], width);
      var cs := CodePoints(w[n..], width).value;
      assert ([c] + cs)[1..] == cs;
      assert w == w[..n] + w[n..];
    }
  }

  // ---- The two conversions ----

  function Narrow(w: seq<Unit>, width: Width): seq<Byte> {
    match CodePoints(w, width)
    case None => []
    case Some(cs) => EncodeAll(cs)
  }

  function ToWide(s: seq<Byte>, width: Width): seq<Unit> {
    match DecodeAll(s)
    case None => []
    case Some(cs) => WidenAll(cs, width)
  }

  /** What has been read, followed by what the rest reads as. */
  ghost function Prepend(done: seq<CodePoint>, rest: Option<seq<CodePoint>>): Option<seq<CodePoint>> {
    match rest
    case None => None
    case Some(cs) => Some(done + cs)
  }

  lemma PrependNone()
    ensures forall rest :: Prepend([], rest) == rest
  {
    assert forall cs: seq<CodePoint> :: [] + cs == cs;
  }

  lemma PrependMore(done: seq<CodePoint>, c: CodePoint)
    ensures forall cs :: Prepend(done, Some([c] + cs)) == Prepend(done + [c], Some(cs))
  {
    assert forall cs: seq<CodePoint> :: done + ([c] + cs) == done + [c] + cs;
  }

  lemma NothingEncoded()
    ensures EncodeAll([]) == []
  {
  }

  /** The tests of the loop on a unit, in terms of numbers. */
  lemma UnitWord(w: bv32)
    ensures 0xD800 <= w <= 0xDBFF <==> High(Bits.Num(w))
    ensures 0xDC00 <= w <= 0xDFFF <==> Low(Bits.Num(w))
    ensures w <= 0x10FFFF <==> Bits.Num(w) <= 0x10FFFF
  {
    hide Bits.Num;
    Bits.Compare(w);
    Bits.CompareSurrogates(w);
  }

  lemma UnitFits(text: seq<Unit>, i: nat, width: Width)
    requires i < |text| && Fits(text, width)
    ensures text[i..][0] == text[i] && (i + 1 < |text| ==> text[i..][1] == text[i + 1])
    ensures width == W16 ==> text[i] <= 0xFFFF
  {
  }

  /** The loop body up to the code point: one unit, or a surrogate pair. */
  method ReadUnits(text: seq<Unit>, start: nat, width: Width) returns (ok: bool, next: nat, codePoint: bv32)
    requires start < |text| && Fits(text, width)
    ensures ok ==> First(text[start..], width) == Some((Bits.Num(codePoint), next - start)) && start < next <= |text|
    ensures !ok ==> First(text[start..], width) == None
  {
    hide Bits.Num, Bits.Word, Bits.Paired;
    var i := start;
    UnitFits(text, i, width);
    Bits.Cast(text[i]);
    codePoint := Bits.Word(text[i]);
    UnitWord(codePoint);
    if width == W16 {
      if codePoint >= 0xD800 && codePoint <= 0xDBFF {
        i := i + 1;
        if i >= |text| {
          return false, i, codePoint;
        }
        Bits.Cast(text[i]);
        var low := Bits.Word(text[i]);
        UnitWord(low);
        if !(low >= 0xDC00 && low <= 0xDFFF) {
          return false, i, codePoint;
        }
        Bits.Pairs(codePoint, low);
        codePoint := Bits.Paired(codePoint, low);
      } else if codePoint >= 0xDC00 && codePoint <= 0xDFFF {
        return false, i, codePoint;
      }
    } else if codePoint > 0x10FFFF || (codePoint >= 0xD800 && codePoint <= 0xDBFF)
              || (codePoint >= 0xDC00 && codePoint <= 0xDFFF) {
      return false, i, codePoint;
    }
    return true, i + 1, codePoint;
  }

  method WstringToString(text: seq<Unit>, width: Width) returns (r: seq<Byte>)
    requires Fits(text, width)
    ensures r == Narrow(text, width)
  {
    hide EncodeAll, Encode, Bits.Num, First;
    var result := new ByteString();
    ghost var done: seq<CodePoint> := [];
    NothingEncoded();
    assert text[0..] == text;
    PrependNone();
    var i := 0;
    while i < |text|
      invariant 0 <= i <= |text|
      invariant result.bytes == EncodeAll(done) && fresh(result)
      invariant CodePoints(text, width) == Prepend(done, CodePoints(text[i..], width))
      decreases |text| - i
    {
      var ok, next, codePoint := ReadUnits(text, i, width);
      if !ok {
        return [];
      }
      assert text[i..][next - i..] == text[next..];
      ghost var c: CodePoint := First(text[i..], width).value.0;
      AppendOne(done, c);
      result.AppendUtf8(codePoint);
      PrependMore(done, c);
      done := done + [c];
      i := next;
    }
    assert done + [] == done;
    r := result.bytes;
  }

  lemma AppendOne(cs: seq<CodePoint>, c: CodePoint)
    ensures EncodeAll(cs + [c]) == EncodeAll(cs) + Encode(c)
  {
    EncodeAllAppend(cs, [c]);
  }

  lemma {:induction false} WidenOne(cs: seq<CodePoint>, c: CodePoint, width: Width)
    ensures WidenAll(cs + [c], width) == WidenAll(cs, width) + Widen(c, width)
  {
    if cs == [] {
      assert cs + [c] == [c];
    } else {
      assert (cs + [c])[1..] == cs[1..] + [c];
      WidenOne(cs[1..], c, width);
    }
  }

  lemma DecodeOne(text: seq<Byte>, offset: nat, next: nat, done: seq<CodePoint>)
    requires offset < next <= |text| && CharLength(text[offset..]) == next - offset
    requires Utf8Char(text[offset..next])
    ensures Scalar(Value(text[offset..next]))
    ensures Prepend(done, DecodeAll(text[offset..]))
              == Prepend(done + [Value(text[offset..next])], DecodeAll(text[next..]))
  {
    var c := Value(text[offset..next]);
    EncodeInverts(text[offset..next]);
    assert text[offset..][..next - offset] == text[offset..next];
    assert text[offset..][next - offset..] == text[next..];
    PrependMore(done, c);
  }

  /** A std::wstring that units are pushed onto. */
  class WideString {
    var units: seq<Unit>

    constructor ()
      ensures units == []
    {
      units := [];
    }

    method PushBack(u: Unit)
      modifies this
      ensures units == old(units) + [u]
    {
      units := units + [u];
    }

    /** `push_back(static_cast<wchar_t>(w))`. */
    method PushWord(w: bv32)
      modifies this
      ensures units == old(units) + [Bits.Num(w)]
    {
      PushBack(Bits.Num(w));
    }

    /** The branches of StringToWstring on the width of wchar_t. */
    method Append(c: bv32, width: Width)
      requires Scalar(Bits.Num(c))
      modifies this
      ensures units == old(units) + Widen(Bits.Num(c), width)
    {
      hide Bits.Num, Bits.Rest, Bits.HighHalf, Bits.LowHalf;
      Bits.Compare(c);
      if width == W16 {
        if c <= 0xFFFF {
          PushWord(c);
        } else {
          Bits.Halves(c);
          var rest := Bits.Rest(c);
          PushWord(Bits.HighHalf(rest));
          PushWord(Bits.LowHalf(rest));
        }
      } else {
        PushWord(c);
      }
    }
  }

  method StringToWstring(text: seq<Byte>, width: Width) returns (r: seq<Unit>)
    ensures r == ToWide(text, width)
  {
    hide Bits.Num, Widen;
    var result := new WideString();
    ghost var done: seq<CodePoint> := [];
    assert text[0..] == text;
    PrependNone();
    var offset := 0;
    while offset < |text|
      invariant 0 <= offset <= |text|
      invariant result.units == WidenAll(done, width) && fresh(result)
      invariant DecodeAll(text) == Prepend(done, DecodeAll(text[offset..]))
      decreases |text| - offset
    {
      var decoded, next, codePoint := DecodeUtf8CodePoint(text, offset);
      if !decoded {
        return [];
      }
      DecodeOne(text, offset, next, done);
      ghost var c: CodePoint := Value(text[offset..next]);
      WidenOne(done, c, width);
      result.Append(codePoint, width);
      done := done + [c];
      offset := next;
    }
    assert done + [] == done;
    r := result.units;
  }

  // ---- Round trips and failures ----

  /** Converting well-formed wide text to UTF-8 and back changes nothing, for either width. */
  lemma WideRoundTrip(w: seq<Unit>, width: Width)
    requires WellFormed(w, width)
    ensures ToWide(Narrow(w, width), width) == w
  {
    DecodeAllEncoded(CodePoints(w, width).value);
    WidenedCodePoints(w, width);
  }

  /** Converting well-formed UTF-8 to wide text and back changes nothing, for either width. */
  lemma NarrowRoundTrip(s: seq<Byte>, width: Width)
    requires DecodeAll(s).Some?
    ensures Narrow(ToWide(s, width), width) == s
  {
    CodePointsWidened(DecodeAll(s).value, width);
    EncodeAllDecoded(s);
  }

  lemma {:induction false} Lengths(cs: seq<CodePoint>, width: Width)
    ensures |cs| <= |WidenAll(cs, width)| <= |EncodeAll(cs)|
  {
    if cs != [] {
      Lengths(cs[1..], width);
    }
  }

  /** On non-empty input an empty result means ill-formed input, and only that. */
  lemma {:induction false} EmptyMeansIllFormed(w: seq<Unit>, s: seq<Byte>, width: Width)
    requires w != [] && s != [] && Fits(w, width)
    ensures Narrow(w, width) == [] <==> !WellFormed(w, width)
    ensures ToWide(s, width) == [] <==> DecodeAll(s).None?
  {
    if CodePoints(w, width).Some? {
      Lengths(CodePoints(w, width).value, width);
    }
    if DecodeAll(s).Some? {
      Lengths(DecodeAll(s).value, width);
    }
  }

  /** The storage reserved for the decoded text is enough. */
  lemma ReserveSuffices(s: seq<Byte>, width: Width)
    ensures |ToWide(s, width)| <= |s|
  {
    if DecodeAll(s).Some? {
      Lengths(DecodeAll(s).value, width);
      EncodeAllDecoded(s);
    }
  }

  /** Well-formedness is what the grammar says: a sequence of encoded code points, in either encoding. */
  lemma WellFormedMeansEncoded(w: seq<Unit>, s: seq<Byte>, width: Width)
    ensures WellFormed(w, width) <==> exists cs: seq<CodePoint> :: w == WidenAll(cs, width)
    ensures DecodeAll(s).Some? <==> exists cs: seq<CodePoint> :: s == EncodeAll(cs)
  {
    if WellFormed(w, width) {
      WidenedCodePoints(w, width);
    }
    forall cs: seq<CodePoint> | w == WidenAll(cs, width)
      ensures WellFormed(w, width)
    {
      CodePointsWidened(cs, width);
    }
    if DecodeAll(s).Some? {
      EncodeAllDecoded(s);
    }
    forall cs: seq<CodePoint> | s == EncodeAll(cs)
      ensures DecodeAll(s).Some?
    {
      DecodeAllEncoded(cs);
    }
  }
}
