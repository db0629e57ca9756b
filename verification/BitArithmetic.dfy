/** The 32-bit expressions of string_utils.cc, shift by shift and mask by mask, and what they come to as numbers: no
  * shift loses a bit and no sum wraps. */
module BitArithmetic {
  /** The casts between words and numbers. */
  function Num(c: bv32): (n: nat) {
    c as int
  }

  function Word(n: nat): bv32
    requires n < 0x1_0000_0000
  {
    n as bv32
  }

  // ---- The expressions ----

  function Shift6(c: bv32): bv32 {
    c >> 6
  }

  function Shift12(c: bv32): bv32 {
    c >> 12
  }

  function Shift18(c: bv32): bv32 {
    c >> 18
  }

  function Mask6(c: bv32): bv32 {
    c & 0x3F
  }

  /** The lead bytes of two, three and four: `0xC0U | (c >> 6U)` and its like. */
  function Lead2(c: bv32): bv32 {
    0xC0 | Shift6(c)
  }

  function Lead3(c: bv32): bv32 {
    0xE0 | Shift12(c)
  }

  function Lead4(c: bv32): bv32 {
    0xF0 | Shift18(c)
  }

  function Trailing(c: bv32): bv32 {
    0x80 | Mask6(c)
  }

  predicate Continues(b: bv32) {
    b & 0xC0 == 0x80
  }

  /** The bits of the code point in a lead byte that n more bytes follow. */
  function LeadMask(first: bv32, n: nat): bv32 {
    if n == 1 then first & 0x1F else if n == 2 then first & 0x0F else first & 0x07
  }

  /** `(c << 6U) | (b & 0x3FU)`. */
  function Accumulate(c: bv32, b: bv32): bv32 {
    (c << 6) | Mask6(b)
  }

  /** The code point of a surrogate pair; what is left of one above 0xFFFF without its first plane, and the halves of
    * that. */
  function Paired(high: bv32, low: bv32): bv32 {
    0x10000 + ((high - 0xD800) << 10) + (low - 0xDC00)
  }

  function Rest(c: bv32): bv32 {
    c - 0x10000
  }

  function HighHalf(rest: bv32): bv32 {
    0xD800 + Shift10(rest)
  }

  function LowHalf(rest: bv32): bv32 {
    0xDC00 + Mask10(rest)
  }

  function Shift10(c: bv32): bv32 {
    c >> 10
  }

  function Mask10(c: bv32): bv32 {
    c & 0x3FF
  }

  // ---- Words and numbers ----

  /** Words that are put together from a high and a low part; each lemma covers the widths that it is needed for. */
  lemma Join1(h: bv32, l: bv32)
    requires h <= 0x7F && l <= 1
    ensures Num((h << 1) + l) == Num(h) * 2 + Num(l) && (h << 1) + l <= 0xFF
  {
  }

  lemma Join8(h: bv32, l: bv32) returns (c: bv32)
    requires h <= 0xFF && l <= 0xFF
    ensures Num(c) == Num(h) * 0x100 + Num(l) && c <= 0xFFFF
  {
    c := (h << 8) | l;
  }

  lemma Join16(h: bv32, l: bv32) returns (c: bv32)
    requires h <= 0xFF && l <= 0xFFFF
    ensures Num(c) == Num(h) * 0x1_0000 + Num(l) && c <= 0xFF_FFFF
  {
    c := (h << 16) | l;
  }

  lemma Join24(h: bv32, l: bv32) returns (c: bv32)
    requires h <= 0xFF && l <= 0xFF_FFFF
    ensures Num(c) == Num(h) * 0x100_0000 + Num(l)
  {
    c := (h << 24) | l;
  }

  function Sixes(h: bv32, l: bv32): bv32 {
    (h << 6) | l
  }

  function Twelves(h: bv32, l: bv32): bv32 {
    (h << 12) | l
  }

  lemma Join6(h: bv32, l: bv32)
    requires h <= 0x1FF && l <= 0x3F
    ensures Num(Sixes(h, l)) == Num(h) * 0x40 + Num(l)
  {
  }

  lemma Join12(h: bv32, l: bv32)
    requires h <= 0x1FF && l <= 0xFFF
    ensures Num(Twelves(h, l)) == Num(h) * 0x1000 + Num(l)
  {
  }

  lemma CastIsUnique(c: bv32, n: nat)
    requires Num(c) == n < 0x1_0000_0000
    ensures c == Word(n)
  {
  }

  lemma SevenBits(c: bv32)
    requires Num(c) <= 0x7F
    ensures c <= 0x7F
  {
  }

  lemma OneBit(bit: nat) returns (l: bv32)
    requires bit <= 1
    ensures Num(l) == bit && l <= 1
  {
    l := if bit == 1 then 1 else 0;
  }

  lemma {:induction false} ByteOf(n: nat) returns (c: bv32)
    requires n <= 0xFF
    ensures Num(c) == n && c <= 0xFF
  {
    hide Num;
    if n <= 1 {
      c := OneBit(n);
    } else {
      var h := ByteOf(n / 2);
      SevenBits(h);
      var l := OneBit(n % 2);
      Join1(h, l);
      c := (h << 1) + l;
    }
  }

  lemma Word16Of(n: nat) returns (c: bv32)
    requires n < 0x1_0000
    ensures Num(c) == n && c <= 0xFFFF
  {
    hide Num;
    var h := ByteOf(n / 0x100);
    var l := ByteOf(n % 0x100);
    c := Join8(h, l);
  }

  lemma Word24Of(n: nat) returns (c: bv32)
    requires n < 0x100_0000
    ensures Num(c) == n && c <= 0xFF_FFFF
  {
    hide Num;
    var h := ByteOf(n / 0x1_0000);
    var l := Word16Of(n % 0x1_0000);
    c := Join16(h, l);
  }

  lemma WordOf(n: nat) returns (c: bv32)
    requires n < 0x1_0000_0000
    ensures Num(c) == n
  {
    hide Num;
    var h := ByteOf(n / 0x100_0000);
    var l := Word24Of(n % 0x100_0000);
    c := Join24(h, l);
  }

  /** A number that fits is not changed by a cast to a word. */
  lemma Cast(n: nat)
    requires n < 0x1_0000_0000
    ensures Num(Word(n)) == n
  {
    hide Num, Word;
    var c := WordOf(n);
    CastIsUnique(c, n);
  }

  /** The bounds that the codec compares with. */
  lemma Compare(c: bv32)
    ensures c <= 0x7F <==> Num(c) <= 0x7F
    ensures c <= 0x7FF <==> Num(c) <= 0x7FF
    ensures c <= 0xFFFF <==> Num(c) <= 0xFFFF
    ensures c <= 0x10FFFF <==> Num(c) <= 0x10FFFF
  {
  }

  lemma CompareMinimum(c: bv32)
    ensures c < 0x80 <==> Num(c) < 0x80
    ensures c < 0x800 <==> Num(c) < 0x800
    ensures c < 0x10000 <==> Num(c) < 0x10000
  {
  }

  lemma CompareSurrogates(c: bv32)
    ensures 0xD800 <= c <= 0xDBFF <==> 0xD800 <= Num(c) <= 0xDBFF
    ensures 0xDC00 <= c <= 0xDFFF <==> 0xDC00 <= Num(c) <= 0xDFFF
  {
  }

  lemma CompareBytes(b: bv32)
    requires Num(b) <= 0xFF
    ensures b <= 0xFF
    ensures 0xC2 <= b <= 0xDF <==> 0xC2 <= Num(b) <= 0xDF
    ensures 0xE0 <= b <= 0xEF <==> 0xE0 <= Num(b) <= 0xEF
    ensures 0xF0 <= b <= 0xF4 <==> 0xF0 <= Num(b) <= 0xF4
  {
  }

  // ---- The encoder's bytes ----

  function Mask12(c: bv32): bv32 {
    c & 0xFFF
  }

  /** A word of 21 bits in parts of 9, 6 and 6. */
  lemma SplitWord(c: bv32)
    requires c <= 0x1F_FFFF
    ensures c == Twelves(Shift12(c), Mask12(c))
    ensures Shift6(c) == Sixes(Shift12(c), Mask6(Shift6(c)))
  {
  }

  lemma SplitLow(c: bv32)
    ensures Mask12(c) == Sixes(Mask6(Shift6(c)), Mask6(c))
  {
  }

  lemma PartsFit(c: bv32)
    requires c <= 0x1F_FFFF
    ensures Shift12(c) <= 0x1FF && Mask12(c) <= 0xFFF && Mask6(Shift6(c)) <= 0x3F && Mask6(c) <= 0x3F
  {
  }

  lemma LowBits(c: bv32)
    ensures Num(Mask6(c)) < 0x40 && Mask6(c) <= 0x3F
  {
  }

  /** A shift by six divides and a mask of six bits is the remainder. */
  lemma Split(c: bv32)
    requires c <= 0x1F_FFFF
    ensures Num(Shift6(c)) == Num(c) / 0x40 && Num(Mask6(c)) == Num(c) % 0x40
  {
    hide Num, Shift6, Mask6, Sixes, Shift12, Mask12, Twelves;
    SplitWord(c);
    SplitLow(c);
    PartsFit(c);
    LowBits(c);
    Join12(Shift12(c), Mask12(c));
    Join6(Mask6(Shift6(c)), Mask6(c));
    Join6(Shift12(c), Mask6(Shift6(c)));
  }

  lemma ShiftsCompose(c: bv32)
    requires c <= 0x1F_FFFF
    ensures Shift12(c) == Shift6(Shift6(c)) && Shift18(c) == Shift6(Shift12(c))
    ensures Shift6(c) <= 0x1F_FFFF && Shift12(c) <= 0x1F_FFFF
  {
  }

  /** All the shifts divide. */
  lemma Shifts(c: bv32)
    requires c <= 0x1F_FFFF
    ensures Num(Shift6(c)) == Num(c) / 0x40
    ensures Num(Shift12(c)) == Num(c) / 0x1000
    ensures Num(Shift18(c)) == Num(c) / 0x40000
    ensures Shift6(c) <= 0x1F_FFFF && Shift12(c) <= 0x1F_FFFF
  {
    hide Num, Shift6, Shift12, Shift18;
    ShiftsCompose(c);
    Split(c);
    Split(Shift6(c));
    Split(Shift12(c));
  }

  lemma TrailingBits(c: bv32)
    ensures Num(Trailing(c)) == 0x80 + Num(Mask6(c))
  {
  }

  lemma LeadBits2(c: bv32)
    requires c <= 0x7FF
    ensures Num(Lead2(c)) == 0xC0 + Num(Shift6(c))
  {
  }

  lemma LeadBits3(c: bv32)
    requires c <= 0xFFFF
    ensures Num(Lead3(c)) == 0xE0 + Num(Shift12(c))
  {
  }

  lemma LeadBits4(c: bv32)
    requires c <= 0x1F_FFFF
    ensures Num(Lead4(c)) == 0xF0 + Num(Shift18(c))
  {
  }

  /** The bytes pushed for a code point, as numbers. */
  lemma TwoBytes(c: bv32)
    requires c <= 0x7FF
    ensures Num(Lead2(c)) == 0xC0 + Num(c) / 0x40
    ensures Num(Trailing(c)) == 0x80 + Num(c) % 0x40
  {
    hide Num, Lead2, Trailing, Shift6, Mask6;
    LeadBits2(c);
    TrailingBits(c);
    Split(c);
  }

  lemma ThreeBytes(c: bv32)
    requires c <= 0xFFFF
    ensures Num(Lead3(c)) == 0xE0 + Num(c) / 0x1000
    ensures Num(Trailing(Shift6(c))) == 0x80 + Num(c) / 0x40 % 0x40
    ensures Num(Trailing(c)) == 0x80 + Num(c) % 0x40
  {
    hide Num, Lead3, Trailing, Shift6, Shift12, Mask6;
    Shifts(c);
    Split(c);
    Split(Shift6(c));
    LeadBits3(c);
    TrailingBits(c);
    TrailingBits(Shift6(c));
  }

  lemma FourBytes(c: bv32)
    requires c <= 0x1F_FFFF
    ensures Num(Lead4(c)) == 0xF0 + Num(c) / 0x40000
    ensures Num(Trailing(Shift12(c))) == 0x80 + Num(c) / 0x1000 % 0x40
    ensures Num(Trailing(Shift6(c))) == 0x80 + Num(c) / 0x40 % 0x40
    ensures Num(Trailing(c)) == 0x80 + Num(c) % 0x40
  {
    hide Num, Lead4, Trailing, Shift6, Shift12, Shift18, Mask6;
    Shifts(c);
    Split(c);
    Split(Shift6(c));
    Split(Shift12(c));
    LeadBits4(c);
    TrailingBits(c);
    TrailingBits(Shift6(c));
    TrailingBits(Shift12(c));
  }

  // ---- The decoder's words ----

  lemma LeadMasks(b: bv32)
    ensures 0xC2 <= b <= 0xDF ==> Num(LeadMask(b, 1)) == Num(b) - 0xC0
    ensures 0xE0 <= b <= 0xEF ==> Num(LeadMask(b, 2)) == Num(b) - 0xE0
    ensures 0xF0 <= b <= 0xF4 ==> Num(LeadMask(b, 3)) == Num(b) - 0xF0
  {
  }

  lemma ContinuesBits(b: bv32)
    requires b <= 0xFF
    ensures Continues(b) <==> 0x80 <= Num(b) <= 0xBF
  {
  }

  /** While at most fifteen bits have been gathered, the next shift multiplies, and the bits can be read back from
    * it. */
  lemma Accumulates(c: bv32, b: bv32)
    requires Num(c) <= 0x7FFF && Num(b) <= 0xFF
    ensures Num(Accumulate(c, b)) == Num(c) * 0x40 + Num(b) % 0x40
    ensures Shift6(Accumulate(c, b)) == c && Mask6(Accumulate(c, b)) == Mask6(b)
  {
    hide Num, Mask6, Shift6, Accumulate;
    FifteenBits(c);
    CompareBytes(b);
    NothingLost(c, b);
    Split(Accumulate(c, b));
    Split(b);
  }

  lemma NothingLost(c: bv32, b: bv32)
    requires c <= 0x7FFF
    ensures Shift6(Accumulate(c, b)) == c && Mask6(Accumulate(c, b)) == Mask6(b) && Accumulate(c, b) <= 0x1F_FFFF
  {
  }

  lemma FifteenBits(c: bv32)
    requires Num(c) <= 0x7FFF
    ensures c <= 0x7FFF
  {
  }

  // ---- Surrogate pairs ----

  lemma Join10(h: bv32, l: bv32)
    requires h <= 0x3FF && l <= 0x3FF
    ensures Num(Tens(h, l)) == Num(h) * 0x400 + Num(l)
  {
  }

  function Tens(h: bv32, l: bv32): bv32 {
    (h << 10) + l
  }

  /** The distance from the start of a surrogate range. */
  function FromHigh(high: bv32): bv32 {
    high - 0xD800
  }

  function FromLow(low: bv32): bv32 {
    low - 0xDC00
  }

  function Supplementary(rest: bv32): bv32 {
    0x10000 + rest
  }

  lemma Offsets(high: bv32, low: bv32)
    requires 0xD800 <= high <= 0xDBFF && 0xDC00 <= low <= 0xDFFF
    ensures Num(FromHigh(high)) == Num(high) - 0xD800 && FromHigh(high) <= 0x3FF
    ensures Num(FromLow(low)) == Num(low) - 0xDC00 && FromLow(low) <= 0x3FF
  {
  }

  lemma PairedWords(high: bv32, low: bv32)
    requires 0xD800 <= high <= 0xDBFF && 0xDC00 <= low <= 0xDFFF
    ensures Paired(high, low) == Supplementary(Tens(FromHigh(high), FromLow(low)))
    ensures Tens(FromHigh(high), FromLow(low)) <= 0xF_FFFF
  {
  }

  lemma Supplements(rest: bv32)
    requires rest <= 0xF_FFFF
    ensures Num(Supplementary(rest)) == 0x10000 + Num(rest)
  {
  }

  /** A surrogate pair stands for the code point of section 2.2 of RFC 2781. */
  lemma Pairs(high: bv32, low: bv32)
    requires 0xD800 <= high <= 0xDBFF && 0xDC00 <= low <= 0xDFFF
    ensures Num(Paired(high, low)) == 0x10000 + (Num(high) - 0xD800) * 0x400 + (Num(low) - 0xDC00)
  {
    hide Num, Paired, Supplementary, Tens, FromHigh, FromLow;
    Offsets(high, low);
    PairedWords(high, low);
    Join10(FromHigh(high), FromLow(low));
    Supplements(Tens(FromHigh(high), FromLow(low)));
  }

  lemma RestNumber(c: bv32)
    requires 0x10000 <= c <= 0x10FFFF
    ensures Num(Rest(c)) == Num(c) - 0x10000 && Rest(c) <= 0xF_FFFF
  {
  }

  lemma SplitTens(rest: bv32)
    requires rest <= 0xF_FFFF
    ensures rest == Tens(Shift10(rest), Mask10(rest))
    ensures Shift10(rest) <= 0x3FF && Mask10(rest) <= 0x3FF && Num(Mask10(rest)) <= 0x3FF
  {
  }

  lemma HalfNumbers(rest: bv32)
    requires rest <= 0xF_FFFF
    ensures Num(HighHalf(rest)) == 0xD800 + Num(Shift10(rest))
    ensures Num(LowHalf(rest)) == 0xDC00 + Num(Mask10(rest))
  {
  }

  /** And a code point above 0xFFFF splits into the halves of section 2.1. */
  lemma Halves(c: bv32)
    requires 0x10000 <= c <= 0x10FFFF
    ensures Num(HighHalf(Rest(c))) == 0xD800 + (Num(c) - 0x10000) / 0x400
    ensures Num(LowHalf(Rest(c))) == 0xDC00 + (Num(c) - 0x10000) % 0x400
  {
    hide Num, Rest, HighHalf, LowHalf, Shift10, Mask10, Tens;
    RestNumber(c);
    SplitTens(Rest(c));
    Join10(Shift10(Rest(c)), Mask10(Rest(c)));
    HalfNumbers(Rest(c));
  }
}
