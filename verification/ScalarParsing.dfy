/** Reading scalars (config/convert.h, config/convert.cc): integers and booleans in the text of a YAML scalar. */
module ScalarParsing {
  import opened Options
  import opened ConfigNames
  import opened Numerals

  // ---- trimming

  /** A blank, or one of tab, line feed, vertical tab, form feed and carriage return. */
  predicate IsSpace(c: char) {
    c == ' ' || 9 <= c as int <= 13
  }

  lemma SpacesAre(c: char)
    ensures IsSpace(c) <==> c in {' ', '\t', '\n', '\U{B}', '\U{C}', '\r'}
  {
  }

  ghost predicate AllSpace(s: string) {
    forall i :: 0 <= i < |s| ==> IsSpace(s[i])
  }

  /** Nothing to trim at either end. */
  predicate Tight(s: string) {
    s != "" ==> !IsSpace(s[0]) && !IsSpace(s[|s| - 1])
  }

  function TrimLeft(s: string): (t: string)
    ensures t != "" ==> !IsSpace(t[0])
  {
    if s != "" && IsSpace(s[0]) then TrimLeft(s[1..]) else s
  }

  function TrimRight(s: string): (t: string)
    ensures t != "" ==> !IsSpace(t[|t| - 1])
    ensures t <= s
  {
    if s != "" && IsSpace(s[|s| - 1]) then TrimRight(s[..|s| - 1]) else s
  }

  function Trim(s: string): (t: string)
    ensures Tight(t)
  {
    TrimRight(TrimLeft(s))
  }

  lemma {:induction false} TrimLeftDrops(space: string, s: string)
    requires AllSpace(space)
    ensures TrimLeft(space + s) == TrimLeft(s)
  {
    if space == "" {
      assert space + s == s;
    } else {
      assert (space + s)[1..] == space[1..] + s;
      TrimLeftDrops(space[1..], s);
    }
  }

  lemma {:induction false} TrimRightDrops(s: string, space: string)
    requires AllSpace(space)
    ensures TrimRight(s + space) == TrimRight(s)
  {
    if space == "" {
      assert s + space == s;
    } else {
      assert (s + space)[..|s + space| - 1] == s + space[..|space| - 1];
      TrimRightDrops(s, space[..|space| - 1]);
    }
  }

  lemma {:induction false} TrimLeftLeaves(s: string) returns (space: string)
    ensures AllSpace(space) && s == space + TrimLeft(s)
  {
    if s != "" && IsSpace(s[0]) {
      var rest := TrimLeftLeaves(s[1..]);
      space := [s[0]] + rest;
    } else {
      space := "";
    }
  }

  lemma {:induction false} TrimRightLeaves(s: string) returns (space: string)
    ensures AllSpace(space) && s == TrimRight(s) + space
  {
    if s != "" && IsSpace(s[|s| - 1]) {
      var rest := TrimRightLeaves(s[..|s| - 1]);
      space := rest + [s[|s| - 1]];
    } else {
      space := "";
    }
  }

  /** Trimming gives the one text without outer white space that lies between white space. */
  lemma TrimExactly(s: string, core: string)
    ensures Trim(s) == core <==>
            Tight(core) && exists left, right :: AllSpace(left) && AllSpace(right) && s == left + core + right
  {
    var a := TrimLeftLeaves(s);
    var b := TrimRightLeaves(TrimLeft(s));
    assert s == a + Trim(s) + b;
    forall left, right | AllSpace(left) && AllSpace(right) && s == left + core + right && Tight(core)
      ensures Trim(s) == core
    {
      TightBetween(left, core, right);
    }
  }

  lemma TightBetween(left: string, core: string, right: string)
    requires AllSpace(left) && AllSpace(right) && Tight(core)
    ensures Trim(left + core + right) == core
  {
    assert left + core + right == left + (core + right);
    TrimLeftDrops(left, core + right);
    if core == "" {
      assert core + right == right == right + "";
      TrimLeftDrops(right, "");
    } else {
      TrimRightDrops(core, right);
    }
  }

  /** StringUtils::Trim: the first and the last character that is no delimiter. */
  method TrimView(text: string) returns (body: string)
    ensures body == Trim(text)
  {
    var begin := 0;
    while begin < |text| && IsSpace(text[begin])
      invariant 0 <= begin <= |text| && AllSpace(text[..begin])
    {
      begin := begin + 1;
    }
    if begin == |text| {
      assert text == text[..begin] + "";
      TrimLeftDrops(text[..begin], "");
      return "";
    }
    var end := |text|;
    while IsSpace(text[end - 1])
      invariant begin < end <= |text| && AllSpace(text[end..])
      decreases end
    {
      end := end - 1;
    }
    body := text[begin..end];
    assert text == text[..begin] + body + text[end..];
    TightBetween(text[..begin], body, text[end..]);
  }

  // ---- integers

  /** ParseArithmetic for an integer type with values lo..hi; nothing when it throws. */
  function ParseInteger(text: string, lo: int, hi: int): Option<int> {
    var trimmed := Trim(text);
    if trimmed == "" then None
    else if trimmed[0] == '+' && (|trimmed| == 1 || trimmed[1] == '-' || trimmed[1] == '+') then None
    else
      var body := if trimmed[0] == '+' then trimmed[1..] else trimmed;
      var hex := HasHexPrefix(body);
      var digits := if hex then body[2..] else body;
      match FromChars(digits, if hex then 16 else 10, lo, hi)
      case Scanned(value, consumed) => if consumed == |digits| then Some(value) else None
      case _ => None
  }

  predicate HasHexPrefix(body: string) {
    |body| > 2 && body[0] == '0' && (body[1] == 'x' || body[1] == 'X')
  }

  method ParseArithmetic(text: string, lo: int, hi: int) returns (value: Option<int>)
    ensures value == ParseInteger(text, lo, hi)
  {
    var body := TrimView(text);
    if body == "" {
      return None;
    }
    if body[0] == '+' {
      body := body[1..];
      if body == "" || body[0] == '-' || body[0] == '+' {
        return None;
      }
    }
    var base := 10;
    if HasHexPrefix(body) {
      base := 16;
      body := body[2..];
    }
    var result := FromChars(body, base, lo, hi);
    if !result.Scanned? || result.consumed != |body| {
      return None;
    }
    value := Some(result.value);
  }

  /** Digits, after a minus sign if the type is signed, that denote `n`. */
  ghost predicate Spells(s: string, base: int, signed: bool, n: int) {
    || (s != "" && AllDigits(s, base) && n == Number(s, base))
    || (signed && |s| > 1 && s[0] == '-' && AllDigits(s[1..], base) && n == -Number(s[1..], base))
  }

  /** The spellings of `n` that a type accepts: a plus sign is allowed unless another sign follows; a hexadecimal prefix
    * comes before the minus sign, not after it. */
  ghost predicate Numeral(core: string, signed: bool, n: int) {
    var plus := core != "" && core[0] == '+';
    var body := if plus then core[1..] else core;
    && body != ""
    && (plus ==> body[0] != '-')
    && (Spells(body, 10, signed, n)
        || (|body| > 2 && (body[..2] == "0x" || body[..2] == "0X") && Spells(body[2..], 16, signed, n)))
  }

  lemma PrefixIs(body: string)
    ensures HasHexPrefix(body) <==> |body| > 2 && (body[..2] == "0x" || body[..2] == "0X")
  {
  }

  /** Reading succeeds with `n` iff the text is a numeral for `n` between white space and `n` is a value of the type. */
  lemma ParsesExactly(text: string, lo: int, hi: int, n: int)
    ensures ParseInteger(text, lo, hi) == Some(n) <==> Numeral(Trim(text), lo < 0, n) && lo <= n <= hi
  {
    hide HasHexPrefix, Trim, FromChars, Spells;
    var core := Trim(text);
    if core != "" && !(core[0] == '+' && |core| == 1) {
      var body := if core[0] == '+' then core[1..] else core;
      PrefixIs(body);
      PlusSpellsNothing(body, lo < 0, n);
      var hex := HasHexPrefix(body);
      var digits := if hex then body[2..] else body;
      ScansExactly(digits, if hex then 16 else 10, lo, hi, n);
      if hex {
        HexIsNotDecimal(body, lo < 0, n);
      }
    }
  }

  lemma PlusSpellsNothing(body: string, signed: bool, n: int)
    ensures body != "" && body[0] == '+' ==> !Spells(body, 10, signed, n) && !HasHexPrefix(body)
  {
    assert DigitValue('+') == 36;
  }

  lemma HexIsNotDecimal(body: string, signed: bool, n: int)
    requires HasHexPrefix(body)
    ensures !Spells(body, 10, signed, n)
  {
    assert DigitValue(body[1]) >= 10;
  }

  lemma ScansExactly(s: string, base: int, lo: int, hi: int, n: int)
    requires base <= 36
    ensures FromChars(s, base, lo, hi) == Scanned(n, |s|) <==> Spells(s, base, lo < 0, n) && lo <= n <= hi
  {
    var minus := lo < 0 && s != "" && s[0] == '-';
    var body := if minus then s[1..] else s;
    assert body[..|body|] == body;
    if AllDigits(body, base) {
      WholeRun(body, base);
    }
    if minus {
      assert !AllDigits(s, base) by {
        assert DigitValue(s[0]) == 36;
      }
    }
  }

  /** A consequence: for any hexadecimal digits, a signed type accepts a minus sign after the prefix, and no type
    * accepts one before it. */
  lemma SignedHexadecimal(d: string, lo: int, hi: int)
    requires d != "" && AllDigits(d, 16)
    ensures var n := -Number(d, 16);
            ParseInteger("0x-" + d, lo, hi) == if lo < 0 && lo <= n <= hi then Some(n) else None
    ensures ParseInteger("-0x" + d, lo, hi) == None
  {
    hide ParseInteger, Trim, Number;
    var after, before := "0x-" + d, "-0x" + d;
    assert !IsSpace(d[|d| - 1]) by {
      assert DigitValue(d[|d| - 1]) < 16;
    }
    TightText(after);
    TightText(before);
    assert after[2..] == "-" + d && ("-" + d)[1..] == d;
    assert before[1..][1] == 'x' && before[1..] == "0x" + d;
    SignIsNoDigit(d);
    if ParseInteger(after, lo, hi).Some? {
      ParsesExactly(after, lo, hi, ParseInteger(after, lo, hi).value);
      HexIsNotDecimal(after, lo < 0, ParseInteger(after, lo, hi).value);
    }
    ParsesExactly(after, lo, hi, -Number(d, 16));
    if ParseInteger(before, lo, hi).Some? {
      ParsesExactly(before, lo, hi, ParseInteger(before, lo, hi).value);
      PrefixIsNoDigit(before, lo < 0, ParseInteger(before, lo, hi).value);
    }
  }

  lemma SignIsNoDigit(d: string)
    ensures !AllDigits("-" + d, 16)
  {
    assert DigitValue(("-" + d)[0]) == 36;
  }

  lemma PrefixIsNoDigit(text: string, signed: bool, n: int)
    requires |text| > 2 && text[0] == '-' && text[2] == 'x'
    ensures !Numeral(text, signed, n)
  {
    assert DigitValue(text[0]) == 36 && DigitValue(text[1..][1]) >= 10;
  }

  lemma TightText(text: string)
    requires Tight(text)
    ensures Trim(text) == text
  {
    TightBetween("", text, "");
    assert "" + text + "" == text;
  }

  /** What to_chars writes for a value of the type is read back as that value. */
  lemma WrittenIntegersParse(n: int, lo: int, hi: int)
    requires lo <= n <= hi
    ensures ParseInteger(ToChars(n), lo, hi) == Some(n)
  {
    hide ParseInteger, Trim, Number, Digits;
    var text, magnitude := ToChars(n), if n < 0 then -n else n;
    DigitsDenote(magnitude);
    var digits := Digits(magnitude);
    assert n < 0 ==> text[1..] == digits;
    assert forall i :: 0 <= i < |digits| ==> DigitValue(digits[i]) < 10;
    TightText(text);
    ParsesExactly(text, lo, hi, n);
  }

  // ---- booleans

  const TRUE_WORDS := ["true", "yes", "on", "y", "1", "t"]
  const FALSE_WORDS := ["false", "no", "off", "n", "0", "f"]

  /** ParseBool: the words, in any case, between white space. */
  function BoolOf(text: string): Option<bool> {
    var word := Normal(Trim(text));
    if word in TRUE_WORDS then Some(true) else if word in FALSE_WORDS then Some(false) else None
  }

  method EqualIgnoreCase(lhs: string, rhs: string) returns (equal: bool)
    ensures equal <==> Normal(lhs) == Normal(rhs)
  {
    if |lhs| != |rhs| {
      return false;
    }
    for i := 0 to |lhs|
      invariant Normal(lhs)[..i] == Normal(rhs)[..i]
    {
      if Lower(lhs[i]) != Lower(rhs[i]) {
        assert Normal(lhs)[i] != Normal(rhs)[i];
        return false;
      }
    }
    assert Normal(lhs) == Normal(lhs)[..|lhs|] && Normal(rhs) == Normal(rhs)[..|lhs|];
    equal := true;
  }

  /** One of the two searches through a word list. */
  method Matches(body: string, words: seq<string>) returns (found: bool)
    requires forall word :: word in words ==> Normal(word) == word
    ensures found <==> Normal(body) in words
  {
    for i := 0 to |words|
      invariant Normal(body) !in words[..i]
    {
      assert words[i] in words;
      var equal := EqualIgnoreCase(body, words[i]);
      if equal {
        return true;
      }
    }
    found := false;
  }

  method ParseBool(text: string) returns (out: Option<bool>)
    ensures out == BoolOf(text)
  {
    WordsAreLower();
    var body := TrimView(text);
    var found := Matches(body, TRUE_WORDS);
    if found {
      return Some(true);
    }
    found := Matches(body, FALSE_WORDS);
    out := if found then Some(false) else None;
  }

  lemma WordsAreLower()
    ensures forall word :: word in TRUE_WORDS || word in FALSE_WORDS ==> Normal(word) == word
  {
  }

  /** Exactly these words are booleans, in any case and between white space. */
  lemma BooleansExactly(text: string)
    ensures var word := Normal(Trim(text));
            && (BoolOf(text) == Some(true) <==> word in {"true", "yes", "on", "y", "1", "t"})
            && (BoolOf(text) == Some(false) <==> word in {"false", "no", "off", "n", "0", "f"})
  {
    hide Trim, Normal;
    var word := Normal(Trim(text));
    TrueWords(word);
    FalseWords(word);
  }

  lemma TrueWords(word: string)
    ensures word in TRUE_WORDS <==> word in {"true", "yes", "on", "y", "1", "t"}
  {
  }

  lemma FalseWords(word: string)
    ensures word in FALSE_WORDS <==> word in {"false", "no", "off", "n", "0", "f"}
    ensures word in FALSE_WORDS ==> word !in TRUE_WORDS
  {
  }

  lemma WrittenBooleansParse(b: bool)
    ensures BoolOf(if b then "true" else "false") == Some(b)
  {
    hide Trim, Normal;
    WordsAreLower();
    assert TRUE_WORDS[0] == "true" && FALSE_WORDS[0] == "false";
    assert forall word :: word in TRUE_WORDS ==> |word| < |"false"|;
    if b {
      TightText("true");
    } else {
      TightText("false");
    }
  }
}
