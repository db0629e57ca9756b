/** UTF-8 lifted to sequences: round trip, order, self-synchronisation. */
module Utf8Sequences {
  import opened Options
  import opened Utf8

  function EncodeAll(cs: seq<CodePoint>): seq<Byte> {
    if cs == [] then [] else Encode(cs[0]) + EncodeAll(cs[1..])
  }

  /** Reading `s` as a sequence of characters of the grammar; none when it is not one. */
  function DecodeAll(s: seq<Byte>): Option<seq<CodePoint>>
    decreases |s|
  {
    if s == [] then Some([])
    else
      var n := CharLength(s);
      if n == 0 then None
      else
        match DecodeAll(s[n..])
        case None => None
        case Some(cs) =>
          EncodeInverts(s[..n]);
          Some([Value(s[..n])] + cs)
  }

  lemma {:induction false} EncodeAllAppend(cs: seq<CodePoint>, ds: seq<CodePoint>)
    ensures EncodeAll(cs + ds) == EncodeAll(cs) + EncodeAll(ds)
  {
    if cs == [] {
      assert cs + ds == ds;
    } else {
      assert (cs + ds)[1..] == cs[1..] + ds;
      EncodeAllAppend(cs[1..], ds);
    }
  }

  lemma DecodeAllStep(c: CodePoint, rest: seq<Byte>)
    ensures DecodeAll(Encode(c) + rest) == match DecodeAll(rest) case None => None case Some(cs) => Some([c] + cs)
  {
    var s := Encode(c) + rest;
    DecodeEncoded(c, rest);
    assert s[CharLength(s)..] == rest;
  }

  lemma {:induction false} DecodeAllEncoded(cs: seq<CodePoint>)
    ensures DecodeAll(EncodeAll(cs)) == Some(cs)
  {
    if cs != [] {
      DecodeAllEncoded(cs[1..]);
      DecodeAllStep(cs[0], EncodeAll(cs[1..]));
      assert [cs[0]] + cs[1..] == cs;
    }
  }

  lemma EncodePrepend(c: CodePoint, cs: seq<CodePoint>)
    ensures EncodeAll([c] + cs) == Encode(c) + EncodeAll(cs)
  {
    assert ([c] + cs)[1..] == cs;
  }

  lemma {:induction false} EncodeAllDecoded(s: seq<Byte>)
    requires DecodeAll(s).Some?
    ensures EncodeAll(DecodeAll(s).value) == s
    decreases |s|
  {
    hide Utf8Char, Encode, Value, CharLength;
    if s != [] {
      var n := CharLength(s);
      EncodeInverts(s[..n]);
      EncodeAllDecoded(s[n..]);
      EncodePrepend(Value(s[..n]), DecodeAll(s[n..]).value);
      assert s == s[..n] + s[n..];
    }
  }

  // ---- Order (RFC 3629, section 1) ----

  /** Lexicographic order by value. */
  predicate Less(a: seq<int>, b: seq<int>) {
    b != [] && (a == [] || a[0] < b[0] || (a[0] == b[0] && Less(a[1..], b[1..])))
  }

  lemma {:induction false} LessTotal(a: seq<int>, b: seq<int>)
    ensures Less(a, b) || a == b || Less(b, a)
    ensures !(Less(a, b) && Less(b, a))
  {
    if a != [] && b != [] && a[0] == b[0] {
      LessTotal(a[1..], b[1..]);
      if a[1..] == b[1..] {
        assert a == [a[0]] + a[1..] == b;
      }
    }
  }

  lemma {:induction false} LessAfter(p: seq<int>, a: seq<int>, b: seq<int>)
    ensures Less(p + a, p + b) == Less(a, b)
  {
    if p == [] {
      assert p + a == a && p + b == b;
    } else {
      assert (p + a)[1..] == p[1..] + a && (p + b)[1..] == p[1..] + b;
      LessAfter(p[1..], a, b);
    }
  }

  /** Two encodings differ first at k, where the first is smaller. */
  predicate Before(a: seq<int>, b: seq<int>, k: nat) {
    k < |a| && k < |b| && a[..k] == b[..k] && a[k] < b[k]
  }

  lemma BeforeIsLess(a: seq<int>, b: seq<int>, k: nat, x: seq<int>, y: seq<int>)
    requires Before(a, b, k)
    ensures Less(a + x, b + y)
  {
    assert a + x == a[..k] + ([a[k]] + (a[k + 1..] + x));
    assert b + y == a[..k] + ([b[k]] + (b[k + 1..] + y));
    LessAfter(a[..k], [a[k]] + (a[k + 1..] + x), [b[k]] + (b[k + 1..] + y));
  }

  lemma FirstDifference(c: CodePoint, d: CodePoint) returns (k: nat)
    requires c < d
    ensures Before(Encode(c), Encode(d), k)
  {
    if |Encode(c)| < |Encode(d)| || |Encode(c)| == 1 {
      k := 0;
    } else if |Encode(c)| == 2 {
      k := FirstDifference2(c, d);
    } else if |Encode(c)| == 3 {
      k := FirstDifference3(c, d);
    } else {
      k := FirstDifference4(c, d);
    }
  }

  lemma FirstDifference2(c: CodePoint, d: CodePoint) returns (k: nat)
    requires c < d && |Encode(c)| == |Encode(d)| == 2
    ensures Before(Encode(c), Encode(d), k)
  {
    Digits(c);
    Digits(d);
    k := if c / 0x40 < d / 0x40 then 0 else 1;
  }

  lemma FirstDifference3(c: CodePoint, d: CodePoint) returns (k: nat)
    requires c < d && |Encode(c)| == |Encode(d)| == 3
    ensures Before(Encode(c), Encode(d), k)
  {
    Digits(c);
    Digits(d);
    k := if c / 0x1000 < d / 0x1000 then 0 else if c / 0x40 < d / 0x40 then 1 else 2;
  }

  lemma FirstDifference4(c: CodePoint, d: CodePoint) returns (k: nat)
    requires c < d && |Encode(c)| == |Encode(d)| == 4
    ensures Before(Encode(c), Encode(d), k)
  {
    Digits(c);
    Digits(d);
    k := if c / 0x40000 < d / 0x40000 then 0
         else if c / 0x1000 < d / 0x1000 then 1
         else if c / 0x40 < d / 0x40 then 2
         else 3;
  }

  lemma {:induction false} EncodingLess(a: seq<CodePoint>, b: seq<CodePoint>)
    requires Less(a, b)
    ensures Less(EncodeAll(a), EncodeAll(b))
  {
    if a == [] {
    } else if a[0] == b[0] {
      EncodingLess(a[1..], b[1..]);
      LessAfter(Encode(a[0]), EncodeAll(a[1..]), EncodeAll(b[1..]));
    } else {
      var k := FirstDifference(a[0], b[0]);
      BeforeIsLess(Encode(a[0]), Encode(b[0]), k, EncodeAll(a[1..]), EncodeAll(b[1..]));
    }
  }

  /** Encoded text sorts byte by byte as its code points do. */
  lemma OrderIsPreserved(a: seq<CodePoint>, b: seq<CodePoint>)
    ensures Less(a, b) <==> Less(EncodeAll(a), EncodeAll(b))
  {
    LessTotal(a, b);
    LessTotal(EncodeAll(a), EncodeAll(b));
    if Less(a, b) {
      EncodingLess(a, b);
    } else if Less(b, a) {
      EncodingLess(b, a);
    }
  }

  // ---- Self-synchronisation ----

  lemma ContinuationsFollow(c: CodePoint, j: nat)
    requires j < |Encode(c)|
    ensures IsContinuation(Encode(c)[j]) <==> j > 0
  {
    EncodeMeets(c);
  }

  /** A byte of encoded text starts a character exactly when it is not a continuation byte. */
  lemma {:induction false} SelfSynchronises(cs: seq<CodePoint>, j: nat)
    requires j < |EncodeAll(cs)|
    ensures !IsContinuation(EncodeAll(cs)[j]) <==> exists k :: 0 <= k < |cs| && |EncodeAll(cs[..k])| == j
  {
    hide Encode, IsContinuation;
    var n := |Encode(cs[0])|;
    forall k | 0 < k <= |cs|
      ensures |EncodeAll(cs[..k])| == n + |EncodeAll(cs[1..][..k - 1])|
    {
      assert cs[..k][0] == cs[0] && cs[..k][1..] == cs[1..][..k - 1];
    }
    assert EncodeAll(cs[..0]) == [];
    if j < n {
      ContinuationsFollow(cs[0], j);
      assert EncodeAll(cs)[j] == Encode(cs[0])[j];
    } else {
      assert EncodeAll(cs)[j] == EncodeAll(cs[1..])[j - n];
      SelfSynchronises(cs[1..], j - n);
      if exists k :: 0 <= k < |cs[1..]| && |EncodeAll(cs[1..][..k])| == j - n {
        var k :| 0 <= k < |cs[1..]| && |EncodeAll(cs[1..][..k])| == j - n;
        assert |EncodeAll(cs[..k + 1])| == j;
      }
      if exists k :: 0 <= k < |cs| && |EncodeAll(cs[..k])| == j {
        var k :| 0 <= k < |cs| && |EncodeAll(cs[..k])| == j;
        assert |EncodeAll(cs[1..][..k - 1])| == j - n;
      }
    }
  }
}
