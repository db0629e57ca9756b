/** Configuration names (config/config_var.cc): lower-cased, then checked against a fixed character set. */
module ConfigNames {
  function Lower(c: char): char {
    if 'A' <= c <= 'Z' then (c as int - 'A' as int + 'a' as int) as char else c
  }

  function Normal(name: string): (normal: string)
    ensures |normal| == |name|
  {
    seq(|name|, i requires 0 <= i < |name| => Lower(name[i]))
  }

  predicate InCharset(c: char) {
    'a' <= c <= 'z' || c == '.' || c == '_' || '0' <= c <= '9'
  }

  predicate ValidName(name: string) {
    name != "" && forall i :: 0 <= i < |name| ==> InCharset(name[i])
  }

  /** On the characters themselves: 32 is added to an ASCII capital, and nothing else changes. */
  method NormalizeConfigName(name: string) returns (normal: string)
    ensures normal == Normal(name)
    ensures |normal| == |name|
    ensures forall i :: 0 <= i < |name| ==>
              normal[i] == if 'A' <= name[i] <= 'Z' then (name[i] as int + 32) as char else name[i]
  {
    normal := name;
    for i := 0 to |name|
      invariant |normal| == |name|
      invariant forall k :: 0 <= k < i ==> normal[k] == Lower(name[k])
      invariant forall k :: i <= k < |name| ==> normal[k] == name[k]
    {
      normal := normal[i := Lower(normal[i])];
    }
  }

  /** The characters that a name may have. */
  const LETTERS := "abcdefghijklmnopqrstuvwxyz"
  const OTHERS := "._0123456789"
  const CHARSET := LETTERS + OTHERS

  lemma LetterAt(i: nat)
    requires i < 26
    ensures LETTERS[i] == (97 + i) as char
  {
  }

  lemma LettersAre(c: char)
    ensures c in LETTERS <==> 'a' <= c <= 'z'
  {
    if c in LETTERS {
      var i :| 0 <= i < 26 && LETTERS[i] == c;
      LetterAt(i);
    } else if 'a' <= c <= 'z' {
      LetterAt(c as int - 97);
    }
  }

  lemma OthersAre(c: char)
    ensures c in OTHERS <==> c == '.' || c == '_' || '0' <= c <= '9'
  {
    if c == '.' || c == '_' || '0' <= c <= '9' {
      assert OTHERS[if c == '.' then 0 else if c == '_' then 1 else c as int - 46] == c;
    }
  }

  /** A name is valid iff it is not empty and all its characters are in that list. */
  lemma ValidNames(name: string)
    ensures ValidName(name) <==> name != "" && forall c :: c in name ==> c in CHARSET
  {
    forall c: char
      ensures InCharset(c) <==> c in CHARSET
    {
      LettersAre(c);
      OthersAre(c);
    }
  }

  /** Normalising is idempotent, and what a valid name normalises to is itself. */
  lemma NormalIsNormal(name: string)
    ensures Normal(Normal(name)) == Normal(name)
    ensures ValidName(name) ==> Normal(name) == name
  {
    assert forall c :: Lower(Lower(c)) == Lower(c);
  }

  /** Two names meet in one variable iff they differ in the case of ASCII letters only. */
  predicate SameLetter(a: char, b: char) {
    a == b || Lower(a) == b || a == Lower(b)
  }

  lemma NormalIdentifies(a: string, b: string)
    ensures Normal(a) == Normal(b) <==> |a| == |b| && forall i :: 0 <= i < |a| ==> SameLetter(a[i], b[i])
  {
    if Normal(a) == Normal(b) {
      forall i | 0 <= i < |a|
        ensures SameLetter(a[i], b[i])
      {
        assert Normal(a)[i] == Normal(b)[i];
      }
    }
  }
}
