/** Letter case of ASCII text. */
module Ascii {
  function UpperChar(c: char): char {
    if 'a' <= c <= 'z' then (c as int - 32) as char else c
  }

  function LowerChar(c: char): char {
    if 'A' <= c <= 'Z' then (c as int + 32) as char else c
  }

  function Upper(s: string): (u: string)
    ensures |u| == |s|
  {
    seq(|s|, i requires 0 <= i < |s| => UpperChar(s[i]))
  }

  function Lower(s: string): (l: string)
    ensures |l| == |s|
  {
    seq(|s|, i requires 0 <= i < |s| => LowerChar(s[i]))
  }

  /** Two letters that are the same but for their case. */
  predicate SameLetter(a: char, b: char) {
    || a == b
    || ('A' <= a <= 'Z' && b as int == a as int + 32)
    || ('a' <= a <= 'z' && a as int == b as int + 32)
  }

  predicate SameButCase(s: string, t: string) {
    |s| == |t| && forall i | 0 <= i < |s| :: SameLetter(s[i], t[i])
  }

  lemma UpperIff(s: string, t: string)
    requires forall i | 0 <= i < |t| :: 'A' <= t[i] <= 'Z'
    ensures Upper(s) == t <==> SameButCase(s, t)
  {
    if Upper(s) == t {
      forall i | 0 <= i < |s| ensures SameLetter(s[i], t[i]) {
        assert Upper(s)[i] == t[i];
      }
    }
    if SameButCase(s, t) {
      forall i | 0 <= i < |s| ensures UpperChar(s[i]) == t[i] {
        assert SameLetter(s[i], t[i]);
      }
    }
  }
}
