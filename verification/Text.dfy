/** Spaces and letter case, as far as ASCII goes. */
module Text {

  predicate Space(c: char) {
    c == ' ' || c == '\t' || c == '\n' || c == '\r'
  }

  predicate Blank(s: string) {
    forall i :: 0 <= i < |s| ==> Space(s[i])
  }

  function Trim(s: string): string {
    if s != [] && Space(s[0]) then Trim(s[1..])
    else if s != [] && Space(s[|s| - 1]) then Trim(s[..|s| - 1])
    else s
  }

  function LowerChar(c: char): char {
    if 'A' <= c <= 'Z' then c - 'A' + 'a' else c
  }

  function Lower(s: string): string {
    seq(|s|, i requires 0 <= i < |s| => LowerChar(s[i]))
  }

  /** Trimming takes the white space off both ends and nothing else: what is left runs from a to b. */
  lemma {:induction false} TrimMeans(s: string) returns (a: nat, b: nat)
    ensures a <= b <= |s| && Trim(s) == s[a..b] && Blank(s[..a]) && Blank(s[b..])
    ensures a < b ==> !Space(s[a]) && !Space(s[b - 1])
    decreases |s|
  {
    if s != [] && Space(s[0]) {
      a, b := TrimMeans(s[1..]);
      OneBefore(s, s[1..], a, b);
      a, b := a + 1, b + 1;
    } else if s != [] && Space(s[|s| - 1]) {
      a, b := TrimMeans(s[..|s| - 1]);
      OneAfter(s, s[..|s| - 1], a, b);
    } else {
      a, b := 0, |s|;
    }
  }

  lemma OneBefore(s: string, t: string, a: nat, b: nat)
    requires s != [] && Space(s[0]) && t == s[1..] && a <= b <= |t| && Blank(t[..a]) && Blank(t[b..])
    ensures s[a + 1..b + 1] == t[a..b] && Blank(s[..a + 1]) && Blank(s[b + 1..])
  {
    forall i | 0 <= i < a + 1
      ensures Space(s[i])
    {
      assert i > 0 ==> s[i] == t[..a][i - 1];
    }
    assert s[b + 1..] == t[b..];
    forall k | 0 <= k < b - a
      ensures s[a + 1..b + 1][k] == t[a..b][k]
    {
      assert s[a + 1 + k] == t[a + k];
    }
  }

  lemma OneAfter(s: string, t: string, a: nat, b: nat)
    requires s != [] && Space(s[|s| - 1]) && t == s[..|s| - 1] && a <= b <= |t| && Blank(t[..a]) && Blank(t[b..])
    ensures s[a..b] == t[a..b] && Blank(s[..a]) && Blank(s[b..])
  {
    assert s[..a] == t[..a];
    forall i | b <= i < |s|
      ensures Space(s[i])
    {
      assert i < |t| ==> s[i] == t[b..][i - b];
    }
  }

  /** Lower-casing changes the capitals and nothing else. */
  lemma LowerMeans(s: string, i: nat)
    requires i < |s|
    ensures |Lower(s)| == |s|
    ensures 'A' <= s[i] <= 'Z' ==> Lower(s)[i] as int == s[i] as int + 32
    ensures !('A' <= s[i] <= 'Z') ==> Lower(s)[i] == s[i]
  {
  }
}
