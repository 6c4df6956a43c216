/** White space and letter case, as Python's `str` and `re` read them, over ASCII. */
module Ascii {

  /** Tab to carriage return, the four separators, and the space. */
  predicate IsSpace(c: char) {
    9 <= c as int <= 13 || 28 <= c as int <= 32
  }

  function LowerChar(c: char): char {
    if 'A' <= c <= 'Z' then c - 'A' + 'a' else c
  }

  function Lower(s: string): (l: string)
    ensures |l| == |s|
  {
    seq(|s|, i requires 0 <= i < |s| => LowerChar(s[i]))
  }

  /** `s.strip()`. */
  function Strip(s: string): string {
    if s != "" && IsSpace(s[0]) then Strip(s[1..])
    else if s != "" && IsSpace(s[|s| - 1]) then Strip(s[..|s| - 1])
    else s
  }

  /** `s[i..j]` is what lies between the white space at the two ends. */
  predicate IsCore(s: string, i: nat, j: nat) {
    && i <= j <= |s|
    && (forall k | 0 <= k < i :: IsSpace(s[k])) && (forall k | j <= k < |s| :: IsSpace(s[k]))
    && (i < j ==> !IsSpace(s[i]) && !IsSpace(s[j - 1]))
  }

  lemma {:induction false} StripIsTheCore(s: string) returns (i: nat, j: nat)
    ensures IsCore(s, i, j) && Strip(s) == s[i..j]
    decreases |s|
  {
    if s != "" && IsSpace(s[0]) {
      i, j := StripIsTheCore(s[1..]);
      assert forall k | 1 <= k < |s| :: s[k] == s[1..][k - 1];
      assert s[1..][i..j] == s[i + 1..j + 1];
      i, j := i + 1, j + 1;
    } else if s != "" && IsSpace(s[|s| - 1]) {
      i, j := StripIsTheCore(s[..|s| - 1]);
      assert forall k | 0 <= k < |s| - 1 :: s[k] == s[..|s| - 1][k];
      assert s[..|s| - 1][i..j] == s[i..j];
    } else {
      i, j := 0, |s|;
    }
  }

  lemma CoreIsUnique(s: string, i: nat, j: nat, k: nat, l: nat)
    requires IsCore(s, i, j) && IsCore(s, k, l)
    ensures s[i..j] == s[k..l]
  {
    assert i < j ==> !IsSpace(s[i]) && !IsSpace(s[j - 1]);
    assert k < l ==> !IsSpace(s[k]) && !IsSpace(s[l - 1]);
  }

  /** Stripping takes away white space at the ends, all of it, and nothing else. */
  lemma StripIff(s: string, core: string)
    ensures Strip(s) == core <==> exists i, j :: 0 <= i <= j <= |s| && IsCore(s, i, j) && s[i..j] == core
  {
    var i, j := StripIsTheCore(s);
    if k, l :| 0 <= k <= l <= |s| && IsCore(s, k, l) && s[k..l] == core {
      CoreIsUnique(s, i, j, k, l);
    }
  }
}
