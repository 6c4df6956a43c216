/** Identifier tokens in text: the pattern `\b([oct]-\d+)\b` (app/agent/llm.py), over ASCII. */
module Identifiers {
  import opened Values
  import opened Decimal

  predicate IsWord(c: char) {
    'a' <= c <= 'z' || 'A' <= c <= 'Z' || IsDigit(c) || c == '_'
  }

  /** `text[i..j]` is a whole token: prefix, dash, digits, with a word boundary at each end. */
  predicate TokenAt(text: string, i: nat, j: nat) {
    && i + 2 < j <= |text|
    && (text[i] == 'o' || text[i] == 'c' || text[i] == 't')
    && text[i + 1] == '-'
    && (forall k | i + 2 <= k < j :: IsDigit(text[k]))
    && (i == 0 || !IsWord(text[i - 1]))
    && (j == |text| || !IsWord(text[j]))
  }

  /** Every token of a text. */
  function Tokens(text: string): set<string> {
    set i, j | 0 <= i < |text| && 0 <= j <= |text| && TokenAt(text, i, j) :: text[i..j]
  }

  /** An `o`, `c` or `t`, a dash, and digits. */
  predicate IsIdentifier(s: string) {
    |s| > 2 && (s[0] == 'o' || s[0] == 'c' || s[0] == 't') && s[1] == '-' && AllDigits(s[2..])
  }

  /** An identifier stands alone: no letter, digit or underscore touches it. */
  predicate StandsAlone(before: string, token: string, after: string) {
    && IsIdentifier(token)
    && (before == "" || !IsWord(before[|before| - 1])) && (after == "" || !IsWord(after[0]))
  }

  lemma TokenStandsAlone(text: string, i: nat, j: nat)
    requires TokenAt(text, i, j)
    ensures StandsAlone(text[..i], text[i..j], text[j..])
  {
    var s := text[i..j];
    forall k | 0 <= k < |s[2..]|
      ensures IsDigit(s[2..][k])
    {
      assert s[2..][k] == text[i + 2 + k];
    }
  }

  lemma AloneIsToken(before: string, token: string, after: string)
    requires StandsAlone(before, token, after)
    ensures token in Tokens(before + (token + after))
  {
    var text, i, j := before + (token + after), |before|, |before| + |token|;
    forall k | 0 <= k < |token|
      ensures text[i + k] == token[k]
    {
    }
    forall k | i + 2 <= k < j
      ensures IsDigit(text[k])
    {
      assert text[k] == token[2..][k - i - 2];
    }
    assert after != "" ==> text[j] == after[0];
    assert before != "" ==> text[i - 1] == before[|before| - 1];
    assert TokenAt(text, i, j) && text[i..j] == token;
  }

  /** The text is the token, with something before and after that does not touch it. */
  predicate StandsIn(text: string, token: string, before: string, after: string) {
    text == before + (token + after) && StandsAlone(before, token, after)
  }

  lemma FoundTokenStands(text: string, token: string) returns (before: string, after: string)
    requires token in Tokens(text)
    ensures StandsIn(text, token, before, after)
  {
    var i, j :| 0 <= i < |text| && 0 <= j <= |text| && TokenAt(text, i, j) && text[i..j] == token;
    TokenStandsAlone(text, i, j);
    before, after := text[..i], text[j..];
    assert text == before + (token + after);
  }

  /** The tokens of a text are exactly the identifiers that stand alone in it. */
  lemma TokensIff(text: string, token: string)
    ensures token in Tokens(text) <==> exists before, after :: StandsIn(text, token, before, after)
  {
    if token in Tokens(text) {
      var before, after := FoundTokenStands(text, token);
    }
    if before, after :| StandsIn(text, token, before, after) {
      AloneIsToken(before, token, after);
    }
  }

  /** Where the digits starting at `i` end. */
  function DigitsEnd(text: string, i: nat): (j: nat)
    requires i <= |text|
    ensures i <= j <= |text|
    ensures forall k | i <= k < j :: IsDigit(text[k])
    ensures j < |text| ==> !IsDigit(text[j])
    decreases |text| - i
  {
    if i < |text| && IsDigit(text[i]) then DigitsEnd(text, i + 1) else i
  }

  /** The end of the match the pattern has at position `i`, if it has one. */
  function MatchEnd(text: string, i: nat): Option<nat>
    requires i <= |text|
  {
    if i + 2 < |text| && TokenAt(text, i, DigitsEnd(text, i + 2)) then Some(DigitsEnd(text, i + 2)) else None
  }

  /** Greedy digits lose nothing: a token at `i` ends where its digits end. */
  lemma TokenEndsWithItsDigits(text: string, i: nat, j: nat)
    requires i <= |text| && TokenAt(text, i, j)
    ensures MatchEnd(text, i) == Some(j)
  {
    var end := DigitsEnd(text, i + 2);
    assert forall k | i + 2 <= k < end :: IsWord(text[k]);
  }

  /** Two tokens that share a position are the same. */
  lemma TokensDoNotOverlap(text: string, i: nat, j: nat, k: nat, l: nat)
    requires TokenAt(text, i, j) && TokenAt(text, k, l) && i < k
    ensures j <= k
  {
    assert forall m | i + 2 <= m < j :: IsWord(text[m]) && text[m] != '-';
  }

  /** `findall`: scanning from the left and resuming after each match finds every token. */
  method FindAll(text: string) returns (found: set<string>)
    ensures found == Tokens(text)
  {
    found := {};
    var at := 0;
    while at < |text|
      invariant 0 <= at <= |text|
      invariant found <= Tokens(text)
      invariant forall i: nat, j: nat | i < at && TokenAt(text, i, j) :: text[i..j] in found
      invariant forall i: nat, j: nat | i < at && TokenAt(text, i, j) :: j <= at
    {
      ghost var from, before := at, found;
      match MatchEnd(text, at) {
        case Some(end) =>
          found := found + {text[at..end]};
          at := end;
        case None =>
          at := at + 1;
      }
      forall i: nat, j: nat | i < at && TokenAt(text, i, j)
        ensures text[i..j] in found && j <= at
      {
        if from <= i {
          TokenEndsWithItsDigits(text, i, j);
          if from < i {
            TokensDoNotOverlap(text, from, at, i, j);
          }
        }
      }
    }
  }

  /** `search`: the first match, reading from position `at`. */
  function FirstToken(text: string, at: nat): (r: Option<string>)
    requires at <= |text|
    ensures r.Some? ==> r.value in Tokens(text)
    decreases |text| - at
  {
    match MatchEnd(text, at)
    case Some(end) => Some(text[at..end])
    case None => if at == |text| then None else FirstToken(text, at + 1)
  }

  /** A token of the text that no other token starts before. */
  predicate Leftmost(text: string, token: string) {
    exists i, j :: 0 <= i < |text| && 0 <= j <= |text| && LeftmostAt(text, i, j) && text[i..j] == token
  }

  predicate LeftmostAt(text: string, i: nat, j: nat) {
    TokenAt(text, i, j) && forall k, l | 0 <= k < i && 0 <= l <= |text| :: !TokenAt(text, k, l)
  }

  lemma {:induction false} SearchIsLeftmost(text: string, at: nat)
    requires at <= |text| && forall k, l | 0 <= k < at && 0 <= l <= |text| :: !TokenAt(text, k, l)
    ensures FirstToken(text, at).Some? ==> Leftmost(text, FirstToken(text, at).value)
    ensures FirstToken(text, at).None? ==> Tokens(text) == {}
    decreases |text| - at
  {
    match MatchEnd(text, at) {
      case Some(end) => assert LeftmostAt(text, at, end);
      case None =>
        forall l | 0 <= l <= |text|
          ensures !TokenAt(text, at, l)
        {
          if TokenAt(text, at, l) {
            TokenEndsWithItsDigits(text, at, l);
          }
        }
        if at < |text| {
          SearchIsLeftmost(text, at + 1);
        }
    }
  }

  lemma LeftmostIsUnique(text: string, a: string, b: string)
    requires Leftmost(text, a) && Leftmost(text, b)
    ensures a == b && a in Tokens(text) && |a| > 2 && (a[0] == 'o' || a[0] == 'c' || a[0] == 't')
  {
    var i, j :| 0 <= i < |text| && 0 <= j <= |text| && LeftmostAt(text, i, j) && text[i..j] == a;
    var k, l :| 0 <= k < |text| && 0 <= l <= |text| && LeftmostAt(text, k, l) && text[k..l] == b;
    assert i == k;
    TokenEndsWithItsDigits(text, i, j);
    TokenEndsWithItsDigits(text, i, l);
  }

  /** The search finds the leftmost token, when there is one. */
  lemma FirstTokenIff(text: string, token: string)
    ensures FirstToken(text, 0) == Some(token) <==> Leftmost(text, token)
    ensures FirstToken(text, 0) == None <==> Tokens(text) == {}
  {
    SearchIsLeftmost(text, 0);
    if Leftmost(text, token) {
      LeftmostIsUnique(text, token, token);
      assert Tokens(text) != {};
      LeftmostIsUnique(text, token, FirstToken(text, 0).value);
    }
  }
}
