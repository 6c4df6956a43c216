/** Redaction of audit records (sdk/agentnhi/audit.py): by key, and by pattern inside text.
    Text is ASCII. */
module Redaction {
  import opened Values
  import opened Ascii

  predicate IsTokenChar(c: char) {
    'a' <= c <= 'z' || 'A' <= c <= 'Z' || '0' <= c <= '9' || c == '_' || c == '-'
  }

  // ---- The two patterns ---------------------------------------------------------------------

  /** How many of the leading characters satisfy `p`: a greedy run. */
  function Run(s: string, p: char -> bool): (n: nat)
    ensures n <= |s| && (forall i | 0 <= i < n :: p(s[i])) && (n < |s| ==> !p(s[n]))
  {
    if s == "" || !p(s[0]) then 0 else 1 + Run(s[1..], p)
  }

  const TOKEN_CHAR: char -> bool := (c: char) => IsTokenChar(c)
  const BEARER_CHAR: char -> bool := (c: char) => IsTokenChar(c) || c == '.'
  const SPACE: char -> bool := (c: char) => IsSpace(c)

  predicate AllIn(s: string, p: char -> bool) {
    forall i | 0 <= i < |s| :: p(s[i])
  }

  /** Three dot-separated groups, the first after `eyJ`, each of eight characters or more. */
  predicate IsJwt(s: string, a: nat, b: nat, c: nat) {
    && 8 <= a && 8 <= b && 8 <= c && |s| == 5 + a + b + c
    && s[..3] == "eyJ"
    && AllIn(s[3..3 + a], TOKEN_CHAR) && s[3 + a] == '.'
    && AllIn(s[4 + a..4 + a + b], TOKEN_CHAR) && s[4 + a + b] == '.'
    && AllIn(s[5 + a + b..], TOKEN_CHAR)
  }

  /** The length of the greedy match at the start of the text. */
  function JwtMatch(s: string): (r: Option<nat>)
    ensures r.Some? ==> 0 < r.value <= |s|
  {
    if |s| < 3 || s[..3] != "eyJ" then None
    else
      var a := Run(s[3..], TOKEN_CHAR);
      if a < 8 || 3 + a == |s| || s[3 + a] != '.' then None
      else
        var b := Run(s[4 + a..], TOKEN_CHAR);
        if b < 8 || 4 + a + b == |s| || s[4 + a + b] != '.' then None
        else
          var c := Run(s[5 + a + b..], TOKEN_CHAR);
          if c < 8 then None else Some(5 + a + b + c)
  }

  /** `(?i)bearer`, white space, then a token. */
  predicate IsBearer(s: string, w: nat, t: nat) {
    && 1 <= w && 1 <= t && |s| == 6 + w + t
    && Lower(s[..6]) == "bearer"
    && AllIn(s[6..6 + w], SPACE) && AllIn(s[6 + w..], BEARER_CHAR)
  }

  function BearerMatch(s: string): (r: Option<nat>)
    ensures r.Some? ==> 8 <= r.value <= |s| && Lower(s[..6]) == "bearer" && IsSpace(s[6])
  {
    if |s| < 6 || Lower(s[..6]) != "bearer" then None
    else
      var w := Run(s[6..], SPACE);
      var t := Run(s[6 + w..], BEARER_CHAR);
      if w < 1 || t < 1 then None else Some(6 + w + t)
  }

  lemma RunIsLongest(s: string, p: char -> bool, n: nat)
    requires n <= |s| && AllIn(s[..n], p)
    ensures n <= Run(s, p)
    ensures n < |s| && !p(s[n]) ==> n == Run(s, p)
  {
    assert forall i | 0 <= i < n :: s[..n][i] == s[i];
  }

  /** The greedy run of a group that a separator ends is the whole group. */
  lemma GroupIsRun(s: string, n: nat, from: nat, size: nat)
    requires from + size < n <= |s| && AllIn(s[..n][from..from + size], TOKEN_CHAR) && s[..n][from + size] == '.'
    ensures Run(s[from..], TOKEN_CHAR) == size && s[from + size] == '.'
  {
    assert s[from..][..size] == s[..n][from..from + size];
    assert s[from..][size] == s[from + size];
    RunIsLongest(s[from..], TOKEN_CHAR, size);
  }

  /** The greedy engine finds a match wherever the text begins with one. */
  lemma JwtIsFound(s: string, n: nat, a: nat, b: nat, c: nat)
    requires n <= |s| && IsJwt(s[..n], a, b, c)
    ensures JwtMatch(s).Some?
  {
    assert s[..3] == s[..n][..3];
    GroupIsRun(s, n, 3, a);
    GroupIsRun(s, n, 4 + a, b);
    assert s[5 + a + b..][..c] == s[..n][5 + a + b..];
    RunIsLongest(s[5 + a + b..], TOKEN_CHAR, c);
  }

  lemma JwtFoundIsJwt(s: string) returns (a: nat, b: nat, c: nat)
    requires JwtMatch(s).Some?
    ensures IsJwt(s[..JwtMatch(s).value], a, b, c)
  {
    a := Run(s[3..], TOKEN_CHAR);
    b := Run(s[4 + a..], TOKEN_CHAR);
    c := Run(s[5 + a + b..], TOKEN_CHAR);
    var m := s[..JwtMatch(s).value];
    assert m[..3] == s[..3];
    assert m[3..3 + a] == s[3..][..a];
    assert m[4 + a..4 + a + b] == s[4 + a..][..b];
    assert m[5 + a + b..] == s[5 + a + b..][..c];
  }

  lemma BearerIsFound(s: string, n: nat, w: nat, t: nat)
    requires n <= |s| && IsBearer(s[..n], w, t)
    ensures BearerMatch(s).Some?
  {
    var m := s[..n];
    assert s[..6] == m[..6];
    assert s[6..][..w] == m[6..6 + w];
    RunIsLongest(s[6..], SPACE, w);
    assert m[6 + w..][0] == s[6 + w];
    assert s[6..][w] == s[6 + w] && !IsSpace(s[6 + w]);
    assert s[6 + w..][..t] == m[6 + w..];
    RunIsLongest(s[6 + w..], BEARER_CHAR, t);
  }

  // ---- Substitution -------------------------------------------------------------------------

  const JWT_MARK := "[REDACTED:jwt]"
  const BEARER_MARK := "Bearer [REDACTED]"

  function WithoutJwt(s: string): string {
    if s == "" then ""
    else
      match JwtMatch(s)
      case Some(n) => JWT_MARK + WithoutJwt(s[n..])
      case None => [s[0]] + WithoutJwt(s[1..])
  }

  function WithoutBearer(s: string): string {
    if s == "" then ""
    else
      match BearerMatch(s)
      case Some(n) => BEARER_MARK + WithoutBearer(s[n..])
      case None => [s[0]] + WithoutBearer(s[1..])
  }

  function RedactedText(s: string): string {
    WithoutBearer(WithoutJwt(s))
  }

  /** No position of the text starts a match. */
  predicate NoJwt(s: string) {
    s == "" || (JwtMatch(s).None? && NoJwt(s[1..]))
  }

  predicate NoBearer(s: string) {
    s == "" || (BearerMatch(s).None? && NoBearer(s[1..]))
  }

  lemma JwtBeginsWithEy(s: string)
    requires JwtMatch(s).Some?
    ensures |s| > 2 && s[0] == 'e' && s[1] == 'y'
  {
    assert s[..3][0] == s[0] && s[..3][1] == s[1];
  }

  /** A mark none of whose suffixes can start a match keeps a clean text clean. */
  lemma {:induction false} MarkKeepsNoJwt(mark: string, s: string)
    requires NoJwt(s)
    requires forall i | 0 <= i < |mark| :: mark[i] == 'e' ==> i + 1 < |mark| && mark[i + 1] != 'y'
    ensures NoJwt(mark + s)
  {
    if mark == "" {
      assert mark + s == s;
    } else {
      MarkKeepsNoJwt(mark[1..], s);
      var t := mark + s;
      assert t[1..] == mark[1..] + s;
      if JwtMatch(t).Some? {
        JwtBeginsWithEy(t);
      }
    }
  }

  lemma BearerBeginsWithB(s: string)
    requires BearerMatch(s).Some?
    ensures s != "" && LowerChar(s[0]) == 'b'
  {
    assert Lower(s[..6])[0] == LowerChar(s[0]);
  }

  lemma {:induction false} MarkKeepsNoBearer(mark: string, s: string)
    requires NoBearer(s)
    requires forall i | 0 <= i < |mark| :: LowerChar(mark[i]) != 'b'
    ensures NoBearer(mark + s)
  {
    var t := mark + s;
    if mark == "" {
      assert t == s;
    } else {
      MarkKeepsNoBearer(mark[1..], s);
      assert t[1..] == mark[1..] + s;
      if BearerMatch(t).Some? {
        BearerBeginsWithB(t);
      }
    }
  }

  /** White space that runs into a bracket ends no match. */
  lemma BracketStopsBearer(t: string)
    requires |t| >= 8 && t[6] == ' ' && t[7] == '['
    ensures BearerMatch(t).None?
  {
    assert t[6..][0] == ' ' && t[6..][1] == '[';
    RunIsLongest(t[6..], SPACE, 1);
    assert t[7..][0] == '[';
  }

  lemma NoBearerAhead(s: string)
    requires NoBearer(s)
    ensures NoBearer((BEARER_MARK + s)[1..])
  {
    MarkKeepsNoBearer("earer [REDACTED]", s);
    assert BEARER_MARK[1..] == "earer [REDACTED]";
    assert (BEARER_MARK + s)[1..] == BEARER_MARK[1..] + s;
  }

  lemma NoBearerFrom(t: string)
    requires t != "" && BearerMatch(t).None? && NoBearer(t[1..])
    ensures NoBearer(t)
  {
  }

  lemma BearerMarkIsClean(s: string)
    requires NoBearer(s)
    ensures NoBearer(BEARER_MARK + s)
  {
    var t := BEARER_MARK + s;
    NoBearerAhead(s);
    BracketStopsBearer(t);
    NoBearerFrom(t);
  }

  /** Where the substituted text still has no bracket, it is the original text, but for the
      spelling of `Bearer ` in front of a bracket. */
  predicate Similar(x: char, y: char) {
    x == y || (x in "Bearer " && (LowerChar(x) == LowerChar(y) || (IsSpace(x) && IsSpace(y))))
  }

  predicate AlmostPrefix(x: string, y: string) {
    |x| <= |y| && forall i | 0 <= i < |x| :: Similar(x[i], y[i])
  }

  lemma InPrefix(x: string, k: nat, i: nat)
    requires i < k <= |x|
    ensures x[i] in x[..k]
  {
    assert x[..k][i] == x[i];
  }

  lemma BracketBounds(x: string, k: nat, i: nat)
    requires k <= |x| && i < |x| && x[i] == '[' && '[' !in x[..k]
    ensures k <= i
  {
  }

  lemma JwtMarkLeads(s: string)
    requires JwtMatch(s).Some?
    ensures WithoutJwt(s) != "" && WithoutJwt(s)[0] == '['
  {
    assert WithoutJwt(s)[0] == JWT_MARK[0];
  }

  lemma BearerMarkLeads(s: string)
    requires BearerMatch(s).Some?
    ensures |WithoutBearer(s)| >= 8 && WithoutBearer(s)[..7] == "Bearer " && WithoutBearer(s)[7] == '['
  {
    var x := WithoutBearer(s);
    assert x[7] == BEARER_MARK[7];
    assert x[..7] == BEARER_MARK[..7];
  }

  lemma {:induction false} UnbracketedJwtPrefix(s: string, k: nat)
    requires k <= |WithoutJwt(s)| && '[' !in WithoutJwt(s)[..k]
    ensures k <= |s| && WithoutJwt(s)[..k] == s[..k]
  {
    if k > 0 {
      var x := WithoutJwt(s);
      InPrefix(x, k, 0);
      if JwtMatch(s).Some? {
        JwtMarkLeads(s);
      } else {
        assert x == [s[0]] + x[1..] && s == [s[0]] + s[1..];
        assert x[1..] == WithoutJwt(s[1..]) && x[..k][1..] == x[1..][..k - 1];
        UnbracketedJwtPrefix(s[1..], k - 1);
        ConsTake(s[0], x[1..], k);
        ConsTake(s[0], s[1..], k);
      }
    }
  }

  lemma ConsTake(h: char, rest: string, k: nat)
    requires 1 <= k <= 1 + |rest|
    ensures ([h] + rest)[..k] == [h] + rest[..k - 1]
  {
  }

  lemma BearerSpelling(i: nat)
    requires i < 6
    ensures LowerChar("Bearer "[i]) == "bearer"[i] && "Bearer "[i] in "Bearer "
  {
  }

  lemma {:induction false} UnbracketedBearerPrefix(s: string, k: nat)
    requires k <= |WithoutBearer(s)| && '[' !in WithoutBearer(s)[..k]
    ensures AlmostPrefix(WithoutBearer(s)[..k], s)
  {
    if k > 0 {
      var x := WithoutBearer(s);
      match BearerMatch(s) {
        case Some(n) =>
          BearerMarkLeads(s);
          BracketBounds(x, k, 7);
          assert Lower(s[..6]) == "bearer";
          forall i | 0 <= i < k
            ensures Similar(x[i], s[i])
          {
            assert x[..7][i] == x[i];
            if i < 6 {
              assert LowerChar(s[i]) == Lower(s[..6])[i];
              BearerSpelling(i);
            }
          }
        case None =>
          assert x[1..] == WithoutBearer(s[1..]) && x[..k][1..] == x[1..][..k - 1];
          UnbracketedBearerPrefix(s[1..], k - 1);
          forall i | 0 <= i < k
            ensures Similar(x[i], s[i])
          {
            if i > 0 {
              assert x[i] == x[1..][..k - 1][i - 1] && s[i] == s[1..][i - 1];
            }
          }
      }
    }
  }

  lemma JwtHasNoBracket(m: string, a: nat, b: nat, c: nat)
    requires IsJwt(m, a, b, c)
    ensures '[' !in m
  {
    forall i | 0 <= i < |m|
      ensures m[i] != '['
    {
      if i < 3 {
        assert m[..3][i] == m[i];
      } else if 3 <= i < 3 + a {
        assert m[3..3 + a][i - 3] == m[i];
      } else if 4 + a <= i < 4 + a + b {
        assert m[4 + a..4 + a + b][i - 4 - a] == m[i];
      } else if 5 + a + b <= i {
        assert m[5 + a + b..][i - 5 - a - b] == m[i];
      }
    }
  }

  lemma {:induction false} WithoutJwtHasNone(s: string)
    ensures NoJwt(WithoutJwt(s))
  {
    if s != "" {
      match JwtMatch(s) {
        case Some(n) =>
          WithoutJwtHasNone(s[n..]);
          MarkKeepsNoJwt(JWT_MARK, WithoutJwt(s[n..]));
        case None =>
          WithoutJwtHasNone(s[1..]);
          var x := WithoutJwt(s);
          assert x[1..] == WithoutJwt(s[1..]);
          if JwtMatch(x).Some? {
            var n := JwtMatch(x).value;
            var a, b, c := JwtFoundIsJwt(x);
            JwtHasNoBracket(x[..n], a, b, c);
            UnbracketedJwtPrefix(s, n);
            JwtIsFound(s, n, a, b, c);
            assert false;
          }
      }
    }
  }

  lemma BearerShape(s: string) returns (n: nat, w: nat)
    requires BearerMatch(s).Some?
    ensures n <= |s| && IsBearer(s[..n], w, 1)
    ensures '[' !in s[..n]
  {
    w := Run(s[6..], SPACE);
    n := 6 + w + 1;
    var m := s[..n];
    TakeThree(s, w);
    BearerWordHasNoBracket(m[..6]);
    assert m == m[..6] + m[6..6 + w] + m[6 + w..];
  }

  lemma BearerWordHasNoBracket(word: string)
    requires Lower(word) == "bearer"
    ensures '[' !in word
  {
    forall i | 0 <= i < |word|
      ensures word[i] != '['
    {
      assert LowerChar(word[i]) == Lower(word)[i] == "bearer"[i];
    }
  }

  /** The first seven characters and `w` more, taken apart. */
  lemma TakeThree(s: string, w: nat)
    requires 6 + w < |s|
    ensures var m := s[..6 + w + 1];
            m[..6] == s[..6] && m[6..6 + w] == s[6..][..w] && m[6 + w..] == [s[6 + w..][0]]
  {
  }

  /** The pattern cannot tell an almost-prefix from the text it came from. */
  lemma BearerUpToSpelling(x: string, y: string, w: nat)
    requires |x| == |y| && IsBearer(x, w, 1) && (forall i | 0 <= i < |x| :: Similar(x[i], y[i]))
    ensures IsBearer(y, w, 1)
  {
    forall i | 0 <= i < 6
      ensures Lower(y[..6])[i] == "bearer"[i]
    {
      assert Lower(x[..6])[i] == LowerChar(x[i]) && LowerChar(x[i]) == "bearer"[i];
      assert Lower(y[..6])[i] == LowerChar(y[i]);
    }
    assert Lower(y[..6]) == "bearer";
    forall i | 6 <= i < 6 + w
      ensures IsSpace(y[i])
    {
      assert x[6..6 + w][i - 6] == x[i] && Similar(x[i], y[i]);
    }
    assert AllIn(y[6..6 + w], SPACE);
    assert x[6 + w..][0] == x[6 + w] && Similar(x[6 + w], y[6 + w]);
    assert y[6 + w..] == [y[6 + w]];
  }

  lemma {:induction false} WithoutBearerHasNone(s: string)
    ensures NoBearer(WithoutBearer(s))
  {
    if s != "" {
      match BearerMatch(s) {
        case Some(n) =>
          WithoutBearerHasNone(s[n..]);
          BearerMarkIsClean(WithoutBearer(s[n..]));
        case None =>
          WithoutBearerHasNone(s[1..]);
          var x := WithoutBearer(s);
          assert x[1..] == WithoutBearer(s[1..]);
          if BearerMatch(x).Some? {
            var n, w := BearerShape(x);
            UnbracketedBearerPrefix(s, n);
            BearerUpToSpelling(x[..n], s[..n], w);
            BearerIsFound(s, n, w, 1);
            assert false;
          }
      }
    }
  }

  lemma TokenCharsUpToSpelling(x: string, y: string)
    requires |x| == |y| && AllIn(x, TOKEN_CHAR) && (forall i | 0 <= i < |x| :: Similar(x[i], y[i]))
    ensures AllIn(y, TOKEN_CHAR)
  {
  }

  lemma JwtUpToSpelling(x: string, y: string, a: nat, b: nat, c: nat)
    requires |x| == |y| && IsJwt(x, a, b, c) && x[0] == y[0] && (forall i | 0 <= i < |x| :: Similar(x[i], y[i]))
    ensures IsJwt(y, a, b, c)
  {
    assert x[..3][1] == x[1] && x[..3][2] == x[2] && x[..3][0] == x[0];
    assert Similar(x[1], y[1]) && Similar(x[2], y[2]);
    assert y[..3] == "eyJ";
    assert Similar(x[3 + a], y[3 + a]) && Similar(x[4 + a + b], y[4 + a + b]);
    TokenCharsUpToSpelling(x[3..3 + a], y[3..3 + a]);
    TokenCharsUpToSpelling(x[4 + a..4 + a + b], y[4 + a..4 + a + b]);
    TokenCharsUpToSpelling(x[5 + a + b..], y[5 + a + b..]);
  }

  /** The second substitution brings nothing back that the first one removes. */
  lemma {:induction false} BearerStepKeepsNoJwt(s: string)
    requires NoJwt(s)
    ensures NoJwt(WithoutBearer(s))
  {
    if s != "" {
      match BearerMatch(s) {
        case Some(n) =>
          NoJwtSuffix(s, n);
          BearerStepKeepsNoJwt(s[n..]);
          MarkKeepsNoJwt(BEARER_MARK, WithoutBearer(s[n..]));
        case None =>
          BearerStepKeepsNoJwt(s[1..]);
          var x := WithoutBearer(s);
          assert x[1..] == WithoutBearer(s[1..]);
          BearerStepMakesNoJwt(s);
      }
    }
  }

  lemma BearerStepMakesNoJwt(s: string)
    requires JwtMatch(s).None?
    requires s != "" && WithoutBearer(s) != "" && WithoutBearer(s)[0] == s[0]
    ensures JwtMatch(WithoutBearer(s)).None?
  {
    var x := WithoutBearer(s);
    if JwtMatch(x).Some? {
      var n := JwtMatch(x).value;
      var a, b, c := JwtFoundIsJwt(x);
      JwtHasNoBracket(x[..n], a, b, c);
      UnbracketedBearerPrefix(s, n);
      JwtUpToSpelling(x[..n], s[..n], a, b, c);
      JwtIsFound(s, n, a, b, c);
      assert false;
    }
  }

  lemma {:induction false} NoJwtSuffix(s: string, n: nat)
    requires NoJwt(s) && n <= |s|
    ensures NoJwt(s[n..])
  {
    if n > 0 {
      NoJwtSuffix(s[1..], n - 1);
      assert s[1..][n - 1..] == s[n..];
    }
  }

  lemma {:induction false} JwtFreeTextIsKept(s: string)
    requires NoJwt(s)
    ensures WithoutJwt(s) == s
  {
    if s != "" {
      JwtFreeTextIsKept(s[1..]);
      assert s == [s[0]] + s[1..];
    }
  }

  lemma {:induction false} BearerFreeTextIsKept(s: string)
    requires NoBearer(s)
    ensures WithoutBearer(s) == s
  {
    if s != "" {
      BearerFreeTextIsKept(s[1..]);
      assert s == [s[0]] + s[1..];
    }
  }

  /** Redacted text matches neither pattern anywhere, and redacting it again changes nothing. */
  lemma TextRedactionIsIdempotent(s: string)
    ensures NoJwt(RedactedText(s)) && NoBearer(RedactedText(s))
    ensures RedactedText(RedactedText(s)) == RedactedText(s)
  {
    WithoutJwtHasNone(s);
    BearerStepKeepsNoJwt(WithoutJwt(s));
    WithoutBearerHasNone(WithoutJwt(s));
    JwtFreeTextIsKept(RedactedText(s));
    BearerFreeTextIsKept(RedactedText(s));
  }

  /** Text changes exactly when there is a credential in it. */
  lemma TextIsKeptIff(s: string)
    ensures RedactedText(s) == s <==> NoJwt(s) && NoBearer(s)
  {
    if NoJwt(s) && NoBearer(s) {
      JwtFreeTextIsKept(s);
      BearerFreeTextIsKept(s);
    } else if RedactedText(s) == s {
      TextRedactionIsIdempotent(s);
      assert false;
    }
  }

  /** No match of the pattern begins in `before`, whatever it runs into. */
  predicate NoJwtBegins(before: string, rest: string)
    decreases |before|
  {
    before == "" || (JwtMatch(before + rest).None? && NoJwtBegins(before[1..], rest))
  }

  predicate NoBearerBegins(before: string, rest: string)
    decreases |before|
  {
    before == "" || (BearerMatch(before + rest).None? && NoBearerBegins(before[1..], rest))
  }

  lemma BehindTheFirst(before: string, rest: string)
    requires before != ""
    ensures before + rest != "" && (before + rest)[0] == before[0] && (before + rest)[1..] == before[1..] + rest
    ensures forall s: string :: [before[0]] + (before[1..] + s) == before + s
  {
    forall s: string
      ensures [before[0]] + (before[1..] + s) == before + s
    {
      assert before == [before[0]] + before[1..];
    }
  }

  /** The first token in a text is replaced by the mark; what is before it stays, and what is
      after it is treated alike. */
  lemma {:induction false} FirstJwtIsReplaced(before: string, rest: string)
    requires JwtMatch(rest).Some? && NoJwtBegins(before, rest)
    ensures WithoutJwt(before + rest) == before + ("[REDACTED:jwt]" + WithoutJwt(rest[JwtMatch(rest).value..]))
    decreases |before|
  {
    if before == "" {
      assert before + rest == rest;
    } else {
      BehindTheFirst(before, rest);
      FirstJwtIsReplaced(before[1..], rest);
    }
  }

  lemma {:induction false} FirstBearerIsReplaced(before: string, rest: string)
    requires BearerMatch(rest).Some? && NoBearerBegins(before, rest)
    ensures WithoutBearer(before + rest)
         == before + ("Bearer [REDACTED]" + WithoutBearer(rest[BearerMatch(rest).value..]))
    decreases |before|
  {
    if before == "" {
      assert before + rest == rest;
    } else {
      BehindTheFirst(before, rest);
      FirstBearerIsReplaced(before[1..], rest);
    }
  }

  /** A bearer token that is a JWT is marked as one: the first substitution comes first. */
  lemma BearerJwtIsMarkedAsJwt(jwt: string)
    requires JwtMatch(jwt) == Some(|jwt|)
    ensures RedactedText("Bearer " + jwt) == "Bearer " + "[REDACTED:jwt]"
  {
    BearerBeginsNoJwt(jwt);
    OneJwtIsReplaced("Bearer ", jwt);
    MarkedBearer();
    BearerFreeTextIsKept("Bearer " + JWT_MARK);
  }

  lemma OneJwtIsReplaced(before: string, jwt: string)
    requires JwtMatch(jwt) == Some(|jwt|) && NoJwtBegins(before, jwt)
    ensures WithoutJwt(before + jwt) == before + JWT_MARK
  {
    FirstJwtIsReplaced(before, jwt);
    assert jwt[|jwt|..] == "";
    assert JWT_MARK + WithoutJwt("") == JWT_MARK;
  }

  lemma MarkedBearer()
    ensures NoBearer("Bearer " + JWT_MARK)
  {
    var t := "Bearer " + JWT_MARK;
    assert t[6] == "Bearer "[6] && t[7] == JWT_MARK[0];
    assert forall i | 0 <= i < |t[1..]| :: t[1..][i] == t[i + 1];
    assert forall i | 1 <= i < 7 :: t[i] == "Bearer "[i];
    assert forall i | 7 <= i < |t| :: t[i] == JWT_MARK[i - 7];
    MarkedBearerIsClean(t, t[1..]);
  }

  lemma MarkedBearerIsClean(t: string, rest: string)
    requires |t| >= 8 && t[6] == ' ' && t[7] == '[' && t[1..] == rest
    requires forall i | 0 <= i < |rest| :: LowerChar(rest[i]) != 'b'
    ensures NoBearer(t)
  {
    MarkKeepsNoBearer(rest, "");
    assert rest + "" == t[1..];
    BracketStopsBearer(t);
    NoBearerFrom(t);
  }

  lemma BearerBeginsNoJwt(jwt: string)
    ensures NoJwtBegins("Bearer ", jwt)
  {
    var b := "Bearer ";
    forall i | 0 <= i < |b|
      ensures JwtMatch(b[i..] + jwt).None?
    {
      var s := b[i..] + jwt;
      assert s[0] == b[i] && (i + 1 < |b| ==> s[1] == b[i + 1]);
      if JwtMatch(s).Some? {
        JwtBeginsWithEy(s);
      }
    }
    NoneBegin(b, 0, jwt);
  }

  lemma {:induction false} NoneBegin(b: string, k: nat, jwt: string)
    requires k <= |b| && forall i | 0 <= i < |b| :: JwtMatch(b[i..] + jwt).None?
    ensures NoJwtBegins(b[k..], jwt)
    decreases |b| - k
  {
    if k < |b| {
      NoneBegin(b, k + 1, jwt);
      assert b[k..][1..] == b[k + 1..];
    }
  }

  // ---- Whole records --------------------------------------------------------------------------

  datatype Json =
    | Null
    | Bool(b: bool)
    | Number(r: real)
    | Str(s: string)
    | List(items: seq<Json>)
    | Object(fields: seq<Field>)

  datatype Field = Field(key: string, value: Json)

  predicate Contains(s: string, word: string) {
    word <= s || (s != "" && Contains(s[1..], word))
  }

  const SECRET_WORDS := {
    "authorization", "cookie", "token", "secret", "password", "passwd", "apikey", "api_key", "api-key",
    "assertion", "jti", "credential", "privatekey", "private_key", "private-key", "session"}

  const PII_KEYS := {
    "name", "full_name", "first_name", "last_name", "customer_name", "username", "email", "email_address",
    "phone", "phone_number", "ssn", "tax_id", "address", "street", "city", "postal_code", "zip", "dob",
    "date_of_birth", "card", "card_number", "pan", "cvv", "cvc", "iban", "account_number", "routing_number"}

  predicate IsSecretKey(key: string) {
    exists word | word in SECRET_WORDS :: Contains(Lower(key), word)
  }

  /** `extra` is what a service configured as further personal data. */
  predicate IsPiiKey(extra: set<string>, key: string) {
    Lower(Strip(key)) in PII_KEYS + extra
  }

  const REDACTED := Json.Str("[REDACTED]")
  const REDACTED_PII := Json.Str("[REDACTED:pii]")

  function Redacted(extra: set<string>, v: Json): Json
    decreases v
  {
    match v
    case Object(fields) => Object(RedactedFields(extra, fields))
    case List(items) => List(RedactedItems(extra, items))
    case Str(s) => Json.Str(RedactedText(s))
    case _ => v
  }

  function RedactedItems(extra: set<string>, items: seq<Json>): seq<Json>
    decreases items
  {
    if items == [] then [] else [Redacted(extra, items[0])] + RedactedItems(extra, items[1..])
  }

  function RedactedFields(extra: set<string>, fields: seq<Field>): seq<Field>
    decreases fields
  {
    if fields == [] then []
    else [RedactedField(extra, fields[0])] + RedactedFields(extra, fields[1..])
  }

  function RedactedField(extra: set<string>, f: Field): Field
    decreases f
  {
    Field(f.key, if IsSecretKey(f.key) then REDACTED
                 else if IsPiiKey(extra, f.key) then REDACTED_PII
                 else Redacted(extra, f.value))
  }

  lemma {:induction false} ContainedAt(s: string, word: string) returns (i: nat, j: nat)
    requires Contains(s, word)
    ensures i <= j <= |s| && s[i..j] == word
  {
    if word <= s {
      i, j := 0, |word|;
    } else {
      i, j := ContainedAt(s[1..], word);
      assert s[1..][i..j] == s[i + 1..j + 1];
      i, j := i + 1, j + 1;
    }
  }

  lemma {:induction false} SliceIsContained(s: string, i: nat, j: nat)
    requires i <= j <= |s|
    ensures Contains(s, s[i..j])
    decreases i
  {
    if i > 0 {
      SliceIsContained(s[1..], i - 1, j - 1);
      assert s[1..][i - 1..j - 1] == s[i..j];
    }
  }

  /** A word that makes a key secret. */
  predicate SecretWord(word: string) {
    word in {"authorization", "cookie", "token", "secret", "password", "passwd", "apikey", "api_key", "api-key",
             "assertion", "jti", "credential", "privatekey", "private_key", "private-key", "session"}
  }

  lemma LowerOfSlice(s: string, i: nat, j: nat)
    requires i <= j <= |s|
    ensures Lower(s)[i..j] == Lower(s[i..j])
  {
  }

  /** A key is secret exactly when it holds such a word somewhere, in any case. */
  lemma SecretKeyIff(key: string)
    ensures IsSecretKey(key) <==> exists i, j :: 0 <= i <= j <= |key| && SecretWord(Lower(key[i..j]))
  {
    if IsSecretKey(key) {
      var word :| word in SECRET_WORDS && Contains(Lower(key), word);
      var i, j := ContainedAt(Lower(key), word);
      LowerOfSlice(key, i, j);
      assert SecretWord(Lower(key[i..j]));
    }
    if i, j :| 0 <= i <= j <= |key| && SecretWord(Lower(key[i..j])) {
      LowerOfSlice(key, i, j);
      SliceIsContained(Lower(key), i, j);
      assert Lower(key[i..j]) in SECRET_WORDS;
    }
  }

  /** A name of personal data. */
  predicate PiiName(name: string) {
    name in {"name", "full_name", "first_name", "last_name", "customer_name", "username", "email", "email_address",
             "phone", "phone_number", "ssn", "tax_id", "address", "street", "city", "postal_code", "zip", "dob",
             "date_of_birth", "card", "card_number", "pan", "cvv", "cvc", "iban", "account_number", "routing_number"}
  }

  /** A key names personal data exactly when, without the white space around it and in lower
      case, it is one of the names, so never because a name is part of it. */
  lemma PiiKeyIff(extra: set<string>, key: string)
    ensures IsPiiKey(extra, key)
       <==> exists i, j :: 0 <= i <= j <= |key| && IsCore(key, i, j)
              && (PiiName(Lower(key[i..j])) || Lower(key[i..j]) in extra)
  {
    var i, j := StripIsTheCore(key);
    if k, l :| 0 <= k <= l <= |key| && IsCore(key, k, l) && (PiiName(Lower(key[k..l])) || Lower(key[k..l]) in extra) {
      CoreIsUnique(key, i, j, k, l);
    }
  }

  /** A secret key is marked so, also when it names personal data; nothing of its value is
      left, whatever the value is. */
  lemma FieldIsMarked(extra: set<string>, f: Field)
    ensures RedactedField(extra, f).key == f.key
    ensures IsSecretKey(f.key) ==> RedactedField(extra, f).value == Json.Str("[REDACTED]")
    ensures !IsSecretKey(f.key) && IsPiiKey(extra, f.key) ==> RedactedField(extra, f).value == Json.Str("[REDACTED:pii]")
  {
  }

  /** Nothing secret at any depth: a constant marker under every secret or personal-data key,
      and no credential pattern in any text elsewhere. */
  predicate Safe(extra: set<string>, v: Json)
    decreases v
  {
    match v
    case Object(fields) =>
      forall i | 0 <= i < |fields| ::
        if IsSecretKey(fields[i].key) then fields[i].value == REDACTED
        else if IsPiiKey(extra, fields[i].key) then fields[i].value == REDACTED_PII
        else Safe(extra, fields[i].value)
    case List(items) => forall i | 0 <= i < |items| :: Safe(extra, items[i])
    case Str(s) => NoJwt(s) && NoBearer(s)
    case _ => true
  }

  /** Same keys, same lengths, same scalars; texts differ by what is redacted in them, and what
      is under a secret or personal-data key may be anything. */
  predicate SameShape(extra: set<string>, v: Json, w: Json)
    decreases v
  {
    match v
    case Object(fields) =>
      && w.Object? && |w.fields| == |fields|
      && forall i | 0 <= i < |fields| ::
           && w.fields[i].key == fields[i].key
           && (IsSecretKey(fields[i].key) || IsPiiKey(extra, fields[i].key)
               || SameShape(extra, fields[i].value, w.fields[i].value))
    case List(items) =>
      w.List? && |w.items| == |items| && forall i | 0 <= i < |items| :: SameShape(extra, items[i], w.items[i])
    case Str(s) => w == Json.Str(RedactedText(s))
    case _ => w == v
  }

  lemma {:induction false} RedactedItemsAt(extra: set<string>, items: seq<Json>)
    ensures |RedactedItems(extra, items)| == |items|
    ensures forall i | 0 <= i < |items| :: RedactedItems(extra, items)[i] == Redacted(extra, items[i])
  {
    if items != [] {
      RedactedItemsAt(extra, items[1..]);
    }
  }

  lemma {:induction false} RedactedFieldsAt(extra: set<string>, fields: seq<Field>)
    ensures |RedactedFields(extra, fields)| == |fields|
    ensures forall i | 0 <= i < |fields| ::
      RedactedFields(extra, fields)[i] == RedactedField(extra, fields[i])
  {
    if fields != [] {
      RedactedFieldsAt(extra, fields[1..]);
      var out := RedactedFields(extra, fields);
      forall i | 0 <= i < |fields|
        ensures out[i] == RedactedField(extra, fields[i])
      {
        if i > 0 {
          assert out[i] == RedactedFields(extra, fields[1..])[i - 1] && fields[i] == fields[1..][i - 1];
        }
      }
    }
  }

  /** For every nested value: the result is safe, has the shape and keys of the input, and
      redacting it again changes nothing. */
  lemma {:induction false} RedactionIsSafeAndIdempotent(extra: set<string>, v: Json)
    ensures Safe(extra, Redacted(extra, v))
    ensures SameShape(extra, v, Redacted(extra, v))
    ensures Redacted(extra, Redacted(extra, v)) == Redacted(extra, v)
    decreases v
  {
    match v
    case Str(s) => TextRedactionIsIdempotent(s);
    case List(items) =>
      RedactedItemsAt(extra, items);
      RedactedItemsAt(extra, RedactedItems(extra, items));
      forall i | 0 <= i < |items|
        ensures Safe(extra, Redacted(extra, items[i])) && SameShape(extra, items[i], Redacted(extra, items[i]))
        ensures Redacted(extra, Redacted(extra, items[i])) == Redacted(extra, items[i])
      {
        RedactionIsSafeAndIdempotent(extra, items[i]);
      }
      assert RedactedItems(extra, RedactedItems(extra, items)) == RedactedItems(extra, items);
    case Object(fields) =>
      RedactedFieldsAt(extra, fields);
      RedactedFieldsAt(extra, RedactedFields(extra, fields));
      forall i | 0 <= i < |fields|
        ensures Safe(extra, Redacted(extra, fields[i].value))
        ensures SameShape(extra, fields[i].value, Redacted(extra, fields[i].value))
        ensures Redacted(extra, Redacted(extra, fields[i].value)) == Redacted(extra, fields[i].value)
      {
        RedactionIsSafeAndIdempotent(extra, fields[i].value);
      }
      assert RedactedFields(extra, RedactedFields(extra, fields)) == RedactedFields(extra, fields);
    case _ =>
  }
}
