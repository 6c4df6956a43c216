/** Conditional blocks in templates (scripts/render.py): a rewrite loop, innermost block
    first, and the recursive reading of a template that it must agree with. */
module Render {
  import opened Values
  import opened Ascii

  datatype Kind = If | Unless

  /** A template as tokens. `Stray` is text that starts like an opening marker but is not a
      well-formed one; it blocks the matching of an enclosing block when it names a kind. */
  datatype Token =
    | Text(s: string)
    | Open(kind: Kind, name: string)
    | Close(kind: Kind)
    | Stray(namesKind: bool)

  type Environ = map<string, string>

  // ---- Which values count as true ------------------------------------------------------

  const TRUEISH := {"1", "true", "yes", "on"}

  predicate Truthy(environ: Environ, name: string) {
    name in environ && Lower(Strip(environ[name])) in TRUEISH
  }

  predicate Keeps(environ: Environ, kind: Kind, name: string) {
    if kind.If? then Truthy(environ, name) else !Truthy(environ, name)
  }

  // ---- The rewrite loop --------------------------------------------------------------------

  /** How far the closing marker of `kind` is, when no opening marker comes before it. */
  function ClosingIn(text: seq<Token>, kind: Kind): (r: Option<nat>)
    ensures r.Some? ==> r.value < |text| && text[r.value] == Close(kind)
  {
    if text == [] then None
    else
      match text[0]
      case Open(_, _) => None
      case Stray(true) => None
      case Close(k) =>
        if k == kind then Some(0) else Further(ClosingIn(text[1..], kind))
      case _ => Further(ClosingIn(text[1..], kind))
  }

  function Further(r: Option<nat>): Option<nat> {
    match r
    case None => None
    case Some(n) => Some(n + 1)
  }

  datatype Match = Match(start: nat, end: nat)

  /** The leftmost block whose body holds no opening marker. */
  function Innermost(text: seq<Token>): (r: Option<Match>)
    ensures r.Some? ==> r.value.start < r.value.end < |text| && text[r.value.start].Open?
  {
    if text == [] then None
    else if text[0].Open? && ClosingIn(text[1..], text[0].kind).Some? then
      Some(Match(0, 1 + ClosingIn(text[1..], text[0].kind).value))
    else
      match Innermost(text[1..])
      case None => None
      case Some(m) => Some(Match(m.start + 1, m.end + 1))
  }

  function Rewritten(text: seq<Token>, m: Match, keep: bool): (r: seq<Token>)
    requires m.start < m.end < |text|
    ensures |r| < |text|
  {
    text[..m.start] + (if keep then text[m.start + 1..m.end] else []) + text[m.end + 1..]
  }

  function Step(text: seq<Token>, environ: Environ): (r: seq<Token>)
    requires Innermost(text).Some?
    ensures |r| < |text|
  {
    var m := Innermost(text).value;
    Rewritten(text, m, Keeps(environ, text[m.start].kind, text[m.start].name))
  }

  predicate Opening(t: Token) {
    t.Open? || t.Stray?
  }

  datatype Result = Rendered(text: seq<Token>) | Unbalanced(at: nat)

  function FirstOpening(text: seq<Token>): (i: nat)
    ensures i <= |text| && (i < |text| ==> Opening(text[i])) && forall j | 0 <= j < i :: !Opening(text[j])
  {
    if text == [] || Opening(text[0]) then 0 else 1 + FirstOpening(text[1..])
  }

  function Resolved(text: seq<Token>, environ: Environ): Result
    decreases |text|
  {
    if Innermost(text).Some? then Resolved(Step(text, environ), environ)
    else if FirstOpening(text) < |text| then Unbalanced(FirstOpening(text))
    else Rendered(text)
  }

  /** The loop itself. The text strictly shrinks, so it ends; and whatever it accepts holds
      no opening marker. */
  method ResolveConditionals(template: seq<Token>, environ: Environ) returns (r: Result)
    ensures r == Resolved(template, environ)
    ensures r.Rendered? ==> forall i | 0 <= i < |r.text| :: !r.text[i].Open? && !r.text[i].Stray?
  {
    var text := template;
    while true
      invariant Resolved(text, environ) == Resolved(template, environ)
      decreases |text|
    {
      var found := Innermost(text);
      if found.None? {
        break;
      }
      var m := found.value;
      var opening := text[m.start];
      var keep := Truthy(environ, opening.name);
      if opening.kind.Unless? {
        keep := !keep;
      }
      ghost var before := text;
      text := text[..m.start] + (if keep then text[m.start + 1..m.end] else []) + text[m.end + 1..];
      assert text == Rewritten(before, m, keep) == Step(before, environ);
    }
    var where := FirstOpening(text);
    r := if where < |text| then Unbalanced(where) else Rendered(text);
  }

  // ---- The recursive reading -----------------------------------------------------------------

  /** A well-nested template. */
  datatype Tree =
    | Nothing
    | Plain(s: string, rest: Tree)
    | Block(kind: Kind, name: string, body: Tree, rest: Tree)

  function Flatten(t: Tree): seq<Token> {
    match t
    case Nothing => []
    case Plain(s, rest) => [Text(s)] + Flatten(rest)
    case Block(kind, name, body, rest) => [Open(kind, name)] + (Flatten(body) + ([Close(kind)] + Flatten(rest)))
  }

  /** A variable is set when it says one of four words, in any case, between white space. */
  predicate IsSet(environ: Environ, name: string) {
    name in environ &&
    exists i, j :: 0 <= i <= j <= |environ[name]| && IsCore(environ[name], i, j) && SaysYes(environ[name][i..j])
  }

  predicate SaysYes(word: string) {
    Lower(word) in {"1", "true", "yes", "on"}
  }

  lemma TruthyIff(environ: Environ, name: string)
    ensures Truthy(environ, name) <==> IsSet(environ, name)
  {
    if name in environ {
      var value := environ[name];
      var i, j := StripIsTheCore(value);
      assert Truthy(environ, name) <==> SaysYes(value[i..j]);
      if IsSet(environ, name) {
        var k, l :| 0 <= k <= l <= |value| && IsCore(value, k, l) && SaysYes(value[k..l]);
        CoreIsUnique(value, i, j, k, l);
      }
    }
  }

  /** A body under a condition. */
  function Shown(kind: Kind, isSet: bool, body: seq<Token>): seq<Token> {
    match kind
    case If => if isSet then body else []
    case Unless => if isSet then [] else body
  }

  /** What a template means: blocks are kept or dropped, from the outside in. */
  function Meaning(t: Tree, environ: Environ): seq<Token> {
    match t
    case Nothing => []
    case Plain(s, rest) => [Text(s)] + Meaning(rest, environ)
    case Block(kind, name, body, rest) =>
      Shown(kind, IsSet(environ, name), Meaning(body, environ)) + Meaning(rest, environ)
  }

  function Blocks(t: Tree): nat {
    match t
    case Nothing => 0
    case Plain(_, rest) => Blocks(rest)
    case Block(_, _, body, rest) => 1 + Blocks(body) + Blocks(rest)
  }

  function Joined(a: Tree, b: Tree): Tree {
    match a
    case Nothing => b
    case Plain(s, rest) => Plain(s, Joined(rest, b))
    case Block(kind, name, body, rest) => Block(kind, name, body, Joined(rest, b))
  }

  /** The template after its leftmost innermost block has been resolved. */
  function Reduced(t: Tree, environ: Environ): Tree
    requires Blocks(t) > 0
  {
    match t
    case Plain(s, rest) => Plain(s, Reduced(rest, environ))
    case Block(kind, name, body, rest) =>
      if Blocks(body) > 0 then Block(kind, name, Reduced(body, environ), rest)
      else if Keeps(environ, kind, name) then Joined(body, rest)
      else rest
  }

  lemma Assoc(a: seq<Token>, b: seq<Token>, c: seq<Token>)
    ensures (a + b) + c == a + (b + c)
  {
  }

  lemma {:induction false} JoinedFacts(a: Tree, b: Tree, environ: Environ)
    ensures Flatten(Joined(a, b)) == Flatten(a) + Flatten(b)
    ensures Meaning(Joined(a, b), environ) == Meaning(a, environ) + Meaning(b, environ)
    ensures Blocks(Joined(a, b)) == Blocks(a) + Blocks(b)
  {
    match a
    case Nothing =>
    case Plain(s, rest) =>
      JoinedFacts(rest, b, environ);
      Assoc([Text(s)], Flatten(rest), Flatten(b));
      Assoc([Text(s)], Meaning(rest, environ), Meaning(b, environ));
    case Block(kind, name, body, rest) =>
      JoinedFacts(rest, b, environ);
      BlockThen(kind, name, Flatten(body), Flatten(rest), Flatten(b));
      Assoc(Shown(kind, IsSet(environ, name), Meaning(body, environ)), Meaning(rest, environ), Meaning(b, environ));
  }

  lemma BlockThen(kind: Kind, name: string, body: seq<Token>, rest: seq<Token>, after: seq<Token>)
    ensures [Open(kind, name)] + (body + ([Close(kind)] + (rest + after)))
         == ([Open(kind, name)] + (body + ([Close(kind)] + rest))) + after
  {
    Assoc([Close(kind)], rest, after);
    Assoc(body, [Close(kind)] + rest, after);
    Assoc([Open(kind, name)], body + ([Close(kind)] + rest), after);
  }

  lemma ReductionKeepsMeaning(t: Tree, environ: Environ)
    requires Blocks(t) > 0
    ensures Meaning(Reduced(t, environ), environ) == Meaning(t, environ)
    ensures Blocks(Reduced(t, environ)) < Blocks(t)
  {
    match t
    case Plain(s, rest) => ReductionKeepsMeaning(rest, environ);
    case Block(kind, name, body, rest) =>
      if Blocks(body) > 0 {
        ReductionKeepsMeaning(body, environ);
      } else {
        TruthyIff(environ, name);
        JoinedFacts(body, rest, environ);
      }
  }

  /** In a body without blocks, the closing marker is right behind it. */
  lemma {:induction false} FlatBodyCloses(t: Tree, kind: Kind, after: seq<Token>)
    requires Blocks(t) == 0
    ensures ClosingIn(Flatten(t) + ([Close(kind)] + after), kind) == Some(|Flatten(t)|)
  {
    var text := Flatten(t) + ([Close(kind)] + after);
    match t
    case Nothing => assert text[0] == Close(kind);
    case Plain(s, rest) =>
      FlatBodyCloses(rest, kind, after);
      assert text[0] == Text(s) && text[1..] == Flatten(rest) + ([Close(kind)] + after);
  }

  /** In a template with blocks, an opening marker comes before any closing one. */
  lemma {:induction false} OpeningComesFirst(t: Tree, kind: Kind, after: seq<Token>)
    requires Blocks(t) > 0
    ensures ClosingIn(Flatten(t) + after, kind) == None
  {
    var text := Flatten(t) + after;
    match t
    case Plain(s, rest) =>
      OpeningComesFirst(rest, kind, after);
      assert text[0] == Text(s) && text[1..] == Flatten(rest) + after;
    case Block(k, name, _, _) => assert text[0] == Open(k, name);
  }

  lemma RewrittenBehind(h: Token, text: seq<Token>, m: Match, keep: bool)
    requires m.start < m.end < |text|
    ensures Rewritten([h] + text, Match(m.start + 1, m.end + 1), keep) == [h] + Rewritten(text, m, keep)
  {
    var all := [h] + text;
    assert all[..m.start + 1] == [h] + text[..m.start];
    assert all[m.start + 2..m.end + 1] == text[m.start + 1..m.end];
    assert all[m.end + 2..] == text[m.end + 1..];
    var middle := if keep then text[m.start + 1..m.end] else [];
    Assoc([h], text[..m.start], middle);
    Assoc([h], text[..m.start] + middle, text[m.end + 1..]);
  }

  lemma InnermostBehind(all: seq<Token>)
    requires all != [] && Innermost(all[1..]).Some?
    requires all[0].Open? ==> ClosingIn(all[1..], all[0].kind).None?
    ensures var m := Innermost(all[1..]).value;
            Innermost(all) == Some(Match(m.start + 1, m.end + 1))
  {
  }

  lemma StepAt(text: seq<Token>, m: Match, environ: Environ)
    requires Innermost(text) == Some(m)
    ensures Step(text, environ) == Rewritten(text, m, Keeps(environ, text[m.start].kind, text[m.start].name))
  {
  }

  /** When the first token starts no match, the step happens behind it. */
  lemma StepShifts(h: Token, text: seq<Token>, environ: Environ)
    requires Innermost(text).Some?
    requires h.Open? ==> ClosingIn(text, h.kind).None?
    ensures Innermost([h] + text).Some? && Step([h] + text, environ) == [h] + Step(text, environ)
  {
    var all := [h] + text;
    var m := Innermost(text).value;
    var after := Match(m.start + 1, m.end + 1);
    assert Innermost(all) == Some(after) by {
      assert all[1..] == text;
      InnermostBehind(all);
    }
    StepAt(text, m, environ);
    StepAt(all, after, environ);
    assert all[after.start] == text[m.start];
    RewrittenBehind(h, text, m, Keeps(environ, text[m.start].kind, text[m.start].name));
  }

  /** A block without blocks inside is resolved at once. */
  lemma StepResolvesBlock(h: Token, body: seq<Token>, after: seq<Token>, tail: seq<Token>, environ: Environ)
    requires h.Open? && tail == body + ([Close(h.kind)] + after)
    requires ClosingIn(tail, h.kind) == Some(|body|)
    ensures Innermost([h] + tail).Some?
    ensures Step([h] + tail, environ) == (if Keeps(environ, h.kind, h.name) then body else []) + after
  {
    StepInFront(h, tail, environ);
    RewrittenInFront(h, body, Close(h.kind), after, Keeps(environ, h.kind, h.name));
  }

  lemma StepInFront(h: Token, tail: seq<Token>, environ: Environ)
    requires h.Open? && ClosingIn(tail, h.kind).Some?
    ensures Innermost([h] + tail).Some?
    ensures Step([h] + tail, environ)
         == Rewritten([h] + tail, Match(0, 1 + ClosingIn(tail, h.kind).value), Keeps(environ, h.kind, h.name))
  {
    assert ([h] + tail)[1..] == tail;
  }

  lemma RewrittenInFront(open: Token, body: seq<Token>, close: Token, after: seq<Token>, keep: bool)
    ensures Rewritten([open] + (body + ([close] + after)), Match(0, 1 + |body|), keep)
         == (if keep then body else []) + after
  {
    var text := [open] + (body + ([close] + after));
    assert text[1..1 + |body|] == body;
    assert text[1 + |body| + 1..] == after;
  }

  /** One turn of the loop is one reduction of the tree. */
  lemma {:induction false} StepIsReduction(t: Tree, after: seq<Token>, environ: Environ)
    requires Blocks(t) > 0
    ensures Innermost(Flatten(t) + after).Some?
    ensures Step(Flatten(t) + after, environ) == Flatten(Reduced(t, environ)) + after
  {
    match t
    case Plain(s, rest) =>
      StepIsReduction(rest, after, environ);
      StepShifts(Text(s), Flatten(rest) + after, environ);
      Assoc([Text(s)], Flatten(rest), after);
      Assoc([Text(s)], Flatten(Reduced(rest, environ)), after);
    case Block(kind, name, body, rest) =>
      var behind := [Close(kind)] + (Flatten(rest) + after);
      BlockThen(kind, name, Flatten(body), Flatten(rest), after);
      if Blocks(body) > 0 {
        OpeningComesFirst(body, kind, behind);
        StepIsReduction(body, behind, environ);
        StepShifts(Open(kind, name), Flatten(body) + behind, environ);
        BlockThen(kind, name, Flatten(Reduced(body, environ)), Flatten(rest), after);
      } else {
        FlatBodyCloses(body, kind, Flatten(rest) + after);
        StepResolvesBlock(Open(kind, name), Flatten(body), Flatten(rest) + after, Flatten(body) + behind, environ);
        JoinedFacts(body, rest, environ);
        Assoc(Flatten(body), Flatten(rest), after);
      }
  }

  lemma {:induction false} PlainTextIsDone(t: Tree, environ: Environ)
    requires Blocks(t) == 0
    ensures Innermost(Flatten(t)).None? && FirstOpening(Flatten(t)) == |Flatten(t)|
    ensures Meaning(t, environ) == Flatten(t)
  {
    match t
    case Nothing =>
    case Plain(s, rest) =>
      PlainTextIsDone(rest, environ);
      assert Flatten(t)[0] == Text(s) && Flatten(t)[1..] == Flatten(rest);
  }

  /** For every well-nested template, the innermost-first rewrite loop accepts, and its output
      is the outside-in meaning of the template. */
  lemma {:induction false} RewritingIsMeaning(t: Tree, environ: Environ)
    ensures Resolved(Flatten(t), environ) == Rendered(Meaning(t, environ))
    decreases Blocks(t)
  {
    if Blocks(t) == 0 {
      PlainTextIsDone(t, environ);
    } else {
      StepIsReduction(t, [], environ);
      assert Flatten(t) + [] == Flatten(t);
      assert Flatten(Reduced(t, environ)) + [] == Flatten(Reduced(t, environ));
      ReductionKeepsMeaning(t, environ);
      RewritingIsMeaning(Reduced(t, environ), environ);
    }
  }

  /** The names a template's kept text depends on: every block that the outside-in reading
      reaches. A variable named only inside a dropped block is never asked for. */
  function Reached(t: Tree, environ: Environ): set<string> {
    match t
    case Nothing => {}
    case Plain(_, rest) => Reached(rest, environ)
    case Block(kind, name, body, rest) =>
      {name} + (if Keeps(environ, kind, name) then Reached(body, environ) else {}) + Reached(rest, environ)
  }

  /** The output depends on the reached variables only, although the loop resolves the
      innermost blocks first, dropped or not. */
  lemma {:induction false} OutputDependsOnReachedNames(t: Tree, a: Environ, b: Environ)
    requires forall name | name in Reached(t, a) :: Truthy(a, name) == Truthy(b, name)
    ensures Resolved(Flatten(t), a) == Resolved(Flatten(t), b)
  {
    RewritingIsMeaning(t, a);
    RewritingIsMeaning(t, b);
    MeaningDependsOnReachedNames(t, a, b);
  }

  lemma {:induction false} MeaningDependsOnReachedNames(t: Tree, a: Environ, b: Environ)
    requires forall name | name in Reached(t, a) :: Truthy(a, name) == Truthy(b, name)
    ensures Meaning(t, a) == Meaning(t, b)
  {
    match t
    case Nothing =>
    case Plain(_, rest) => MeaningDependsOnReachedNames(rest, a, b);
    case Block(kind, name, body, rest) =>
      MeaningDependsOnReachedNames(rest, a, b);
      TruthyIff(a, name);
      TruthyIff(b, name);
      if Keeps(a, kind, name) {
        MeaningDependsOnReachedNames(body, a, b);
      }
  }

  /** Only opening markers are checked for at the end: a text comes back as it is exactly
      when it holds none, whatever closing markers it holds. */
  lemma {:induction false} UnchangedIffNoOpeningMarker(text: seq<Token>, environ: Environ)
    ensures Resolved(text, environ) == Rendered(text) <==> (forall i | 0 <= i < |text| :: !text[i].Open? && !text[i].Stray?)
  {
    if forall i | 0 <= i < |text| :: !Opening(text[i]) {
      NoOpeningNoMatch(text);
    } else if Resolved(text, environ) == Rendered(text) {
      AcceptedHasNoOpening(text, environ);
    }
  }

  lemma {:induction false} NoOpeningNoMatch(text: seq<Token>)
    requires forall i | 0 <= i < |text| :: !Opening(text[i])
    ensures Innermost(text).None?
  {
    if text != [] {
      NoOpeningNoMatch(text[1..]);
    }
  }

  lemma {:induction false} AcceptedHasNoOpening(text: seq<Token>, environ: Environ)
    requires Resolved(text, environ).Rendered?
    ensures forall i | 0 <= i < |Resolved(text, environ).text| :: !Opening(Resolved(text, environ).text[i])
    decreases |text|
  {
    if Innermost(text).Some? {
      AcceptedHasNoOpening(Step(text, environ), environ);
    }
  }

  /** A malformed opening marker that names a kind can never be dropped with a block around it:
      a template that holds one is rejected, wherever it stands. */
  lemma {:induction false} MalformedMarkerIsRejected(text: seq<Token>, environ: Environ)
    requires Stray(true) in text
    ensures Resolved(text, environ).Unbalanced?
    decreases |text|
  {
    if Innermost(text).Some? {
      MalformedMarkerStays(text, environ);
      MalformedMarkerIsRejected(Step(text, environ), environ);
    }
  }

  lemma {:induction false} NoneInClosed(text: seq<Token>, kind: Kind)
    requires ClosingIn(text, kind).Some?
    ensures Stray(true) !in text[..ClosingIn(text, kind).value + 1]
  {
    var n := ClosingIn(text, kind).value;
    if n > 0 {
      NoneInClosed(text[1..], kind);
      assert text[..n + 1] == [text[0]] + text[1..][..n];
    }
  }

  lemma {:induction false} NoneInMatch(text: seq<Token>)
    requires Innermost(text).Some?
    ensures Stray(true) !in text[Innermost(text).value.start..Innermost(text).value.end + 1]
  {
    var m := Innermost(text).value;
    if text[0].Open? && ClosingIn(text[1..], text[0].kind).Some? {
      NoneInClosed(text[1..], text[0].kind);
      SliceFromStart(text, m.end);
    } else {
      NoneInMatch(text[1..]);
      SliceOfRest(text, m.start, m.end + 1);
    }
  }

  lemma SliceFromStart(text: seq<Token>, n: nat)
    requires n < |text|
    ensures text[0..n + 1] == [text[0]] + text[1..][..n]
  {
  }

  lemma SliceOfRest(text: seq<Token>, a: nat, b: nat)
    requires 0 < a <= b <= |text|
    ensures text[a..b] == text[1..][a - 1..b - 1]
  {
    forall k | 0 <= k < b - a
      ensures text[a..b][k] == text[1..][a - 1..b - 1][k]
    {
      assert text[1..][a - 1 + k] == text[a + k];
    }
  }

  lemma KeptInParts(a: seq<Token>, middle: seq<Token>, b: seq<Token>, kept: seq<Token>, t: Token)
    requires t in a + middle + b && t !in middle
    ensures t in a + kept + b
  {
    assert t in a || t in b;
    assert (a + kept) + b == a + kept + b;
  }

  lemma MalformedMarkerStays(text: seq<Token>, environ: Environ)
    requires Innermost(text).Some? && Stray(true) in text
    ensures Stray(true) in Step(text, environ)
  {
    NoneInMatch(text);
    var m := Innermost(text).value;
    var keep := Keeps(environ, text[m.start].kind, text[m.start].name);
    assert text == text[..m.start] + text[m.start..m.end + 1] + text[m.end + 1..];
    KeptInParts(text[..m.start], text[m.start..m.end + 1], text[m.end + 1..],
                if keep then text[m.start + 1..m.end] else [], Stray(true));
  }

  /** What the body of a block may hold besides text: a marker that names no kind, and closing
      markers of the other kind. */
  predicate Passes(t: Token, kind: Kind) {
    t.Text? || t == Stray(false) || (t.Close? && t.kind != kind)
  }

  lemma {:induction false} ClosesBehind(body: seq<Token>, kind: Kind, after: seq<Token>)
    requires forall i | 0 <= i < |body| :: Passes(body[i], kind)
    ensures ClosingIn(body + ([Close(kind)] + after), kind) == Some(|body|)
  {
    var text := body + ([Close(kind)] + after);
    if body == [] {
      assert text[0] == Close(kind);
    } else {
      ClosesBehind(body[1..], kind, after);
      assert text[0] == body[0] && text[1..] == body[1..] + ([Close(kind)] + after);
    }
  }

  /** A block closes at the first closing marker of its kind, over any body that holds no
      block: the body takes its place, or nothing, and reading goes on. */
  lemma BlockClosesAtTheFirst(kind: Kind, name: string, body: seq<Token>, after: seq<Token>, environ: Environ)
    requires forall i | 0 <= i < |body| :: Passes(body[i], kind)
    ensures Resolved([Open(kind, name)] + (body + ([Close(kind)] + after)), environ)
         == Resolved(Shown(kind, IsSet(environ, name), body) + after, environ)
  {
    var tail := body + ([Close(kind)] + after);
    TruthyIff(environ, name);
    ClosesBehind(body, kind, after);
    StepResolvesBlock(Open(kind, name), body, after, tail, environ);
  }

  /** So a closing marker on its own is accepted, and stays in the output. */
  lemma StrayClosingMarkerIsAccepted(kind: Kind, environ: Environ)
    ensures Resolved([Close(kind)], environ) == Rendered([Close(kind)])
  {
    UnchangedIffNoOpeningMarker([Close(kind)], environ);
  }
}
