/** Where identifiers come from, over whole multi-step runs of the agent: the graph driven
    by the decisions that `decide_tool` makes of arbitrary model replies. */
module Provenance {
  import opened Values
  import opened Schema
  import opened Identifiers
  import opened Decide
  import E = Enforcement
  import G = Graph

  function Offered(catalogue: E.Catalogue, names: set<string>): E.Catalogue {
    map name | name in catalogue && name in names :: catalogue[name]
  }

  /** A plan visit decides as `decide_tool` does of some reply, for some offered tools. */
  ghost predicate ModelDecision(conv: Conv, catalogue: E.Catalogue, s: G.State, d: G.Decision) {
    exists names, unavailable, reply ::
      d == Decision(conv, Offered(catalogue, names), unavailable, s.task, Seen(conv, s.task, s.observations), reply)
  }

  ghost predicate Driven(conv: Conv, catalogue: E.Catalogue, c: G.Config, inputs: seq<G.Input>)
    requires G.Accepted(c, inputs)
    decreases |inputs|
  {
    inputs == [] ||
    ((inputs[0].Decides? ==> ModelDecision(conv, catalogue, c.state, inputs[0].decision))
     && Driven(conv, catalogue, G.Step(c, inputs[0]), inputs[1..]))
  }

  /** The values people supplied, as text. */
  function Supplied(rules: TextRules, h: seq<G.Event>): set<string> {
    if h == [] then {}
    else
      var before, e := Supplied(rules, h[..|h| - 1]), h[|h| - 1];
      if e.Supplied? then before + set k | k in e.values && !Blank(e.values[k]) :: Show(rules, e.values[k])
      else before
  }

  /** All the run was shown: by the task, by earlier observations, by people. */
  function Known(conv: Conv, task: string, h: seq<G.Event>): set<string> {
    Seen(conv, task, G.ObservedIn(h)) + Supplied(conv.rules, h)
  }

  /** Every required identifier of the call is present and comes from `known`. */
  predicate Grounded(rules: TextRules, catalogue: E.Catalogue, known: set<string>, tool: string, args: Args) {
    && tool in catalogue
    && forall name | name in IdentifierArgs(catalogue[tool]) ::
         !Blank(Get(args, name)) && Show(rules, args[name]) in known
  }

  /** The same, while some required arguments are still being asked for. */
  predicate GroundedUpTo(rules: TextRules, catalogue: E.Catalogue, known: set<string>, tool: string,
                         args: Args, missing: seq<string>)
  {
    && tool in catalogue
    && forall name | name in IdentifierArgs(catalogue[tool]) ::
         if Blank(Get(args, name)) then name in missing else Show(rules, args[name]) in known
  }

  predicate CallsGrounded(conv: Conv, catalogue: E.Catalogue, task: string, h: seq<G.Event>) {
    forall i | 0 <= i < |h| && h[i].Called? ::
      Grounded(conv.rules, catalogue, Known(conv, task, h[..i]), h[i].tool, h[i].args)
  }

  /** What the state owes to what is known, node by node. */
  predicate NodeInv(rules: TextRules, catalogue: E.Catalogue, known: set<string>, node: G.Node, s: G.State) {
    && (node.CallTool? || node.CreateApproval? || node.AwaitDecision? ==>
          Grounded(rules, catalogue, known, s.tool, s.args))
    && (node.AskClarification? ==> GroundedUpTo(rules, catalogue, known, s.tool, s.args, s.missing))
    && (node.Plan? ==> s.status.Unset? || s.status.Ok?)
  }

  predicate HistoryInv(conv: Conv, catalogue: E.Catalogue, task: string, c: G.Config) {
    && c.state.task == task
    && c.state.observations == G.ObservedIn(c.history)
    && CallsGrounded(conv, catalogue, task, c.history)
  }

  predicate Inv(conv: Conv, catalogue: E.Catalogue, task: string, c: G.Config) {
    && HistoryInv(conv, catalogue, task, c)
    && NodeInv(conv.rules, catalogue, Known(conv, task, c.history), c.node, c.state)
  }

  lemma KnownSnoc(conv: Conv, task: string, h: seq<G.Event>, e: G.Event)
    ensures (h + [e])[..|h|] == h
    ensures Known(conv, task, h) <= Known(conv, task, h + [e])
    ensures G.ObservedIn(h + [e]) ==
      if G.IsSuccess(e)
      then G.ObservedIn(h) + [G.Observation(e.tool, e.args, e.answer.result)] else G.ObservedIn(h)
    ensures e.Supplied? ==> forall k | k in e.values && !Blank(e.values[k]) ::
      Show(conv.rules, e.values[k]) in Known(conv, task, h + [e])
  {
    var h' := h + [e];
    assert h'[..|h|] == h;
    if |G.ObservedIn(h')| > |G.ObservedIn(h)| {
      var all := G.ObservedIn(h');
      assert all[..|all| - 1] == G.ObservedIn(h);
    }
  }

  lemma CallsSnoc(conv: Conv, catalogue: E.Catalogue, task: string, h: seq<G.Event>, e: G.Event)
    requires CallsGrounded(conv, catalogue, task, h)
    requires e.Called? ==> Grounded(conv.rules, catalogue, Known(conv, task, h), e.tool, e.args)
    ensures CallsGrounded(conv, catalogue, task, h + [e])
  {
    var h' := h + [e];
    forall i | 0 <= i < |h'| && h'[i].Called?
      ensures Grounded(conv.rules, catalogue, Known(conv, task, h'[..i]), h'[i].tool, h'[i].args)
    {
      assert h'[..i] == h[..i];
    }
    assert h == h[..|h|];
  }

  /** A decision is grounded, up to the arguments it asks for. */
  lemma DecisionsAreGrounded(conv: Conv, catalogue: E.Catalogue, s: G.State, d: G.Decision)
    requires E.WellFormed(catalogue) && ModelDecision(conv, catalogue, s, d)
    ensures DecisionGrounded(conv.rules, catalogue, Seen(conv, s.task, s.observations), d)
  {
    var seen := Seen(conv, s.task, s.observations);
    var names, unavailable, reply :|
      d == Decision(conv, Offered(catalogue, names), unavailable, s.task, seen, reply);
    if !d.NoTool? {
      var tool := catalogue[reply.tool];
      TaskIsSeen(conv, s.task, s.observations);
      forall name | name in IdentifierArgs(tool)
        ensures if Blank(Get(d.args, name)) then name in Missing(tool, d.args) else Show(conv.rules, d.args[name]) in seen
      {
        IdentifiersWereSeen(conv, tool, reply.args, s.task, seen, name);
        G.RemainingAre(d.args, tool.required, name);
      }
    }
  }

  lemma AnswersKeepGrounds(rules: TextRules, catalogue: E.Catalogue, known: set<string>, s: G.State, values: Args)
    requires GroundedUpTo(rules, catalogue, known, s.tool, s.args, s.missing)
    requires forall k | k in values && !Blank(values[k]) :: Show(rules, values[k]) in known
    ensures var args := G.Merged(s.args, values);
            GroundedUpTo(rules, catalogue, known, s.tool, args, G.Remaining(args, s.missing))
  {
    var args := G.Merged(s.args, values);
    forall name | name in IdentifierArgs(catalogue[s.tool])
      ensures if Blank(Get(args, name)) then name in G.Remaining(args, s.missing) else Show(rules, args[name]) in known
    {
      G.RemainingAre(args, s.missing, name);
    }
  }

  predicate DecisionGrounded(rules: TextRules, catalogue: E.Catalogue, known: set<string>, d: G.Decision) {
    match d
    case NoTool(_) => true
    case UseTool(tool, args, _) => Grounded(rules, catalogue, known, tool, args)
    case Clarify(tool, args, missing) => GroundedUpTo(rules, catalogue, known, tool, args, missing)
  }

  lemma PlanKeepsNodeInv(rules: TextRules, catalogue: E.Catalogue, known: set<string>, s: G.State, d: G.Decision)
    requires NodeInv(rules, catalogue, known, G.Plan, s) && DecisionGrounded(rules, catalogue, known, d)
    ensures var s' := G.PlanNode(s, d); NodeInv(rules, catalogue, known, G.AfterPlan(s'), s')
  {
  }

  lemma CallKeepsNodeInv(rules: TextRules, catalogue: E.Catalogue, known: set<string>, s: G.State, a: G.ToolAnswer)
    requires NodeInv(rules, catalogue, known, G.CallTool, s)
    ensures var s' := G.CallNode(s, a); NodeInv(rules, catalogue, known, G.AfterCall(s'), s')
  {
  }

  lemma AskKeepsNodeInv(rules: TextRules, catalogue: E.Catalogue, known: set<string>, s: G.State, values: Args)
    requires NodeInv(rules, catalogue, known, G.AskClarification, s)
    requires forall k | k in values && !Blank(values[k]) :: Show(rules, values[k]) in known
    ensures var s' := G.AskNode(s, values); NodeInv(rules, catalogue, known, G.AfterClarification(s'), s')
  {
    AnswersKeepGrounds(rules, catalogue, known, s, values);
    var args := G.Merged(s.args, values);
    if G.Remaining(args, s.missing) == [] {
      assert Grounded(rules, catalogue, known, s.tool, args);
    }
  }

  lemma KnownGrows(rules: TextRules, catalogue: E.Catalogue, known: set<string>, more: set<string>,
                   node: G.Node, s: G.State)
    requires NodeInv(rules, catalogue, known, node, s) && known <= more
    ensures NodeInv(rules, catalogue, more, node, s)
  {
  }

  lemma StepKeepsNodeInv(rules: TextRules, catalogue: E.Catalogue, known: set<string>, c: G.Config, input: G.Input)
    requires NodeInv(rules, catalogue, known, c.node, c.state) && G.Expects(c.node, input)
    requires input.Decides? ==> DecisionGrounded(rules, catalogue, known, input.decision)
    requires input.Supplies? ==>
      forall k | k in input.values && !Blank(input.values[k]) :: Show(rules, input.values[k]) in known
    ensures NodeInv(rules, catalogue, known, G.Step(c, input).node, G.Step(c, input).state)
  {
    match input {
      case Decides(d) => PlanKeepsNodeInv(rules, catalogue, known, c.state, d);
      case Answers(a) => CallKeepsNodeInv(rules, catalogue, known, c.state, a);
      case Supplies(values) => AskKeepsNodeInv(rules, catalogue, known, c.state, values);
      case _ =>
    }
  }

  lemma EventRecordsStep(c: G.Config, input: G.Input)
    requires G.Expects(c.node, input)
    ensures var next := G.Step(c, input);
            var e := next.history[|c.history|];
            && next.history == c.history + [e]
            && next.state.task == c.state.task
            && (e.Called? ==> c.node.CallTool? && e.tool == c.state.tool && e.args == c.state.args)
            && (e.Supplied? <==> input.Supplies?) && (e.Supplied? ==> e.values == input.values)
            && next.state.observations ==
               if G.IsSuccess(e)
               then c.state.observations + [G.Observation(e.tool, e.args, e.answer.result)]
               else c.state.observations
  {
  }

  lemma StepKeepsInv(conv: Conv, catalogue: E.Catalogue, task: string, c: G.Config, input: G.Input)
    requires E.WellFormed(catalogue) && Inv(conv, catalogue, task, c) && G.Expects(c.node, input)
    requires input.Decides? ==> ModelDecision(conv, catalogue, c.state, input.decision)
    ensures Inv(conv, catalogue, task, G.Step(c, input))
  {
    var next := G.Step(c, input);
    var e := next.history[|c.history|];
    var known, more := Known(conv, task, c.history), Known(conv, task, next.history);
    EventRecordsStep(c, input);
    KnownSnoc(conv, task, c.history, e);
    CallsSnoc(conv, catalogue, task, c.history, e);
    KnownGrows(conv.rules, catalogue, known, more, c.node, c.state);
    if input.Decides? {
      DecisionsAreGrounded(conv, catalogue, c.state, input.decision);
    }
    StepKeepsNodeInv(conv.rules, catalogue, more, c, input);
  }

  /** Over whole runs, for every model and every person: each required identifier of each
      tool call is a token of the task or of an earlier observation, or a value that a
      person supplied. */
  lemma {:induction false} EveryIdentifierIsKnown(conv: Conv, catalogue: E.Catalogue, task: string, c: G.Config,
                                                  inputs: seq<G.Input>)
    requires E.WellFormed(catalogue) && Inv(conv, catalogue, task, c)
    requires G.Accepted(c, inputs) && Driven(conv, catalogue, c, inputs)
    ensures Inv(conv, catalogue, task, G.Run(c, inputs))
    decreases |inputs|
  {
    if inputs != [] {
      StepKeepsInv(conv, catalogue, task, c, inputs[0]);
      EveryIdentifierIsKnown(conv, catalogue, task, G.Step(c, inputs[0]), inputs[1..]);
    }
  }

  lemma RunsAreGrounded(conv: Conv, catalogue: E.Catalogue, task: string, inputs: seq<G.Input>)
    requires E.WellFormed(catalogue)
    requires G.Accepted(G.Start(task), inputs) && Driven(conv, catalogue, G.Start(task), inputs)
    ensures CallsGrounded(conv, catalogue, task, G.Run(G.Start(task), inputs).history)
  {
    EveryIdentifierIsKnown(conv, catalogue, task, G.Start(task), inputs);
  }

  // ---- Decided arguments are coerced ---------------------------------------------------

  /** Identifier arguments are declared as text, as every catalogue entry declares them. */
  predicate TextIdentifiers(catalogue: E.Catalogue) {
    forall name | name in catalogue ::
      forall id | id in IdentifierArgs(catalogue[name]) && id in catalogue[name].properties ::
        catalogue[name].properties[id] == Text
  }

  predicate CoercedCall(rules: TextRules, catalogue: E.Catalogue, tool: string, args: Args) {
    tool in catalogue && Coerced(rules, catalogue[tool].properties, args) == args
  }

  /** In a pass whose plan visit chose a tool, the state holds that choice, coerced. */
  predicate ChoiceStands(rules: TextRules, catalogue: E.Catalogue, c: G.Config) {
    match G.LastPlan(c.history)
    case Some(UseTool(tool, args, _)) =>
      c.state.tool == tool && c.state.args == args && CoercedCall(rules, catalogue, tool, args)
      && !c.node.AskClarification?
    case _ => true
  }

  lemma ChoicesAreCoerced(conv: Conv, catalogue: E.Catalogue, s: G.State, d: G.Decision)
    requires E.WellFormed(catalogue) && TextIdentifiers(catalogue)
    requires ModelDecision(conv, catalogue, s, d) && d.UseTool?
    ensures CoercedCall(conv.rules, catalogue, d.tool, d.args)
  {
    var seen := Seen(conv, s.task, s.observations);
    var names, unavailable, reply :|
      d == Decision(conv, Offered(catalogue, names), unavailable, s.task, seen, reply);
    DecisionsAreCoerced(conv, catalogue[reply.tool], reply.args, s.task, seen);
  }

  lemma StepKeepsChoice(conv: Conv, catalogue: E.Catalogue, c: G.Config, input: G.Input)
    requires E.WellFormed(catalogue) && TextIdentifiers(catalogue) && G.Expects(c.node, input)
    requires ChoiceStands(conv.rules, catalogue, c) && (c.node.Plan? ==> c.state.status.Unset? || c.state.status.Ok?)
    requires input.Decides? ==> ModelDecision(conv, catalogue, c.state, input.decision)
    ensures ChoiceStands(conv.rules, catalogue, G.Step(c, input))
  {
    G.HistorySnoc(c.history, G.EventOf(c.state, input));
    if input.Decides? && input.decision.UseTool? {
      ChoicesAreCoerced(conv, catalogue, c.state, input.decision);
    }
  }

  /** Over whole runs: the arguments of a call the model chose outright are a fixpoint of the
      coercion that the enforcement point applies, so an approval of them can match. */
  lemma {:induction false} ChosenCallsAreCoerced(conv: Conv, catalogue: E.Catalogue, task: string, c: G.Config,
                                                 inputs: seq<G.Input>)
    requires E.WellFormed(catalogue) && TextIdentifiers(catalogue)
    requires Inv(conv, catalogue, task, c) && ChoiceStands(conv.rules, catalogue, c)
    requires G.Accepted(c, inputs) && Driven(conv, catalogue, c, inputs)
    ensures ChoiceStands(conv.rules, catalogue, G.Run(c, inputs))
    decreases |inputs|
  {
    if inputs != [] {
      StepKeepsInv(conv, catalogue, task, c, inputs[0]);
      StepKeepsChoice(conv, catalogue, c, inputs[0]);
      ChosenCallsAreCoerced(conv, catalogue, task, G.Step(c, inputs[0]), inputs[1..]);
    }
  }

  // ---- Undeclared arguments come from people --------------------------------------------

  predicate Undeclared(catalogue: E.Catalogue, key: string) {
    forall name | name in catalogue :: key !in catalogue[name].properties
  }

  lemma DecisionsKeepToTheSchema(conv: Conv, catalogue: E.Catalogue, s: G.State, d: G.Decision, key: string)
    requires Undeclared(catalogue, key) && ModelDecision(conv, catalogue, s, d) && !d.NoTool?
    ensures key !in d.args
  {
    var seen := Seen(conv, s.task, s.observations);
    var names, unavailable, reply :|
      d == Decision(conv, Offered(catalogue, names), unavailable, s.task, seen, reply);
    assert key !in catalogue[reply.tool].properties;
  }

  /** What the arguments hold under a key is what a person supplied in this pass. */
  predicate OnlySupplied(c: G.Config, key: string) {
    !c.node.End? ==> Get(c.state.args, key) == G.SuppliedInPass(c.history, key)
  }

  lemma StepKeepsOnlySupplied(conv: Conv, catalogue: E.Catalogue, c: G.Config, input: G.Input, key: string)
    requires Undeclared(catalogue, key) && OnlySupplied(c, key) && G.Expects(c.node, input)
    requires input.Decides? ==> ModelDecision(conv, catalogue, c.state, input.decision)
    ensures OnlySupplied(G.Step(c, input), key)
  {
    var e := G.EventOf(c.state, input);
    assert (c.history + [e])[..|c.history|] == c.history;
    if input.Decides? && !input.decision.NoTool? {
      DecisionsKeepToTheSchema(conv, catalogue, c.state, input.decision, key);
    }
  }

  /** In every run that the model drives, what the arguments of a call hold under a key that
      no tool declares is what a person supplied under it in the same pass, or nothing. */
  lemma {:induction false} UndeclaredArgsWereSupplied(conv: Conv, catalogue: E.Catalogue, c: G.Config,
                                                      inputs: seq<G.Input>, key: string)
    requires Undeclared(catalogue, key) && OnlySupplied(c, key)
    requires G.Accepted(c, inputs) && Driven(conv, catalogue, c, inputs)
    ensures OnlySupplied(G.Run(c, inputs), key)
    decreases |inputs|
  {
    if inputs != [] {
      StepKeepsOnlySupplied(conv, catalogue, c, inputs[0], key);
      UndeclaredArgsWereSupplied(conv, catalogue, G.Step(c, inputs[0]), inputs[1..], key);
    }
  }

  // ---- What the model can launder --------------------------------------------------------

  /** What a person's answers told: the values as text, and the identifiers in them. */
  function Told(rules: TextRules, values: Args): set<string> {
    (set k | k in values && !Blank(values[k]) :: Show(rules, values[k]))
    + (set k, token | k in values && !Blank(values[k]) && token in Tokens(Show(rules, values[k])) :: token)
  }

  /** What the world outside the model showed: the task, people, the results of calls and the
      names of their tools. The arguments of a call are left out, since the model may have
      written those; and so is what its result only repeats of them. */
  function World(conv: Conv, task: string, h: seq<G.Event>): set<string> {
    if h == [] then Tokens(task)
    else
      var before, e := World(conv, task, h[..|h| - 1]), h[|h| - 1];
      if G.IsSuccess(e)
      then before + (Tokens(conv.resultText(e.answer.result)) - Tokens(conv.argsText(e.args))) + Tokens(e.tool)
      else if e.Supplied? then before + Told(conv.rules, e.values)
      else before
  }

  /** The identifiers that the arguments of the successful calls named. */
  function NamedInArgs(conv: Conv, h: seq<G.Event>): set<string> {
    if h == [] then {}
    else
      var before, e := NamedInArgs(conv, h[..|h| - 1]), h[|h| - 1];
      if G.IsSuccess(e) then before + Tokens(conv.argsText(e.args)) else before
  }

  /** Whatever the run has been shown and the world has not, some call's arguments named. */
  lemma {:induction false} ShownBeyondTheWorld(conv: Conv, task: string, h: seq<G.Event>)
    ensures Seen(conv, task, G.ObservedIn(h)) <= World(conv, task, h) + NamedInArgs(conv, h)
    ensures NamedInArgs(conv, h) <= Seen(conv, task, G.ObservedIn(h))
  {
    if h != [] {
      var front, e := h[..|h| - 1], h[|h| - 1];
      ShownBeyondTheWorld(conv, task, front);
      if G.IsSuccess(e) {
        SeenSnoc(conv, task, G.ObservedIn(front), G.Observation(e.tool, e.args, e.answer.result));
      }
    }
  }

  lemma SeenSnoc(conv: Conv, task: string, observations: seq<G.Observation>, o: G.Observation)
    ensures Seen(conv, task, observations + [o]) == Seen(conv, task, observations) + Shown(conv, o)
  {
    assert (observations + [o])[..|observations|] == observations;
  }

  /** In every run, the observations are what the successful calls returned. */
  lemma {:induction false} ObservationsAreRecorded(c: G.Config, inputs: seq<G.Input>)
    requires G.Accepted(c, inputs) && c.state.observations == G.ObservedIn(c.history)
    ensures var end := G.Run(c, inputs);
            end.state.observations == G.ObservedIn(end.history) && end.state.task == c.state.task
    decreases |inputs|
  {
    if inputs != [] {
      var next := G.Step(c, inputs[0]);
      EventRecordsStep(c, inputs[0]);
      ObservedSnoc(c.history, next.history[|c.history|]);
      ObservationsAreRecorded(next, inputs[1..]);
    }
  }

  lemma ObservedSnoc(h: seq<G.Event>, e: G.Event)
    ensures G.ObservedIn(h + [e]) ==
      if G.IsSuccess(e) then G.ObservedIn(h) + [G.Observation(e.tool, e.args, e.answer.result)] else G.ObservedIn(h)
  {
    assert (h + [e])[..|h|] == h;
  }

  /** The call's arguments name no identifier that the world has not shown. */
  predicate CleanCall(conv: Conv, task: string, before: seq<G.Event>, e: G.Event) {
    e.Called? ==> Tokens(conv.argsText(e.args)) <= World(conv, task, before)
  }

  predicate CleanCalls(conv: Conv, task: string, h: seq<G.Event>) {
    forall i | 0 <= i < |h| :: CleanCall(conv, task, h[..i], h[i])
  }

  lemma CleanPrefix(conv: Conv, task: string, h: seq<G.Event>, n: nat)
    requires n <= |h| && CleanCalls(conv, task, h)
    ensures CleanCalls(conv, task, h[..n])
  {
    forall i | 0 <= i < n
      ensures CleanCall(conv, task, h[..n][..i], h[..n][i])
    {
      assert h[..n][..i] == h[..i];
    }
  }

  lemma {:induction false} CleanCallsShowTheWorld(conv: Conv, task: string, h: seq<G.Event>)
    requires CleanCalls(conv, task, h)
    ensures Known(conv, task, h) <= World(conv, task, h)
  {
    if h != [] {
      var front, e := h[..|h| - 1], h[|h| - 1];
      CleanPrefix(conv, task, h, |front|);
      CleanCallsShowTheWorld(conv, task, front);
      assert CleanCall(conv, task, front, e);
      KnownSnoc(conv, task, front, e);
      assert front + [e] == h;
      var all := G.ObservedIn(h);
      if |all| > |G.ObservedIn(front)| {
        assert all[..|all| - 1] == G.ObservedIn(front);
      }
    }
  }

  /** As long as every call names only what the world has shown, so does the next one: no
      identifier of any call ever originates with the model. */
  lemma CleanRunsStayClean(conv: Conv, catalogue: E.Catalogue, task: string, inputs: seq<G.Input>, i: nat)
    requires E.WellFormed(catalogue)
    requires G.Accepted(G.Start(task), inputs) && Driven(conv, catalogue, G.Start(task), inputs)
    requires var h := G.Run(G.Start(task), inputs).history;
             i < |h| && h[i].Called? && CleanCalls(conv, task, h[..i])
    ensures var h := G.Run(G.Start(task), inputs).history;
            Grounded(conv.rules, catalogue, World(conv, task, h[..i]), h[i].tool, h[i].args)
  {
    var h := G.Run(G.Start(task), inputs).history;
    RunsAreGrounded(conv, catalogue, task, inputs);
    CleanCallsShowTheWorld(conv, task, h[..i]);
  }

  /** A tool whose one required argument is an identifier. */
  predicate ReadsById(catalogue: E.Catalogue, tool: string, field: string) {
    && tool in catalogue && tool != ""
    && catalogue[tool].required == [field] && NamesAnIdentifier(field)
    && field in catalogue[tool].properties && catalogue[tool].properties[field] == Text
  }

  function DecisionAt(conv: Conv, catalogue: E.Catalogue, task: string, c: G.Config, tool: string, reply: Reply)
    : G.Decision
  {
    Decision(conv, Offered(catalogue, {tool}), {}, task, Seen(conv, task, c.state.observations), reply)
  }

  /** The decision calls the tool on an identifier that the world has not shown. */
  predicate Introduces(conv: Conv, task: string, h: seq<G.Event>, d: G.Decision, field: string) {
    d.UseTool? && Show(conv.rules, Get(d.args, field)) !in World(conv, task, h)
  }

  /** Any identifier the run has been shown, the model can have called. */
  lemma ShownIdCanBeCalled(conv: Conv, catalogue: E.Catalogue, task: string, c: G.Config,
                           tool: string, field: string, id: string)
    requires E.WellFormed(catalogue) && ReadsById(catalogue, tool, field)
    requires id in Seen(conv, task, c.state.observations) && id != ""
    ensures var d := DecisionAt(conv, catalogue, task, c, tool, Proposes(tool, map[field := Str(id)], false));
            d.UseTool? && Get(d.args, field) == Str(id)
  {
    var t, seen := catalogue[tool], Seen(conv, task, c.state.observations);
    var final := Proposed(conv, t, map[field := Str(id)], task, seen);
    ShownIdIsKept(conv, t, task, seen, field, id);
    MissingOne(final, field);
    assert Offered(catalogue, {tool})[tool] == t;
  }

  lemma ShownIdIsKept(conv: Conv, t: E.Tool, task: string, seen: set<string>, field: string, id: string)
    requires field in t.properties && t.properties[field] == Text && id in seen && id != ""
    ensures Get(Proposed(conv, t, map[field := Str(id)], task, seen), field) == Str(id)
  {
    var args := map[field := Str(id)];
    var filled := WithGapsFilled(t.properties, args, Extracted(conv, task));
    assert !Gap(Get(args, field));
    assert filled[field] == Str(id);
  }

  lemma MissingOne(args: Args, field: string)
    requires !Blank(Get(args, field))
    ensures G.Remaining(args, [field]) == []
  {
    assert G.Remaining(args, [field][1..]) == [];
  }

  lemma CalledIdWasShown(conv: Conv, catalogue: E.Catalogue, task: string, c: G.Config,
                         tool: string, field: string, reply: Reply)
    requires E.WellFormed(catalogue) && ReadsById(catalogue, tool, field) && c.state.task == task
    requires DecisionAt(conv, catalogue, task, c, tool, reply).UseTool?
    ensures var id := Show(conv.rules, Get(DecisionAt(conv, catalogue, task, c, tool, reply).args, field));
            id in Seen(conv, task, c.state.observations) && id != ""
  {
    var d := DecisionAt(conv, catalogue, task, c, tool, reply);
    assert ModelDecision(conv, catalogue, c.state, d);
    DecisionsAreGrounded(conv, catalogue, c.state, d);
    assert d.tool == tool && field in IdentifierArgs(catalogue[tool]);
    SeenAreTokens(conv, task, c.state.observations, Show(conv.rules, d.args[field]));
  }

  /** In every run, the model can get a call made on an identifier of its own if and only if
      the arguments of some earlier successful call named one that the world has not shown. */
  lemma ModelCanIntroduceIff(conv: Conv, catalogue: E.Catalogue, task: string, inputs: seq<G.Input>,
                             tool: string, field: string)
    requires E.WellFormed(catalogue) && ReadsById(catalogue, tool, field) && G.Accepted(G.Start(task), inputs)
    ensures var c := G.Run(G.Start(task), inputs);
            (exists reply :: Introduces(conv, task, c.history, DecisionAt(conv, catalogue, task, c, tool, reply), field))
            <==> (exists id :: id in NamedInArgs(conv, c.history) && id !in World(conv, task, c.history))
  {
    var c := G.Run(G.Start(task), inputs);
    var named, world := NamedInArgs(conv, c.history), World(conv, task, c.history);
    ObservationsAreRecorded(G.Start(task), inputs);
    ShownBeyondTheWorld(conv, task, c.history);
    if id :| id in named && id !in world {
      SeenAreTokens(conv, task, c.state.observations, id);
      ShownIdCanBeCalled(conv, catalogue, task, c, tool, field, id);
      assert Introduces(conv, task, c.history,
                        DecisionAt(conv, catalogue, task, c, tool, Proposes(tool, map[field := Str(id)], false)), field);
    }
    forall reply | Introduces(conv, task, c.history, DecisionAt(conv, catalogue, task, c, tool, reply), field)
      ensures exists id :: id in named && id !in world
    {
      CalledIdWasShown(conv, catalogue, task, c, tool, field, reply);
      assert Show(conv.rules, Get(DecisionAt(conv, catalogue, task, c, tool, reply).args, field)) in named;
    }
  }

  /** And such an identifier was named by one call of the run, which succeeded. */
  lemma {:induction false} NamedByACall(conv: Conv, h: seq<G.Event>, id: string)
    ensures id in NamedInArgs(conv, h)
       <==> exists i :: 0 <= i < |h| && G.IsSuccess(h[i]) && id in Tokens(conv.argsText(h[i].args))
  {
    if h != [] {
      var front := h[..|h| - 1];
      NamedByACall(conv, front, id);
      assert forall i | 0 <= i < |front| :: front[i] == h[i];
    }
  }

  lemma {:induction false} SeenAreTokens(conv: Conv, task: string, observations: seq<G.Observation>, id: string)
    requires id in Seen(conv, task, observations)
    ensures |id| > 2
    decreases |observations|
  {
    if observations != [] && id !in Shown(conv, observations[|observations| - 1]) {
      SeenAreTokens(conv, task, observations[..|observations| - 1], id);
    }
  }

  // ---- A concrete run of the exception -----------------------------------------------------

  const DRAFT := E.Tool("tickets.reply.draft", map["ticket_id" := Text, "body" := Text], ["ticket_id", "body"], false)
  const QUOTE := E.Tool("refunds.quote", map["order_id" := Text], ["order_id"], false)
  const TWO_TOOLS: E.Catalogue := map["tickets.reply.draft" := DRAFT, "refunds.quote" := QUOTE]
  const DRAFT_ARGS: Args := map["ticket_id" := Str("t-1"), "body" := Str("see o-9")]

  lemma NoDashNoToken(text: string)
    requires '-' !in text
    ensures Tokens(text) == {}
  {
  }

  lemma OneToken()
    ensures Tokens("t-1") == {"t-1"}
  {
    var text := "t-1";
    assert TokenAt(text, 0, 3) && text[0..3] == text;
    assert text in Tokens(text);
    forall token | token in Tokens(text)
      ensures token == text
    {
      var i, j :| 0 <= i < |text| && 0 <= j <= |text| && TokenAt(text, i, j) && token == text[i..j];
      assert i == 0 && j == 3;
    }
  }

  lemma DraftIsFilled(conv: Conv)
    ensures Coerced(conv.rules, DRAFT.properties, WithGapsFilled(DRAFT.properties, DRAFT_ARGS, Extracted(conv, "t-1")))
         == DRAFT_ARGS
  {
    var extracted := Extracted(conv, "t-1");
    assert !Gap(DRAFT_ARGS["ticket_id"]) && !Gap(DRAFT_ARGS["body"]);
    assert WithGapsFilled(DRAFT.properties, DRAFT_ARGS, extracted) == DRAFT_ARGS;
    assert Coerced(conv.rules, DRAFT.properties, DRAFT_ARGS) == DRAFT_ARGS;
  }

  lemma DraftIsResolved(rules: TextRules, seen: set<string>, extracted: Args)
    requires "t-1" in seen
    ensures Resolved(rules, IdentifierArgs(DRAFT), DRAFT_ARGS, seen, extracted) == DRAFT_ARGS
  {
    assert !NamesAnIdentifier("body") by {
      assert "body"[1..] == "ody";
    }
    assert !Invented(rules, DRAFT_ARGS, seen, "ticket_id");
  }

  lemma DraftIsComplete()
    ensures Missing(DRAFT, DRAFT_ARGS) == []
  {
    assert DRAFT.required[1..] == ["body"];
    MissingOne(DRAFT_ARGS, "body");
  }

  const DRAFT_DECISION := G.UseTool("tickets.reply.draft", DRAFT_ARGS, true)

  /** The model's draft of a reply passes the guardrails as it is: only the ticket is an
      identifier argument, and the task names it. */
  lemma DraftPasses(conv: Conv, seen: set<string>)
    requires "t-1" in seen
    ensures Decision(conv, Offered(TWO_TOOLS, {"tickets.reply.draft"}), {}, "t-1", seen,
                     Proposes("tickets.reply.draft", DRAFT_ARGS, true))
         == DRAFT_DECISION
  {
    DraftIsFilled(conv);
    DraftIsResolved(conv.rules, seen, Extracted(conv, "t-1"));
    DraftIsComplete();
    assert Offered(TWO_TOOLS, {"tickets.reply.draft"})["tickets.reply.draft"] == DRAFT;
  }

  /** The inputs up to the second plan visit: a draft whose body the model wrote, and the
      draft handler's answer, which repeats the body. */
  function DraftInputs(draft: Val): seq<G.Input> {
    [G.Decides(DRAFT_DECISION), G.Answers(G.Answered(G.CallOk, draft))]
  }

  function AfterDraft(draft: Val): G.Config {
    G.Step(G.Step(G.Start("t-1"), G.Decides(DRAFT_DECISION)), G.Answers(G.Answered(G.CallOk, draft)))
  }

  lemma AfterDraftIsPlan(draft: Val)
    ensures G.Accepted(G.Start("t-1"), DraftInputs(draft))
    ensures G.Run(G.Start("t-1"), DraftInputs(draft)) == AfterDraft(draft)
    ensures var c := AfterDraft(draft);
            && c.node.Plan? && c.state.task == "t-1"
            && c.state.observations == [G.Observation("tickets.reply.draft", DRAFT_ARGS, draft)]
            && c.history == [G.Planned(DRAFT_DECISION),
                             G.Called("tickets.reply.draft", DRAFT_ARGS, None, G.Answered(G.CallOk, draft))]
  {
    var a, b := DraftInputs(draft)[0], DraftInputs(draft)[1];
    assert DraftInputs(draft) == [a, b] + [];
    G.TwoThenRest(G.Start("t-1"), a, b, []);
  }

  lemma DraftIsDriven(conv: Conv)
    ensures ModelDecision(conv, TWO_TOOLS, G.Start("t-1").state, DRAFT_DECISION)
  {
    OneToken();
    assert Seen(conv, "t-1", []) == {"t-1"};
    DraftPasses(conv, {"t-1"});
  }

  /** The task names one ticket. The model drafts a reply whose body mentions an order of its
      own invention; it can then have that order called for, although neither the task, nor a
      person, nor anything but the draft and its echo ever named it. This is so whatever the
      handler returns, so also for the shipped one, which returns the draft. */
  lemma IdentifierLaunderedThroughADraft(conv: Conv, draft: Val)
    requires "o-9" in Tokens(conv.argsText(DRAFT_ARGS))
    ensures G.Accepted(G.Start("t-1"), DraftInputs(draft))
    ensures Driven(conv, TWO_TOOLS, G.Start("t-1"), DraftInputs(draft))
    ensures var c := G.Run(G.Start("t-1"), DraftInputs(draft));
            var d := DecisionAt(conv, TWO_TOOLS, "t-1", c, "refunds.quote",
                                Proposes("refunds.quote", map["order_id" := Str("o-9")], false));
            && c.node.Plan? && d.UseTool? && Get(d.args, "order_id") == Str("o-9")
            && Introduces(conv, "t-1", c.history, d, "order_id")
  {
    DraftIsDriven(conv);
    AfterDraftIsPlan(draft);
    DraftRunIsDriven(conv, draft);
    DraftShowsTheOrder(conv, draft);
    LaunderedFrom(conv, AfterDraft(draft), draft);
  }

  lemma DraftRunIsDriven(conv: Conv, draft: Val)
    requires G.Accepted(G.Start("t-1"), DraftInputs(draft))
    requires ModelDecision(conv, TWO_TOOLS, G.Start("t-1").state, DRAFT_DECISION)
    ensures Driven(conv, TWO_TOOLS, G.Start("t-1"), DraftInputs(draft))
  {
    var a, b := DraftInputs(draft)[0], DraftInputs(draft)[1];
    assert DraftInputs(draft)[1..] == [b] && [b][1..] == [];
    var next := G.Step(G.Start("t-1"), a);
    assert Driven(conv, TWO_TOOLS, G.Step(next, b), []);
    assert Driven(conv, TWO_TOOLS, next, [b]);
  }

  lemma DraftShowsTheOrder(conv: Conv, draft: Val)
    requires "o-9" in Tokens(conv.argsText(DRAFT_ARGS))
    ensures "o-9" in Seen(conv, "t-1", [G.Observation("tickets.reply.draft", DRAFT_ARGS, draft)])
  {
    var o := G.Observation("tickets.reply.draft", DRAFT_ARGS, draft);
    assert [o][..0] == [] && "o-9" in Shown(conv, o);
  }

  lemma QuoteReadsById()
    ensures ReadsById(TWO_TOOLS, "refunds.quote", "order_id")
  {
    assert "order_id"[5..] == "_id";
  }

  lemma LaunderedFrom(conv: Conv, c: G.Config, draft: Val)
    requires "o-9" in Tokens(conv.argsText(DRAFT_ARGS))
    requires "o-9" in Seen(conv, "t-1", c.state.observations)
    requires c.history == [G.Planned(DRAFT_DECISION),
                           G.Called("tickets.reply.draft", DRAFT_ARGS, None, G.Answered(G.CallOk, draft))]
    ensures var d := DecisionAt(conv, TWO_TOOLS, "t-1", c, "refunds.quote",
                                Proposes("refunds.quote", map["order_id" := Str("o-9")], false));
            && d.UseTool? && Get(d.args, "order_id") == Str("o-9")
            && Introduces(conv, "t-1", c.history, d, "order_id")
  {
    QuoteReadsById();
    ShownIdCanBeCalled(conv, TWO_TOOLS, "t-1", c, "refunds.quote", "order_id", "o-9");
    WorldOfTheRun(conv, c.history[0], c.history[1]);
  }

  lemma WorldOfTheRun(conv: Conv, a: G.Event, b: G.Event)
    requires a.Planned? && b.Called? && G.IsSuccess(b) && b.tool == "tickets.reply.draft"
    ensures World(conv, "t-1", [a, b])
         == {"t-1"} + (Tokens(conv.resultText(b.answer.result)) - Tokens(conv.argsText(b.args)))
  {
    OneToken();
    NoDashNoToken("tickets.reply.draft");
    assert [a, b][..1] == [a] && [a][..0] == [];
    assert World(conv, "t-1", [a]) == {"t-1"};
  }
}
