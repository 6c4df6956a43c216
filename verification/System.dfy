/** One agent run on the live platform (app/agent/live.py): the graph's calls go through the
    enforcement point and its approvals into the store, while everybody else keeps acting. */
module System {
  import opened Values
  import opened Schema
  import E = Enforcement
  import A = Approvals
  import L = Ledger
  import P = Platform
  import G = Graph
  import D = Decide
  import opened Identifiers
  import Provenance

  /** The run, the platform, and how many times the run's own calls moved money. */
  datatype Sys = Sys(run: G.Config, platform: P.State, moved: nat)

  /** `lost` means that the service acted but its answer did not arrive; `result` is what the
      run reads in an answer that did. */
  datatype Step =
    | World(input: G.Input)
    | AgentCall(d: E.Delegation, verdict: E.Verdict, reachable: bool, backend: E.Backend, lost: bool, result: Val)
    | AgentCreate(d: E.Delegation, id: G.ApprovalId, reason: string, at: real, lost: bool)
    | Others(step: P.Step)

  /** The request body: the arguments, and the approval id when there is one. */
  function Body(s: G.State): Args {
    if G.CarriesApproval(s) then s.args["approval_id" := Str(s.approvalId.value)] else s.args
  }

  function CallOf(s: G.State, step: Step): E.Call
    requires step.AgentCall?
  {
    E.Call(E.Verified(step.d), s.tool, Body(s), step.verdict, step.reachable, step.backend)
  }

  function AnswerOf(o: E.Outcome): G.CallStatus {
    match o
    case Ok => G.CallOk
    case Denied => G.CallDenied
    case ApprovalRequired => G.CallHeld
    case Error => G.CallError
  }

  function RequestOf(s: G.State, step: Step): A.Request
    requires step.AgentCreate?
  {
    A.Request(s.tool, s.args, step.d.user, step.d.workload, step.reason, E.TenantOf(step.d))
  }

  predicate Enabled(y: Sys, step: Step) {
    match step
    case World(input) =>
      (y.run.node.Plan? || y.run.node.AwaitDecision? || y.run.node.AskClarification?) && G.Expects(y.run.node, input)
    case AgentCall(_, _, _, _, _, _) => y.run.node.CallTool?
    case AgentCreate(_, id, _, _, _) => y.run.node.CreateApproval? && P.ApprovalId(id) && id !in y.platform.table
    case Others(step) => P.LegalStep(y.platform, step)
  }

  /** What the graph hears of a step; nothing of what others do. */
  function InputOf(env: E.Env, y: Sys, step: Step): (input: Option<G.Input>)
    requires Enabled(y, step)
    ensures input.Some? ==> G.Expects(y.run.node, input.value)
  {
    match step
    case World(input) => Some(input)
    case Others(_) => None
    case AgentCreate(_, id, _, _, lost) => Some(G.Creates(if lost then None else Some(id)))
    case AgentCall(_, _, _, _, lost, result) =>
      var outcome := E.OutcomeOf(env, y.platform.table, y.platform.book, CallOf(y.run.state, step));
      Some(G.Answers(if G.Repeats(y.run.state) || lost then G.Raised else G.Answered(AnswerOf(outcome), result)))
  }

  /** What the platform sees of a step. A repeated call is not made. */
  function PlatformStepOf(y: Sys, step: Step): (p: Option<P.Step>)
    requires Enabled(y, step)
    ensures p.Some? ==> P.LegalStep(y.platform, p.value)
  {
    match step
    case World(_) => None
    case Others(step) => Some(step)
    case AgentCreate(_, id, _, at, _) => Some(P.Approvals(A.Create(id, RequestOf(y.run.state, step), at)))
    case AgentCall(_, _, _, _, _, _) => if G.Repeats(y.run.state) then None else Some(P.Invoke(CallOf(y.run.state, step)))
  }

  function RunAfter(env: E.Env, y: Sys, step: Step): G.Config
    requires Enabled(y, step)
  {
    match InputOf(env, y, step)
    case None => y.run
    case Some(input) => G.Step(y.run, input)
  }

  function PlatformAfter(env: E.Env, y: Sys, step: Step): P.State
    requires Enabled(y, step)
  {
    match PlatformStepOf(y, step)
    case None => y.platform
    case Some(p) => P.Next(env, y.platform, p)
  }

  function Next(env: E.Env, y: Sys, step: Step): Sys
    requires Enabled(y, step)
  {
    var platform := PlatformAfter(env, y, step);
    Sys(RunAfter(env, y, step), platform,
        y.moved + if step.AgentCall? && platform.book != y.platform.book then 1 else 0)
  }

  predicate Legal(env: E.Env, y: Sys, steps: seq<Step>)
    decreases |steps|
  {
    steps == [] || (Enabled(y, steps[0]) && Legal(env, Next(env, y, steps[0]), steps[1..]))
  }

  function Run(env: E.Env, y: Sys, steps: seq<Step>): Sys
    requires Legal(env, y, steps)
    decreases |steps|
  {
    if steps == [] then y else Run(env, Next(env, y, steps[0]), steps[1..])
  }

  /** The approvals the run created are in the store, for the tool and arguments it had. */
  predicate Recorded(h: seq<G.Event>, table: A.Table) {
    forall i | 0 <= i < |h| && h[i].Created? ::
      h[i].id in table && table[h[i].id].request.tool == h[i].tool && table[h[i].id].request.args == h[i].args
  }

  predicate Inv(y: Sys) {
    && G.Inv(y.run)
    && P.Inv(y.platform)
    && Recorded(y.run.history, y.platform.table)
    && (if y.run.node.End? then y.moved <= G.MAX_STEPS else y.moved <= y.run.state.steps)
  }

  function Initial(task: string): Sys {
    Sys(G.Start(task), P.INITIAL, 0)
  }

  lemma InitialHoldsInv(task: string)
    ensures Inv(Initial(task))
  {
    G.StartWithinBudget(task);
    P.InitialHoldsInv();
  }

  lemma PlatformKeepsInv(env: E.Env, y: Sys, step: Step)
    requires Inv(y) && Enabled(y, step)
    ensures P.Inv(PlatformAfter(env, y, step))
    ensures A.Evolves(y.platform.table, PlatformAfter(env, y, step).table)
  {
    match PlatformStepOf(y, step) {
      case None => A.EvolvesIsAPreorder(y.platform.table, y.platform.table, y.platform.table);
      case Some(p) => P.StepKeepsInv(env, y.platform, p);
    }
  }

  lemma RunAfterKeepsInv(env: E.Env, y: Sys, step: Step)
    requires Inv(y) && Enabled(y, step)
    ensures G.Inv(RunAfter(env, y, step))
  {
    if InputOf(env, y, step).Some? {
      G.StepKeepsInv(y.run, InputOf(env, y, step).value);
    }
  }

  lemma StepKeepsRecorded(env: E.Env, y: Sys, step: Step)
    requires Inv(y) && Enabled(y, step)
    ensures Recorded(RunAfter(env, y, step).history, PlatformAfter(env, y, step).table)
  {
    PlatformKeepsInv(env, y, step);
    var h, next, table := y.run.history, RunAfter(env, y, step).history, PlatformAfter(env, y, step).table;
    forall i | 0 <= i < |next| && next[i].Created?
      ensures next[i].id in table
           && table[next[i].id].request.tool == next[i].tool && table[next[i].id].request.args == next[i].args
    {
      if i < |h| {
        assert next[i] == h[i];
      }
    }
  }

  /** A call that moved money succeeded; the graph counts it as a step, or ends. */
  lemma StepKeepsMoved(env: E.Env, y: Sys, step: Step)
    requires Inv(y) && Enabled(y, step)
    ensures var next := Next(env, y, step);
            if next.run.node.End? then next.moved <= G.MAX_STEPS else next.moved <= next.run.state.steps
  {
    if step.AgentCall? {
      CallKeepsMoved(env, y, step);
    }
  }

  lemma CallKeepsMoved(env: E.Env, y: Sys, step: Step)
    requires G.WithinBudget(y.run) && Enabled(y, step) && step.AgentCall? && y.moved <= y.run.state.steps
    ensures var next := Next(env, y, step);
            if next.run.node.End? then next.moved <= G.MAX_STEPS else next.moved <= next.run.state.steps
  {
    if PlatformAfter(env, y, step).book != y.platform.book {
      E.NothingMovesWithoutAuthority(env, y.platform.table, y.platform.book, CallOf(y.run.state, step));
    }
  }

  lemma StepKeepsInv(env: E.Env, y: Sys, step: Step)
    requires Inv(y) && Enabled(y, step)
    ensures Inv(Next(env, y, step))
    ensures A.Evolves(y.platform.table, Next(env, y, step).platform.table)
  {
    PlatformKeepsInv(env, y, step);
    RunAfterKeepsInv(env, y, step);
    StepKeepsRecorded(env, y, step);
    StepKeepsMoved(env, y, step);
  }

  /** Over every run of the agent, among everybody else's steps: the graph's budgets, the
      platform's safety, and at most three movements of money by the run's own calls, even
      when answers are lost. */
  lemma {:induction false} EveryRunKeepsInv(env: E.Env, y: Sys, steps: seq<Step>)
    requires Inv(y) && Legal(env, y, steps)
    ensures Inv(Run(env, y, steps))
    ensures A.Evolves(y.platform.table, Run(env, y, steps).platform.table)
    decreases |steps|
  {
    A.EvolvesIsAPreorder(y.platform.table, y.platform.table, y.platform.table);
    if steps != [] {
      var next := Next(env, y, steps[0]);
      StepKeepsInv(env, y, steps[0]);
      EveryRunKeepsInv(env, next, steps[1..]);
      A.EvolvesIsAPreorder(y.platform.table, next.platform.table, Run(env, y, steps).platform.table);
    }
  }

  lemma ThreeMovementsAtMost(env: E.Env, task: string, steps: seq<Step>)
    requires Legal(env, Initial(task), steps)
    ensures Run(env, Initial(task), steps).moved <= G.MAX_STEPS
  {
    InitialHoldsInv(task);
    EveryRunKeepsInv(env, Initial(task), steps);
  }

  // ---- The graph's share of a run ---------------------------------------------------------

  function GraphInputs(env: E.Env, y: Sys, steps: seq<Step>): seq<G.Input>
    requires Legal(env, y, steps)
    decreases |steps|
  {
    if steps == [] then []
    else
      var rest := GraphInputs(env, Next(env, y, steps[0]), steps[1..]);
      match InputOf(env, y, steps[0])
      case None => rest
      case Some(input) => [input] + rest
  }

  /** Whatever the platform and the others do, the run is one of the graph's own. */
  lemma {:induction false} RunsProject(env: E.Env, y: Sys, steps: seq<Step>)
    requires Legal(env, y, steps)
    ensures G.Accepted(y.run, GraphInputs(env, y, steps))
    ensures G.Run(y.run, GraphInputs(env, y, steps)) == Run(env, y, steps).run
    decreases |steps|
  {
    if steps != [] {
      var next := Next(env, y, steps[0]);
      RunsProject(env, next, steps[1..]);
      match InputOf(env, y, steps[0]) {
        case None =>
        case Some(input) => G.RunCons(y.run, input, GraphInputs(env, next, steps[1..]));
      }
    }
  }

  /** Every plan visit of the run decides as the model's reply and the guardrails make it. */
  ghost predicate Driven(env: E.Env, conv: D.Conv, y: Sys, steps: seq<Step>)
    requires Legal(env, y, steps)
  {
    RunsProject(env, y, steps);
    Provenance.Driven(conv, env.catalogue, y.run, GraphInputs(env, y, steps))
  }

  // ---- When a call goes through -------------------------------------------------------

  /** A call that policy holds, with the store in reach. */
  predicate PolicyHolds(env: E.Env, s: G.State, step: Step) {
    step.AgentCall? && step.verdict.RequireApproval? && step.reachable && s.tool in env.catalogue
  }

  /** The run is about to make such a call. */
  predicate AboutToCall(env: E.Env, y: Sys, step: Step) {
    y.run.node.CallTool? && !G.Repeats(y.run.state) && PolicyHolds(env, y.run.state, step)
  }

  predicate IsHeld(env: E.Env, y: Sys, step: Step)
    requires step.AgentCall?
  {
    E.OutcomeOf(env, y.platform.table, y.platform.book, CallOf(y.run.state, step)).ApprovalRequired?
  }

  /** The identity of the call is the one the approval was asked for under. */
  predicate SameIdentity(r: A.Request, d: E.Delegation) {
    r.user == d.user && r.agent == d.workload && r.tenant == E.TenantOf(d)
  }

  function CoercedArgs(env: E.Env, s: G.State): Args
    requires s.tool in env.catalogue
  {
    Coerced(env.rules, env.catalogue[s.tool].properties, s.args)
  }

  /** The approval was asked for this tool and these arguments, as the enforcement point
      reads them. */
  predicate ForThisCall(env: E.Env, r: A.Request, s: G.State)
    requires s.tool in env.catalogue
  {
    r.tool == s.tool && ArgsEq(r.args, CoercedArgs(env, s))
  }

  predicate Matches(env: E.Env, table: A.Table, id: string, s: G.State, d: E.Delegation)
    requires s.tool in env.catalogue
  {
    id in table && table[id].status.Approved? && SameIdentity(table[id].request, d) && ForThisCall(env, table[id].request, s)
  }

  /** The approval id that the enforcement point reads in the call. */
  function IdRead(env: E.Env, s: G.State, step: Step): Option<string>
    requires step.AgentCall?
  {
    E.ApprovalIdOf(env.rules, CallOf(s, step).args)
  }

  lemma CallArgsOfBody(env: E.Env, s: G.State, step: Step)
    requires E.WellFormed(env.catalogue) && s.tool in env.catalogue && step.AgentCall?
    ensures E.CallArgs(env, CallOf(s, step)) == CoercedArgs(env, s)
  {
    if G.CarriesApproval(s) {
      UndeclaredKeyIsDropped(env.rules, env.catalogue[s.tool].properties, s.args, "approval_id",
                             Str(s.approvalId.value));
    }
  }

  /** A call that policy holds goes through if and only if the id it carries, wherever it
      comes from, is of an approval given for this identity, tool and arguments. */
  lemma GoesThroughIff(env: E.Env, y: Sys, step: Step)
    requires E.WellFormed(env.catalogue) && PolicyHolds(env, y.run.state, step)
    ensures var s := y.run.state;
            !IsHeld(env, y, step) <==>
              IdRead(env, s, step).Some? && Matches(env, y.platform.table, IdRead(env, s, step).value, s, step.d)
  {
    CallArgsOfBody(env, y.run.state, step);
  }

  /** What policy refuses outright ends the run: it is denied, nothing has moved, nothing was
      asked of anybody, and the call is its last event. */
  lemma PolicyDenialEndsTheRun(env: E.Env, y: Sys, step: Step)
    requires Enabled(y, step) && step.AgentCall? && !step.lost && !G.Repeats(y.run.state)
    requires step.verdict.Deny? || y.run.state.tool !in env.catalogue
    ensures var next := Next(env, y, step);
            && next.run.node.End? && next.run.state.status.Denied?
            && next.platform == y.platform
            && |next.run.history| == |y.run.history| + 1
            && next.run.history[|y.run.history|].Called?
  {
    E.OutcomeIff(env, y.platform.table, y.platform.book, CallOf(y.run.state, step));
  }

  /** When an answer is lost, the service has acted all the same: a refund is issued, an approval
      is recorded. But the run ends with an error, and has neither seen the result nor taken
      the id. */
  lemma LostAnswerEndsTheRun(env: E.Env, y: Sys, step: Step)
    requires Enabled(y, step) && (step.AgentCall? || step.AgentCreate?) && step.lost && !G.Repeats(y.run.state)
    ensures var next := Next(env, y, step);
            && next.run.node.End? && next.run.state.status.Error?
            && next.run.state.observations == y.run.state.observations
            && next.run.state.approvalId == y.run.state.approvalId
            && next.platform == Next(env, y, step.(lost := false)).platform
  {
  }

  /** A store that cannot be reached approves nothing. */
  lemma UnreachableStoreHolds(env: E.Env, y: Sys, step: Step)
    requires step.AgentCall? && step.verdict.RequireApproval? && !step.reachable && y.run.state.tool in env.catalogue
    ensures IsHeld(env, y, step)
  {
  }

  /** A call that policy holds, without an approval for it, changes nothing on the platform;
      the run waits on the id it has, or asks for one. */
  lemma HoldAsksForApproval(env: E.Env, y: Sys, step: Step)
    requires Enabled(y, step) && step.AgentCall? && !step.lost && !G.Repeats(y.run.state)
    requires E.Reaches(env, CallOf(y.run.state, step)) && step.verdict.RequireApproval?
    requires !E.CarriesApproval(env, y.platform.table, CallOf(y.run.state, step))
    ensures var next := Next(env, y, step);
            && next.run.node == (if G.CarriesApproval(y.run.state) then G.AwaitDecision else G.CreateApproval)
            && next.run.state.status.ApprovalRequired? && next.platform == y.platform
  {
    E.OutcomeIff(env, y.platform.table, y.platform.book, CallOf(y.run.state, step));
  }

  /** A handler that raises ends the run with an error; one that answers is a step, and the
      run has seen the answer. */
  lemma HandlerDecidesTheStep(env: E.Env, y: Sys, step: Step)
    requires Enabled(y, step) && step.AgentCall? && !step.lost && !G.Repeats(y.run.state)
    requires var call := CallOf(y.run.state, step);
             && E.Reaches(env, call) && !call.verdict.Deny?
             && (call.verdict.RequireApproval? ==> E.CarriesApproval(env, y.platform.table, call))
    ensures var s, next := y.run.state, Next(env, y, step).run;
            if E.HandlerRaises(env, y.platform.book, CallOf(s, step)) then next.node.End? && next.state.status.Error?
            else next.state.observations == s.observations + [G.Observation(s.tool, s.args, step.result)]
  {
    E.OutcomeIff(env, y.platform.table, y.platform.book, CallOf(y.run.state, step));
  }

  /** An approval is asked for in the name of the person, the agent and the tenant behind the
      run, for the tool and arguments that were held. */
  lemma CreationBindsTheCaller(env: E.Env, y: Sys, step: Step)
    requires Enabled(y, step) && step.AgentCreate?
    ensures var table := Next(env, y, step).platform.table;
            && step.id in table && SameIdentity(table[step.id].request, step.d)
            && table[step.id].request.tool == y.run.state.tool && table[step.id].request.args == y.run.state.args
            && table[step.id].status.Pending?
  {
  }

  // ---- Where the id comes from ------------------------------------------------------------

  function IdGiven(rules: TextRules, v: Val): Option<string> {
    if Truthy(v) then Some(Show(rules, v)) else None
  }

  /** The id of the current pass: of the approval created in it; else the one it inherited;
      else what a person supplied in it under that very name; else none. */
  function IdOfPass(rules: TextRules, h: seq<G.Event>): Option<string> {
    match G.CreatedInPass(h)
    case Some(created) => Some(created.id)
    case None =>
      if G.Inherited(h).Some? then G.Inherited(h) else IdGiven(rules, G.SuppliedInPass(h, "approval_id"))
  }

  /** In every run that the model drives, among everybody else's steps, the enforcement point
      reads exactly that id in each call. */
  lemma IdOfEachCall(env: E.Env, conv: D.Conv, task: string, steps: seq<Step>, step: Step)
    requires E.WellFormed(env.catalogue)
    requires Legal(env, Initial(task), steps) && Driven(env, conv, Initial(task), steps)
    requires Run(env, Initial(task), steps).run.node.CallTool? && step.AgentCall?
    ensures var c := Run(env, Initial(task), steps).run;
            IdRead(env, c.state, step) == IdOfPass(env.rules, c.history)
  {
    InitialHoldsInv(task);
    EveryRunKeepsInv(env, Initial(task), steps);
    RunsProject(env, Initial(task), steps);
    var inputs := GraphInputs(env, Initial(task), steps);
    Provenance.UndeclaredArgsWereSupplied(conv, env.catalogue, G.Start(task), inputs, "approval_id");
    IdInState(env, Run(env, Initial(task), steps).run, step);
  }

  lemma IdInState(env: E.Env, c: G.Config, step: Step)
    requires G.ApprovalsInOrder(c) && c.node.CallTool? && Provenance.OnlySupplied(c, "approval_id") && step.AgentCall?
    ensures IdRead(env, c.state, step) == IdOfPass(env.rules, c.history)
  {
    BodyId(env, c.state, step);
  }

  lemma BodyId(env: E.Env, s: G.State, step: Step)
    requires step.AgentCall?
    ensures IdRead(env, s, step)
         == if G.CarriesApproval(s) then s.approvalId else IdGiven(env.rules, Get(s.args, "approval_id"))
  {
  }

  /** A call whose approval was created in its own pass goes through if and only if that
      approval has been given, the identity is the same, and the arguments are unchanged by
      coercion. The last holds of every decision the model makes; it need not hold of an
      answer to a clarification, which is merged as it came. */
  lemma OwnApprovalLetsThroughIff(env: E.Env, y: Sys, step: Step)
    requires E.WellFormed(env.catalogue) && Inv(y) && y.run.node.CallTool? && PolicyHolds(env, y.run.state, step)
    requires G.CreatedInPass(y.run.history).Some?
    ensures var id := G.CreatedInPass(y.run.history).value.id;
            && id in y.platform.table
            && (!IsHeld(env, y, step) <==>
                  && y.platform.table[id].status.Approved?
                  && SameIdentity(y.platform.table[id].request, step.d)
                  && ArgsEq(y.run.state.args, CoercedArgs(env, y.run.state)))
  {
    GoesThroughIff(env, y, step);
    CreationIsAnEvent(y.run.history);
  }

  lemma {:induction false} CreationIsAnEvent(h: seq<G.Event>)
    requires G.CreatedInPass(h).Some?
    ensures exists i :: 0 <= i < |h| && h[i].Created? && h[i].id == G.CreatedInPass(h).value.id
              && h[i].tool == G.CreatedInPass(h).value.tool && h[i].args == G.CreatedInPass(h).value.args
  {
    var last := |h| - 1;
    if !h[last].Created? {
      CreationIsAnEvent(h[..last]);
    }
  }

  lemma {:induction false} StandingIsAnEvent(h: seq<G.Event>)
    requires G.Standing(h).Some?
    ensures exists i :: 0 <= i < |h| && h[i].Created? && h[i].id == G.Standing(h).value
  {
    var last := |h| - 1;
    if !h[last].Created? {
      StandingIsAnEvent(h[..last]);
    }
  }

  /** A call that inherited its approval from an earlier pass goes through if and only if
      that earlier approval was given and happens to be for the same tool and the same
      arguments. Otherwise it waits on that id again, and creates no approval of its own. */
  lemma InheritedApprovalLetsThroughIff(env: E.Env, y: Sys, step: Step)
    requires E.WellFormed(env.catalogue) && Inv(y) && AboutToCall(env, y, step)
    requires G.Inherited(y.run.history).Some?
    ensures var id := G.Inherited(y.run.history).value;
            && id in y.platform.table
            && (!IsHeld(env, y, step) <==> Matches(env, y.platform.table, id, y.run.state, step.d))
    ensures IsHeld(env, y, step) && !step.lost ==>
              var next := Next(env, y, step).run;
              next.node.AwaitDecision? && next.state.approvalId == Some(G.Inherited(y.run.history).value)
  {
    GoesThroughIff(env, y, step);
    StandingIsAnEvent(y.run.history);
  }

  /** The third way: with no approval created in the pass and none inherited, a call goes
      through if and only if a person supplied, under the name `approval_id`, the id of an
      approval given for the same call. Otherwise an approval is created for it. */
  lemma SuppliedApprovalLetsThroughIff(env: E.Env, conv: D.Conv, task: string, steps: seq<Step>, step: Step)
    requires E.WellFormed(env.catalogue)
    requires Legal(env, Initial(task), steps) && Driven(env, conv, Initial(task), steps)
    requires var y := Run(env, Initial(task), steps);
             && AboutToCall(env, y, step)
             && G.CreatedInPass(y.run.history).None? && G.Inherited(y.run.history).None?
    ensures var y := Run(env, Initial(task), steps);
            var given := G.SuppliedInPass(y.run.history, "approval_id");
            && (!IsHeld(env, y, step) <==>
                  Truthy(given) && Matches(env, y.platform.table, Show(env.rules, given), y.run.state, step.d))
            && (IsHeld(env, y, step) && !step.lost ==> Next(env, y, step).run.node.CreateApproval?)
  {
    var y := Run(env, Initial(task), steps);
    IdOfEachCall(env, conv, task, steps, step);
    GoesThroughIff(env, y, step);
    InitialHoldsInv(task);
    EveryRunKeepsInv(env, Initial(task), steps);
  }

  // ---- Waiting for an approval ---------------------------------------------------------

  /** No plan visit is among the steps: resumes, holds, and what everybody else does. */
  predicate SamePass(steps: seq<Step>) {
    forall i | 0 <= i < |steps| :: !(steps[i].World? && steps[i].input.Decides?)
  }

  lemma AwaitingIsWaiting(y: Sys)
    requires Inv(y) && y.run.node.AwaitDecision?
    ensures y.run.state.approvalId.Some?
    ensures G.Waiting(y.run, y.run.state.tool, y.run.state.args, y.run.state.approvalId.value)
    ensures y.run.state.approvalId.value in y.platform.table
  {
    StandingIsAnEvent(y.run.history);
  }

  /** Until the next plan visit, the same call waits on the same approval. */
  lemma {:induction false} RunKeepsWaiting(env: E.Env, y: Sys, steps: seq<Step>, tool: string, args: Args, id: string)
    requires Legal(env, y, steps) && SamePass(steps) && G.Waiting(y.run, tool, args, id)
    ensures G.Waiting(Run(env, y, steps).run, tool, args, id)
    decreases |steps|
  {
    if steps != [] {
      if InputOf(env, y, steps[0]).Some? {
        G.StepKeepsWaiting(y.run, InputOf(env, y, steps[0]).value, tool, args, id);
      }
      RunKeepsWaiting(env, Next(env, y, steps[0]), steps[1..], tool, args, id);
    }
  }

  /** The step decides `id` in the store, with a yes or a no. */
  predicate Settles(y: Sys, step: Step, id: string, yes: bool) {
    && step.Others? && step.step.Approvals? && step.step.op.Decide?
    && step.step.op.id == id && step.step.op.approved == yes && A.Succeeds(y.platform.table, step.step.op)
  }

  predicate Settled(env: E.Env, y: Sys, steps: seq<Step>, id: string, yes: bool)
    requires Legal(env, y, steps)
    decreases |steps|
  {
    steps != [] && (Settles(y, steps[0], id, yes) || Settled(env, Next(env, y, steps[0]), steps[1..], id, yes))
  }

  lemma {:induction false} SettledStays(env: E.Env, y: Sys, steps: seq<Step>, id: string, yes: bool)
    requires Inv(y) && Legal(env, y, steps) && Settled(env, y, steps, id, yes)
    ensures id in Run(env, y, steps).platform.table
    ensures Run(env, y, steps).platform.table[id].status == if yes then A.Approved else A.Denied
    decreases |steps|
  {
    var next := Next(env, y, steps[0]);
    StepKeepsInv(env, y, steps[0]);
    if Settles(y, steps[0], id, yes) {
      EveryRunKeepsInv(env, next, steps[1..]);
    } else {
      SettledStays(env, next, steps[1..], id, yes);
    }
  }

  /** The run after the person presses Resume, if it waits for that. */
  function Resumed(y: Sys): Sys {
    if y.run.node.AwaitDecision? then y.(run := G.Step(y.run, G.Approves(true))) else y
  }

  lemma ResumedWaits(y: Sys, tool: string, args: Args, id: string)
    requires G.Waiting(y.run, tool, args, id) && (y.run.node.AwaitDecision? || y.run.node.CallTool?)
    ensures Resumed(y).run.node.CallTool? && !G.Repeats(Resumed(y).run.state)
    ensures var s := Resumed(y).run.state; s.tool == tool && s.args == args && s.approvalId == Some(id)
  {
  }

  /** Completeness: a held call with coerced arguments waits on its approval. However often
      and however early it is resumed and held again, and whatever everybody else does, in
      any order: once somebody has approved it, the next resume goes through. */
  lemma ApprovedCallGoesThrough(env: E.Env, y: Sys, id: string, steps: seq<Step>, step: Step)
    requires E.WellFormed(env.catalogue) && Inv(y) && y.run.node.AwaitDecision? && PolicyHolds(env, y.run.state, step)
    requires G.CreatedInPass(y.run.history).Some? && G.CreatedInPass(y.run.history).value.id == id
    requires ArgsEq(y.run.state.args, CoercedArgs(env, y.run.state))
    requires id in y.platform.table ==> SameIdentity(y.platform.table[id].request, step.d)
    requires Legal(env, y, steps) && SamePass(steps) && Settled(env, y, steps, id, true)
    requires var end := Run(env, y, steps); end.run.node.AwaitDecision? || end.run.node.CallTool?
    ensures var resumed := Resumed(Run(env, y, steps));
            && resumed.run.node.CallTool? && !G.Repeats(resumed.run.state)
            && !IsHeld(env, resumed, step)
  {
    var s, end := y.run.state, Run(env, y, steps);
    AwaitingIsWaiting(y);
    RunKeepsWaiting(env, y, steps, s.tool, s.args, id);
    ResumedWaits(end, s.tool, s.args, id);
    CreatedForThisCall(y);
    ApprovalIsGiven(env, y, steps, id);
    CarriedIdIsRead(env, Resumed(end).run.state, step, id);
    GoesThroughIff(env, Resumed(end), step);
  }

  lemma CreatedForThisCall(y: Sys)
    requires Inv(y) && y.run.node.AwaitDecision? && G.CreatedInPass(y.run.history).Some?
    ensures var id := G.CreatedInPass(y.run.history).value.id;
            && y.run.state.approvalId == Some(id) && id in y.platform.table
            && y.platform.table[id].request.tool == y.run.state.tool
            && y.platform.table[id].request.args == y.run.state.args
  {
    CreationIsAnEvent(y.run.history);
  }

  lemma ApprovalIsGiven(env: E.Env, y: Sys, steps: seq<Step>, id: string)
    requires Inv(y) && Legal(env, y, steps) && Settled(env, y, steps, id, true) && id in y.platform.table
    ensures var table := Run(env, y, steps).platform.table;
            id in table && table[id].status.Approved? && table[id].request == y.platform.table[id].request
  {
    SettledStays(env, y, steps, id, true);
    EveryRunKeepsInv(env, y, steps);
  }

  lemma CarriedIdIsRead(env: E.Env, s: G.State, step: Step, id: string)
    requires step.AgentCall? && s.approvalId == Some(id) && id != ""
    ensures IdRead(env, s, step) == Some(id)
  {
    BodyId(env, s, step);
  }

  /** A no is final: a call that waits on an approval which was denied, before or since, is
      held at every resume, whatever everybody else does. */
  lemma DeniedIsHeldForEver(env: E.Env, y: Sys, id: string, steps: seq<Step>, step: Step)
    requires E.WellFormed(env.catalogue) && Inv(y) && y.run.node.AwaitDecision? && y.run.state.approvalId == Some(id)
    requires y.run.state.tool in env.catalogue && Legal(env, y, steps) && SamePass(steps)
    requires (id in y.platform.table && y.platform.table[id].status.Denied?) || Settled(env, y, steps, id, false)
    requires Run(env, y, steps).run.node.CallTool? && step.AgentCall? && step.verdict.RequireApproval?
    ensures IsHeld(env, Run(env, y, steps), step)
  {
    var s, end := y.run.state, Run(env, y, steps);
    AwaitingIsWaiting(y);
    RunKeepsWaiting(env, y, steps, s.tool, s.args, id);
    StaysDenied(env, y, steps, id);
    CarriedIdIsRead(env, end.run.state, step, id);
    if step.reachable {
      GoesThroughIff(env, end, step);
    }
  }

  lemma StaysDenied(env: E.Env, y: Sys, steps: seq<Step>, id: string)
    requires Inv(y) && Legal(env, y, steps)
    requires (id in y.platform.table && y.platform.table[id].status.Denied?) || Settled(env, y, steps, id, false)
    ensures id in Run(env, y, steps).platform.table && Run(env, y, steps).platform.table[id].status.Denied?
  {
    if Settled(env, y, steps, id, false) {
      SettledStays(env, y, steps, id, false);
    } else {
      EveryRunKeepsInv(env, y, steps);
    }
  }

  /** A call that waits on an approval which is not for it is never let through by it: held
      at every resume, whoever decides that approval and whatever everybody else does. */
  lemma MismatchIsHeldForEver(env: E.Env, y: Sys, id: string, steps: seq<Step>, step: Step)
    requires E.WellFormed(env.catalogue) && Inv(y) && y.run.node.AwaitDecision? && y.run.state.approvalId == Some(id)
    requires y.run.state.tool in env.catalogue
    requires id in y.platform.table ==> !ForThisCall(env, y.platform.table[id].request, y.run.state)
    requires Legal(env, y, steps) && SamePass(steps) && Run(env, y, steps).run.node.CallTool?
    requires step.AgentCall? && step.verdict.RequireApproval?
    ensures IsHeld(env, Run(env, y, steps), step)
    ensures !step.lost ==>
              var next := Next(env, Run(env, y, steps), step).run;
              next.node.AwaitDecision? && next.state.approvalId == Some(id)
  {
    var s, end := y.run.state, Run(env, y, steps);
    AwaitingIsWaiting(y);
    RunKeepsWaiting(env, y, steps, s.tool, s.args, id);
    EveryRunKeepsInv(env, y, steps);
    if step.reachable {
      GoesThroughIff(env, end, step);
    }
  }

  /** A person who answers the question for an amount with text gets a call that no approval
      ever lets through, whoever approves it and however often it is resumed. */
  lemma TextAmountIsHeldForEver(env: E.Env, y: Sys, steps: seq<Step>, step: Step)
    requires E.WellFormed(env.catalogue) && Inv(y) && y.run.node.AwaitDecision?
    requires G.CreatedInPass(y.run.history).Some?
    requires y.run.state.tool in env.catalogue && env.catalogue[y.run.state.tool].idempotent
    requires "amount" in y.run.state.args && y.run.state.args["amount"].Str?
    requires Legal(env, y, steps) && SamePass(steps) && Run(env, y, steps).run.node.CallTool?
    requires step.AgentCall? && step.verdict.RequireApproval?
    ensures IsHeld(env, Run(env, y, steps), step)
    ensures !step.lost ==>
              var next := Next(env, Run(env, y, steps), step).run;
              next.node.AwaitDecision? && next.state.approvalId == y.run.state.approvalId
  {
    var coerced := CoercedArgs(env, y.run.state);
    assert coerced["amount"] == Coerce(env.rules, y.run.state.args["amount"], Number);
    assert !PyEq(y.run.state.args["amount"], coerced["amount"]);
    CreationIsAnEvent(y.run.history);
    MismatchIsHeldForEver(env, y, G.CreatedInPass(y.run.history).value.id, steps, step);
  }

  /** An amount answered as a number, whole or not, is as good as the model's own: coercion
      leaves such a call as it is, so an approval of it can match. */
  lemma NumericAnswerIsUnchanged(env: E.Env, s: G.State)
    requires E.WellFormed(env.catalogue) && s.tool in env.catalogue && env.catalogue[s.tool].idempotent
    requires s.args.Keys == {"order_id", "amount"} && s.args["order_id"].Str?
    requires s.args["amount"].Int? || s.args["amount"].Num?
    ensures ArgsEq(s.args, CoercedArgs(env, s))
  {
    assert CoercedArgs(env, s).Keys == s.args.Keys;
  }

  /** A person who supplied an id gets such a call too, when that id did not let it through:
      the approval created for it binds the supplied id, which the enforcement point drops. */
  lemma SuppliedIdSpoilsTheApproval(env: E.Env, y: Sys, steps: seq<Step>, step: Step)
    requires E.WellFormed(env.catalogue) && Inv(y) && y.run.node.AwaitDecision?
    requires G.CreatedInPass(y.run.history).Some?
    requires y.run.state.tool in env.catalogue && "approval_id" in y.run.state.args
    requires Legal(env, y, steps) && SamePass(steps) && Run(env, y, steps).run.node.CallTool?
    requires step.AgentCall? && step.verdict.RequireApproval?
    ensures IsHeld(env, Run(env, y, steps), step)
  {
    assert "approval_id" !in CoercedArgs(env, y.run.state);
    CreationIsAnEvent(y.run.history);
    MismatchIsHeldForEver(env, y, G.CreatedInPass(y.run.history).value.id, steps, step);
  }

  /** A pass whose plan visit chose a tool waits on an approval of its own, for coerced
      arguments. */
  lemma ChosenCallWaitsOnItsOwn(env: E.Env, conv: D.Conv, task: string, steps: seq<Step>)
    requires E.WellFormed(env.catalogue) && Provenance.TextIdentifiers(env.catalogue) && conv.rules == env.rules
    requires Legal(env, Initial(task), steps) && Driven(env, conv, Initial(task), steps)
    requires var y := Run(env, Initial(task), steps);
             && y.run.node.AwaitDecision?
             && G.LastPlan(y.run.history).Some? && G.LastPlan(y.run.history).value.UseTool?
    ensures var y := Run(env, Initial(task), steps);
            && Inv(y) && y.run.state.tool in env.catalogue
            && G.CreatedInPass(y.run.history).Some?
            && y.run.state.approvalId == Some(G.CreatedInPass(y.run.history).value.id)
            && ArgsEq(y.run.state.args, CoercedArgs(env, y.run.state))
  {
    var y := Run(env, Initial(task), steps);
    InitialHoldsInv(task);
    EveryRunKeepsInv(env, Initial(task), steps);
    RunsProject(env, Initial(task), steps);
    Provenance.ChosenCallsAreCoerced(conv, env.catalogue, task, G.Start(task), GraphInputs(env, Initial(task), steps));
    ArgsEqIsAnEquivalence(y.run.state.args, y.run.state.args, y.run.state.args);
  }

  /** End to end: in a run that the model drives, from the empty platform, a call it chose
      outright and that is held goes through at the next resume once another user of the
      tenant has approved it, however late. */
  lemma ChosenCallGoesThroughOnceApproved(env: E.Env, conv: D.Conv, task: string, earlier: seq<Step>,
                                          steps: seq<Step>, id: string, step: Step)
    requires E.WellFormed(env.catalogue) && Provenance.TextIdentifiers(env.catalogue) && conv.rules == env.rules
    requires Legal(env, Initial(task), earlier) && Driven(env, conv, Initial(task), earlier)
    requires step.AgentCall? && step.verdict.RequireApproval? && step.reachable
    requires var y := Run(env, Initial(task), earlier);
             && y.run.node.AwaitDecision? && y.run.state.approvalId == Some(id)
             && G.LastPlan(y.run.history).Some? && G.LastPlan(y.run.history).value.UseTool?
             && (id in y.platform.table ==> SameIdentity(y.platform.table[id].request, step.d))
             && Legal(env, y, steps) && SamePass(steps) && Settled(env, y, steps, id, true)
             && var end := Run(env, y, steps);
             (end.run.node.AwaitDecision? || end.run.node.CallTool?)
    ensures var resumed := Resumed(Run(env, Run(env, Initial(task), earlier), steps));
            && resumed.run.node.CallTool? && !G.Repeats(resumed.run.state)
            && !IsHeld(env, resumed, step)
  {
    ChosenCallWaitsOnItsOwn(env, conv, task, earlier);
    ApprovedCallGoesThrough(env, Run(env, Initial(task), earlier), id, steps, step);
  }

  // ---- A concrete run of the third way ----------------------------------------------------

  const REFUND_ARGS: Args := map["order_id" := Str("o-1001"), "amount" := Num(200.0)]

  const ASKS_FOR_AMOUNT := G.Clarify("refunds.issue", map["order_id" := Str("o-1001")], ["amount"])

  const ANSWER: Args := map["amount" := Num(200.0), "approval_id" := Str("ap-9")]

  /** Someone's earlier request is approved; then the run asks, and is answered. */
  const SUPPLYING_STEPS := [
    Others(P.Approvals(A.Create("ap-9", A.Request("refunds.issue", REFUND_ARGS, "alice", "agent", "", "acme"), 0.0))),
    Others(P.Approvals(A.Decide("ap-9", "bob", true, None, "acme", 1.0))),
    World(G.Decides(ASKS_FOR_AMOUNT)),
    World(G.Supplies(ANSWER))]

  function HeldCall(): Step {
    AgentCall(E.Delegation("alice", "agent", Some("acme")), E.RequireApproval, true, E.Raises, false, Null)
  }

  lemma TaskNamesTheOrder()
    ensures "o-1001" in Tokens("o-1001")
  {
    assert TokenAt("o-1001", 0, 6) && "o-1001"[0..6] == "o-1001";
  }

  lemma OrderIsProposed(conv: D.Conv, seen: set<string>)
    requires conv.amountIn("o-1001").None? && "o-1001" in seen
    ensures D.Proposed(conv, P.ExampleEnv(conv.rules).catalogue["refunds.issue"], map["order_id" := Str("o-1001")],
                       "o-1001", seen)
         == map["order_id" := Str("o-1001")]
  {
    var args: Args := map["order_id" := Str("o-1001")];
    var extracted := D.Extracted(conv, "o-1001");
    assert !D.Gap(args["order_id"]);
    assert D.WithGapsFilled(E.REFUND_PROPERTIES, args, extracted) == args;
    assert Coerced(conv.rules, E.REFUND_PROPERTIES, args) == args;
    var tool := P.ExampleEnv(conv.rules).catalogue["refunds.issue"];
    assert !D.Invented(conv.rules, args, seen, "order_id");
    assert D.Resolved(conv.rules, D.IdentifierArgs(tool), args, seen, extracted) == args;
  }

  lemma AmountIsMissing()
    ensures G.Remaining(map["order_id" := Str("o-1001")], ["order_id", "amount"]) == ["amount"]
    ensures G.Remaining(G.Merged(map["order_id" := Str("o-1001")], ANSWER), ["amount"]) == []
  {
    assert ["order_id", "amount"][1..] == ["amount"] && ["amount"][1..] == [];
    assert G.Merged(map["order_id" := Str("o-1001")], ANSWER)["amount"] == Num(200.0);
  }

  lemma QuestionIsAsked(conv: D.Conv, offered: E.Catalogue, seen: set<string>)
    requires conv.amountIn("o-1001").None? && "o-1001" in seen
    requires "refunds.issue" in offered && offered["refunds.issue"] == P.ExampleEnv(conv.rules).catalogue["refunds.issue"]
    ensures D.Decision(conv, offered, {}, "o-1001", seen,
                       D.Proposes("refunds.issue", map["order_id" := Str("o-1001")], false)) == ASKS_FOR_AMOUNT
  {
    OrderIsProposed(conv, seen);
    AmountIsMissing();
  }

  lemma QuestionIsDriven(conv: D.Conv, catalogue: E.Catalogue)
    requires conv.amountIn("o-1001").None? && catalogue == P.ExampleEnv(conv.rules).catalogue
    ensures Provenance.ModelDecision(conv, catalogue, G.Start("o-1001").state, ASKS_FOR_AMOUNT)
  {
    var names := {"refunds.issue"};
    var seen := D.Seen(conv, "o-1001", []);
    TaskNamesTheOrder();
    QuestionIsAsked(conv, Provenance.Offered(catalogue, names), seen);
    assert G.Start("o-1001").state.task == "o-1001" && G.Start("o-1001").state.observations == [];
    assert ASKS_FOR_AMOUNT
        == D.Decision(conv, Provenance.Offered(catalogue, names), {}, "o-1001", seen,
                      D.Proposes("refunds.issue", map["order_id" := Str("o-1001")], false));
  }

  /** What the four steps lead to. */
  lemma SupplyingRun(rules: TextRules)
    ensures Legal(P.ExampleEnv(rules), Initial("o-1001"), SUPPLYING_STEPS)
    ensures GraphInputs(P.ExampleEnv(rules), Initial("o-1001"), SUPPLYING_STEPS)
         == [G.Decides(ASKS_FOR_AMOUNT), G.Supplies(ANSWER)]
    ensures var y := Run(P.ExampleEnv(rules), Initial("o-1001"), SUPPLYING_STEPS);
            && y.run == G.Step(G.Step(G.Start("o-1001"), G.Decides(ASKS_FOR_AMOUNT)), G.Supplies(ANSWER))
            && "ap-9" in y.platform.table && y.platform.table["ap-9"].status.Approved?
            && y.platform.table["ap-9"].request == A.Request("refunds.issue", REFUND_ARGS, "alice", "agent", "", "acme")
  {
    var env, s := P.ExampleEnv(rules), SUPPLYING_STEPS;
    var y1 := Next(env, Initial("o-1001"), s[0]);
    var y2 := Next(env, y1, s[1]);
    var y3 := Next(env, y2, s[2]);
    var y4 := Next(env, y3, s[3]);
    assert s == [s[0]] + ([s[1]] + ([s[2]] + ([s[3]] + [])));
    LegalCons(env, y3, s[3], []);
    LegalCons(env, y2, s[2], [s[3]] + []);
    LegalCons(env, y1, s[1], [s[2]] + ([s[3]] + []));
    LegalCons(env, Initial("o-1001"), s[0], [s[1]] + ([s[2]] + ([s[3]] + [])));
    assert [G.Decides(ASKS_FOR_AMOUNT)] + ([G.Supplies(ANSWER)] + []) == [G.Decides(ASKS_FOR_AMOUNT), G.Supplies(ANSWER)];
  }

  lemma LegalCons(env: E.Env, y: Sys, step: Step, rest: seq<Step>)
    requires Enabled(y, step) && Legal(env, Next(env, y, step), rest)
    ensures Legal(env, y, [step] + rest)
    ensures Run(env, y, [step] + rest) == Run(env, Next(env, y, step), rest)
    ensures GraphInputs(env, y, [step] + rest)
         == (match InputOf(env, y, step)
             case None => GraphInputs(env, Next(env, y, step), rest)
             case Some(input) => [input] + GraphInputs(env, Next(env, y, step), rest))
  {
    assert ([step] + rest)[1..] == rest;
  }

  /** The task names an order and no amount. The person who is asked for the amount also
      supplies the id of an approval that another run of theirs was given. The run has
      created no approval and inherited none, and its call goes through on that one. */
  lemma SuppliedApprovalIsUsed(conv: D.Conv)
    requires conv.amountIn("o-1001").None?
    ensures var env := P.ExampleEnv(conv.rules);
            && Legal(env, Initial("o-1001"), SUPPLYING_STEPS) && Driven(env, conv, Initial("o-1001"), SUPPLYING_STEPS)
            && var y := Run(env, Initial("o-1001"), SUPPLYING_STEPS);
            && AboutToCall(env, y, HeldCall())
            && G.CreatedInPass(y.run.history).None? && G.Inherited(y.run.history).None?
            && y.run.state.approvalId.None? && IdRead(env, y.run.state, HeldCall()) == Some("ap-9")
            && !IsHeld(env, y, HeldCall())
  {
    var env := P.ExampleEnv(conv.rules);
    SupplyingRun(conv.rules);
    QuestionIsDriven(conv, env.catalogue);
    SupplyingIsDriven(env, conv);
    AnsweredCall(conv.rules);
    AnsweredCallGoesThrough(conv.rules, Run(env, Initial("o-1001"), SUPPLYING_STEPS));
  }

  lemma AnsweredCallGoesThrough(rules: TextRules, y: Sys)
    requires y.run == G.Step(G.Step(G.Start("o-1001"), G.Decides(ASKS_FOR_AMOUNT)), G.Supplies(ANSWER))
    requires "ap-9" in y.platform.table && y.platform.table["ap-9"].status.Approved?
    requires y.platform.table["ap-9"].request == A.Request("refunds.issue", REFUND_ARGS, "alice", "agent", "", "acme")
    ensures var env := P.ExampleEnv(rules);
            && AboutToCall(env, y, HeldCall())
            && IdRead(env, y.run.state, HeldCall()) == Some("ap-9")
            && !IsHeld(env, y, HeldCall())
  {
    var env := P.ExampleEnv(rules);
    AnsweredCall(rules);
    BodyId(env, y.run.state, HeldCall());
    ArgsEqIsAnEquivalence(REFUND_ARGS, REFUND_ARGS, REFUND_ARGS);
    assert Matches(env, y.platform.table, "ap-9", y.run.state, HeldCall().d);
    GoesThroughIff(env, y, HeldCall());
  }

  lemma SupplyingIsDriven(env: E.Env, conv: D.Conv)
    requires Legal(env, Initial("o-1001"), SUPPLYING_STEPS)
    requires GraphInputs(env, Initial("o-1001"), SUPPLYING_STEPS) == [G.Decides(ASKS_FOR_AMOUNT), G.Supplies(ANSWER)]
    requires Provenance.ModelDecision(conv, env.catalogue, G.Start("o-1001").state, ASKS_FOR_AMOUNT)
    ensures Driven(env, conv, Initial("o-1001"), SUPPLYING_STEPS)
  {
    var a, b := G.Decides(ASKS_FOR_AMOUNT), G.Supplies(ANSWER);
    RunsProject(env, Initial("o-1001"), SUPPLYING_STEPS);
    assert [a, b][1..] == [b] && [b][1..] == [];
    var next := G.Step(G.Start("o-1001"), a);
    assert Provenance.Driven(conv, env.catalogue, G.Step(next, b), []);
    assert Provenance.Driven(conv, env.catalogue, next, [b]);
  }

  lemma AnsweredCall(rules: TextRules)
    ensures var c := G.Step(G.Step(G.Start("o-1001"), G.Decides(ASKS_FOR_AMOUNT)), G.Supplies(ANSWER));
            && c.node.CallTool? && !G.Repeats(c.state) && c.state.approvalId.None? && c.state.tool == "refunds.issue"
            && c.history == [G.Planned(ASKS_FOR_AMOUNT), G.Supplied(ANSWER)]
            && G.CreatedInPass(c.history).None? && G.Inherited(c.history).None?
            && Get(c.state.args, "approval_id") == Str("ap-9")
            && CoercedArgs(P.ExampleEnv(rules), c.state) == REFUND_ARGS
  {
    AmountIsMissing();
    var c := G.Step(G.Step(G.Start("o-1001"), G.Decides(ASKS_FOR_AMOUNT)), G.Supplies(ANSWER));
    MergedAnswer();
    P.RefundArgsCoerced(rules, c.state.args, "o-1001", 200.0, "ap-9");
    assert c.history == [G.Planned(ASKS_FOR_AMOUNT), G.Supplied(ANSWER)];
    NothingCreated(G.Planned(ASKS_FOR_AMOUNT), G.Supplied(ANSWER));
  }

  lemma MergedAnswer()
    ensures G.Merged(map["order_id" := Str("o-1001")], ANSWER)
         == map["order_id" := Str("o-1001"), "amount" := Num(200.0), "approval_id" := Str("ap-9")]
  {
  }

  lemma NothingCreated(a: G.Event, b: G.Event)
    requires a.Planned? && b.Supplied?
    ensures G.CreatedInPass([a, b]).None? && G.Inherited([a, b]).None?
  {
    assert [a, b][..1] == [a] && [a][..0] == [];
  }
}
