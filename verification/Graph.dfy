/** The agent graph (app/agent/graph.py): a state machine with two human interrupts. The
    model, the tool server, the approvals service and the people are arbitrary inputs. */
module Graph {
  import opened Values

  const MAX_ASKS := 2
  const MAX_STEPS := 3

  datatype Status =
    | Unset | Ok | Denied | Refused | Error | ApprovalRequired | Approved | ClarificationRequired

  datatype Observation = Observation(tool: string, args: Args, result: Val)

  datatype State = State(
    task: string, tool: string, args: Args, status: Status, result: Val,
    approvalId: Option<string>, missing: seq<string>, asks: nat, steps: nat,
    observations: seq<Observation>, more: bool, final: bool)

  datatype Node = Plan | CallTool | CreateApproval | AwaitDecision | AskClarification | End

  /** What `deps.decide` may return. */
  datatype Decision =
    | Clarify(tool: string, args: Args, missing: seq<string>)
    | NoTool(refused: bool)
    | UseTool(tool: string, args: Args, more: bool)

  datatype CallStatus = CallOk | CallDenied | CallHeld | CallError

  /** What `deps.call_tool` may do. */
  datatype ToolAnswer = Answered(status: CallStatus, result: Val) | Raised

  /** Generated identifiers are not empty. */
  type ApprovalId = s: string | s != "" witness "a"

  /** What the outside world says to one node. */
  datatype Input =
    | Decides(decision: Decision)
    | Answers(answer: ToolAnswer)
    | Creates(id: Option<ApprovalId>)
    | Approves(approved: bool)
    | Supplies(values: Args)

  predicate Expects(node: Node, input: Input) {
    match node
    case Plan => input.Decides?
    case CallTool => input.Answers?
    case CreateApproval => input.Creates?
    case AwaitDecision => input.Approves?
    case AskClarification => input.Supplies?
    case End => false
  }

  /** What happened, in order: the run as an observer sees it. */
  datatype Event =
    | Planned(decision: Decision)
    | Called(tool: string, args: Args, approvalId: Option<string>, answer: ToolAnswer)
    | NotRepeated
    | Created(id: string, tool: string, args: Args)
    | CreateFailed
    | Decided(approved: bool)
    | Supplied(values: Args)

  datatype Config = Config(node: Node, state: State, history: seq<Event>)

  function Start(task: string): Config {
    Config(Plan, State(task, "", map[], Unset, Null, None, [], 0, 0, [], false, false), [])
  }

  // ---- The nodes: each maps a state to its update -----------------------------

  function PlanNode(s: State, d: Decision): State {
    match d
    case Clarify(tool, args, missing) =>
      s.(tool := tool, args := args, missing := missing, status := ClarificationRequired)
    case NoTool(refused) => s.(status := if refused then Refused else Error)
    case UseTool(tool, args, more) =>
      s.(tool := tool, args := args, more := more, final := false, approvalId := None)
  }

  /** The call the model asks for is the one it made last. */
  predicate Repeats(s: State) {
    s.observations != [] &&
    var previous := s.observations[|s.observations| - 1];
    previous.tool == s.tool && ArgsEq(previous.args, s.args)
  }

  function CallNode(s: State, a: ToolAnswer): State {
    if Repeats(s) then
      s.(status := Ok, result := s.observations[|s.observations| - 1].result, final := true)
    else
      match a
      case Raised => s.(status := Error, final := true)
      case Answered(CallOk, result) =>
        s.(status := Ok, result := result, steps := s.steps + 1,
           observations := s.observations + [Observation(s.tool, s.args, result)], final := !s.more)
      case Answered(CallDenied, result) => s.(status := Denied, result := result, final := true)
      case Answered(CallHeld, result) => s.(status := ApprovalRequired, result := result, final := true)
      case Answered(CallError, result) => s.(status := Error, result := result, final := true)
  }

  function CreateNode(s: State, id: Option<ApprovalId>): State {
    match id
    case None => s.(status := Error)
    case Some(id) => s.(approvalId := Some(id))
  }

  function AwaitNode(s: State, approved: bool): State {
    s.(status := if approved then Approved else Denied)
  }

  /** The answers that count: a blank form is not a value. */
  function Merged(args: Args, values: Args): Args {
    args + map k | k in values && !Blank(values[k]) :: values[k]
  }

  function Remaining(args: Args, missing: seq<string>): seq<string> {
    if missing == [] then []
    else if Blank(Get(args, missing[0])) then [missing[0]] + Remaining(args, missing[1..])
    else Remaining(args, missing[1..])
  }

  function AskNode(s: State, values: Args): State {
    var args := Merged(s.args, values);
    var remaining := Remaining(args, s.missing);
    var s' := s.(args := args, missing := remaining, asks := s.asks + 1);
    if remaining == [] || s'.asks < MAX_ASKS then s' else s'.(status := Refused)
  }

  // ---- The routers ------------------------------------------------------------

  function AfterPlan(s: State): Node {
    match s.status
    case Error => End
    case Refused => End
    case ClarificationRequired => AskClarification
    case _ => CallTool
  }

  predicate CarriesApproval(s: State) {
    s.approvalId.Some? && s.approvalId.value != ""
  }

  function AfterCall(s: State): Node {
    if s.status.ApprovalRequired? then (if CarriesApproval(s) then AwaitDecision else CreateApproval)
    else if !s.final && s.steps < MAX_STEPS then Plan
    else End
  }

  function AfterCreate(s: State): Node {
    if s.status.Error? then End else AwaitDecision
  }

  function AfterDecision(s: State): Node {
    if s.status.Approved? then CallTool else End
  }

  function AfterClarification(s: State): Node {
    if s.status.Refused? then End
    else if s.missing != [] then AskClarification
    else CallTool
  }

  /** The update of one node visit. */
  function Updated(s: State, input: Input): State {
    match input
    case Decides(d) => PlanNode(s, d)
    case Answers(a) => CallNode(s, a)
    case Creates(id) => CreateNode(s, id)
    case Approves(approved) => AwaitNode(s, approved)
    case Supplies(values) => AskNode(s, values)
  }

  /** The route out of a node, in the updated state. */
  function Route(node: Node, s: State): Node {
    match node
    case Plan => AfterPlan(s)
    case CallTool => AfterCall(s)
    case CreateApproval => AfterCreate(s)
    case AwaitDecision => AfterDecision(s)
    case AskClarification => AfterClarification(s)
    case End => End
  }

  /** What an observer sees of the visit. */
  function EventOf(s: State, input: Input): Event {
    match input
    case Decides(d) => Planned(d)
    case Answers(a) => if Repeats(s) then NotRepeated else Called(s.tool, s.args, s.approvalId, a)
    case Creates(id) => if id.Some? then Created(id.value, s.tool, s.args) else CreateFailed
    case Approves(approved) => Decided(approved)
    case Supplies(values) => Supplied(values)
  }

  /** One node visit: its update, merged, and the route out of it. */
  function Step(c: Config, input: Input): Config
    requires Expects(c.node, input)
  {
    var s := Updated(c.state, input);
    Config(Route(c.node, s), s, c.history + [EventOf(c.state, input)])
  }

  predicate Accepted(c: Config, inputs: seq<Input>)
    decreases |inputs|
  {
    inputs == [] || (Expects(c.node, inputs[0]) && Accepted(Step(c, inputs[0]), inputs[1..]))
  }

  function Run(c: Config, inputs: seq<Input>): Config
    requires Accepted(c, inputs)
    decreases |inputs|
  {
    if inputs == [] then c else Run(Step(c, inputs[0]), inputs[1..])
  }

  // ---- What the history counts ---------------------------------------------------

  function Count(h: seq<Event>, p: Event -> bool): nat {
    if h == [] then 0 else Count(h[..|h| - 1], p) + (if p(h[|h| - 1]) then 1 else 0)
  }

  /** A call that was made and went through. */
  predicate IsSuccess(e: Event) {
    e.Called? && e.answer.Answered? && e.answer.status.CallOk?
  }

  const PLANS: Event -> bool := (e: Event) => e.Planned?
  const CREATIONS: Event -> bool := (e: Event) => e.Created?
  const COMPLETED_ASKS: Event -> bool := (e: Event) => e.Supplied?
  const SUCCESSES: Event -> bool := (e: Event) => IsSuccess(e)

  lemma CountSnoc(h: seq<Event>, e: Event, p: Event -> bool)
    ensures Count(h + [e], p) == Count(h, p) + (if p(e) then 1 else 0)
  {
    assert (h + [e])[..|h|] == h;
  }

  datatype Creation = Creation(id: string, tool: string, args: Args)

  /** The approval created since the last plan visit, if any. */
  function CreatedInPass(h: seq<Event>): Option<Creation> {
    if h == [] then None
    else
      match h[|h| - 1]
      case Planned(_) => None
      case Created(id, tool, args) => Some(Creation(id, tool, args))
      case _ => CreatedInPass(h[..|h| - 1])
  }

  /** The approval id the history leaves standing: the last one created, unless a plan
      visit that chose a tool came after it. */
  function Standing(h: seq<Event>): Option<string> {
    if h == [] then None
    else
      match h[|h| - 1]
      case Planned(UseTool(_, _, _)) => None
      case Created(id, _, _) => Some(id)
      case _ => Standing(h[..|h| - 1])
  }

  /** The approval id left standing when the current pass began. */
  function Inherited(h: seq<Event>): Option<string> {
    if h == [] then None
    else
      match h[|h| - 1]
      case Planned(UseTool(_, _, _)) => None
      case Planned(_) => Standing(h[..|h| - 1])
      case _ => Inherited(h[..|h| - 1])
  }

  /** What people last supplied under a key in the current pass, if anything. */
  function SuppliedInPass(h: seq<Event>, key: string): Val {
    if h == [] then Null
    else
      match h[|h| - 1]
      case Planned(_) => Null
      case Supplied(values) =>
        if Blank(Get(values, key)) then SuppliedInPass(h[..|h| - 1], key) else Get(values, key)
      case _ => SuppliedInPass(h[..|h| - 1], key)
  }

  /** What the last plan visit decided. */
  function LastPlan(h: seq<Event>): Option<Decision> {
    if h == [] then None
    else if h[|h| - 1].Planned? then Some(h[|h| - 1].decision)
    else LastPlan(h[..|h| - 1])
  }

  // ---- Budgets ---------------------------------------------------------------------

  /** How many asks a run with this many plan visits can have completed. A first pass that
      asks never has a second, because only a pass that chose a tool can set `more`. */
  function AskBound(plans: nat): nat {
    if plans == 0 then 0 else if plans == 1 then MAX_ASKS else MAX_ASKS + plans - 2
  }

  predicate WithinBudget(c: Config) {
    && Count(c.history, SUCCESSES) == c.state.steps
    && Count(c.history, COMPLETED_ASKS) == c.state.asks
    && Tallied(c.node, c.state, Count(c.history, PLANS), Count(c.history, CREATIONS))
  }

  predicate Tallied(node: Node, s: State, plans: nat, creations: nat) {
    && |s.observations| == s.steps <= MAX_STEPS
    && plans <= MAX_STEPS
    && s.asks <= AskBound(plans)
    && (plans <= 1 && s.more ==> s.asks == 0)
    && (plans == 0 ==> !s.more)
    && creations <= plans
    && (node == Plan ==> plans == s.steps && !s.status.ClarificationRequired? && (plans == 0 || s.more))
    && (node != Plan && node != End ==> plans == s.steps + 1)
    && (node != End ==> s.steps < MAX_STEPS && !s.status.Refused? && !s.status.Error?)
    && (node == AskClarification ==> s.asks < AskBound(plans) && (plans == 1 ==> !s.more))
    && (node != Plan && node != End && s.approvalId == None ==> creations < plans)
  }

  predicate Ids(node: Node, s: State) {
    && (s.approvalId.Some? ==> s.approvalId.value != "")
    && (node == CreateApproval ==> s.approvalId == None)
  }

  lemma StartWithinBudget(task: string)
    ensures WithinBudget(Start(task))
  {
  }

  lemma PlanTally(s: State, d: Decision, plans: nat, creations: nat)
    requires Tallied(Plan, s, plans, creations)
    ensures var s' := PlanNode(s, d); Tallied(AfterPlan(s'), s', plans + 1, creations)
  {
  }

  lemma CallTally(s: State, a: ToolAnswer, plans: nat, creations: nat)
    requires Tallied(CallTool, s, plans, creations) && Ids(CallTool, s)
    ensures var s' := CallNode(s, a); Tallied(AfterCall(s'), s', plans, creations)
  {
  }

  lemma AskTally(s: State, values: Args, plans: nat, creations: nat)
    requires Tallied(AskClarification, s, plans, creations)
    ensures var s' := AskNode(s, values); Tallied(AfterClarification(s'), s', plans, creations)
  {
  }

  /** One more event moves the four tallies by what it is. */
  lemma TalliesSnoc(h: seq<Event>, e: Event)
    ensures Count(h + [e], PLANS) == Count(h, PLANS) + (if e.Planned? then 1 else 0)
    ensures Count(h + [e], CREATIONS) == Count(h, CREATIONS) + (if e.Created? then 1 else 0)
    ensures Count(h + [e], COMPLETED_ASKS) == Count(h, COMPLETED_ASKS) + (if e.Supplied? then 1 else 0)
    ensures Count(h + [e], SUCCESSES)
         == Count(h, SUCCESSES) + (if IsSuccess(e) then 1 else 0)
  {
    CountSnoc(h, e, PLANS);
    CountSnoc(h, e, CREATIONS);
    CountSnoc(h, e, COMPLETED_ASKS);
    CountSnoc(h, e, SUCCESSES);
  }

  lemma CreateTally(s: State, id: Option<ApprovalId>, plans: nat, creations: nat)
    requires Tallied(CreateApproval, s, plans, creations) && s.approvalId == None
    ensures var s' := CreateNode(s, id);
            Tallied(AfterCreate(s'), s', plans, creations + (if id.Some? then 1 else 0))
  {
  }

  lemma AwaitTally(s: State, approved: bool, plans: nat, creations: nat)
    requires Tallied(AwaitDecision, s, plans, creations)
    ensures var s' := AwaitNode(s, approved); Tallied(AfterDecision(s'), s', plans, creations)
  {
  }

  /** The state counts what the events are. */
  lemma StateCounts(s: State, input: Input)
    ensures var e, s' := EventOf(s, input), Updated(s, input);
            && s'.asks == s.asks + (if e.Supplied? then 1 else 0)
            && s'.steps == s.steps + (if IsSuccess(e) then 1 else 0)
  {
  }

  lemma StepTally(c: Config, input: Input, plans: nat, creations: nat)
    requires Tallied(c.node, c.state, plans, creations) && Expects(c.node, input) && Ids(c.node, c.state)
    ensures var e, s' := EventOf(c.state, input), Updated(c.state, input);
            Tallied(Route(c.node, s'), s', plans + (if e.Planned? then 1 else 0),
                    creations + (if e.Created? then 1 else 0))
  {
    match input {
      case Decides(d) => PlanTally(c.state, d, plans, creations);
      case Answers(a) => CallTally(c.state, a, plans, creations);
      case Supplies(values) => AskTally(c.state, values, plans, creations);
      case Creates(id) => CreateTally(c.state, id, plans, creations);
      case Approves(approved) => AwaitTally(c.state, approved, plans, creations);
    }
  }

  lemma StepWithinBudget(c: Config, input: Input)
    requires WithinBudget(c) && Expects(c.node, input) && Ids(c.node, c.state)
    ensures WithinBudget(Step(c, input))
  {
    StepTally(c, input, Count(c.history, PLANS), Count(c.history, CREATIONS));
    StateCounts(c.state, input);
    TalliesSnoc(c.history, EventOf(c.state, input));
  }

  // ---- Which approval a call carries ---------------------------------------------

  /** What the history says of the current pass. */
  datatype Pass = Pass(
    created: Option<Creation>, standing: Option<string>, inherited: Option<string>,
    decision: Option<Decision>, plans: nat)

  function PassOf(h: seq<Event>): Pass {
    Pass(CreatedInPass(h), Standing(h), Inherited(h), LastPlan(h), Count(h, PLANS))
  }

  function PassAfter(p: Pass, e: Event): Pass {
    match e
    case Planned(d) =>
      (match d
       case UseTool(_, _, _) => Pass(None, None, None, Some(d), p.plans + 1)
       case _ => Pass(None, p.standing, p.standing, Some(d), p.plans + 1))
    case Created(id, tool, args) => p.(created := Some(Creation(id, tool, args)), standing := Some(id))
    case _ => p
  }

  lemma HistorySnoc(h: seq<Event>, e: Event)
    ensures PassOf(h + [e]) == PassAfter(PassOf(h), e)
  {
    assert (h + [e])[..|h|] == h;
    CountSnoc(h, e, PLANS);
  }

  /** The approval of the current pass, in every reachable configuration:
      the id in the state is the one left standing; an approval created in this pass is for
      exactly the current tool and arguments; and while an inherited id stands, no approval
      is created at all. An id is inherited only by a later pass that asked. */
  predicate InOrder(node: Node, s: State, p: Pass) {
    && s.approvalId == p.standing
    && (p.standing.Some? ==> p.standing.value != "" && p.plans >= 1)
    && (match p.created
        case Some(created) =>
          && p.inherited == None
          && p.standing == Some(created.id)
          && created.tool == s.tool && created.args == s.args
          && node != CreateApproval && node != AskClarification
        case None => p.standing == p.inherited)
    && (node == AwaitDecision ==> CarriesApproval(s))
    && (node == CreateApproval ==> p.standing == None)
    && (p.inherited.Some? && node != End ==>
          p.decision.Some? && p.decision.value.Clarify? && p.plans >= 2)
  }

  predicate ApprovalsInOrder(c: Config) {
    InOrder(c.node, c.state, PassOf(c.history))
  }

  lemma PlanKeepsOrder(s: State, p: Pass, d: Decision)
    requires InOrder(Plan, s, p) && !s.status.Refused? && !s.status.Error? && !s.status.ClarificationRequired?
    ensures var s' := PlanNode(s, d); InOrder(AfterPlan(s'), s', PassAfter(p, Planned(d)))
  {
  }

  lemma CallKeepsOrder(s: State, p: Pass, a: ToolAnswer)
    requires InOrder(CallTool, s, p)
    ensures var s' := CallNode(s, a); InOrder(AfterCall(s'), s', p)
  {
  }

  lemma StepKeepsApprovalsInOrder(c: Config, input: Input)
    requires ApprovalsInOrder(c) && WithinBudget(c) && Expects(c.node, input)
    ensures ApprovalsInOrder(Step(c, input))
  {
    var p := PassOf(c.history);
    HistorySnoc(c.history, EventOf(c.state, input));
    match input {
      case Decides(d) => PlanKeepsOrder(c.state, p, d);
      case Answers(a) => CallKeepsOrder(c.state, p, a);
      case _ =>
    }
  }

  /** What an event owes to the events before it. A call carries the id left standing: the
      one created in its own pass, for exactly its tool and arguments, or, when none was
      created in the pass, the one the pass inherited. An approval is created only when no
      id stands, so at most once a pass and never again for the same hold. */
  predicate EventInOrder(before: seq<Event>, e: Event) {
    match e
    case Called(tool, args, approvalId, _) =>
      (match CreatedInPass(before)
       case Some(created) => approvalId == Some(created.id) && created.tool == tool && created.args == args
       case None =>
         && approvalId == Inherited(before)
         && (approvalId.Some? ==> LastPlan(before).Some? && LastPlan(before).value.Clarify?
                                  && Count(before, PLANS) >= 2))
    case Created(_, _, _) => CreatedInPass(before) == None && Standing(before) == None
    case _ => true
  }

  predicate EventsInOrder(h: seq<Event>) {
    forall i | 0 <= i < |h| :: EventInOrder(h[..i], h[i])
  }

  lemma OneMoreEvent(h: seq<Event>, e: Event)
    requires EventsInOrder(h) && EventInOrder(h, e)
    ensures EventsInOrder(h + [e])
  {
    var all := h + [e];
    forall i | 0 <= i < |all|
      ensures EventInOrder(all[..i], all[i])
    {
      if i < |h| {
        assert all[..i] == h[..i];
      } else {
        assert all[..i] == h;
      }
    }
  }

  /** A call that is held, or waits for its approval, is not the one made just before. */
  predicate HoldIsNew(node: Node, s: State) {
    node == CreateApproval || node == AwaitDecision ==> !Repeats(s)
  }

  lemma StepKeepsHoldNew(c: Config, input: Input)
    requires HoldIsNew(c.node, c.state) && Expects(c.node, input)
    ensures HoldIsNew(Step(c, input).node, Step(c, input).state)
  {
  }

  /** Over every run, from the start: budgets, and the order of approvals. */
  predicate Inv(c: Config) {
    WithinBudget(c) && ApprovalsInOrder(c) && EventsInOrder(c.history) && HoldIsNew(c.node, c.state)
  }

  lemma StepKeepsInv(c: Config, input: Input)
    requires Inv(c) && Expects(c.node, input)
    ensures Inv(Step(c, input))
  {
    StepWithinBudget(c, input);
    StepKeepsApprovalsInOrder(c, input);
    StepKeepsHoldNew(c, input);
    OneMoreEvent(c.history, EventOf(c.state, input));
  }

  lemma {:induction false} EveryRunKeepsInv(c: Config, inputs: seq<Input>)
    requires Inv(c) && Accepted(c, inputs)
    ensures Inv(Run(c, inputs))
    ensures c.history <= Run(c, inputs).history
    decreases |inputs|
  {
    if inputs != [] {
      StepKeepsInv(c, inputs[0]);
      EveryRunKeepsInv(Step(c, inputs[0]), inputs[1..]);
    }
  }

  /** For every model, tool server and human, and however often the run is resumed: at most
      three successful calls, three plan visits, three completed asks, and no more approvals
      created than plan visits made. */
  lemma BudgetsHold(task: string, inputs: seq<Input>)
    requires Accepted(Start(task), inputs)
    ensures var h := Run(Start(task), inputs).history;
            && Count(h, SUCCESSES) <= MAX_STEPS
            && Count(h, PLANS) <= MAX_STEPS
            && Count(h, CREATIONS) <= Count(h, PLANS)
            && Count(h, COMPLETED_ASKS) <= MAX_ASKS + MAX_STEPS - 2
  {
    StartWithinBudget(task);
    EveryRunKeepsInv(Start(task), inputs);
  }

  /** Which approval the state holds at each call of a run, and when one is created. In
      particular it is one created outside the pass exactly when a later pass that asked for
      clarification inherited it. The arguments of the call can hold another id, one that a
      person supplied; System.IdOfEachCall says which of them is read. */
  lemma CallsCarryTheirOwnApproval(task: string, inputs: seq<Input>)
    requires Accepted(Start(task), inputs)
    ensures EventsInOrder(Run(Start(task), inputs).history)
  {
    StartWithinBudget(task);
    EveryRunKeepsInv(Start(task), inputs);
  }

  // ---- Progress between interrupts ---------------------------------------------------

  predicate Paused(node: Node) {
    node.AwaitDecision? || node.AskClarification? || node.End?
  }

  function Rank(node: Node): nat {
    match node
    case Plan => 3
    case CallTool => 2
    case CreateApproval => 1
    case _ => 0
  }

  /** Steps still to take, then the node: a step of the budget outweighs any node. */
  function Measure(c: Config): nat {
    4 * (if c.state.steps <= MAX_STEPS then MAX_STEPS - c.state.steps else 0) + Rank(c.node)
  }

  lemma InternalStepsDecrease(c: Config, input: Input)
    requires Inv(c) && !Paused(c.node) && Expects(c.node, input)
    ensures Measure(Step(c, input)) < Measure(c)
  {
  }

  /** The services behind the graph: each answers as it likes, given all that happened. */
  datatype Deps = Deps(
    decide: seq<Event> -> Decision,
    call: seq<Event> -> ToolAnswer,
    create: seq<Event> -> Option<ApprovalId>)

  function InputFor(deps: Deps, c: Config): Input
    requires !Paused(c.node)
  {
    match c.node
    case Plan => Decides(deps.decide(c.history))
    case CallTool => Answers(deps.call(c.history))
    case CreateApproval => Creates(deps.create(c.history))
  }

  function InternalRun(deps: Deps, c: Config): (inputs: seq<Input>)
    requires Inv(c)
    decreases Measure(c)
  {
    if Paused(c.node) then []
    else
      var input := InputFor(deps, c);
      StepKeepsInv(c, input);
      InternalStepsDecrease(c, input);
      [input] + InternalRun(deps, Step(c, input))
  }

  /** Whatever the services answer, the graph reaches an interrupt or the end in at most
      fifteen node visits. */
  lemma {:induction false} AlwaysPauses(deps: Deps, c: Config)
    requires Inv(c)
    ensures Accepted(c, InternalRun(deps, c))
    ensures Paused(Run(c, InternalRun(deps, c)).node)
    ensures |InternalRun(deps, c)| <= Measure(c) <= 4 * MAX_STEPS + 3
    decreases Measure(c)
  {
    if !Paused(c.node) {
      var input := InputFor(deps, c);
      StepKeepsInv(c, input);
      InternalStepsDecrease(c, input);
      AlwaysPauses(deps, Step(c, input));
      var inputs := InternalRun(deps, c);
      assert inputs[0] == input && inputs[1..] == InternalRun(deps, Step(c, input));
    }
  }

  lemma InternalRunStep(deps: Deps, c: Config)
    requires Inv(c) && !Paused(c.node)
    ensures var next := Step(c, InputFor(deps, c));
            && Inv(next) && Measure(next) < Measure(c)
            && Accepted(c, InternalRun(deps, c)) && Accepted(next, InternalRun(deps, next))
            && Run(c, InternalRun(deps, c)) == Run(next, InternalRun(deps, next))
  {
    var input := InputFor(deps, c);
    StepKeepsInv(c, input);
    InternalStepsDecrease(c, input);
    AlwaysPauses(deps, Step(c, input));
    var inputs := InternalRun(deps, c);
    assert inputs[0] == input && inputs[1..] == InternalRun(deps, Step(c, input));
  }

  /** The invocation loop: node after node until the run pauses. */
  method Invoke(deps: Deps, start: Config) returns (c: Config)
    requires Inv(start)
    ensures Inv(c) && Paused(c.node)
    ensures Accepted(start, InternalRun(deps, start)) && c == Run(start, InternalRun(deps, start))
  {
    c := start;
    AlwaysPauses(deps, start);
    while !Paused(c.node)
      invariant Inv(c)
      invariant Accepted(c, InternalRun(deps, c))
      invariant Run(c, InternalRun(deps, c)) == Run(start, InternalRun(deps, start))
      decreases Measure(c)
    {
      InternalRunStep(deps, c);
      c := Step(c, InputFor(deps, c));
    }
  }

  /** A hold may be resumed any number of times: approving it in the graph while the store
      still holds it returns to the same interrupt, on the same approval. */
  function ResumeAndHold(n: nat): seq<Input> {
    if n == 0 then [] else [Approves(true), Answers(Answered(CallHeld, Null))] + ResumeAndHold(n - 1)
  }

  /** One round: approved in the graph, held by the store, waiting again. */
  function HeldAgain(c: Config): Config
    requires c.node == AwaitDecision
  {
    Step(Step(c, Approves(true)), Answers(Answered(CallHeld, Null)))
  }

  lemma OneRoundOfHold(c: Config)
    requires c.node == AwaitDecision && CarriesApproval(c.state) && !Repeats(c.state)
    ensures var d := HeldAgain(c);
            && d.node == AwaitDecision && !Repeats(d.state)
            && d.state.approvalId == c.state.approvalId
            && Count(d.history, CREATIONS) == Count(c.history, CREATIONS)
            && |d.history| == |c.history| + 2
  {
    var c1 := Step(c, Approves(true));
    CountSnoc(c.history, Decided(true), CREATIONS);
    CountSnoc(c1.history, EventOf(c1.state, Answers(Answered(CallHeld, Null))), CREATIONS);
  }

  lemma {:induction false} HoldsAreUnbounded(c: Config, n: nat)
    requires c.node == AwaitDecision && CarriesApproval(c.state) && !Repeats(c.state)
    ensures Accepted(c, ResumeAndHold(n))
    ensures var after := Run(c, ResumeAndHold(n));
            && after.node == AwaitDecision
            && after.state.approvalId == c.state.approvalId
            && Count(after.history, CREATIONS) == Count(c.history, CREATIONS)
            && |after.history| == |c.history| + 2 * n
    decreases n
  {
    if n > 0 {
      OneRoundOfHold(c);
      HoldsAreUnbounded(HeldAgain(c), n - 1);
      TwoThenRest(c, Approves(true), Answers(Answered(CallHeld, Null)), ResumeAndHold(n - 1));
    }
  }

  lemma TwoThenRest(c: Config, a: Input, b: Input, rest: seq<Input>)
    requires Expects(c.node, a) && Expects(Step(c, a).node, b) && Accepted(Step(Step(c, a), b), rest)
    ensures Accepted(c, [a, b] + rest) && Run(c, [a, b] + rest) == Run(Step(Step(c, a), b), rest)
  {
    RunCons(Step(c, a), b, rest);
    RunCons(c, a, [b] + rest);
    assert [a, b] + rest == [a] + ([b] + rest);
  }

  // ---- The history tells everything -------------------------------------------------------

  /** What the successful calls of a history returned. */
  function ObservedIn(h: seq<Event>): seq<Observation> {
    if h == [] then []
    else
      var before, e := ObservedIn(h[..|h| - 1]), h[|h| - 1];
      if IsSuccess(e) then before + [Observation(e.tool, e.args, e.answer.result)] else before
  }

  /** Whether the model's last choice of a tool asked for another step. */
  function WantsMore(h: seq<Event>): bool {
    if h == [] then false
    else
      match h[|h| - 1]
      case Planned(UseTool(_, _, more)) => more
      case _ => WantsMore(h[..|h| - 1])
  }

  /** What the last answered call, or the repeated one, returned. */
  function LastResult(h: seq<Event>): Val {
    if h == [] then Null
    else
      match h[|h| - 1]
      case Called(_, _, _, Answered(_, result)) => result
      case NotRepeated => if ObservedIn(h) == [] then Null else ObservedIn(h)[|ObservedIn(h)| - 1].result
      case _ => LastResult(h[..|h| - 1])
  }

  /** The value of an argument: what a person last supplied in the pass, else what the model
      gave. */
  function ArgOf(h: seq<Event>, d: Decision, key: string): Val
    requires !d.NoTool?
  {
    if Blank(SuppliedInPass(h, key)) then Get(d.args, key) else SuppliedInPass(h, key)
  }

  /** Nothing that the current pass asked for is still missing. */
  predicate AllAnswered(h: seq<Event>) {
    LastPlan(h).Some? && LastPlan(h).value.Clarify? ==>
      forall name | name in LastPlan(h).value.missing :: !Blank(ArgOf(h, LastPlan(h).value, name))
  }

  /** Where a run stands after a history. */
  function NodeAfter(h: seq<Event>): Node {
    if h == [] then Plan
    else
      match h[|h| - 1]
      case Planned(UseTool(_, _, _)) => CallTool
      case Planned(Clarify(_, _, _)) => AskClarification
      case Planned(NoTool(_)) => End
      case Called(_, _, _, Answered(CallOk, _)) => if WantsMore(h) && Count(h, SUCCESSES) < 3 then Plan else End
      case Called(_, _, _, Answered(CallHeld, _)) => if Standing(h).Some? then AwaitDecision else CreateApproval
      case Called(_, _, _, _) => End
      case NotRepeated => End
      case Created(_, _, _) => AwaitDecision
      case CreateFailed => End
      case Decided(approved) => if approved then CallTool else End
      case Supplied(_) =>
        if AllAnswered(h) then CallTool else if Count(h, COMPLETED_ASKS) < 2 then AskClarification else End
  }

  /** The status that an event leaves, when it leaves one. */
  function StatusLeft(e: Event): Option<Status> {
    match e
    case Planned(Clarify(_, _, _)) => Some(ClarificationRequired)
    case Planned(NoTool(refused)) => Some(if refused then Refused else Error)
    case Called(_, _, _, Raised) => Some(Error)
    case Called(_, _, _, Answered(CallOk, _)) => Some(Ok)
    case Called(_, _, _, Answered(CallDenied, _)) => Some(Denied)
    case Called(_, _, _, Answered(CallHeld, _)) => Some(ApprovalRequired)
    case Called(_, _, _, Answered(CallError, _)) => Some(Error)
    case NotRepeated => Some(Ok)
    case CreateFailed => Some(Error)
    case Decided(approved) => Some(if approved then Approved else Denied)
    case _ => None
  }

  /** The status of a run after a history; a run that is out of asks was refused. */
  function StatusAfter(h: seq<Event>): Status {
    if h == [] then Unset
    else
      var e := h[|h| - 1];
      if e.Supplied? && NodeAfter(h).End? then Refused
      else
        match StatusLeft(e)
        case Some(status) => status
        case None => StatusAfter(h[..|h| - 1])
  }

  /** The state is what an observer reads off the events. */
  ghost predicate ReadOff(task: string, c: Config) {
    var h, s := c.history, c.state;
    && c.node == NodeAfter(h)
    && s.task == task
    && s.status == StatusAfter(h)
    && s.result == LastResult(h)
    && s.observations == ObservedIn(h)
    && s.more == WantsMore(h)
    && Chosen(h, s)
  }

  /** The tool and arguments are those of the last decision, but for what people supplied;
      and what the run asks for is what that decision asked for and nobody has supplied. */
  ghost predicate Chosen(h: seq<Event>, s: State) {
    LastPlan(h).Some? && !LastPlan(h).value.NoTool? ==>
      var d := LastPlan(h).value;
      && s.tool == d.tool
      && (forall key :: Get(s.args, key) == ArgOf(h, d, key))
      && (d.Clarify? ==> StillAsked(h, d, s.missing))
  }

  ghost predicate StillAsked(h: seq<Event>, d: Decision, missing: seq<string>)
    requires d.Clarify?
  {
    && (h != [] && h[|h| - 1].Planned? ==> missing == d.missing)
    && (forall name | name in missing :: name in d.missing)
    && (forall name | name in d.missing && Blank(ArgOf(h, d, name)) :: name in missing)
  }

  /** What one more event changes in what the history tells. */
  lemma ReadingsSnoc(h: seq<Event>, e: Event)
    ensures ObservedIn(h + [e])
         == if IsSuccess(e) then ObservedIn(h) + [Observation(e.tool, e.args, e.answer.result)] else ObservedIn(h)
    ensures WantsMore(h + [e]) == if e.Planned? && e.decision.UseTool? then e.decision.more else WantsMore(h)
    ensures LastPlan(h + [e]) == if e.Planned? then Some(e.decision) else LastPlan(h)
    ensures Standing(h + [e])
         == if e.Planned? && e.decision.UseTool? then None else if e.Created? then Some(e.id) else Standing(h)
  {
    assert (h + [e])[..|h|] == h;
  }

  lemma ResultSnoc(h: seq<Event>, e: Event)
    ensures LastResult(h + [e])
         == if e.Called? && e.answer.Answered? then e.answer.result
            else if e.NotRepeated? then (if ObservedIn(h) == [] then Null else ObservedIn(h)[|ObservedIn(h)| - 1].result)
            else LastResult(h)
  {
    assert (h + [e])[..|h|] == h;
    ReadingsSnoc(h, e);
  }

  lemma SuppliedSnoc(h: seq<Event>, e: Event, key: string)
    ensures SuppliedInPass(h + [e], key)
         == if e.Planned? then Null
            else if e.Supplied? && !Blank(Get(e.values, key)) then Get(e.values, key)
            else SuppliedInPass(h, key)
  {
    assert (h + [e])[..|h|] == h;
  }

  lemma StatusSnoc(h: seq<Event>, e: Event)
    ensures StatusAfter(h + [e])
         == if e.Supplied? && NodeAfter(h + [e]).End? then Refused
            else if StatusLeft(e).Some? then StatusLeft(e).value else StatusAfter(h)
  {
    assert (h + [e])[..|h|] == h;
  }

  /** What the state says of results and observations. */
  lemma StepKeepsResults(c: Config, input: Input)
    requires Expects(c.node, input)
    requires c.state.result == LastResult(c.history) && c.state.observations == ObservedIn(c.history)
    requires c.state.more == WantsMore(c.history)
    ensures var next := Step(c, input);
            && next.state.result == LastResult(next.history) && next.state.observations == ObservedIn(next.history)
            && next.state.more == WantsMore(next.history)
  {
    ReadingsSnoc(c.history, EventOf(c.state, input));
    ResultSnoc(c.history, EventOf(c.state, input));
  }

  /** What the state says of the tool and its arguments. */
  lemma ChoiceStep(c: Config, d: Decision)
    requires c.node == Plan
    ensures Chosen(Step(c, Decides(d)).history, Step(c, Decides(d)).state)
  {
    var next := Step(c, Decides(d));
    ReadingsSnoc(c.history, Planned(d));
    if !d.NoTool? {
      forall key
        ensures Get(next.state.args, key) == ArgOf(next.history, d, key)
      {
        SuppliedSnoc(c.history, Planned(d), key);
      }
    }
  }

  /** A blank form is not a value: it leaves the argument as it was. */
  lemma MergedAt(args: Args, values: Args, key: string)
    ensures Get(Merged(args, values), key)
         == if Get(values, key) in {Null, Str("")} then Get(args, key) else Get(values, key)
  {
  }

  lemma {:induction false} RemainingAre(args: Args, missing: seq<string>, name: string)
    ensures name in Remaining(args, missing) <==> name in missing && Blank(Get(args, name))
  {
    if missing != [] {
      RemainingAre(args, missing[1..], name);
    }
  }

  lemma SupplyKeepsChoice(c: Config, values: Args)
    requires c.node == AskClarification && Chosen(c.history, c.state)
    ensures Chosen(Step(c, Supplies(values)).history, Step(c, Supplies(values)).state)
  {
    var next := Step(c, Supplies(values));
    ReadingsSnoc(c.history, Supplied(values));
    if LastPlan(c.history).Some? && !LastPlan(c.history).value.NoTool? {
      var d := LastPlan(c.history).value;
      forall key
        ensures Get(next.state.args, key) == ArgOf(next.history, d, key)
        ensures Blank(ArgOf(next.history, d, key)) ==> Blank(ArgOf(c.history, d, key))
        ensures key in next.state.missing <==> key in c.state.missing && Blank(ArgOf(next.history, d, key))
      {
        SuppliedSnoc(c.history, Supplied(values), key);
        MergedAt(c.state.args, values, key);
        RemainingAre(next.state.args, c.state.missing, key);
      }
    }
  }

  lemma OtherStepsKeepChoice(c: Config, input: Input)
    requires Expects(c.node, input) && !input.Decides? && !input.Supplies? && Chosen(c.history, c.state)
    ensures Chosen(Step(c, input).history, Step(c, input).state)
  {
    var e := EventOf(c.state, input);
    ReadingsSnoc(c.history, e);
    if LastPlan(c.history).Some? && !LastPlan(c.history).value.NoTool? {
      forall key
        ensures ArgOf(c.history + [e], LastPlan(c.history).value, key) == ArgOf(c.history, LastPlan(c.history).value, key)
      {
        SuppliedSnoc(c.history, e, key);
      }
    }
  }

  lemma StepKeepsChoice(c: Config, input: Input)
    requires Expects(c.node, input) && Chosen(c.history, c.state)
    ensures Chosen(Step(c, input).history, Step(c, input).state)
  {
    match input {
      case Decides(d) => ChoiceStep(c, d);
      case Supplies(values) => SupplyKeepsChoice(c, values);
      case _ => OtherStepsKeepChoice(c, input);
    }
  }

  /** Out of asks, or answered, or asking once more. */
  lemma SupplyTold(c: Config, values: Args)
    requires Inv(c) && c.node == AskClarification && Chosen(c.history, c.state)
    requires c.state.status.ClarificationRequired? && LastPlan(c.history).Some? && LastPlan(c.history).value.Clarify?
    ensures var next := Step(c, Supplies(values));
            next.node == NodeAfter(next.history) && (next.node == End <==> next.state.status.Refused?)
    ensures !Step(c, Supplies(values)).state.status.Refused? ==> Step(c, Supplies(values)).state.status == c.state.status
  {
    var next := Step(c, Supplies(values));
    var h, d := next.history, LastPlan(c.history).value;
    SupplyKeepsChoice(c, values);
    ReadingsSnoc(c.history, Supplied(values));
    CountSnoc(c.history, Supplied(values), COMPLETED_ASKS);
    if next.state.missing != [] {
      var name := next.state.missing[0];
      RemainingAre(next.state.args, c.state.missing, name);
      assert Blank(ArgOf(h, d, name));
      assert !AllAnswered(h);
    } else {
      assert AllAnswered(h);
    }
  }

  lemma CallTold(c: Config, a: ToolAnswer)
    requires Inv(c) && c.node == CallTool && c.state.more == WantsMore(c.history)
    ensures var next := Step(c, Answers(a));
            next.node == NodeAfter(next.history) && StatusLeft(EventOf(c.state, Answers(a))) == Some(next.state.status)
  {
    var e := EventOf(c.state, Answers(a));
    ReadingsSnoc(c.history, e);
    CountSnoc(c.history, e, SUCCESSES);
    HistorySnoc(c.history, e);
  }

  lemma PlanTold(c: Config, d: Decision)
    requires Inv(c) && c.node == Plan
    ensures var next := Step(c, Decides(d));
            && next.node == NodeAfter(next.history)
            && (if d.UseTool? then next.state.status == c.state.status && StatusLeft(Planned(d)).None?
                else StatusLeft(Planned(d)) == Some(next.state.status))
  {
  }

  lemma CreateTold(c: Config, id: Option<ApprovalId>)
    requires Inv(c) && c.node == CreateApproval
    ensures var next, e := Step(c, Creates(id)), EventOf(c.state, Creates(id));
            && next.node == NodeAfter(next.history)
            && (if id.Some? then next.state.status == c.state.status && StatusLeft(e).None?
                else StatusLeft(e) == Some(next.state.status))
  {
  }

  lemma AwaitTold(c: Config, approved: bool)
    requires c.node == AwaitDecision
    ensures var next := Step(c, Approves(approved));
            next.node == NodeAfter(next.history) && StatusLeft(Decided(approved)) == Some(next.state.status)
  {
  }

  /** Between the interrupts: where the run goes, and the status it leaves. */
  lemma StepTold(task: string, c: Config, input: Input)
    requires Inv(c) && ReadOff(task, c) && Expects(c.node, input)
    requires c.node == AskClarification ==>
      c.state.status.ClarificationRequired? && LastPlan(c.history).Some? && LastPlan(c.history).value.Clarify?
    ensures var next := Step(c, input); next.node == NodeAfter(next.history) && next.state.status == StatusAfter(next.history)
  {
    StatusSnoc(c.history, EventOf(c.state, input));
    match input {
      case Decides(d) => PlanTold(c, d);
      case Answers(a) => CallTold(c, a);
      case Creates(id) => CreateTold(c, id);
      case Approves(approved) => AwaitTold(c, approved);
      case Supplies(values) => SupplyTold(c, values);
    }
  }

  /** A question is open only in a pass that asks. */
  predicate Asking(c: Config) {
    c.node == AskClarification ==>
      c.state.status.ClarificationRequired? && LastPlan(c.history).Some? && LastPlan(c.history).value.Clarify?
  }

  lemma StepKeepsAsking(c: Config, input: Input)
    requires Inv(c) && Asking(c) && Expects(c.node, input)
    ensures Asking(Step(c, input))
  {
    ReadingsSnoc(c.history, EventOf(c.state, input));
  }

  lemma StepKeepsReadOff(task: string, c: Config, input: Input)
    requires Inv(c) && Asking(c) && ReadOff(task, c) && Expects(c.node, input)
    ensures Asking(Step(c, input)) && ReadOff(task, Step(c, input))
  {
    StepKeepsAsking(c, input);
    StepTold(task, c, input);
    StepKeepsResults(c, input);
    StepKeepsChoice(c, input);
  }

  /** Over every run, from the start: the node, the status and all else that the state holds
      is what an observer reads off the events, by rules that name no node's code. */
  lemma {:induction false} RunIsReadOff(task: string, c: Config, inputs: seq<Input>)
    requires Inv(c) && Asking(c) && ReadOff(task, c) && Accepted(c, inputs)
    ensures ReadOff(task, Run(c, inputs))
    decreases |inputs|
  {
    if inputs != [] {
      StepKeepsInv(c, inputs[0]);
      StepKeepsReadOff(task, c, inputs[0]);
      RunIsReadOff(task, Step(c, inputs[0]), inputs[1..]);
    }
  }

  lemma HistoryTellsEverything(task: string, inputs: seq<Input>)
    requires Accepted(Start(task), inputs)
    ensures ReadOff(task, Run(Start(task), inputs))
  {
    StartWithinBudget(task);
    RunIsReadOff(task, Start(task), inputs);
  }

  // ---- How runs end -------------------------------------------------------------------------

  /** The status of a finished run, from its last event alone. */
  function FinalStatus(e: Event): Status {
    match e
    case Planned(NoTool(refused)) => if refused then Refused else Error
    case Called(_, _, _, Answered(CallOk, _)) => Ok
    case Called(_, _, _, Answered(CallDenied, _)) => Denied
    case NotRepeated => Ok
    case Decided(_) => Denied
    case Supplied(_) => Refused
    case _ => Error
  }

  /** In every run that has ended, the last event says how. */
  lemma FinishedRunTellsHow(task: string, inputs: seq<Input>)
    requires Accepted(Start(task), inputs) && Run(Start(task), inputs).node == End
    ensures var c := Run(Start(task), inputs);
            c.history != [] && c.state.status == FinalStatus(c.history[|c.history| - 1])
  {
    HistoryTellsEverything(task, inputs);
  }

  /** Nothing happens after the end: no shorter history of a run ends it. */
  lemma {:induction false} NothingAfterTheEnd(task: string, inputs: seq<Input>, n: nat)
    requires Accepted(Start(task), inputs) && n < |Run(Start(task), inputs).history|
    ensures NodeAfter(Run(Start(task), inputs).history[..n]) != End
    decreases |inputs|
  {
    if inputs != [] {
      var front, last := inputs[..|inputs| - 1], inputs[|inputs| - 1];
      assert inputs == front + [last];
      AcceptedFront(Start(task), front, last);
      RunSnoc(Start(task), front, last);
      HistoryTellsEverything(task, front);
      var c := Run(Start(task), front);
      var h := Run(Start(task), inputs).history;
      if n < |c.history| {
        assert h[..n] == c.history[..n];
        NothingAfterTheEnd(task, front, n);
      } else {
        assert h[..n] == c.history;
      }
    }
  }

  lemma {:induction false} AcceptedFront(c: Config, front: seq<Input>, last: Input)
    requires Accepted(c, front + [last])
    ensures Accepted(c, front) && Expects(Run(c, front).node, last)
    decreases |front|
  {
    var all := front + [last];
    if front != [] {
      assert all[1..] == front[1..] + [last];
      AcceptedFront(Step(c, front[0]), front[1..], last);
    }
  }

  /** A person's denial ends the run: in every run it is the last event, the run is over and
      denied, and no call follows. */
  lemma DenialEndsTheRun(task: string, inputs: seq<Input>, i: nat)
    requires Accepted(Start(task), inputs)
    requires i < |Run(Start(task), inputs).history| && Run(Start(task), inputs).history[i] == Decided(false)
    ensures var c := Run(Start(task), inputs);
            i == |c.history| - 1 && c.node == End && c.state.status == Denied
  {
    var h := Run(Start(task), inputs).history;
    HistoryTellsEverything(task, inputs);
    if i + 1 < |h| {
      assert h[..i + 1][i] == Decided(false);
      NothingAfterTheEnd(task, inputs, i + 1);
    }
  }

  /** And a person's approval resumes the call: unless it is the last event, what follows is
      the same call. */
  lemma ApprovalResumesTheCall(task: string, inputs: seq<Input>)
    requires Accepted(Start(task), inputs)
    requires var h := Run(Start(task), inputs).history; h != [] && h[|h| - 1] == Decided(true)
    ensures Run(Start(task), inputs).node == CallTool && Run(Start(task), inputs).state.status == Approved
  {
    HistoryTellsEverything(task, inputs);
  }

  // ---- A pass that waits ------------------------------------------------------------------

  /** A call was held and waits on `id`, or is tried again, or is over; the pass it belongs to
      is still the current one. */
  predicate Waiting(c: Config, tool: string, args: Args, id: string) {
    && (c.node == AwaitDecision || c.node == CallTool || c.node == Plan || c.node == End)
    && c.state.tool == tool && c.state.args == args && c.state.approvalId == Some(id) && id != ""
    && (c.node == AwaitDecision || c.node == CallTool ==> !Repeats(c.state))
  }

  /** Whatever happens, short of another plan visit: the same call waits on the same id. */
  lemma StepKeepsWaiting(c: Config, input: Input, tool: string, args: Args, id: string)
    requires Waiting(c, tool, args, id) && Expects(c.node, input) && !input.Decides?
    ensures Waiting(Step(c, input), tool, args, id)
  {
  }

  // ---- Repeated calls --------------------------------------------------------------------

  predicate SameCall(a: Observation, b: Observation) {
    a.tool == b.tool && ArgsEq(a.args, b.args)
  }

  predicate NoneTwiceRunning(observations: seq<Observation>) {
    forall i | 1 <= i < |observations| :: !SameCall(observations[i - 1], observations[i])
  }

  /** In every run, no successful call is the one made just before it. */
  lemma {:induction false} NoCallTwiceRunning(c: Config, inputs: seq<Input>)
    requires Accepted(c, inputs) && NoneTwiceRunning(c.state.observations)
    ensures NoneTwiceRunning(Run(c, inputs).state.observations)
    decreases |inputs|
  {
    if inputs != [] {
      NoCallTwiceRunning(Step(c, inputs[0]), inputs[1..]);
    }
  }

  predicate NoneTwice(observations: seq<Observation>) {
    forall i, j | 0 <= i < j < |observations| :: !SameCall(observations[i], observations[j])
  }

  /** Exactly when a run makes no call twice: unless its third and last call is its first. */
  lemma NoCallTwiceIff(task: string, inputs: seq<Input>)
    requires Accepted(Start(task), inputs)
    ensures var made := Run(Start(task), inputs).state.observations;
            NoneTwice(made) <==> !(|made| == 3 && SameCall(made[0], made[2]))
  {
    StartWithinBudget(task);
    EveryRunKeepsInv(Start(task), inputs);
    NoCallTwiceRunning(Start(task), inputs);
    var made := Run(Start(task), inputs).state.observations;
    if |made| == 3 && SameCall(made[0], made[2]) {
      assert !NoneTwice(made);
    } else {
      forall i, j | 0 <= i < j < |made|
        ensures !SameCall(made[i], made[j])
      {
        if j == i + 1 {
          assert !SameCall(made[j - 1], made[j]);
        }
      }
    }
  }

  /** The same, before the call: the guard lets a call through that the run has made already
      exactly when two calls were made and it is the first of them. */
  lemma GuardMissesIff(task: string, inputs: seq<Input>)
    requires Accepted(Start(task), inputs) && Run(Start(task), inputs).node == CallTool
    ensures var s := Run(Start(task), inputs).state;
            var call := Observation(s.tool, s.args, Null);
            !Repeats(s) && (exists i :: 0 <= i < |s.observations| && SameCall(s.observations[i], call))
            <==> |s.observations| == 2 && SameCall(s.observations[0], call)
  {
    StartWithinBudget(task);
    EveryRunKeepsInv(Start(task), inputs);
    NoCallTwiceRunning(Start(task), inputs);
    var s := Run(Start(task), inputs).state;
    var call := Observation(s.tool, s.args, Null);
    if |s.observations| == 2 && SameCall(s.observations[0], call) {
      var a, b := s.observations[0], s.observations[1];
      assert !SameCall(s.observations[1 - 1], s.observations[1]);
      SameCallIsTransitive(a, call, b);
    }
  }

  lemma SameCallIsTransitive(a: Observation, b: Observation, c: Observation)
    ensures SameCall(a, b) && SameCall(c, b) ==> SameCall(a, c)
  {
    ArgsEqIsAnEquivalence(c.args, b.args, a.args);
    ArgsEqIsAnEquivalence(a.args, b.args, c.args);
  }

  // ---- Concrete runs ---------------------------------------------------------------------

  lemma {:induction false} RunSnoc(c: Config, inputs: seq<Input>, input: Input)
    requires Accepted(c, inputs) && Expects(Run(c, inputs).node, input)
    ensures Accepted(c, inputs + [input]) && Run(c, inputs + [input]) == Step(Run(c, inputs), input)
    decreases |inputs|
  {
    var all := inputs + [input];
    if inputs == [] {
      assert all[1..] == [];
    } else {
      assert all[1..] == inputs[1..] + [input];
      RunSnoc(Step(c, inputs[0]), inputs[1..], input);
    }
  }

  const HOLD_THEN_REFUND := [
    Decides(UseTool("refunds.issue", map["order_id" := Str("o-1")], true)),
    Answers(Answered(CallHeld, Null)), Creates(Some("ap-1")), Approves(true),
    Answers(Answered(CallOk, Null))]

  const ASK_AGAIN := Decides(Clarify("refunds.issue", map["order_id" := Str("o-2")], ["amount"]))

  lemma FirstPassOfExample()
    ensures Accepted(Start(""), HOLD_THEN_REFUND)
    ensures var c := Run(Start(""), HOLD_THEN_REFUND);
            c.node == Plan && c.state.approvalId == Some("ap-1") && c.state.observations != []
  {
    var c0 := Start("");
    var i := HOLD_THEN_REFUND;
    var c1 := Step(c0, i[0]);
    var c2 := Step(c1, i[1]);
    var c3 := Step(c2, i[2]);
    var c4 := Step(c3, i[3]);
    RunSnoc(c0, [], i[0]);
    assert [] + [i[0]] == [i[0]];
    RunSnoc(c0, [i[0]], i[1]);
    assert [i[0]] + [i[1]] == [i[0], i[1]];
    RunSnoc(c0, [i[0], i[1]], i[2]);
    assert [i[0], i[1]] + [i[2]] == [i[0], i[1], i[2]];
    RunSnoc(c0, [i[0], i[1], i[2]], i[3]);
    assert [i[0], i[1], i[2]] + [i[3]] == [i[0], i[1], i[2], i[3]];
    RunSnoc(c0, [i[0], i[1], i[2], i[3]], i[4]);
    assert [i[0], i[1], i[2], i[3]] + [i[4]] == i;
  }

  /** The exception: a refund is held, approved as `ap-1` and made; the next pass asks for the
      amount of another refund; and the call for that other order carries `ap-1`. */
  lemma LaterClarificationInheritsTheApproval(amount: Val)
    requires !Blank(amount)
    ensures var inputs := HOLD_THEN_REFUND + [ASK_AGAIN] + [Supplies(map["amount" := amount])];
            && Accepted(Start(""), inputs)
            && var c := Run(Start(""), inputs);
            && c.node == CallTool && Get(c.state.args, "order_id") == Str("o-2")
            && c.state.approvalId == Some("ap-1") && CreatedInPass(c.history) == None
  {
    FirstPassOfExample();
    var c5 := Run(Start(""), HOLD_THEN_REFUND);
    var c6 := Step(c5, ASK_AGAIN);
    RunSnoc(Start(""), HOLD_THEN_REFUND, ASK_AGAIN);
    var answer := Supplies(map["amount" := amount]);
    RunSnoc(Start(""), HOLD_THEN_REFUND + [ASK_AGAIN], answer);
    var args := Merged(c6.state.args, map["amount" := amount]);
    assert args["amount"] == amount && ["amount"][1..] == [];
    assert Remaining(args, ["amount"]) == [];
    var c7 := Step(c6, answer);
    HistorySnoc(c6.history, Supplied(map["amount" := amount]));
    HistorySnoc(c5.history, Planned(ASK_AGAIN.decision));
  }

  const ASK_A_LOT := [
    Decides(UseTool("a", map[], true)), Answers(Answered(CallOk, Null)),
    Decides(Clarify("b", map[], ["x"])), Supplies(map[]), Supplies(map["x" := Int(1)]),
    Answers(Answered(CallOk, Null)),
    Decides(Clarify("c", map[], ["x"])), Supplies(map["x" := Int(1)])]

  lemma RunCons(c: Config, input: Input, rest: seq<Input>)
    requires Expects(c.node, input) && Accepted(Step(c, input), rest)
    ensures Accepted(c, [input] + rest) && Run(c, [input] + rest) == Run(Step(c, input), rest)
  {
    assert ([input] + rest)[1..] == rest;
  }

  lemma {:induction false} RunConcat(c: Config, a: seq<Input>, d: Config, b: seq<Input>)
    requires Accepted(c, a) && Run(c, a) == d && Accepted(d, b)
    ensures Accepted(c, a + b) && Run(c, a + b) == Run(d, b)
    decreases |b|
  {
    if b == [] {
      assert a + b == a;
    } else {
      RunSnoc(c, a, b[0]);
      RunConcat(c, a + [b[0]], Step(d, b[0]), b[1..]);
      MovedOver(a, b);
    }
  }

  lemma MovedOver(a: seq<Input>, b: seq<Input>)
    requires b != []
    ensures a + b == (a + [b[0]]) + b[1..]
  {
  }

  lemma RunThree(c: Config, a: Input, b: Input, d: Input)
    requires Expects(c.node, a) && Expects(Step(c, a).node, b) && Expects(Step(Step(c, a), b).node, d)
    ensures Accepted(c, [a, b, d]) && Run(c, [a, b, d]) == Step(Step(Step(c, a), b), d)
  {
    RunSnoc(c, [], a);
    assert [] + [a] == [a];
    RunSnoc(c, [a], b);
    assert [a] + [b] == [a, b];
    RunSnoc(c, [a, b], d);
    assert [a, b] + [d] == [a, b, d];
  }

  lemma OneStepThenAQuestion()
    ensures Accepted(Start(""), ASK_A_LOT[..3])
    ensures var c := Run(Start(""), ASK_A_LOT[..3]);
            && c.node == AskClarification && c.state.status == ClarificationRequired
            && c.state.tool == "b" && c.state.args == map[]
            && c.state.missing == ["x"] && c.state.asks == 0 && c.state.steps == 1 && c.state.more
            && c.state.observations == [Observation("a", map[], Null)]
  {
    var i := ASK_A_LOT;
    RunThree(Start(""), i[0], i[1], i[2]);
    assert i[..3] == [i[0], i[1], i[2]];
  }

  lemma AnsweredAtTheSecondAttempt(c: Config)
    requires c.node == AskClarification && c.state.status == ClarificationRequired
    requires c.state.tool == "b" && c.state.args == map[]
    requires c.state.missing == ["x"] && c.state.asks == 0 && c.state.steps == 1 && c.state.more
    requires c.state.observations == [Observation("a", map[], Null)]
    ensures Accepted(c, ASK_A_LOT[3..6])
    ensures var d := Run(c, ASK_A_LOT[3..6]); d.node == Plan && d.state.asks == 2 && d.state.steps == 2
  {
    var i := ASK_A_LOT;
    assert ["x"][1..] == [];
    assert Remaining(map[], ["x"]) == ["x"];
    var c1 := Step(c, i[3]);
    assert c1.state.args == map[] && c1.state.missing == ["x"] && c1.node == AskClarification;
    var c2 := Step(c1, i[4]);
    assert Remaining(map["x" := Int(1)], ["x"]) == [];
    assert c2.state.args == map["x" := Int(1)] && c2.node == CallTool;
    RunThree(c, i[3], i[4], i[5]);
    assert i[3..6] == [i[3], i[4], i[5]];
  }

  /** The first six visits: a step that wants another, then a question answered at the second
      attempt. */
  lemma TwoAsksSoFar()
    ensures Accepted(Start(""), ASK_A_LOT[..6])
    ensures var c := Run(Start(""), ASK_A_LOT[..6]);
            c.node == Plan && c.state.asks == 2 && c.state.steps == 2
  {
    OneStepThenAQuestion();
    AnsweredAtTheSecondAttempt(Run(Start(""), ASK_A_LOT[..3]));
    RunConcat(Start(""), ASK_A_LOT[..3], Run(Start(""), ASK_A_LOT[..3]), ASK_A_LOT[3..6]);
    assert ASK_A_LOT[..3] + ASK_A_LOT[3..6] == ASK_A_LOT[..6];
  }

  lemma OneMoreAsk(c: Config)
    requires c.node == Plan && c.state.asks == 2
    ensures Accepted(c, ASK_A_LOT[6..]) && Run(c, ASK_A_LOT[6..]).state.asks == 3
  {
    var a, b := ASK_A_LOT[6], ASK_A_LOT[7];
    TwoThenRest(c, a, b, []);
    assert [a, b] + [] == ASK_A_LOT[6..];
  }

  /** The bound on asks is met. */
  lemma ThreeAsksHappen()
    ensures Accepted(Start(""), ASK_A_LOT)
    ensures Count(Run(Start(""), ASK_A_LOT).history, COMPLETED_ASKS) == MAX_ASKS + MAX_STEPS - 2
  {
    TwoAsksSoFar();
    OneMoreAsk(Run(Start(""), ASK_A_LOT[..6]));
    RunConcat(Start(""), ASK_A_LOT[..6], Run(Start(""), ASK_A_LOT[..6]), ASK_A_LOT[6..]);
    assert ASK_A_LOT[..6] + ASK_A_LOT[6..] == ASK_A_LOT;
    StartWithinBudget("");
    EveryRunKeepsInv(Start(""), ASK_A_LOT);
  }

  lemma ChosenCallIsMade(c: Config, tool: string, more: bool)
    requires c.node == Plan && c.state.steps < MAX_STEPS && (c.state.status.Unset? || c.state.status.Ok?)
    requires c.state.observations != [] ==> c.state.observations[|c.state.observations| - 1].tool != tool
    ensures var d := Step(c, Decides(UseTool(tool, map[], more)));
            && d.node == CallTool
            && var e := Step(d, Answers(Answered(CallOk, Null)));
            && e.state.observations == c.state.observations + [Observation(tool, map[], Null)]
            && e.state.steps == c.state.steps + 1 && e.state.status.Ok?
            && (more && e.state.steps < MAX_STEPS ==> e.node == Plan)
  {
  }

  /** Only the call just before is compared: after another call in between, the first one is
      made again, as a second real action of the same run. */
  lemma RepeatAfterAnotherCallIsMade()
    ensures var c1 := Step(Step(Start(""), Decides(UseTool("a", map[], true))), Answers(Answered(CallOk, Null)));
            var c2 := Step(Step(c1, Decides(UseTool("b", map[], true))), Answers(Answered(CallOk, Null)));
            var c3 := Step(Step(c2, Decides(UseTool("a", map[], false))), Answers(Answered(CallOk, Null)));
            |c3.state.observations| == 3 && SameCall(c3.state.observations[0], c3.state.observations[2])
  {
    ChosenCallIsMade(Start(""), "a", true);
    var c1 := Step(Step(Start(""), Decides(UseTool("a", map[], true))), Answers(Answered(CallOk, Null)));
    ChosenCallIsMade(c1, "b", true);
    var c2 := Step(Step(c1, Decides(UseTool("b", map[], true))), Answers(Answered(CallOk, Null)));
    ChosenCallIsMade(c2, "a", false);
  }
}
