/** The policy enforcement point (app/tools/enforcement.py): one tool call, from a token
    to an outcome, with its effects on the ledger and the audit trail. */
module Enforcement {
  import opened Values
  import opened Schema
  import A = Approvals
  import L = Ledger

  /** What policy answers. It is an arbitrary input of each call. */
  datatype Verdict = Allow | Deny | RequireApproval

  /** Who is acting, for whom, and within which tenant. */
  datatype Delegation = Delegation(user: string, workload: string, tenant: Option<string>)

  datatype Caller = WorkloadRefused | NoToken | TokenRejected | Verified(delegation: Delegation)

  /** A tool of the catalogue. The one idempotent tool issues refunds; every other tool
      reads or drafts, and its answer is an input of the call. */
  datatype Tool = Tool(name: string, properties: Properties, required: seq<string>, idempotent: bool)

  type Catalogue = map<string, Tool>

  const REFUND_PROPERTIES: Properties := map["order_id" := Text, "amount" := Number]

  predicate WellFormed(catalogue: Catalogue) {
    forall name | name in catalogue ::
      && catalogue[name].name == name
      && "approval_id" !in catalogue[name].properties
      && (catalogue[name].idempotent ==> catalogue[name].properties == REFUND_PROPERTIES)
  }

  /** What does not change while the platform runs. */
  datatype Env = Env(rules: TextRules, catalogue: Catalogue, orders: L.Orders)

  /** One call, with the answers of the services it consults: the policy verdict, whether
      the approvals service could be reached, and what a non-refund handler did. */
  datatype Call = Call(
    caller: Caller, toolName: string, args: Args,
    verdict: Verdict, approvalsReachable: bool, backend: Backend)

  /** What a handler may do. An answer reports an error when it is a dictionary whose
      `error` is truthy: a record that is not there, say. */
  datatype Backend = Raises | Reports(error: Val) | Returns(v: Val)

  datatype Outcome = Ok | Denied | ApprovalRequired | Error

  datatype Reply = NoReply | RefundReply(refund: L.Refund) | NotFound | ErrorData(error: Val) | Data(v: Val)

  datatype AuditEvent =
    | EvWorkloadRejected | EvIdentityRejected | EvUnknownTool
    | EvDenied | EvApprovalRequired | EvError | EvAllowed | EvReportedError

  /** A handler run: what was executed, for whom, and on which authority. */
  datatype Execution = Execution(
    tool: string, args: Args, delegation: Delegation,
    approvalId: Option<string>, verdict: Verdict, ask: Option<L.Ask>)

  function TenantOf(d: Delegation): string {
    if d.tenant.Some? then d.tenant.value else ""
  }

  /** The approval id a request carries: `args.get("approval_id")`, when truthy. */
  function ApprovalIdOf(rules: TextRules, args: Args): Option<string> {
    var v := Get(args, "approval_id");
    if Truthy(v) then Some(Show(rules, v)) else None
  }

  /** The idempotency key handed to an idempotent tool. */
  function KeyFor(tool: Tool, approvalId: Option<string>): Option<string> {
    if tool.idempotent then approvalId else None
  }

  /** The refund a handler is asked for; nothing when its arguments do not fit. */
  function AskOf(callArgs: Args, tenant: Option<string>, key: Option<string>): Option<L.Ask> {
    if "order_id" in callArgs && "amount" in callArgs && callArgs["amount"].Num? then
      var order := callArgs["order_id"];
      Some(L.Ask(if order.Str? then order.s else "", callArgs["amount"].r, tenant, key))
    else None
  }

  predicate HoldsApproval(env: Env, table: A.Table, call: Call)
    requires call.caller.Verified? && call.toolName in env.catalogue
  {
    var d, id := call.caller.delegation, ApprovalIdOf(env.rules, call.args);
    && id.Some?
    && call.approvalsReachable
    && A.Verifies(table, id.value, call.toolName, CallArgs(env, call), d.user, d.workload, TenantOf(d))
  }

  function CallArgs(env: Env, call: Call): Args
    requires call.toolName in env.catalogue
  {
    Coerced(env.rules, env.catalogue[call.toolName].properties, call.args)
  }

  /** Whether the handler runs. */
  predicate Runs(env: Env, table: A.Table, call: Call) {
    && call.caller.Verified?
    && call.toolName in env.catalogue
    && (call.verdict.Allow? || (call.verdict.RequireApproval? && HoldsApproval(env, table, call)))
  }

  function ExecutionOf(env: Env, call: Call): Execution
    requires call.caller.Verified? && call.toolName in env.catalogue
  {
    var tool, d := env.catalogue[call.toolName], call.caller.delegation;
    var id := ApprovalIdOf(env.rules, call.args);
    Execution(call.toolName, CallArgs(env, call), d, id, call.verdict,
              if tool.idempotent then AskOf(CallArgs(env, call), d.tenant, KeyFor(tool, id)) else None)
  }

  function BookAfter(env: Env, table: A.Table, book: L.Book, call: Call): L.Book {
    if Runs(env, table, call) && ExecutionOf(env, call).ask.Some?
    then L.AfterIssue(env.orders, book, ExecutionOf(env, call).ask.value)
    else book
  }

  function OutcomeOf(env: Env, table: A.Table, book: L.Book, call: Call): Outcome {
    if !call.caller.Verified? || call.toolName !in env.catalogue || call.verdict.Deny? then Denied
    else if !Runs(env, table, call) then ApprovalRequired
    else if ReplyOf(env, table, book, call).NoReply? then Error
    else Ok
  }

  function ReplyOf(env: Env, table: A.Table, book: L.Book, call: Call): Reply {
    if !Runs(env, table, call) then NoReply
    else if env.catalogue[call.toolName].idempotent then
      (match ExecutionOf(env, call).ask
       case None => NoReply
       case Some(ask) =>
         match L.AnswerTo(env.orders, book, ask)
         case Refunded(r) => RefundReply(r)
         case UnknownOrder => NotFound
         case NotPositive => NoReply)
    else
      match call.backend
      case Raises => NoReply
      case Reports(error) => ErrorData(error)
      case Returns(v) => Data(v)
  }

  /** The handler answered, and its answer is that it could not do the work. */
  predicate ReportsError(reply: Reply) {
    reply.NotFound? || reply.ErrorData?
  }

  function HandlerEvents(reply: Reply): seq<AuditEvent> {
    match reply
    case NoReply => [EvError]
    case NotFound => [EvAllowed, EvReportedError]
    case ErrorData(_) => [EvAllowed, EvReportedError]
    case _ => [EvAllowed]
  }

  function EventsOf(env: Env, table: A.Table, book: L.Book, call: Call): seq<AuditEvent> {
    match call.caller
    case WorkloadRefused => [EvWorkloadRejected]
    case NoToken => []
    case TokenRejected => [EvIdentityRejected]
    case Verified(_) =>
      if call.toolName !in env.catalogue then [EvUnknownTool]
      else if call.verdict.Deny? then [EvDenied]
      else if !Runs(env, table, call) then [EvApprovalRequired]
      else HandlerEvents(ReplyOf(env, table, book, call))
  }

  class ToolEnforcer {
    const env: Env
    const store: A.ApprovalStore
    const ledger: L.RefundLedger
    var trail: seq<AuditEvent>

    constructor (env: Env, store: A.ApprovalStore, ledger: L.RefundLedger)
      requires ledger.orders == env.orders
      ensures this.env == env && this.store == store && this.ledger == ledger && trail == []
    {
      this.env, this.store, this.ledger, trail := env, store, ledger, [];
    }

    /** One call. The method changes only the ledger and the trail. */
    method Invoke(call: Call) returns (outcome: Outcome, reply: Reply)
      requires WellFormed(env.catalogue) && ledger.orders == env.orders
      modifies this`trail, ledger
      ensures outcome == OutcomeOf(env, store.items, old(ledger.Value()), call)
      ensures reply == ReplyOf(env, store.items, old(ledger.Value()), call)
      ensures ledger.Value() == BookAfter(env, store.items, old(ledger.Value()), call)
      ensures trail == old(trail) + EventsOf(env, store.items, old(ledger.Value()), call)
    {
      reply := NoReply;
      match call.caller {
        case WorkloadRefused => trail := trail + [EvWorkloadRejected]; return Denied, reply;
        case NoToken => return Denied, reply;
        case TokenRejected => trail := trail + [EvIdentityRejected]; return Denied, reply;
        case Verified(_) =>
      }
      var d := call.caller.delegation;
      if call.toolName !in env.catalogue {
        trail := trail + [EvUnknownTool];
        return Denied, reply;
      }
      var tool := env.catalogue[call.toolName];
      var callArgs := CoerceArgs(env.rules, tool.properties, call.args);
      var approvalId := ApprovalIdOf(env.rules, call.args);
      var key := KeyFor(tool, approvalId);
      if call.verdict.Deny? {
        trail := trail + [EvDenied];
        return Denied, reply;
      }
      if call.verdict.RequireApproval? {
        var approved := false;
        if approvalId.Some? && call.approvalsReachable {
          approved := store.Verify(approvalId.value, call.toolName, callArgs, d.user, d.workload, TenantOf(d));
        }
        if !approved {
          trail := trail + [EvApprovalRequired];
          return ApprovalRequired, reply;
        }
      }
      if tool.idempotent {
        var ask := AskOf(callArgs, d.tenant, key);
        if ask.Some? {
          var answer := ledger.IssueRefund(ask.value);
          match answer {
            case Refunded(r) => reply := RefundReply(r);
            case UnknownOrder => reply := NotFound;
            case NotPositive =>
          }
        }
      } else {
        match call.backend {
          case Raises =>
          case Reports(error) => reply := ErrorData(error);
          case Returns(v) => reply := Data(v);
        }
      }
      if reply.NoReply? {
        trail := trail + [EvError];
        return Error, reply;
      }
      trail := trail + if ReportsError(reply) then [EvAllowed, EvReportedError] else [EvAllowed];
      outcome := Ok;
    }
  }

  // ---- What each call is answered -------------------------------------------------

  /** The caller is verified and names a tool of the catalogue: policy is asked. */
  predicate Reaches(env: Env, call: Call) {
    call.caller.Verified? && call.toolName in env.catalogue
  }

  /** The call carries the id of an approval given, in the caller's name and tenant, for this
      tool and these arguments. */
  predicate CarriesApproval(env: Env, table: A.Table, call: Call)
    requires Reaches(env, call)
  {
    var v, d := Get(call.args, "approval_id"), call.caller.delegation;
    && Truthy(v) && call.approvalsReachable
    && Show(env.rules, v) in table
    && var a := table[Show(env.rules, v)];
    && a.status.Approved? && a.request.tool == call.toolName
    && ArgsEq(a.request.args, Coerced(env.rules, env.catalogue[call.toolName].properties, call.args))
    && a.request.user == d.user && a.request.agent == d.workload
    && a.request.tenant == (match d.tenant case Some(tenant) => tenant case None => "")
  }

  /** The refund tool raises when its arguments do not fit, or for an amount that is not
      positive on an order of the caller's tenant, unless the key replays; another tool when
      its handler does. */
  predicate HandlerRaises(env: Env, book: L.Book, call: Call)
    requires Reaches(env, call)
  {
    if env.catalogue[call.toolName].idempotent then
      match ExecutionOf(env, call).ask
      case None => true
      case Some(ask) =>
        && !(ask.key.Some? && ask.key.value != "" && exists i :: 0 <= i < |book.entries| && book.entries[i].key == ask.key.value)
        && ask.orderId in env.orders && ask.tenant == Some(env.orders[ask.orderId].tenant) && ask.tenant != Some("")
        && ask.amount <= 0.0
    else call.backend.Raises?
  }

  /** The answer to every call, from the call's own fields: denied unless it reaches policy and
      policy does not deny it; held exactly when policy wants an approval that the call does
      not carry; an error exactly when the handler ran and raised; and otherwise ok. */
  lemma OutcomeIff(env: Env, table: A.Table, book: L.Book, call: Call)
    ensures var outcome := OutcomeOf(env, table, book, call);
            && (outcome.Denied? <==> !Reaches(env, call) || call.verdict.Deny?)
            && (outcome.ApprovalRequired? <==>
                  Reaches(env, call) && call.verdict.RequireApproval? && !CarriesApproval(env, table, call))
            && (outcome.Error? <==>
                  && Reaches(env, call)
                  && (call.verdict.Allow? || (call.verdict.RequireApproval? && CarriesApproval(env, table, call)))
                  && HandlerRaises(env, book, call))
  {
    if Reaches(env, call) && env.catalogue[call.toolName].idempotent && ExecutionOf(env, call).ask.Some? {
      var ask := ExecutionOf(env, call).ask.value;
      if ask.key.Some? {
        L.HasIff(book.entries, ask.key.value);
      }
    }
  }

  /** The refund that a call asks for: the order and amount of its coerced arguments, in the
      caller's tenant, under the approval id it carries. It asks for none exactly when one of
      the two is missing or the amount is not a number. */
  lemma AskIff(env: Env, call: Call)
    requires WellFormed(env.catalogue) && Reaches(env, call) && env.catalogue[call.toolName].idempotent
    ensures var ask, args := ExecutionOf(env, call).ask, Coerced(env.rules, REFUND_PROPERTIES, call.args);
            && (ask.Some? <==> "order_id" in call.args && Get(args, "amount") != Null)
            && (ask.Some? ==>
                  && (args["order_id"] == Null || args["order_id"] == Str(ask.value.orderId))
                  && args["amount"] == Num(ask.value.amount)
                  && ask.value.tenant == call.caller.delegation.tenant
                  && var v := Get(call.args, "approval_id");
                     ask.value.key == if Truthy(v) then Some(Show(env.rules, v)) else None)
  {
  }

  /** The lines in the trail: each refusal leaves its own, alone, and so does each way to run;
      no other call leaves it. */
  lemma EachLineIff(env: Env, table: A.Table, book: L.Book, call: Call)
    ensures var events, outcome := EventsOf(env, table, book, call), OutcomeOf(env, table, book, call);
            && (events == [EvWorkloadRejected] <==> call.caller.WorkloadRefused?)
            && (events == [] <==> call.caller.NoToken?)
            && (events == [EvIdentityRejected] <==> call.caller.TokenRejected?)
            && (events == [EvUnknownTool] <==> call.caller.Verified? && call.toolName !in env.catalogue)
            && (events == [EvDenied] <==> Reaches(env, call) && call.verdict.Deny?)
            && (events == [EvApprovalRequired] <==>
                  Reaches(env, call) && call.verdict.RequireApproval? && !CarriesApproval(env, table, call))
            && (events == [EvError] <==> outcome.Error?)
            && (|events| > 0 && events[0] == EvAllowed <==> outcome.Ok?)
  {
    OutcomeIff(env, table, book, call);
    if Runs(env, table, call) {
      OneOrTwoLines(ReplyOf(env, table, book, call));
    }
  }

  lemma OneOrTwoLines(reply: Reply)
    ensures HandlerEvents(reply) != []
    ensures HandlerEvents(reply)[0] == if reply.NoReply? then EvError else EvAllowed
    ensures reply.NoReply? ==> HandlerEvents(reply) == [EvError]
  {
  }

  /** What comes back from a call that ran: of the refund tool, the refund its key already
      stands for, a new one as asked for, or that there is no such order in the tenant; of
      every other tool, what its handler answered. */
  lemma ReplyIff(env: Env, table: A.Table, book: L.Book, call: Call)
    requires Runs(env, table, call)
    ensures !env.catalogue[call.toolName].idempotent ==>
      ReplyOf(env, table, book, call) == match call.backend
                                         case Raises => NoReply
                                         case Reports(error) => ErrorData(error)
                                         case Returns(v) => Data(v)
    ensures env.catalogue[call.toolName].idempotent && ExecutionOf(env, call).ask.Some? ==>
      var ask, reply := ExecutionOf(env, call).ask.value, ReplyOf(env, table, book, call);
      && (reply.NotFound? <==> L.AnswerTo(env.orders, book, ask).UnknownOrder?)
      && (reply.RefundReply? <==> L.AnswerTo(env.orders, book, ask).Refunded?)
      && (reply.RefundReply? ==> reply.refund == L.AnswerTo(env.orders, book, ask).refund)
  {
  }

  /** Deny by default, and no money without a handler run: a call changes the ledger only
      when its caller is verified, its tool known, and policy allowed it or a matching
      approval backs it. */
  lemma NothingMovesWithoutAuthority(env: Env, table: A.Table, book: L.Book, call: Call)
    requires BookAfter(env, table, book, call) != book
    ensures Runs(env, table, call) && !call.verdict.Deny?
    ensures OutcomeOf(env, table, book, call) == Ok && ReplyOf(env, table, book, call).RefundReply?
    ensures EventsOf(env, table, book, call) == [EvAllowed]
    ensures call.verdict.RequireApproval? ==> HoldsApproval(env, table, call)
  {
    var ask := ExecutionOf(env, call).ask.value;
    if L.Replays(book, ask) || !L.Moves(env.orders, book, ask) {
      assert false;
    }
  }

  /** The answer of a tool that reads or drafts is in the trail when it is an error: the call
      was allowed, and its second line says what came back. */
  lemma ReportedErrorIsInTheTrail(env: Env, table: A.Table, book: L.Book, call: Call)
    requires Runs(env, table, call) && !env.catalogue[call.toolName].idempotent
    ensures EventsOf(env, table, book, call) == [EvAllowed, EvReportedError] <==> call.backend.Reports?
    ensures call.backend.Reports? ==> OutcomeOf(env, table, book, call).Ok?
  {
    if !call.backend.Reports? {
      var events := EventsOf(env, table, book, call);
      assert |events| == 1;
    }
  }

  lemma TwoLines(reply: Reply)
    requires ReportsError(reply)
    ensures HandlerEvents(reply)[0] == EvAllowed && HandlerEvents(reply)[1] == EvReportedError
  {
  }

  /** What ran can be read off the audit trail: a handler ran exactly when the call left an
      allowed or an error line, it succeeded exactly when the line is allowed, and there is a
      second line exactly when the answer of the tool, any tool, reports an error. Only a call
      without a token leaves no line. */
  lemma AuditTellsWhatRan(env: Env, table: A.Table, book: L.Book, call: Call)
    ensures var events := EventsOf(env, table, book, call);
            && (Runs(env, table, call) <==> EvAllowed in events || EvError in events)
            && (OutcomeOf(env, table, book, call).Ok? <==> EvAllowed in events)
            && (events == [] <==> call.caller.NoToken?)
            && |events| <= 2
            && (|events| == 2 <==> EvReportedError in events)
            && (EvReportedError in events <==> ReportsError(ReplyOf(env, table, book, call)))
  {
    if Runs(env, table, call) {
      match ReplyOf(env, table, book, call) {
        case NoReply => assert HandlerEvents(NoReply)[0] == EvError;
        case NotFound => TwoLines(NotFound);
        case ErrorData(error) => TwoLines(ErrorData(error));
        case RefundReply(r) => assert HandlerEvents(RefundReply(r))[0] == EvAllowed;
        case Data(v) => assert HandlerEvents(Data(v))[0] == EvAllowed;
      }
    }
  }
}
