/** The approvals service, the enforcement point and the refund ledger together: every
    interleaving of create, decide, tool-call and restart steps, by any number of agents. */
module Platform {
  import opened Values
  import opened Schema
  import opened Enforcement
  import A = Approvals
  import L = Ledger
  import Decimal

  /** The shared state, and the log of handler runs so far. */
  datatype State = State(table: A.Table, book: L.Book, log: seq<Execution>)

  const INITIAL := State(map[], L.EMPTY, [])

  datatype Step =
    | Approvals(op: A.Op)
    | Invoke(call: Call)
    | Restart

  function Next(env: Env, s: State, step: Step): State {
    match step
    case Approvals(op) => s.(table := A.Apply(s.table, op))
    case Restart => s.(book := L.Restored(L.Snapshot(s.book.entries)))
    case Invoke(call) =>
      State(s.table, BookAfter(env, s.table, s.book, call),
            if Runs(env, s.table, call) then s.log + [ExecutionOf(env, call)] else s.log)
  }

  function Run(env: Env, s: State, steps: seq<Step>): State
    decreases |steps|
  {
    if steps == [] then s else Run(env, Next(env, s, steps[0]), steps[1..])
  }

  /** Generated approval ids: `ap-` and hexadecimal digits. */
  predicate ApprovalId(id: string) {
    |id| > 3 && id[..3] == "ap-"
  }

  /** A new approval takes a fresh generated id. */
  predicate LegalStep(s: State, step: Step) {
    step.Approvals? && step.op.Create? ==> ApprovalId(step.op.id) && step.op.id !in s.table
  }

  predicate Legal(env: Env, s: State, steps: seq<Step>)
    decreases |steps|
  {
    steps == [] || (LegalStep(s, steps[0]) && Legal(env, Next(env, s, steps[0]), steps[1..]))
  }

  lemma {:induction false} RunConcat(env: Env, s: State, a: seq<Step>, b: seq<Step>)
    ensures Run(env, s, a + b) == Run(env, Run(env, s, a), b)
    ensures Legal(env, s, a + b) ==> Legal(env, s, a) && Legal(env, Run(env, s, a), b)
    decreases |a|
  {
    if a == [] {
      assert a + b == b;
    } else {
      assert (a + b)[1..] == a[1..] + b;
      RunConcat(env, Next(env, s, a[0]), a[1..], b);
    }
  }

  // ---- No unapproved action ------------------------------------------------

  /** The table holds, now, an approval for exactly this handler run, given by someone
      other than the person it ran for. */
  predicate Backed(table: A.Table, e: Execution) {
    var d := e.delegation;
    && e.approvalId.Some?
    && A.Verifies(table, e.approvalId.value, e.tool, e.args, d.user, d.workload, TenantOf(d))
    && table[e.approvalId.value].approver.Some?
    && table[e.approvalId.value].approver.value != d.user
  }

  predicate AllBacked(table: A.Table, log: seq<Execution>) {
    forall i | 0 <= i < |log| && log[i].verdict.RequireApproval? :: Backed(table, log[i])
  }

  predicate Inv(s: State) {
    && A.Valid(s.table)
    && L.Valid(s.book)
    && AllBacked(s.table, s.log)
    && (forall id | id in s.table :: ApprovalId(id))
  }

  lemma BackingSurvives(before: A.Table, after: A.Table, e: Execution)
    requires Backed(before, e) && A.Evolves(before, after)
    ensures Backed(after, e)
  {
  }

  lemma StepKeepsInv(env: Env, s: State, step: Step)
    requires Inv(s) && LegalStep(s, step)
    ensures Inv(Next(env, s, step))
    ensures A.Evolves(s.table, Next(env, s, step).table)
    ensures s.log <= Next(env, s, step).log
  {
    var next := Next(env, s, step);
    match step {
      case Approvals(op) =>
        forall i | 0 <= i < |s.log| && s.log[i].verdict.RequireApproval?
          ensures Backed(next.table, s.log[i])
        {
          BackingSurvives(s.table, next.table, s.log[i]);
        }
      case Restart => L.RestoreOfSnapshotIsIdentity(s.book);
      case Invoke(call) =>
        if Runs(env, s.table, call) {
          var e := ExecutionOf(env, call);
          if e.ask.Some? {
            L.IssueKeepsValid(env.orders, s.book, e.ask.value);
          }
          if e.verdict.RequireApproval? {
            assert Backed(s.table, e);
          }
        }
    }
  }

  /** Every handler run that policy marked as needing approval is backed by an approval of
      exactly that run, and stays backed for the rest of the run. */
  lemma {:induction false} ApprovedActionsOnly(env: Env, s: State, steps: seq<Step>)
    requires Inv(s) && Legal(env, s, steps)
    ensures Inv(Run(env, s, steps))
    ensures A.Evolves(s.table, Run(env, s, steps).table)
    ensures s.log <= Run(env, s, steps).log
    decreases |steps|
  {
    if steps == [] {
      A.EvolvesIsAPreorder(s.table, s.table, s.table);
    } else {
      var next := Next(env, s, steps[0]);
      StepKeepsInv(env, s, steps[0]);
      ApprovedActionsOnly(env, next, steps[1..]);
      A.EvolvesIsAPreorder(s.table, next.table, Run(env, s, steps).table);
    }
  }

  lemma InitialHoldsInv()
    ensures Inv(INITIAL)
  {
    L.EmptyIsValid();
  }

  /** Somebody other than the requester, in the requester's tenant, says yes. */
  predicate IsGrant(step: Step, id: string, r: A.Request) {
    && step.Approvals? && step.op.Decide? && step.op.id == id && step.op.approved
    && step.op.tenant == r.tenant && step.op.approver != r.user
  }

  predicate IsCreation(step: Step, id: string, r: A.Request) {
    step.Approvals? && step.op.Create? && step.op.id == id && step.op.request == r
  }

  /** An approval that a run gives is given by one of its steps. */
  lemma {:induction false} ApprovedWasGranted(env: Env, s: State, steps: seq<Step>, id: string)
    requires Inv(s) && Legal(env, s, steps) && id in s.table && !s.table[id].status.Approved?
    requires id in Run(env, s, steps).table && Run(env, s, steps).table[id].status.Approved?
    ensures exists k :: 0 <= k < |steps| && IsGrant(steps[k], id, s.table[id].request)
    decreases |steps|
  {
    var next := Next(env, s, steps[0]);
    StepKeepsInv(env, s, steps[0]);
    if next.table[id].status.Approved? {
      assert IsGrant(steps[0], id, s.table[id].request);
    } else {
      ApprovedWasGranted(env, next, steps[1..], id);
      var k :| 0 <= k < |steps[1..]| && IsGrant(steps[1..][k], id, s.table[id].request);
      assert steps[k + 1] == steps[1..][k];
    }
  }

  /** Some step created the approval, and some later step granted it. */
  predicate CreatedThenGranted(steps: seq<Step>, id: string, r: A.Request) {
    exists j, k :: 0 <= j < k < |steps| && IsCreation(steps[j], id, r) && IsGrant(steps[k], id, r)
  }

  lemma CreatedThenGrantedBehind(first: Step, rest: seq<Step>, id: string, r: A.Request)
    requires CreatedThenGranted(rest, id, r)
      || (IsCreation(first, id, r) && exists k :: 0 <= k < |rest| && IsGrant(rest[k], id, r))
    ensures CreatedThenGranted([first] + rest, id, r)
  {
    var all := [first] + rest;
    if CreatedThenGranted(rest, id, r) {
      var j, k :| 0 <= j < k < |rest| && IsCreation(rest[j], id, r) && IsGrant(rest[k], id, r);
      assert all[j + 1] == rest[j] && all[k + 1] == rest[k];
    } else {
      var k :| 0 <= k < |rest| && IsGrant(rest[k], id, r);
      assert all[0] == first && all[k + 1] == rest[k];
    }
  }

  lemma {:induction false} ApprovalHasItsSteps(env: Env, s: State, steps: seq<Step>, id: string)
    requires Inv(s) && Legal(env, s, steps) && id !in s.table
    requires id in Run(env, s, steps).table && Run(env, s, steps).table[id].status.Approved?
    ensures CreatedThenGranted(steps, id, Run(env, s, steps).table[id].request)
    decreases |steps|
  {
    var next, rest := Next(env, s, steps[0]), steps[1..];
    StepKeepsInv(env, s, steps[0]);
    ApprovedActionsOnly(env, next, rest);
    if id in next.table {
      ApprovedWasGranted(env, next, rest, id);
    } else {
      ApprovalHasItsSteps(env, next, rest, id);
    }
    CreatedThenGrantedBehind(steps[0], rest, id, Run(env, s, steps).table[id].request);
    assert steps == [steps[0]] + rest;
  }

  /** In every run of the platform, before a call that policy marked as needing approval is
      executed, somebody asked for exactly that call, tool, coerced arguments, user, agent and
      tenant, and then somebody else in that tenant said yes. */
  lemma HeldCallRunsOnlyAfterAYes(env: Env, steps: seq<Step>, call: Call)
    requires Legal(env, INITIAL, steps)
    requires Runs(env, Run(env, INITIAL, steps).table, call) && call.verdict.RequireApproval?
    ensures exists id, r: A.Request ::
              && CreatedThenGranted(steps, id, r)
              && ApprovalIdOf(env.rules, call.args) == Some(id)
              && r.tool == call.toolName && ArgsEq(r.args, CallArgs(env, call))
              && r.user == call.caller.delegation.user && r.agent == call.caller.delegation.workload
              && r.tenant == (match call.caller.delegation.tenant case Some(tenant) => tenant case None => "")
  {
    InitialHoldsInv();
    var table := Run(env, INITIAL, steps).table;
    var id := ApprovalIdOf(env.rules, call.args).value;
    ApprovalHasItsSteps(env, INITIAL, steps, id);
    var r := table[id].request;
    assert CreatedThenGranted(steps, id, r);
  }

  /** From the start of the platform: whatever ran on approval at any moment of any run is
      approved, for that tool, arguments, user, agent and tenant, by somebody else, at every
      later moment; and the steps up to that moment hold the request and the yes. */
  lemma EveryHeldActionWasApproved(env: Env, earlier: seq<Step>, later: seq<Step>, i: nat)
    requires Legal(env, INITIAL, earlier + later)
    requires i < |Run(env, INITIAL, earlier).log|
    requires Run(env, INITIAL, earlier).log[i].verdict.RequireApproval?
    ensures Backed(Run(env, INITIAL, earlier).table, Run(env, INITIAL, earlier).log[i])
    ensures Backed(Run(env, INITIAL, earlier + later).table, Run(env, INITIAL, earlier).log[i])
    ensures var s := Run(env, INITIAL, earlier);
            var id := s.log[i].approvalId.value;
            CreatedThenGranted(earlier, id, s.table[id].request)
  {
    InitialHoldsInv();
    RunConcat(env, INITIAL, earlier, later);
    ApprovedActionsOnly(env, INITIAL, earlier);
    var mid := Run(env, INITIAL, earlier);
    ApprovedActionsOnly(env, mid, later);
    assert Run(env, mid, later).log[i] == mid.log[i];
    ApprovalHasItsSteps(env, INITIAL, earlier, mid.log[i].approvalId.value);
  }

  // ---- One refund per approval ---------------------------------------------

  /** The ledger's share of a run. */
  function LedgerOps(env: Env, s: State, steps: seq<Step>): seq<L.Op>
    decreases |steps|
  {
    if steps == [] then []
    else
      var rest := LedgerOps(env, Next(env, s, steps[0]), steps[1..]);
      match steps[0]
      case Approvals(_) => rest
      case Restart => [L.Restart] + rest
      case Invoke(call) =>
        if Runs(env, s.table, call) && ExecutionOf(env, call).ask.Some?
        then [L.Issue(ExecutionOf(env, call).ask.value)] + rest
        else rest
  }

  lemma {:induction false} LedgerRunsItsShare(env: Env, s: State, steps: seq<Step>)
    ensures Run(env, s, steps).book == L.Run(env.orders, s.book, LedgerOps(env, s, steps))
    decreases |steps|
  {
    if steps != [] {
      LedgerRunsItsShare(env, Next(env, s, steps[0]), steps[1..]);
    }
  }

  /** Every refund issued during a run. */
  function MoneyMoved(env: Env, s: State, steps: seq<Step>): seq<L.Refund> {
    L.Movements(env.orders, s.book, LedgerOps(env, s, steps))
  }

  /** However often an approval is resumed or retried, by whomever, and with restarts
      anywhere between, money moves at most once under it. */
  lemma OneRefundPerApproval(env: Env, s: State, steps: seq<Step>, id: string)
    requires Inv(s) && id != ""
    ensures L.WithKey(MoneyMoved(env, s, steps), id) <= 1
    ensures L.Has(s.book.entries, id) ==> L.WithKey(MoneyMoved(env, s, steps), id) == 0
  {
    L.AtMostOneRefundPerKey(env.orders, s.book, LedgerOps(env, s, steps), id);
  }

  /** A key no generated refund id can take. */
  ghost predicate NeverARefundId(key: string) {
    forall n: nat :: key != Decimal.RefundId(n)
  }

  lemma ApprovalIdsAreNotRefundIds(id: string)
    requires ApprovalId(id)
    ensures NeverARefundId(id)
  {
    forall n: nat
      ensures id != Decimal.RefundId(n)
    {
      assert Decimal.RefundId(n)[0] == 'r' && id[..3][0] == 'a';
    }
  }

  lemma PutElsewhere(entries: seq<L.Entry>, key: string, other: string, r: L.Refund)
    requires L.Has(entries, key) && key != other
    ensures L.Has(L.Put(entries, other, r), key)
    ensures L.Lookup(L.Put(entries, other, r), key) == L.Lookup(entries, key)
  {
    var after := L.Put(entries, other, r);
    var i := L.IndexOf(entries, key);
    assert after[i] == entries[i];
    assert forall j | 0 <= j < i :: after[j].key != key;
  }

  /** The first refund under a key fixes it: nothing that happens later, not even an
      approval, changes what that key stands for. */
  lemma {:induction false} FirstUseFixesTheRefund(env: Env, s: State, steps: seq<Step>, key: string)
    requires Inv(s) && Legal(env, s, steps)
    requires L.Has(s.book.entries, key) && key != "" && NeverARefundId(key)
    ensures L.Has(Run(env, s, steps).book.entries, key)
    ensures L.Lookup(Run(env, s, steps).book.entries, key) == L.Lookup(s.book.entries, key)
    decreases |steps|
  {
    if steps != [] {
      StepKeepsInv(env, s, steps[0]);
      var next := Next(env, s, steps[0]);
      if steps[0].Restart? {
        L.RestoreOfSnapshotIsIdentity(s.book);
      } else if next.book != s.book {
        var ask := ExecutionOf(env, steps[0].call).ask.value;
        var r := L.NewRefund(s.book, ask);
        assert r.id == Decimal.RefundId(s.book.next);
        PutElsewhere(s.book.entries, key, L.KeyOf(r), r);
      }
      FirstUseFixesTheRefund(env, next, steps[1..], key);
    }
  }

  /** Some handler run asked for exactly this refund, under this key. */
  predicate AskedFor(log: seq<Execution>, r: L.Refund) {
    exists i :: 0 <= i < |log| && Asked(log[i], r)
  }

  predicate Asked(e: Execution, r: L.Refund) {
    && e.approvalId == r.idempotencyKey
    && e.ask == Some(L.Ask(r.orderId, r.amount, Some(r.tenant), r.idempotencyKey))
  }

  /** Executions of a catalogue's refund tool carry the refund they ask for. */
  predicate AsksMatch(e: Execution) {
    e.ask.Some? ==>
      e.ask == AskOf(e.args, e.delegation.tenant, e.approvalId)
  }

  predicate Accounted(s: State) {
    && (forall i | 0 <= i < |s.log| :: AsksMatch(s.log[i]))
    && (forall i | 0 <= i < |s.book.entries| :: AskedFor(s.log, s.book.entries[i].refund))
  }

  lemma AskedForStays(log: seq<Execution>, more: seq<Execution>, r: L.Refund)
    requires AskedFor(log, r)
    ensures AskedFor(log + more, r)
  {
    var i :| 0 <= i < |log| && Asked(log[i], r);
    assert (log + more)[i] == log[i];
  }

  lemma StepKeepsAccounts(env: Env, s: State, step: Step)
    requires Inv(s) && Accounted(s)
    ensures Accounted(Next(env, s, step))
  {
    if step.Restart? {
      L.RestoreOfSnapshotIsIdentity(s.book);
    }
    if step.Invoke? && Runs(env, s.table, step.call) {
      var e := ExecutionOf(env, step.call);
      var next := Next(env, s, step);
      forall i | 0 <= i < |next.book.entries|
        ensures AskedFor(next.log, next.book.entries[i].refund)
      {
        var r := next.book.entries[i].refund;
        if i < |s.book.entries| && r == s.book.entries[i].refund {
          AskedForStays(s.log, [e], r);
        } else {
          assert next.log[|s.log|] == e && Asked(e, r);
        }
      }
    }
  }

  /** In every run, each refund in the ledger is one that a handler run asked for. */
  lemma {:induction false} RefundsAreAccountedFor(env: Env, s: State, steps: seq<Step>)
    requires Inv(s) && Accounted(s) && Legal(env, s, steps)
    ensures Accounted(Run(env, s, steps))
    decreases |steps|
  {
    if steps != [] {
      StepKeepsInv(env, s, steps[0]);
      StepKeepsAccounts(env, s, steps[0]);
      RefundsAreAccountedFor(env, Next(env, s, steps[0]), steps[1..]);
    }
  }

  /** The refund is the one the approval is for: same order, same amount, same tenant. */
  predicate Fulfils(a: A.Approval, r: L.Refund) {
    && PyEq(Get(a.request.args, "order_id"), Str(r.orderId))
    && PyEq(Get(a.request.args, "amount"), Num(r.amount))
    && a.request.tenant == r.tenant
  }

  /** Every handler run that carried this approval id ran on approval, never on a plain
      allow. */
  predicate OnlyOnApproval(log: seq<Execution>, id: string) {
    forall i | 0 <= i < |log| && log[i].approvalId == Some(id) :: log[i].verdict.RequireApproval?
  }

  /** If no call carrying an approval id was allowed outright, the one refund under that id
      is the approved one. */
  lemma RefundIsTheApprovedOne(env: Env, steps: seq<Step>, id: string)
    requires Legal(env, INITIAL, steps) && ApprovalId(id)
    requires var s := Run(env, INITIAL, steps); OnlyOnApproval(s.log, id) && L.Has(s.book.entries, id)
    ensures var s := Run(env, INITIAL, steps);
            id in s.table && s.table[id].status.Approved? && Fulfils(s.table[id], L.Lookup(s.book.entries, id))
  {
    InitialHoldsInv();
    ApprovedActionsOnly(env, INITIAL, steps);
    RefundsAreAccountedFor(env, INITIAL, steps);
    var s := Run(env, INITIAL, steps);
    var r := L.Lookup(s.book.entries, id);
    ApprovalIdsAreNotRefundIds(id);
    RefundIdsAreGenerated(env, INITIAL, steps);
    assert L.KeyOf(r) == id;
    assert r.idempotencyKey == Some(id);
    var i :| 0 <= i < |s.log| && Asked(s.log[i], r);
    assert Backed(s.table, s.log[i]);
    assert AsksMatch(s.log[i]);
  }

  /** Refunds name a real order and carry generated ids. */
  ghost predicate WellFormedRefunds(book: L.Book) {
    forall i | 0 <= i < |book.entries| ::
      book.entries[i].refund.orderId != "" && !NeverARefundId(book.entries[i].refund.id)
  }

  lemma StepKeepsRefundsWellFormed(env: Env, s: State, step: Step)
    requires Inv(s) && WellFormedRefunds(s.book)
    ensures WellFormedRefunds(Next(env, s, step).book)
  {
    if step.Restart? {
      L.RestoreOfSnapshotIsIdentity(s.book);
    }
  }

  lemma {:induction false} RefundIdsAreGenerated(env: Env, s: State, steps: seq<Step>)
    requires Inv(s) && WellFormedRefunds(s.book) && Legal(env, s, steps)
    ensures WellFormedRefunds(Run(env, s, steps).book)
    decreases |steps|
  {
    if steps != [] {
      StepKeepsInv(env, s, steps[0]);
      StepKeepsRefundsWellFormed(env, s, steps[0]);
      RefundIdsAreGenerated(env, Next(env, s, steps[0]), steps[1..]);
    }
  }

  // ---- What an allowed call can do to an approval's key ---------------------

  /** The exception, in general: a call that policy allows outright, carrying an approval
      id, spends that id. The approved refund is then answered with the other one, and no
      money moves for it. */
  lemma AllowedCallSpendsTheApproval(env: Env, s: State, allowed: Call, between: seq<Step>, approved: Call, id: string)
    requires Inv(s) && ApprovalId(id)
    requires Legal(env, s, [Invoke(allowed)] + between)
    requires Runs(env, s.table, allowed) && allowed.verdict.Allow?
    requires ApprovalIdOf(env.rules, allowed.args) == Some(id)
    requires ExecutionOf(env, allowed).ask.Some? && L.Moves(env.orders, s.book, ExecutionOf(env, allowed).ask.value)
    requires var later := Run(env, s, [Invoke(allowed)] + between);
             && Runs(env, later.table, approved) && approved.verdict.RequireApproval?
             && ApprovalIdOf(env.rules, approved.args) == Some(id)
             && ExecutionOf(env, approved).ask.Some?
    ensures var later := Run(env, s, [Invoke(allowed)] + between);
            && OutcomeOf(env, later.table, later.book, approved) == Ok
            && ReplyOf(env, later.table, later.book, approved)
               == RefundReply(L.NewRefund(s.book, ExecutionOf(env, allowed).ask.value))
            && BookAfter(env, later.table, later.book, approved) == later.book
  {
    var ask := ExecutionOf(env, allowed).ask.value;
    var r := L.NewRefund(s.book, ask);
    var next := Next(env, s, Invoke(allowed));
    RunConcat(env, s, [Invoke(allowed)], between);
    assert Run(env, s, [Invoke(allowed)]) == Run(env, next, []);
    StepKeepsInv(env, s, Invoke(allowed));
    ApprovalIdsAreNotRefundIds(id);
    var i := L.IndexOf(s.book.entries, id);
    assert next.book.entries[i] == L.Entry(id, r);
    assert forall j | 0 <= j < i :: next.book.entries[j].key != id;
    FirstUseFixesTheRefund(env, next, between, id);
  }

  /** The call asks for the refund the approval is for. */
  predicate AsksForApproved(a: A.Approval, ask: L.Ask) {
    && PyEq(Get(a.request.args, "order_id"), Str(ask.orderId))
    && PyEq(Get(a.request.args, "amount"), Num(ask.amount))
    && ask.tenant == Some(a.request.tenant)
  }

  /** Exactly when the refund under an approval id is the approved one: when the call that
      moved the money asked for it. A call that ran on that approval always does. */
  lemma PaysTheApprovalIffFirstUseAsksForIt(env: Env, s: State, call: Call, later: seq<Step>, id: string)
    requires Inv(s) && ApprovalId(id) && Legal(env, s, [Invoke(call)] + later)
    requires Runs(env, s.table, call) && ApprovalIdOf(env.rules, call.args) == Some(id)
    requires ExecutionOf(env, call).ask.Some? && L.Moves(env.orders, s.book, ExecutionOf(env, call).ask.value)
    requires id in Run(env, s, [Invoke(call)] + later).table
    ensures var end := Run(env, s, [Invoke(call)] + later);
            L.Has(end.book.entries, id)
            && (Fulfils(end.table[id], L.Lookup(end.book.entries, id))
                <==> AsksForApproved(end.table[id], ExecutionOf(env, call).ask.value))
    ensures call.verdict.RequireApproval? ==>
              AsksForApproved(Run(env, s, [Invoke(call)] + later).table[id], ExecutionOf(env, call).ask.value)
  {
    var ask := ExecutionOf(env, call).ask.value;
    var r := L.NewRefund(s.book, ask);
    var next := Next(env, s, Invoke(call));
    RunConcat(env, s, [Invoke(call)], later);
    assert Run(env, s, [Invoke(call)]) == Run(env, next, []);
    StepKeepsInv(env, s, Invoke(call));
    ApprovalIdsAreNotRefundIds(id);
    assert ask.key == Some(id) && L.KeyOf(r) == id;
    var i := L.IndexOf(s.book.entries, id);
    assert next.book.entries[i] == L.Entry(id, r);
    assert forall j | 0 <= j < i :: next.book.entries[j].key != id;
    FirstUseFixesTheRefund(env, next, later, id);
    ApprovedActionsOnly(env, next, later);
  }

  // ---- A concrete run of the exception ---------------------------------------

  function ExampleEnv(rules: TextRules): Env {
    Env(rules,
        map["refunds.issue" := Tool("refunds.issue", REFUND_PROPERTIES, ["order_id", "amount"], true)],
        map["o-1001" := L.Order("acme", 50.0), "o-1002" := L.Order("acme", 320.0)])
  }

  function ExampleCall(orderId: string, amount: real, verdict: Verdict): Call {
    Call(Verified(Delegation("alice", "agent", Some("acme"))), "refunds.issue",
         map["order_id" := Str(orderId), "amount" := Num(amount), "approval_id" := Str("ap-1")],
         verdict, true, Raises)
  }

  const EXAMPLE_REQUEST := A.Request(
    "refunds.issue", map["order_id" := Str("o-1002"), "amount" := Num(200.0)], "alice", "agent", "", "acme")

  const EXAMPLE_STEPS := [
    Approvals(A.Create("ap-1", EXAMPLE_REQUEST, 0.0)),
    Invoke(ExampleCall("o-1001", 10.0, Allow)),
    Approvals(A.Decide("ap-1", "bob", true, None, "acme", 1.0))]

  lemma RunThree(env: Env, s: State, a: Step, b: Step, c: Step)
    ensures Run(env, s, [a, b, c]) == Next(env, Next(env, Next(env, s, a), b), c)
    ensures Legal(env, s, [a, b, c]) <==>
      LegalStep(s, a) && LegalStep(Next(env, s, a), b) && LegalStep(Next(env, Next(env, s, a), b), c)
  {
    assert [a, b, c][1..] == [b, c] && [b, c][1..] == [c];
    var s1 := Next(env, s, a);
    var s2 := Next(env, s1, b);
    assert Run(env, s2, [c]) == Run(env, Next(env, s2, c), []);
    assert Run(env, s1, [b, c]) == Run(env, s2, [c]);
    assert Legal(env, s2, [c]) == (LegalStep(s2, c) && Legal(env, Next(env, s2, c), []));
    assert Legal(env, s1, [b, c]) == (LegalStep(s1, b) && Legal(env, s2, [c]));
  }

  lemma RefundArgsCoerced(rules: TextRules, args: Args, orderId: string, amount: real, id: string)
    requires args == map["order_id" := Str(orderId), "amount" := Num(amount), "approval_id" := Str(id)]
    ensures Coerced(rules, REFUND_PROPERTIES, args) == map["order_id" := Str(orderId), "amount" := Num(amount)]
  {
  }

  lemma ExampleArgs(rules: TextRules, orderId: string, amount: real, verdict: Verdict)
    ensures var env, call := ExampleEnv(rules), ExampleCall(orderId, amount, verdict);
            && CallArgs(env, call) == map["order_id" := Str(orderId), "amount" := Num(amount)]
            && ApprovalIdOf(rules, call.args) == Some("ap-1")
            && ExecutionOf(env, call).ask == Some(L.Ask(orderId, amount, Some("acme"), Some("ap-1")))
  {
    var env, call := ExampleEnv(rules), ExampleCall(orderId, amount, verdict);
    assert call.args["approval_id"] == Str("ap-1");
    RefundArgsCoerced(rules, call.args, orderId, amount, "ap-1");
  }

  /** The allowed call runs and issues refund number 1 under the approval's id. */
  lemma ExampleAllowedCall(rules: TextRules, table: A.Table)
    ensures var env, call := ExampleEnv(rules), ExampleCall("o-1001", 10.0, Allow);
            && Runs(env, table, call)
            && BookAfter(env, table, L.EMPTY, call) == L.Book(
                 [L.Entry("ap-1", L.Refund(Decimal.RefundId(1), "o-1001", "acme", 10.0, Some("ap-1")))], 2)
  {
    var env, call := ExampleEnv(rules), ExampleCall("o-1001", 10.0, Allow);
    ExampleArgs(rules, "o-1001", 10.0, Allow);
    assert L.EMPTY.entries == [];
  }

  lemma ExampleResumedCall(rules: TextRules, s: State)
    requires "ap-1" in s.table && s.table["ap-1"].request == EXAMPLE_REQUEST && s.table["ap-1"].status.Approved?
    requires s.book.entries == [L.Entry("ap-1", L.Refund(Decimal.RefundId(1), "o-1001", "acme", 10.0, Some("ap-1")))]
    ensures var env, call := ExampleEnv(rules), ExampleCall("o-1002", 200.0, RequireApproval);
            && OutcomeOf(env, s.table, s.book, call) == Ok
            && ReplyOf(env, s.table, s.book, call) == RefundReply(s.book.entries[0].refund)
            && BookAfter(env, s.table, s.book, call) == s.book
            && !Fulfils(s.table["ap-1"], L.Lookup(s.book.entries, "ap-1"))
  {
    var env, call := ExampleEnv(rules), ExampleCall("o-1002", 200.0, RequireApproval);
    ExampleArgs(rules, "o-1002", 200.0, RequireApproval);
    assert CallArgs(env, call) == EXAMPLE_REQUEST.args;
    assert L.IndexOf(s.book.entries, "ap-1") == 0;
  }

  /** Alice's refund of 200 is created, a call for 10 carrying the same id is allowed, then
      the 200 is approved by Bob and resumed. The resumed call succeeds, is answered with
      the refund of 10, and no money moves for the approved 200. */
  lemma ApprovedRefundIsNeverPaid(rules: TextRules)
    ensures Legal(ExampleEnv(rules), INITIAL, EXAMPLE_STEPS)
    ensures var env, s := ExampleEnv(rules), Run(ExampleEnv(rules), INITIAL, EXAMPLE_STEPS);
            var resumed := ExampleCall("o-1002", 200.0, RequireApproval);
            && OutcomeOf(env, s.table, s.book, resumed) == Ok
            && ReplyOf(env, s.table, s.book, resumed)
               == RefundReply(L.Refund(Decimal.RefundId(1), "o-1001", "acme", 10.0, Some("ap-1")))
            && BookAfter(env, s.table, s.book, resumed) == s.book
            && "ap-1" in s.table && !Fulfils(s.table["ap-1"], L.Lookup(s.book.entries, "ap-1"))
  {
    var env := ExampleEnv(rules);
    RunThree(env, INITIAL, EXAMPLE_STEPS[0], EXAMPLE_STEPS[1], EXAMPLE_STEPS[2]);
    var s1 := Next(env, INITIAL, EXAMPLE_STEPS[0]);
    ExampleAllowedCall(rules, s1.table);
    ExampleResumedCall(rules, Run(env, INITIAL, EXAMPLE_STEPS));
  }

  // ---- Tenants -------------------------------------------------------------------

  /** In every run of the platform, every refund that was ever issued is for an order of the
      tenant it was issued for, and that is the tenant of the person behind the call. */
  lemma MoneyStaysInTenants(env: Env, s: State, steps: seq<Step>)
    ensures L.WithinTenants(env.orders, MoneyMoved(env, s, steps))
  {
    L.MovementsStayInTenants(env.orders, s.book, LedgerOps(env, s, steps));
  }

  /** A call to the refund tool moves money only for an order of its caller's tenant, and a
      caller without a tenant moves none; for an order of another tenant, a new key is
      answered that there is no such order. */
  lemma CallsActWithinTheirTenant(env: Env, s: State, call: Call)
    requires Runs(env, s.table, call) && ExecutionOf(env, call).ask.Some?
    ensures var ask, tenant := ExecutionOf(env, call).ask.value, call.caller.delegation.tenant;
            && (Next(env, s, Invoke(call)).book != s.book ==> L.OwnOrder(env.orders, ask.orderId, tenant))
            && (!ReplaysKey(env, s, call) ==>
                  (ReplyOf(env, s.table, s.book, call).NotFound? <==> !L.OwnOrder(env.orders, ask.orderId, tenant)))
  {
    var ask := ExecutionOf(env, call).ask.value;
    L.AnswerIff(env.orders, s.book, ask);
    if ask.key.Some? {
      L.HasIff(s.book.entries, ask.key.value);
    }
  }

  // ---- Replays across tenants ---------------------------------------------------

  /** The call's key already stands for a refund. */
  predicate ReplaysKey(env: Env, s: State, call: Call)
    requires call.caller.Verified? && call.toolName in env.catalogue
  {
    ExecutionOf(env, call).ask.Some? && L.Replays(s.book, ExecutionOf(env, call).ask.value)
  }

  /** A replay is not scoped by tenant, unlike every other access. So a refund in an answer
      belongs to the caller's tenant exactly when the key was not in the ledger before the
      call, or stood for a refund of that tenant. */
  lemma ReplyStaysInTenantIff(env: Env, s: State, call: Call)
    requires Inv(s) && Runs(env, s.table, call)
    requires ReplyOf(env, s.table, s.book, call).RefundReply?
    ensures var tenant := TenantOf(call.caller.delegation);
            ReplyOf(env, s.table, s.book, call).refund.tenant == tenant
            <==> (ReplaysKey(env, s, call) ==>
                    L.Lookup(s.book.entries, ExecutionOf(env, call).ask.value.key.value).tenant == tenant)
  {
    var ask := ExecutionOf(env, call).ask.value;
    if !L.Replays(s.book, ask) {
      assert L.GetOrder(env.orders, ask.orderId, ask.tenant).Some?;
    }
  }

  /** In particular, in every run: a call that ran on its approval is answered within its
      tenant, if no call carrying that id was allowed outright. */
  lemma ApprovedReplyStaysInTenant(env: Env, steps: seq<Step>, call: Call, id: string)
    requires Legal(env, INITIAL, steps) && ApprovalId(id)
    requires var s := Run(env, INITIAL, steps);
             && Runs(env, s.table, call) && call.verdict.RequireApproval?
             && ApprovalIdOf(env.rules, call.args) == Some(id) && OnlyOnApproval(s.log, id)
             && ReplyOf(env, s.table, s.book, call).RefundReply?
    ensures var s := Run(env, INITIAL, steps);
            ReplyOf(env, s.table, s.book, call).refund.tenant == TenantOf(call.caller.delegation)
  {
    var s := Run(env, INITIAL, steps);
    InitialHoldsInv();
    ApprovedActionsOnly(env, INITIAL, steps);
    if ReplaysKey(env, s, call) {
      RefundIsTheApprovedOne(env, steps, id);
    }
    ReplyStaysInTenantIff(env, s, call);
  }

  /** The run that leaves the tenant: a caller of another tenant presents the key, and is
      answered with the refund of this one. */
  lemma ReplayCrossesTenants(rules: TextRules)
    ensures var env := ExampleEnv(rules);
            var s := Run(env, INITIAL, [Invoke(ExampleCall("o-1001", 10.0, Allow))]);
            var other := ExampleCall("o-1001", 10.0, Allow).(
                           caller := Verified(Delegation("erin", "agent", Some("globex"))));
            && ReplyOf(env, s.table, s.book, other)
               == RefundReply(L.Refund(Decimal.RefundId(1), "o-1001", "acme", 10.0, Some("ap-1")))
            && TenantOf(other.caller.delegation) != "acme"
  {
    var env, call := ExampleEnv(rules), ExampleCall("o-1001", 10.0, Allow);
    ExampleAllowedCall(rules, INITIAL.table);
    var next := Next(env, INITIAL, Invoke(call));
    assert [Invoke(call)][1..] == [] && Run(env, next, []) == next;
    var other := call.(caller := Verified(Delegation("erin", "agent", Some("globex"))));
    ExampleArgs(rules, "o-1001", 10.0, Allow);
    assert CallArgs(env, other) == CallArgs(env, call);
    assert ExecutionOf(env, other).ask == Some(L.Ask("o-1001", 10.0, Some("globex"), Some("ap-1")));
    assert L.IndexOf(next.book.entries, "ap-1") == 0;
  }
}
