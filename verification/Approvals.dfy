/** The approval store (app/approvals/store.py): approvals bound to one exact request,
    each decided at most once and never by the person it is for. */
module Approvals {
  import opened Values

  datatype Status = Pending | Approved | Denied

  /** The fields an approval is bound to. They are set once, by `create`. */
  datatype Request = Request(
    tool: string, args: Args, user: string, agent: string, reason: string, tenant: string)

  datatype Approval = Approval(
    id: string, request: Request, createdAt: real,
    status: Status, approver: Option<string>, note: Option<string>, decidedAt: Option<real>)

  type Table = map<string, Approval>

  /** What every reachable table satisfies. A decided approval names its approver,
      who is not the requester. */
  predicate Valid(table: Table) {
    forall id | id in table :: table[id].id == id && ValidRecord(table[id])
  }

  predicate ValidRecord(a: Approval) {
    if a.status.Pending? then a.approver == None
    else a.approver.Some? && a.approver.value != a.request.user
  }

  function NewApproval(id: string, request: Request, at: real): Approval {
    Approval(id, request, at, Pending, None, None, None)
  }

  /** Whether `decide` takes effect. */
  predicate Decidable(table: Table, id: string, approver: string, tenant: string) {
    && id in table
    && table[id].status.Pending?
    && table[id].request.tenant == tenant
    && approver != table[id].request.user
  }

  function Settled(a: Approval, approver: string, approved: bool, note: Option<string>, at: real): Approval {
    a.(status := if approved then Approved else Denied,
       approver := Some(approver), note := note, decidedAt := Some(at))
  }

  function AfterDecide(table: Table, id: string, approver: string, approved: bool,
                       note: Option<string>, tenant: string, at: real): Table
  {
    if Decidable(table, id, approver, tenant)
    then table[id := Settled(table[id], approver, approved, note, at)]
    else table
  }

  predicate Verifies(table: Table, id: string, tool: string, args: Args,
                     user: string, agent: string, tenant: string)
  {
    && id in table
    && table[id].status.Approved?
    && table[id].request.tenant == tenant
    && table[id].request.tool == tool
    && ArgsEq(table[id].request.args, args)
    && table[id].request.user == user
    && table[id].request.agent == agent
  }

  function PendingIds(table: Table): set<string> {
    set id | id in table && table[id].status.Pending?
  }

  function PendingIn(table: Table, tenant: string): set<string> {
    set id | id in PendingIds(table) && table[id].request.tenant == tenant
  }

  function IdsOf(queue: seq<Approval>): set<string> {
    if queue == [] then {} else IdsOf(queue[..|queue| - 1]) + {queue[|queue| - 1].id}
  }

  /** `queue` holds the records of `ids`, each exactly once. */
  ghost predicate Lists(table: Table, queue: seq<Approval>, ids: set<string>) {
    && IdsOf(queue) == ids && |queue| == |ids|
    && forall i | 0 <= i < |queue| :: queue[i].id in table && queue[i] == table[queue[i].id]
  }

  lemma ListsOneMore(table: Table, queue: seq<Approval>, ids: set<string>, id: string)
    requires Valid(table) && Lists(table, queue, ids) && id in table && id !in ids
    ensures Lists(table, queue + [table[id]], ids + {id})
  {
    assert (queue + [table[id]])[..|queue|] == queue;
  }

  /** `order` holds each id of the table once: the order of insertion of a dictionary. */
  predicate Ordered(table: Table, order: seq<string>) {
    && Distinct(order)
    && (set id | id in order) == table.Keys
  }

  /** The pending approvals of a tenant among `order`, in that order. */
  function Queue(table: Table, order: seq<string>, tenant: string): seq<Approval>
    requires forall id | id in order :: id in table
  {
    if order == [] then []
    else
      var id := order[|order| - 1];
      Queue(table, order[..|order| - 1], tenant)
      + if InQueue(table[id], tenant) then [table[id]] else []
  }

  function Among(ids: set<string>, order: seq<string>): set<string> {
    set id | id in ids && id in order
  }

  lemma AmongOneMore(ids: set<string>, order: seq<string>, id: string)
    requires id !in order
    ensures Among(ids, order + [id]) == Among(ids, order) + (if id in ids then {id} else {})
    ensures id !in Among(ids, order)
  {
  }

  predicate Distinct(order: seq<string>) {
    forall i, j | 0 <= i < j < |order| :: order[i] != order[j]
  }

  lemma DistinctFront(order: seq<string>)
    requires Distinct(order) && order != []
    ensures Distinct(order[..|order| - 1]) && order[|order| - 1] !in order[..|order| - 1]
    ensures order == order[..|order| - 1] + [order[|order| - 1]]
  {
  }

  predicate InQueue(a: Approval, tenant: string) {
    a.status.Pending? && a.request.tenant == tenant
  }

  lemma ListsPerhapsOneMore(table: Table, queue: seq<Approval>, ids: set<string>, id: string, tenant: string)
    requires Valid(table) && id in table && id !in ids && Lists(table, queue, ids)
    ensures Lists(table, queue + (if InQueue(table[id], tenant) then [table[id]] else []),
                  ids + (if id in PendingIn(table, tenant) then {id} else {}))
  {
    if InQueue(table[id], tenant) {
      ListsOneMore(table, queue, ids, id);
    } else {
      assert queue + [] == queue && ids + {} == ids;
    }
  }

  lemma {:induction false} QueueOf(table: Table, order: seq<string>, tenant: string)
    requires Valid(table) && (forall id | id in order :: id in table) && Distinct(order)
    ensures Lists(table, Queue(table, order, tenant), Among(PendingIn(table, tenant), order))
  {
    var pending := PendingIn(table, tenant);
    if order == [] {
      assert Among(pending, order) == {};
    } else {
      var front, id := order[..|order| - 1], order[|order| - 1];
      DistinctFront(order);
      QueueOf(table, front, tenant);
      AmongOneMore(pending, front, id);
      ListsPerhapsOneMore(table, Queue(table, front, tenant), Among(pending, front), id, tenant);
    }
  }

  /** The queue of a tenant holds each of its pending approvals once, and nothing else. */
  lemma QueueListsThePending(table: Table, order: seq<string>, tenant: string)
    requires Valid(table) && Ordered(table, order)
    ensures Lists(table, Queue(table, order, tenant), PendingIn(table, tenant))
  {
    QueueOf(table, order, tenant);
    assert Among(PendingIn(table, tenant), order) == PendingIn(table, tenant);
  }

  /** Deciding an approval takes it out of its queue and leaves the rest, in order. */
  lemma {:induction false} DecisionLeavesTheQueue(table: Table, order: seq<string>, tenant: string,
                                                  id: string, decided: Approval)
    requires Valid(table) && (forall other | other in order :: other in table) && id in table
    requires decided.id == id && !decided.status.Pending?
    ensures Queue(table[id := decided], order, tenant) == Without(Queue(table, order, tenant), id)
  {
    if order != [] {
      var front, last := order[..|order| - 1], order[|order| - 1];
      DecisionLeavesTheQueue(table, front, tenant, id, decided);
      var queue := Queue(table, front, tenant);
      if InQueue(table[last], tenant) {
        WithoutSnoc(queue, table[last], id);
      } else {
        assert queue + [] == queue;
      }
    }
  }

  function Without(queue: seq<Approval>, id: string): seq<Approval> {
    if queue == [] then []
    else Without(queue[..|queue| - 1], id) + if queue[|queue| - 1].id == id then [] else [queue[|queue| - 1]]
  }

  lemma WithoutSnoc(queue: seq<Approval>, a: Approval, id: string)
    ensures Without(queue + [a], id) == Without(queue, id) + if a.id == id then [] else [a]
  {
    assert (queue + [a])[..|queue|] == queue;
  }

  /** Creating an approval puts it at the end of its tenant's queue, and of no other. */
  lemma {:induction false} CreationJoinsTheQueue(table: Table, order: seq<string>, tenant: string, a: Approval)
    requires (forall id | id in order :: id in table) && a.id !in table && a.status.Pending?
    ensures Queue(table[a.id := a], order + [a.id], tenant)
         == Queue(table, order, tenant) + if a.request.tenant == tenant then [a] else []
  {
    QueueIgnores(table, order, tenant, a);
    assert (order + [a.id])[..|order|] == order;
  }

  lemma {:induction false} QueueIgnores(table: Table, order: seq<string>, tenant: string, a: Approval)
    requires (forall id | id in order :: id in table) && a.id !in table
    ensures Queue(table[a.id := a], order, tenant) == Queue(table, order, tenant)
  {
    if order != [] {
      QueueIgnores(table, order[..|order| - 1], tenant, a);
    }
  }

  /** The in-memory backend. Each method is one atomic step. */
  class ApprovalStore {
    var items: Table
    var order: seq<string>

    ghost predicate WellOrdered()
      reads this
    {
      Valid(items) && Ordered(items, order)
    }

    constructor ()
      ensures items == map[] && order == [] && WellOrdered()
    {
      items, order := map[], [];
    }

    /** `freshId` is the generated identifier. */
    method Create(freshId: string, request: Request, at: real) returns (a: Approval)
      requires WellOrdered() && freshId !in items
      modifies this
      ensures a == NewApproval(freshId, request, at)
      ensures items == old(items)[freshId := a] && order == old(order) + [freshId] && WellOrdered()
    {
      a := NewApproval(freshId, request, at);
      items, order := items[freshId := a], order + [freshId];
    }

    method Decide(id: string, approver: string, approved: bool, note: Option<string>,
                  tenant: string, at: real) returns (r: Option<Approval>)
      requires WellOrdered()
      modifies this`items
      ensures items == AfterDecide(old(items), id, approver, approved, note, tenant, at) && WellOrdered()
      ensures r == if Decidable(old(items), id, approver, tenant) then Some(items[id]) else None
    {
      if id !in items {
        return None;
      }
      var approval := items[id];
      if !approval.status.Pending? || approval.request.tenant != tenant {
        return None;
      }
      if approver == approval.request.user {
        return None;
      }
      approval := approval.(status := if approved then Approved else Denied);
      approval := approval.(approver := Some(approver));
      approval := approval.(note := note);
      approval := approval.(decidedAt := Some(at));
      items := items[id := approval];
      return Some(approval);
    }

    method Verify(id: string, tool: string, args: Args, user: string, agent: string, tenant: string)
      returns (ok: bool)
      ensures ok == Verifies(items, id, tool, args, user, agent, tenant)
    {
      if id !in items || !items[id].status.Approved? || items[id].request.tenant != tenant {
        return false;
      }
      var bound := items[id].request;
      return bound.tool == tool && ArgsEq(bound.args, args) && bound.user == user && bound.agent == agent;
    }

    /** The queue of one tenant, in the order of creation. */
    method PendingQueue(tenant: string) returns (queue: seq<Approval>)
      requires WellOrdered()
      ensures queue == Queue(items, order, tenant)
      ensures Lists(items, queue, PendingIn(items, tenant))
    {
      queue := [];
      for i := 0 to |order|
        invariant queue == Queue(items, order[..i], tenant)
      {
        assert order[..i + 1][..i] == order[..i];
        var approval := items[order[i]];
        if approval.status.Pending? && approval.request.tenant == tenant {
          queue := queue + [approval];
        }
      }
      assert order[..|order|] == order;
      QueueListsThePending(items, order, tenant);
    }

    /** The platform's queue depth, over every tenant. */
    method PendingCount() returns (n: nat)
      ensures n == |PendingIds(items)|
    {
      n := 0;
      var todo := items.Keys;
      ghost var done := {};
      while todo != {}
        invariant todo <= items.Keys
        invariant done == PendingIds(items) - todo
        invariant n == |done|
        decreases todo
      {
        var id :| id in todo;
        todo := todo - {id};
        if items[id].status.Pending? {
          n := n + 1;
          assert PendingIds(items) - todo == done + {id};
          done := done + {id};
        } else {
          assert PendingIds(items) - todo == done;
        }
      }
      assert done == PendingIds(items);
    }
  }

  // ---- The durable backend's guarded UPDATE --------------------------------

  /** The WHERE clause of the UPDATE, evaluated on one row. */
  predicate Selected(row: Approval, id: string, approver: string, tenant: string) {
    row.id == id && row.status.Pending? && row.request.tenant == tenant && row.request.user != approver
  }

  /** `UPDATE approvals SET ... WHERE ...`: every selected row is rewritten. */
  function GuardedUpdate(table: Table, id: string, approver: string, approved: bool,
                         note: Option<string>, tenant: string, at: real): Table
  {
    map key | key in table ::
      if Selected(table[key], id, approver, tenant)
      then Settled(table[key], approver, approved, note, at)
      else table[key]
  }

  /** `... RETURNING`: the rewritten rows. */
  function Returned(table: Table, id: string, approver: string, approved: bool,
                    note: Option<string>, tenant: string, at: real): set<Approval>
  {
    set key | key in table && Selected(table[key], id, approver, tenant)
      :: Settled(table[key], approver, approved, note, at)
  }

  /** One set-oriented statement without a lock has the effect, and the answer, of the
      locked in-memory `decide`. */
  lemma GuardedUpdateIsDecide(table: Table, id: string, approver: string, approved: bool,
                              note: Option<string>, tenant: string, at: real)
    requires Valid(table)
    ensures GuardedUpdate(table, id, approver, approved, note, tenant, at)
         == AfterDecide(table, id, approver, approved, note, tenant, at)
    ensures Returned(table, id, approver, approved, note, tenant, at)
         == if Decidable(table, id, approver, tenant)
            then {AfterDecide(table, id, approver, approved, note, tenant, at)[id]} else {}
  {
    var rows := Returned(table, id, approver, approved, note, tenant, at);
    if Decidable(table, id, approver, tenant) {
      var row := Settled(table[id], approver, approved, note, at);
      assert Selected(table[id], id, approver, tenant);
      assert row in rows;
      assert forall r | r in rows :: r == row;
    }
  }

  // ---- Whole runs ----------------------------------------------------------

  datatype Op =
    | Create(id: string, request: Request, at: real)
    | Decide(id: string, approver: string, approved: bool, note: Option<string>, tenant: string, at: real)

  function Apply(table: Table, op: Op): Table {
    match op
    case Create(id, request, at) => table[id := NewApproval(id, request, at)]
    case Decide(id, approver, approved, note, tenant, at) =>
      AfterDecide(table, id, approver, approved, note, tenant, at)
  }

  function Run(table: Table, ops: seq<Op>): Table
    decreases |ops|
  {
    if ops == [] then table else Run(Apply(table, ops[0]), ops[1..])
  }

  /** Generated identifiers are fresh. */
  predicate Fresh(table: Table, ops: seq<Op>)
    decreases |ops|
  {
    ops == [] ||
    ((ops[0].Create? ==> ops[0].id !in table) && Fresh(Apply(table, ops[0]), ops[1..]))
  }

  predicate Succeeds(table: Table, op: Op) {
    op.Decide? && Decidable(table, op.id, op.approver, op.tenant)
  }

  function Creations(ops: seq<Op>): nat {
    if ops == [] then 0 else (if ops[0].Create? then 1 else 0) + Creations(ops[1..])
  }

  /** How many `decide` steps of the run took effect. */
  function Decisions(table: Table, ops: seq<Op>): nat
    decreases |ops|
  {
    if ops == [] then 0
    else (if Succeeds(table, ops[0]) then 1 else 0) + Decisions(Apply(table, ops[0]), ops[1..])
  }

  /** How many of them decided approval `id`. */
  function DecisionsOf(table: Table, ops: seq<Op>, id: string): nat
    decreases |ops|
  {
    if ops == [] then 0
    else (if Succeeds(table, ops[0]) && ops[0].id == id then 1 else 0)
         + DecisionsOf(Apply(table, ops[0]), ops[1..], id)
  }

  /** `later` is what `earlier` may become: the same request, and the same record
      altogether once it is decided. */
  predicate Evolves(earlier: Table, later: Table) {
    forall id | id in earlier ::
      && id in later
      && later[id].request == earlier[id].request
      && later[id].createdAt == earlier[id].createdAt
      && (!earlier[id].status.Pending? ==> later[id] == earlier[id])
  }

  lemma EvolvesIsAPreorder(a: Table, b: Table, c: Table)
    ensures Evolves(a, a)
    ensures Evolves(a, b) && Evolves(b, c) ==> Evolves(a, c)
  {
  }

  /** Over every run: the table stays valid, requests never change, and a decided
      approval never changes again. */
  lemma {:induction false} RunKeepsApprovals(table: Table, ops: seq<Op>)
    requires Valid(table) && Fresh(table, ops)
    ensures Valid(Run(table, ops))
    ensures Evolves(table, Run(table, ops))
    decreases |ops|
  {
    if ops != [] {
      RunKeepsApprovals(Apply(table, ops[0]), ops[1..]);
      EvolvesIsAPreorder(table, Apply(table, ops[0]), Run(table, ops));
    }
  }

  /** Whatever the race, an approval is decided at most once, and not at all once it is. */
  lemma {:induction false} DecidedAtMostOnce(table: Table, ops: seq<Op>, id: string)
    requires Valid(table) && Fresh(table, ops)
    ensures DecisionsOf(table, ops, id) <= 1
    ensures id in table && !table[id].status.Pending? ==> DecisionsOf(table, ops, id) == 0
    ensures id in table && table[id].status.Pending? ==>
      id in Run(table, ops) && (DecisionsOf(table, ops, id) == 1 <==> !Run(table, ops)[id].status.Pending?)
    decreases |ops|
  {
    RunKeepsApprovals(table, ops);
    if ops != [] {
      RunKeepsApprovals(Apply(table, ops[0]), ops[1..]);
      DecidedAtMostOnce(Apply(table, ops[0]), ops[1..], id);
    }
  }

  // ---- What a decision does --------------------------------------------------

  /** A decision that counts: of this approval, from its tenant, by somebody else. */
  predicate Eligible(r: Request, id: string, op: Op) {
    op.Decide? && op.id == id && op.tenant == r.tenant && op.approver != r.user
  }

  /** The position of the first such decision; the length when there is none. */
  function FirstEligible(r: Request, id: string, ops: seq<Op>): (i: nat)
    ensures i <= |ops| && (i < |ops| ==> Eligible(r, id, ops[i]))
    ensures forall j | 0 <= j < i :: !Eligible(r, id, ops[j])
  {
    if ops == [] || Eligible(r, id, ops[0]) then 0 else 1 + FirstEligible(r, id, ops[1..])
  }

  /** What has become of a pending approval after a run: the first decision that counts is
      recorded, as it was made, and no other step has touched it. */
  function Outcome(a: Approval, ops: seq<Op>): Approval {
    var i := FirstEligible(a.request, a.id, ops);
    if i == |ops| then a
    else
      var op := ops[i];
      Approval(a.id, a.request, a.createdAt, if op.approved then Approved else Denied,
               Some(op.approver), op.note, Some(op.at))
  }

  lemma {:induction false} FirstEligibleDecides(table: Table, ops: seq<Op>, id: string)
    requires Valid(table) && Fresh(table, ops) && id in table && table[id].status.Pending?
    ensures id in Run(table, ops) && Run(table, ops)[id] == Outcome(table[id], ops)
    decreases |ops|
  {
    if ops != [] {
      var next := Apply(table, ops[0]);
      if Eligible(table[id].request, id, ops[0]) {
        RunKeepsApprovals(next, ops[1..]);
      } else {
        FirstEligibleDecides(next, ops[1..], id);
      }
    }
  }

  /** The `i`-th step of a run decides `id`, and takes effect. */
  predicate DecidesAt(table: Table, ops: seq<Op>, i: nat, id: string, approved: bool) {
    i < |ops| && ops[i].Decide? && ops[i].id == id && ops[i].approved == approved && Succeeds(Run(table, ops[..i]), ops[i])
  }

  lemma {:induction false} RunPrefix(table: Table, ops: seq<Op>, i: nat)
    requires i <= |ops| && Fresh(table, ops)
    ensures Fresh(table, ops[..i])
    decreases i
  {
    if i > 0 {
      assert ops[..i][1..] == ops[1..][..i - 1];
      RunPrefix(Apply(table, ops[0]), ops[1..], i - 1);
    }
  }

  /** A decision takes effect at a step if and only if it is the first that counts. */
  lemma DecidesAtTheFirst(table: Table, ops: seq<Op>, i: nat, id: string)
    requires Valid(table) && Fresh(table, ops) && id in table && table[id].status.Pending? && i < |ops|
    ensures ops[i].Decide? && ops[i].id == id && Succeeds(Run(table, ops[..i]), ops[i])
       <==> i == FirstEligible(table[id].request, id, ops)
  {
    var r, front := table[id].request, ops[..i];
    RunPrefix(table, ops, i);
    FirstEligibleDecides(table, front, id);
    var j := FirstEligible(r, id, front);
    if j < |front| {
      assert front[j] == ops[j];
    } else {
      assert forall k | 0 <= k < i :: front[k] == ops[k];
    }
  }

  /** A pending approval ends approved if and only if some step approved it, and denied if and
      only if some step denied it; approver, note and time are those of that step. */
  lemma EndsAsDecided(table: Table, ops: seq<Op>, id: string)
    requires Valid(table) && Fresh(table, ops) && id in table && table[id].status.Pending?
    ensures id in Run(table, ops)
    ensures Run(table, ops)[id].status.Approved? <==> exists i: nat :: DecidesAt(table, ops, i, id, true)
    ensures Run(table, ops)[id].status.Denied? <==> exists i: nat :: DecidesAt(table, ops, i, id, false)
    ensures forall i: nat, approved | DecidesAt(table, ops, i, id, approved) ::
              var a := Run(table, ops)[id];
              a.approver == Some(ops[i].approver) && a.note == ops[i].note && a.decidedAt == Some(ops[i].at)
  {
    FirstEligibleDecides(table, ops, id);
    var first := FirstEligible(table[id].request, id, ops);
    forall i: nat, approved | DecidesAt(table, ops, i, id, approved)
      ensures i == first
    {
      DecidesAtTheFirst(table, ops, i, id);
    }
    if first < |ops| {
      DecidesAtTheFirst(table, ops, first, id);
      assert DecidesAt(table, ops, first, id, ops[first].approved);
    }
  }

  /** From the empty store: the record of every approval, field by field, is the request it
      was created with and the first decision after that which counts. */
  lemma {:induction false} RecordIsItsHistory(table: Table, ops: seq<Op>, id: string)
    requires Valid(table) && Fresh(table, ops) && id !in table && id in Run(table, ops)
    ensures exists i :: 0 <= i < |ops| && ops[i].Create? && ops[i].id == id
              && Run(table, ops)[id]
                 == Outcome(Approval(id, ops[i].request, ops[i].at, Pending, None, None, None), ops[i + 1..])
    decreases |ops|
  {
    if ops != [] {
      var next, rest := Apply(table, ops[0]), ops[1..];
      if ops[0].Create? && ops[0].id == id {
        FirstEligibleDecides(next, rest, id);
        assert ops[0 + 1..] == rest;
      } else {
        RecordIsItsHistory(next, rest, id);
        var i :| 0 <= i < |rest| && rest[i].Create? && rest[i].id == id
              && Run(next, rest)[id]
                 == Outcome(Approval(id, rest[i].request, rest[i].at, Pending, None, None, None), rest[i + 1..]);
        assert ops[i + 1] == rest[i] && ops[i + 1 + 1..] == rest[i + 1..];
      }
    }
  }

  lemma OneMore(a: set<string>, b: set<string>, id: string)
    requires b == a + {id} && id !in a
    ensures |b| == |a| + 1
  {
  }

  lemma CreationIsPending(table: Table, id: string, request: Request, at: real)
    requires id !in table
    ensures |PendingIds(table[id := NewApproval(id, request, at)])| == |PendingIds(table)| + 1
  {
    OneMore(PendingIds(table), PendingIds(table[id := NewApproval(id, request, at)]), id);
  }

  lemma DecisionIsNotPending(table: Table, id: string, decided: Approval)
    requires id in table && table[id].status.Pending? && !decided.status.Pending?
    ensures |PendingIds(table)| == |PendingIds(table[id := decided])| + 1
  {
    OneMore(PendingIds(table[id := decided]), PendingIds(table), id);
  }

  lemma PendingStep(table: Table, op: Op)
    requires op.Create? ==> op.id !in table
    ensures |PendingIds(Apply(table, op))| + (if Succeeds(table, op) then 1 else 0)
         == |PendingIds(table)| + (if op.Create? then 1 else 0)
  {
    match op {
      case Create(id, request, at) => CreationIsPending(table, id, request, at);
      case Decide(id, approver, approved, note, tenant, at) =>
        if Decidable(table, id, approver, tenant) {
          DecisionIsNotPending(table, id, Settled(table[id], approver, approved, note, at));
        }
    }
  }

  /** Conservation: what is pending is what was created and not yet decided. */
  lemma {:induction false} PendingIsCreatedMinusDecided(table: Table, ops: seq<Op>)
    requires Valid(table) && Fresh(table, ops)
    ensures |PendingIds(Run(table, ops))| + Decisions(table, ops) == |PendingIds(table)| + Creations(ops)
    decreases |ops|
  {
    if ops != [] {
      PendingStep(table, ops[0]);
      PendingIsCreatedMinusDecided(Apply(table, ops[0]), ops[1..]);
    }
  }

  /** The queue lengths of a set of tenants, added up. */
  ghost function QueueLengths(table: Table, tenants: set<string>): nat {
    if tenants == {} then 0
    else
      var t :| t in tenants;
      |PendingIn(table, t)| + QueueLengths(table, tenants - {t})
  }

  /** The pending approvals of a set of tenants. */
  function PendingOf(table: Table, tenants: set<string>): set<string> {
    set id | id in PendingIds(table) && table[id].request.tenant in tenants
  }

  lemma OneTenantLess(table: Table, tenants: set<string>, t: string)
    requires t in tenants
    ensures |PendingOf(table, tenants)| == |PendingIn(table, t)| + |PendingOf(table, tenants - {t})|
  {
    var rest := PendingOf(table, tenants - {t});
    assert PendingOf(table, tenants) == PendingIn(table, t) + rest;
    assert PendingIn(table, t) !! rest;
  }

  lemma {:induction false} QueuesOf(table: Table, tenants: set<string>)
    ensures QueueLengths(table, tenants) == |PendingOf(table, tenants)|
    decreases tenants
  {
    if tenants == {} {
      assert PendingOf(table, tenants) == {};
    } else {
      var t :| t in tenants && QueueLengths(table, tenants)
                               == |PendingIn(table, t)| + QueueLengths(table, tenants - {t});
      QueuesOf(table, tenants - {t});
      OneTenantLess(table, tenants, t);
    }
  }

  /** The queue depth is the sum of the tenants' queues: nothing is counted twice and
      nothing is missed. */
  lemma QueueDepthIsSumOfTenantQueues(table: Table, tenants: set<string>)
    requires forall id | id in table :: table[id].request.tenant in tenants
    ensures |PendingIds(table)| == QueueLengths(table, tenants)
  {
    QueuesOf(table, tenants);
    assert PendingIds(table) == PendingOf(table, tenants);
  }
}
