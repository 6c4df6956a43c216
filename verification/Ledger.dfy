/** The refund ledger (app/simulators/payments.py): idempotent on a key, numbered, and
    rebuilt from a snapshot after a restart. */
module Ledger {
  import opened Values
  import opened Decimal

  datatype Order = Order(tenant: string, total: real)

  /** The order book. No order has an empty id. */
  type Orders = m: map<string, Order> | "" !in m witness map[]

  /** `data.scoped(ORDERS.get(id), tenant)`: another tenant's order does not exist. */
  function GetOrder(orders: Orders, orderId: string, tenant: Option<string>): Option<Order> {
    if orderId in orders && tenant.Some? && tenant.value != "" && orders[orderId].tenant == tenant.value
    then Some(orders[orderId]) else None
  }

  datatype Refund = Refund(
    id: string, orderId: string, tenant: string, amount: real, idempotencyKey: Option<string>)

  datatype Entry = Entry(key: string, refund: Refund)

  /** An insertion-ordered dictionary, and the next number of the id counter. */
  datatype Book = Book(entries: seq<Entry>, next: nat)

  const EMPTY := Book([], 1)

  predicate Given(key: Option<string>) {
    key.Some? && key.value != ""
  }

  /** `idempotency_key or refund["id"]`. */
  function KeyOf(r: Refund): string {
    if Given(r.idempotencyKey) then r.idempotencyKey.value else r.id
  }

  function IndexOf(entries: seq<Entry>, key: string): (i: nat)
    ensures i <= |entries|
    ensures i < |entries| ==> entries[i].key == key
    ensures forall j | 0 <= j < i :: entries[j].key != key
  {
    if entries == [] || entries[0].key == key then 0 else 1 + IndexOf(entries[1..], key)
  }

  predicate Has(entries: seq<Entry>, key: string) {
    IndexOf(entries, key) < |entries|
  }

  lemma HasIff(entries: seq<Entry>, key: string)
    ensures Has(entries, key) <==> exists i :: 0 <= i < |entries| && entries[i].key == key
  {
    if Has(entries, key) {
      assert entries[IndexOf(entries, key)].key == key;
    }
  }

  function Lookup(entries: seq<Entry>, key: string): Refund
    requires Has(entries, key)
  {
    entries[IndexOf(entries, key)].refund
  }

  /** `d[key] = r`: in place when the key is there, else at the end. */
  function Put(entries: seq<Entry>, key: string, r: Refund): seq<Entry> {
    if Has(entries, key) then entries[IndexOf(entries, key) := Entry(key, r)]
    else entries + [Entry(key, r)]
  }

  // ---- Issuing -------------------------------------------------------------

  datatype Answer = Refunded(refund: Refund) | UnknownOrder | NotPositive

  datatype Ask = Ask(orderId: string, amount: real, tenant: Option<string>, key: Option<string>)

  predicate Replays(book: Book, ask: Ask) {
    Given(ask.key) && Has(book.entries, ask.key.value)
  }

  /** Whether the call issues a new refund, that is, moves money. */
  predicate Moves(orders: Orders, book: Book, ask: Ask) {
    !Replays(book, ask) && GetOrder(orders, ask.orderId, ask.tenant).Some? && ask.amount > 0.0
  }

  function NewRefund(book: Book, ask: Ask): Refund {
    Refund(RefundId(book.next), ask.orderId, if ask.tenant.Some? then ask.tenant.value else "",
           ask.amount, ask.key)
  }

  function AfterIssue(orders: Orders, book: Book, ask: Ask): Book {
    if Moves(orders, book, ask) then
      var r := NewRefund(book, ask);
      Book(Put(book.entries, KeyOf(r), r), book.next + 1)
    else book
  }

  function AnswerTo(orders: Orders, book: Book, ask: Ask): Answer {
    if Replays(book, ask) then Refunded(Lookup(book.entries, ask.key.value))
    else if GetOrder(orders, ask.orderId, ask.tenant).None? then UnknownOrder
    else if ask.amount <= 0.0 then NotPositive
    else Refunded(NewRefund(book, ask))
  }

  // ---- Snapshot and restore ------------------------------------------------

  function Snapshot(entries: seq<Entry>): (records: seq<Refund>)
    ensures |records| == |entries|
  {
    seq(|entries|, i requires 0 <= i < |entries| => entries[i].refund)
  }

  function Rekeyed(records: seq<Refund>): seq<Entry> {
    if records == [] then []
    else
      var last := records[|records| - 1];
      Put(Rekeyed(records[..|records| - 1]), KeyOf(last), last)
  }

  function NumberIn(r: Refund): nat {
    match NumberOf(r.id)
    case Some(n) => n
    case None => 0
  }

  /** The highest numeric suffix, 0 when there is none. */
  function Highest(records: seq<Refund>): nat {
    if records == [] then 0
    else
      var rest, n := Highest(records[..|records| - 1]), NumberIn(records[|records| - 1]);
      if n > rest then n else rest
  }

  function Restored(records: seq<Refund>): Book {
    Book(Rekeyed(records), Highest(records) + 1)
  }

  /** The loop of `data.next_id_number`. */
  method NextIdNumber(records: seq<Refund>) returns (n: nat)
    ensures n == Highest(records) + 1
  {
    var highest := 0;
    for i := 0 to |records|
      invariant highest == Highest(records[..i])
    {
      assert records[..i + 1][..i] == records[..i];
      var suffix := Suffix(records[i].id);
      if AllDigits(suffix) && Parse(suffix) > highest {
        highest := Parse(suffix);
      }
    }
    assert records[..|records|] == records;
    n := highest + 1;
  }

  /** The module state of the payments simulator. */
  class RefundLedger {
    const orders: Orders
    var entries: seq<Entry>
    var next: nat

    ghost function Value(): Book
      reads this
    {
      Book(entries, next)
    }

    constructor (orders: Orders)
      ensures this.orders == orders && Value() == EMPTY
    {
      this.orders := orders;
      entries, next := [], 1;
    }

    method IssueRefund(ask: Ask) returns (answer: Answer)
      modifies this
      ensures Value() == AfterIssue(orders, old(Value()), ask)
      ensures answer == AnswerTo(orders, old(Value()), ask)
    {
      if Given(ask.key) && Has(entries, ask.key.value) {
        return Refunded(Lookup(entries, ask.key.value));
      }
      var order := GetOrder(orders, ask.orderId, ask.tenant);
      if order.None? {
        return UnknownOrder;
      }
      if ask.amount <= 0.0 {
        return NotPositive;
      }
      var refund := Refund(RefundId(next), ask.orderId, ask.tenant.value, ask.amount, ask.key);
      next := next + 1;
      entries := Put(entries, KeyOf(refund), refund);
      return Refunded(refund);
    }

    /** How much of an order is refundable, and how much has been refunded. */
    method QuoteRefund(orderId: string, tenant: Option<string>)
      returns (known: bool, already: real, refundable: real)
      ensures known <==> OwnOrder(orders, orderId, tenant)
      ensures known ==> already == RefundedFor(entries, orderId)
      ensures known ==> var left := orders[orderId].total - already;
                        refundable == if left > 0.0 then left else 0.0
    {
      already, refundable := 0.0, 0.0;
      var order := GetOrder(orders, orderId, tenant);
      known := order.Some?;
      if known {
        for i := 0 to |entries|
          invariant already == RefundedFor(entries[..i], orderId)
        {
          assert entries[..i + 1][..i] == entries[..i];
          if entries[i].refund.orderId == orderId {
            already := already + entries[i].refund.amount;
          }
        }
        assert entries[..|entries|] == entries;
        refundable := if order.value.total - already > 0.0 then order.value.total - already else 0.0;
      }
    }

    method TakeSnapshot() returns (records: seq<Refund>)
      ensures records == Snapshot(entries)
    {
      records := Snapshot(entries);
    }

    method Restore(records: seq<Refund>)
      modifies this
      ensures Value() == Restored(records)
    {
      entries := [];
      for i := 0 to |records|
        invariant entries == Rekeyed(records[..i])
      {
        assert records[..i + 1][..i] == records[..i];
        entries := Put(entries, KeyOf(records[i]), records[i]);
      }
      assert records[..|records|] == records;
      next := NextIdNumber(records);
    }

    /** What a new process makes of the snapshot an old one left: the same ledger. */
    method Reopen()
      requires Valid(Value())
      modifies this
      ensures Value() == old(Value())
    {
      RestoreOfSnapshotIsIdentity(Value());
      var records := TakeSnapshot();
      Restore(records);
    }
  }

  // ---- What every reachable book satisfies ---------------------------------

  predicate DistinctKeys(entries: seq<Entry>) {
    forall i, j | 0 <= i < j < |entries| :: entries[i].key != entries[j].key
  }

  predicate WellKeyed(entries: seq<Entry>) {
    forall i | 0 <= i < |entries| ::
      entries[i].key == KeyOf(entries[i].refund) && entries[i].refund.amount > 0.0
  }

  predicate Valid(book: Book) {
    && DistinctKeys(book.entries)
    && WellKeyed(book.entries)
    && book.next == Highest(Snapshot(book.entries)) + 1
  }

  lemma HighestBounds(records: seq<Refund>, n: nat)
    requires forall i | 0 <= i < |records| :: NumberIn(records[i]) <= n
    requires exists i | 0 <= i < |records| :: NumberIn(records[i]) == n
    ensures Highest(records) == n
  {
    HighestIsUpperBound(records);
    HighestIsBounded(records, n);
  }

  lemma {:induction false} HighestIsBounded(records: seq<Refund>, n: nat)
    requires forall i | 0 <= i < |records| :: NumberIn(records[i]) <= n
    ensures Highest(records) <= n
  {
    if records != [] {
      HighestIsBounded(records[..|records| - 1], n);
    }
  }

  lemma {:induction false} HighestIsUpperBound(records: seq<Refund>)
    ensures forall i | 0 <= i < |records| :: NumberIn(records[i]) <= Highest(records)
  {
    if records != [] {
      var front := records[..|records| - 1];
      HighestIsUpperBound(front);
      forall i | 0 <= i < |records|
        ensures NumberIn(records[i]) <= Highest(records)
      {
        if i < |front| {
          assert front[i] == records[i];
        }
      }
    }
  }

  /** An issued refund takes a number above every number in the book. */
  lemma NewNumberIsHighest(orders: Orders, book: Book, ask: Ask)
    requires Valid(book) && Moves(orders, book, ask)
    ensures Highest(Snapshot(AfterIssue(orders, book, ask).entries)) == book.next
  {
    var r := NewRefund(book, ask);
    var before, after := Snapshot(book.entries), Snapshot(AfterIssue(orders, book, ask).entries);
    NumberOfRefundId(book.next);
    HighestIsUpperBound(before);
    forall i | 0 <= i < |after|
      ensures NumberIn(after[i]) <= book.next
    {
      assert after[i] == r || (i < |before| && after[i] == before[i]);
    }
    assert after[IndexOf(book.entries, KeyOf(r))] == r;
    HighestBounds(after, book.next);
  }

  lemma PutKeepsKeys(entries: seq<Entry>, r: Refund)
    requires DistinctKeys(entries) && WellKeyed(entries) && r.amount > 0.0
    ensures DistinctKeys(Put(entries, KeyOf(r), r)) && WellKeyed(Put(entries, KeyOf(r), r))
  {
    var after, i := Put(entries, KeyOf(r), r), IndexOf(entries, KeyOf(r));
    forall j | 0 <= j < |after|
      ensures after[j].key == KeyOf(after[j].refund) && after[j].refund.amount > 0.0
      ensures j != i ==> after[j].key != KeyOf(r)
    {
      assert j == i || after[j] == entries[j];
    }
  }

  lemma IssueKeepsValid(orders: Orders, book: Book, ask: Ask)
    requires Valid(book)
    ensures Valid(AfterIssue(orders, book, ask))
  {
    if Moves(orders, book, ask) {
      PutKeepsKeys(book.entries, NewRefund(book, ask));
      NewNumberIsHighest(orders, book, ask);
    }
  }

  lemma {:induction false} RekeyingIsExact(entries: seq<Entry>)
    requires DistinctKeys(entries) && WellKeyed(entries)
    ensures Rekeyed(Snapshot(entries)) == entries
  {
    if entries != [] {
      var front, last := entries[..|entries| - 1], entries[|entries| - 1];
      RekeyingIsExact(front);
      assert Snapshot(entries)[..|entries| - 1] == Snapshot(front);
      assert !Has(front, last.key);
      assert entries == front + [last];
    }
  }

  /** `restore(snapshot())` reproduces the state exactly: map, order and counter. */
  lemma RestoreOfSnapshotIsIdentity(book: Book)
    requires Valid(book)
    ensures Restored(Snapshot(book.entries)) == book
  {
    RekeyingIsExact(book.entries);
  }

  // ---- Runs with restarts anywhere -----------------------------------------

  datatype Op = Issue(ask: Ask) | Restart

  function Apply(orders: Orders, book: Book, op: Op): Book {
    match op
    case Issue(ask) => AfterIssue(orders, book, ask)
    case Restart => Restored(Snapshot(book.entries))
  }

  function Run(orders: Orders, book: Book, ops: seq<Op>): Book
    decreases |ops|
  {
    if ops == [] then book else Run(orders, Apply(orders, book, ops[0]), ops[1..])
  }

  /** The answers to the issue calls, in order. */
  function Answers(orders: Orders, book: Book, ops: seq<Op>): seq<Answer>
    decreases |ops|
  {
    if ops == [] then []
    else
      var rest := Answers(orders, Apply(orders, book, ops[0]), ops[1..]);
      if ops[0].Issue? then [AnswerTo(orders, book, ops[0].ask)] + rest else rest
  }

  /** The refunds issued along the way, in order: every movement of money. */
  function Movements(orders: Orders, book: Book, ops: seq<Op>): seq<Refund>
    decreases |ops|
  {
    if ops == [] then []
    else
      var rest := Movements(orders, Apply(orders, book, ops[0]), ops[1..]);
      if ops[0].Issue? && Moves(orders, book, ops[0].ask) then [NewRefund(book, ops[0].ask)] + rest else rest
  }

  function WithoutRestarts(ops: seq<Op>): seq<Op> {
    if ops == [] then []
    else if ops[0].Issue? then [ops[0]] + WithoutRestarts(ops[1..])
    else WithoutRestarts(ops[1..])
  }

  lemma ApplyKeepsValid(orders: Orders, book: Book, op: Op)
    requires Valid(book)
    ensures Valid(Apply(orders, book, op))
    ensures op.Restart? ==> Apply(orders, book, op) == book
  {
    match op
    case Issue(ask) => IssueKeepsValid(orders, book, ask);
    case Restart => RestoreOfSnapshotIsIdentity(book);
  }

  lemma EmptyIsValid()
    ensures Valid(EMPTY)
  {
  }

  /** Restarts are invisible: the same answers, the same movements of money and the same
      final state as a run without them, wherever they fall. */
  lemma {:induction false} RestartsAreTransparent(orders: Orders, book: Book, ops: seq<Op>)
    requires Valid(book)
    ensures Valid(Run(orders, book, ops))
    ensures Run(orders, book, ops) == Run(orders, book, WithoutRestarts(ops))
    ensures Answers(orders, book, ops) == Answers(orders, book, WithoutRestarts(ops))
    ensures Movements(orders, book, ops) == Movements(orders, book, WithoutRestarts(ops))
    decreases |ops|
  {
    if ops != [] {
      ApplyKeepsValid(orders, book, ops[0]);
      RestartsAreTransparent(orders, Apply(orders, book, ops[0]), ops[1..]);
      if ops[0].Issue? {
        var kept := WithoutRestarts(ops);
        assert kept[0] == ops[0] && kept[1..] == WithoutRestarts(ops[1..]);
      }
    }
  }

  predicate NumberedFrom(refunds: seq<Refund>, n: nat) {
    forall i | 0 <= i < |refunds| :: refunds[i].id == RefundId(n + i)
  }

  lemma NumberedOneMore(r: Refund, rest: seq<Refund>, n: nat)
    requires r.id == RefundId(n) && NumberedFrom(rest, n + 1)
    ensures NumberedFrom([r] + rest, n)
  {
    var all := [r] + rest;
    forall i | 0 <= i < |all|
      ensures all[i].id == RefundId(n + i)
    {
      if 0 < i {
        assert all[i] == rest[i - 1] && rest[i - 1].id == RefundId(n + 1 + (i - 1));
      }
    }
  }

  /** Issued ids are numbered consecutively, so no two refunds of a run share one. */
  lemma {:induction false} IdsAreConsecutive(orders: Orders, book: Book, ops: seq<Op>)
    requires Valid(book)
    ensures NumberedFrom(Movements(orders, book, ops), book.next)
    decreases |ops|
  {
    if ops != [] {
      var next := Apply(orders, book, ops[0]);
      ApplyKeepsValid(orders, book, ops[0]);
      IdsAreConsecutive(orders, next, ops[1..]);
      if ops[0].Issue? && Moves(orders, book, ops[0].ask) {
        NumberedOneMore(NewRefund(book, ops[0].ask), Movements(orders, next, ops[1..]), book.next);
      }
    }
  }

  lemma NumberedAreDistinct(refunds: seq<Refund>, n: nat)
    requires NumberedFrom(refunds, n)
    ensures forall i, j | 0 <= i < j < |refunds| :: refunds[i].id != refunds[j].id
  {
    forall i, j | 0 <= i < j < |refunds|
      ensures refunds[i].id != refunds[j].id
    {
      NumberOfRefundId(n + i);
      NumberOfRefundId(n + j);
    }
  }

  function WithKey(refunds: seq<Refund>, key: string): nat {
    if refunds == [] then 0
    else (if refunds[0].idempotencyKey == Some(key) then 1 else 0) + WithKey(refunds[1..], key)
  }

  /** A key stays in the book for ever. */
  lemma KeysPersist(orders: Orders, book: Book, op: Op, key: string)
    requires Valid(book) && Has(book.entries, key)
    ensures Has(Apply(orders, book, op).entries, key)
  {
    ApplyKeepsValid(orders, book, op);
    if op.Issue? && Moves(orders, book, op.ask) {
      var after := Apply(orders, book, op).entries;
      assert after[IndexOf(book.entries, key)].key == key;
    }
  }

  /** However often a key is presented, and with restarts anywhere between, money moves
      at most once under it. */
  lemma {:induction false} AtMostOneRefundPerKey(orders: Orders, book: Book, ops: seq<Op>, key: string)
    requires Valid(book) && key != ""
    ensures WithKey(Movements(orders, book, ops), key) <= if Has(book.entries, key) then 0 else 1
    decreases |ops|
  {
    if ops != [] {
      var next := Apply(orders, book, ops[0]);
      ApplyKeepsValid(orders, book, ops[0]);
      AtMostOneRefundPerKey(orders, next, ops[1..], key);
      if Has(book.entries, key) {
        KeysPersist(orders, book, ops[0], key);
      }
      if ops[0].Issue? && Moves(orders, book, ops[0].ask) {
        var r := NewRefund(book, ops[0].ask);
        assert Movements(orders, book, ops)[1..] == Movements(orders, next, ops[1..]);
        if r.idempotencyKey == Some(key) {
          assert next.entries[IndexOf(book.entries, key)].key == key;
        }
      }
    }
  }

  // ---- Tenants --------------------------------------------------------------

  /** The order exists, and belongs to the tenant that asks. No tenant has an empty name. */
  predicate OwnOrder(orders: Orders, orderId: string, tenant: Option<string>) {
    tenant.Some? && tenant.value != "" && orderId in orders && orders[orderId].tenant == tenant.value
  }

  predicate FirstUnder(entries: seq<Entry>, key: string, r: Refund) {
    exists i :: && 0 <= i < |entries| && entries[i] == Entry(key, r)
                && (forall j | 0 <= j < i :: entries[j].key != key)
  }

  /** Every answer, from the ask's own fields: a key that is in the book is answered with the
      first refund under it; else an order that is not the tenant's does not exist; else the
      amount must be positive; else exactly what was asked for is refunded. */
  lemma AnswerIff(orders: Orders, book: Book, ask: Ask)
    ensures var replays := ask.key.Some? && ask.key.value != ""
                           && exists i :: 0 <= i < |book.entries| && book.entries[i].key == ask.key.value;
            var answer := AnswerTo(orders, book, ask);
            && (answer.UnknownOrder? <==> !replays && !OwnOrder(orders, ask.orderId, ask.tenant))
            && (answer.NotPositive? <==> !replays && OwnOrder(orders, ask.orderId, ask.tenant) && ask.amount <= 0.0)
            && (replays ==> answer.Refunded? && FirstUnder(book.entries, ask.key.value, answer.refund))
            && (!replays && answer.Refunded? ==>
                  answer.refund == Refund(RefundId(book.next), ask.orderId, ask.tenant.value, ask.amount, ask.key))
            && (AfterIssue(orders, book, ask) != book <==> !replays && answer.Refunded?)
  {
    if ask.key.Some? {
      HasIff(book.entries, ask.key.value);
      if Replays(book, ask) {
        var i := IndexOf(book.entries, ask.key.value);
        assert book.entries[i] == Entry(ask.key.value, AnswerTo(orders, book, ask).refund);
      }
    }
  }

  predicate WithinTenants(orders: Orders, refunds: seq<Refund>) {
    forall i | 0 <= i < |refunds| :: OwnOrder(orders, refunds[i].orderId, Some(refunds[i].tenant))
  }

  /** In every run, restarts included, money moves only for orders of the tenant it moves
      for. */
  lemma {:induction false} MovementsStayInTenants(orders: Orders, book: Book, ops: seq<Op>)
    ensures WithinTenants(orders, Movements(orders, book, ops))
    decreases |ops|
  {
    if ops != [] {
      MovementsStayInTenants(orders, Apply(orders, book, ops[0]), ops[1..]);
    }
  }

  /** A quote knows exactly the orders of the tenant that asks. */
  lemma QuotedOrdersAreOwn(orders: Orders, orderId: string, tenant: Option<string>)
    ensures GetOrder(orders, orderId, tenant).Some? <==> OwnOrder(orders, orderId, tenant)
    ensures GetOrder(orders, orderId, tenant).Some? ==> GetOrder(orders, orderId, tenant).value == orders[orderId]
  {
  }

  // ---- Conservation of money -----------------------------------------------

  function RefundedFor(entries: seq<Entry>, orderId: string): real {
    if entries == [] then 0.0
    else
      var last := entries[|entries| - 1].refund;
      RefundedFor(entries[..|entries| - 1], orderId) + (if last.orderId == orderId then last.amount else 0.0)
  }

  const AMOUNT: Refund -> real := (r: Refund) => r.amount

  function AmountFor(orderId: string): Refund -> real {
    (r: Refund) => if r.orderId == orderId then r.amount else 0.0
  }

  /** The sum of a measure over refunds. */
  function Weigh(w: Refund -> real, refunds: seq<Refund>): real {
    if refunds == [] then 0.0
    else Weigh(w, refunds[..|refunds| - 1]) + w(refunds[|refunds| - 1])
  }

  lemma {:induction false} WeighReplaced(w: Refund -> real, refunds: seq<Refund>, i: nat, r: Refund)
    requires i < |refunds|
    ensures Weigh(w, refunds[i := r]) == Weigh(w, refunds) - w(refunds[i]) + w(r)
  {
    var front := refunds[..|refunds| - 1];
    var changed := refunds[i := r];
    if i < |front| {
      WeighReplaced(w, front, i, r);
      assert changed[..|changed| - 1] == front[i := r];
    } else {
      assert changed[..|changed| - 1] == front;
    }
  }

  lemma {:induction false} WeighAppended(w: Refund -> real, a: seq<Refund>, b: seq<Refund>)
    ensures Weigh(w, a + b) == Weigh(w, a) + Weigh(w, b)
  {
    if b == [] {
      assert a + b == a;
    } else {
      WeighAppended(w, a, b[..|b| - 1]);
      assert (a + b)[..|a + b| - 1] == a + b[..|b| - 1];
    }
  }

  /** The one way to lose a refund: a keyless call whose new id is already a key. */
  predicate Collides(orders: Orders, book: Book, op: Op) {
    op.Issue? && Moves(orders, book, op.ask) && !Given(op.ask.key) && Has(book.entries, RefundId(book.next))
  }

  predicate CollisionFree(orders: Orders, book: Book, ops: seq<Op>)
    decreases |ops|
  {
    ops == [] ||
    (!Collides(orders, book, ops[0]) && CollisionFree(orders, Apply(orders, book, ops[0]), ops[1..]))
  }

  lemma WeighStep(w: Refund -> real, orders: Orders, book: Book, op: Op)
    requires Valid(book)
    ensures var after := Weigh(w, Snapshot(Apply(orders, book, op).entries));
            after == Weigh(w, Snapshot(book.entries)) + Weigh(w, Movements(orders, book, [op]))
                     - (if Collides(orders, book, op) then w(Lookup(book.entries, RefundId(book.next))) else 0.0)
  {
    var moved := Movements(orders, book, [op]);
    if op.Restart? {
      RestoreOfSnapshotIsIdentity(book);
    } else if Moves(orders, book, op.ask) {
      var r := NewRefund(book, op.ask);
      assert Movements(orders, Apply(orders, book, op), []) == [];
      assert moved == [r] && moved[..0] == [];
      var before, after := Snapshot(book.entries), Snapshot(Apply(orders, book, op).entries);
      var i := IndexOf(book.entries, KeyOf(r));
      if i < |before| {
        assert after == before[i := r];
        WeighReplaced(w, before, i, r);
      } else {
        assert after == before + [r];
        WeighAppended(w, before, [r]);
      }
    }
  }

  lemma MovementsStep(orders: Orders, book: Book, ops: seq<Op>)
    requires ops != []
    ensures Movements(orders, book, ops)
         == Movements(orders, book, [ops[0]]) + Movements(orders, Apply(orders, book, ops[0]), ops[1..])
  {
    assert Movements(orders, Apply(orders, book, ops[0]), []) == [];
  }

  /** What the book holds is what was moved, in any measure of refunds, as long as no id
      collides with a key. */
  lemma {:induction false} MoneyIsConserved(w: Refund -> real, orders: Orders, book: Book, ops: seq<Op>)
    requires Valid(book) && CollisionFree(orders, book, ops)
    ensures Weigh(w, Snapshot(Run(orders, book, ops).entries))
         == Weigh(w, Snapshot(book.entries)) + Weigh(w, Movements(orders, book, ops))
    decreases |ops|
  {
    if ops != [] {
      var next := Apply(orders, book, ops[0]);
      ApplyKeepsValid(orders, book, ops[0]);
      WeighStep(w, orders, book, ops[0]);
      MoneyIsConserved(w, orders, next, ops[1..]);
      MovementsStep(orders, book, ops);
      WeighAppended(w, Movements(orders, book, [ops[0]]), Movements(orders, next, ops[1..]));
    }
  }

  /** The total in the book never exceeds what was moved, and equals it if and only if
      no keyless call took an id that was already a key. */
  lemma {:induction false} ConservedIffCollisionFree(orders: Orders, book: Book, ops: seq<Op>)
    requires Valid(book)
    ensures var held := Weigh(AMOUNT, Snapshot(Run(orders, book, ops).entries));
            var moved := Weigh(AMOUNT, Snapshot(book.entries))
                         + Weigh(AMOUNT, Movements(orders, book, ops));
            held <= moved && (held == moved <==> CollisionFree(orders, book, ops))
    decreases |ops|
  {
    if ops != [] {
      var w := AMOUNT;
      var next := Apply(orders, book, ops[0]);
      ApplyKeepsValid(orders, book, ops[0]);
      WeighStep(w, orders, book, ops[0]);
      ConservedIffCollisionFree(orders, next, ops[1..]);
      MovementsStep(orders, book, ops);
      WeighAppended(w, Movements(orders, book, [ops[0]]), Movements(orders, next, ops[1..]));
    }
  }

  lemma {:induction false} RefundedForIsAWeight(entries: seq<Entry>, orderId: string)
    ensures RefundedFor(entries, orderId)
         == Weigh(AmountFor(orderId), Snapshot(entries))
  {
    if entries != [] {
      RefundedForIsAWeight(entries[..|entries| - 1], orderId);
      assert Snapshot(entries)[..|entries| - 1] == Snapshot(entries[..|entries| - 1]);
    }
  }

  /** A quote's `already_refunded` is the money moved for that order since the empty book. */
  lemma QuoteCountsEveryMovement(orders: Orders, ops: seq<Op>, orderId: string)
    requires CollisionFree(orders, EMPTY, ops)
    ensures RefundedFor(Run(orders, EMPTY, ops).entries, orderId)
         == Weigh(AmountFor(orderId), Movements(orders, EMPTY, ops))
  {
    RefundedForIsAWeight(Run(orders, EMPTY, ops).entries, orderId);
    MoneyIsConserved(AmountFor(orderId), orders, EMPTY, ops);
  }

  // ---- A concrete collision -------------------------------------------------------------

  /** A caller uses the key `r-0002`; the second, keyless refund is numbered 2 and takes that
      key's place. Both moved money; the book holds only the second, and answers the first
      caller's retry with it. */
  lemma KeyShapedLikeAnIdLosesARefund(orders: Orders)
    requires "o-1" in orders && orders["o-1"] == Order("acme", 50.0)
    ensures var keyed := Ask("o-1", 10.0, Some("acme"), Some(RefundId(2)));
            var keyless := Ask("o-1", 5.0, Some("acme"), None);
            var first := AfterIssue(orders, EMPTY, keyed);
            var second := AfterIssue(orders, first, keyless);
            && Moves(orders, EMPTY, keyed) && Moves(orders, first, keyless)
            && Collides(orders, first, Issue(keyless))
            && |second.entries| == 1
            && RefundedFor(second.entries, "o-1") == 5.0
            && AnswerTo(orders, second, keyed) == Refunded(NewRefund(first, keyless))
  {
    var keyed := Ask("o-1", 10.0, Some("acme"), Some(RefundId(2)));
    var first := AfterIssue(orders, EMPTY, keyed);
    assert first.entries == [Entry(RefundId(2), NewRefund(EMPTY, keyed))];
    assert IndexOf(first.entries, RefundId(2)) == 0;
    var second := AfterIssue(orders, first, Ask("o-1", 5.0, Some("acme"), None));
    assert second.entries == [Entry(RefundId(2), second.entries[0].refund)];
    assert second.entries[..0] == [];
  }
}
