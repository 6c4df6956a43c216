/** The audit trail (app/audit/store.py): a bounded in-memory trail, and the unbounded table
    that is its specification. */
module AuditTrail {
  import opened Values

  /** A record's queryable fields, and the rest of it as text. */
  datatype Record = Record(
    event: Option<string>, tool: Option<string>, sub: Option<string>, tenant: Option<string>, body: string)

  /** What a query filters on; an absent filter does not filter. */
  datatype Filter = Filter(
    event: Option<string>, tool: Option<string>, sub: Option<string>, tenant: Option<string>)

  predicate Given(f: Option<string>) {
    f.Some? && f.value != ""
  }

  function OrEmpty(v: Option<string>): string {
    if v.Some? then v.value else ""
  }

  /** `_matches`: an empty event, tool or sub filter filters nothing; an empty tenant does. */
  predicate Matches(r: Record, f: Filter) {
    && (Given(f.event) ==> r.event == f.event)
    && (Given(f.tool) ==> r.tool == f.tool)
    && (Given(f.sub) ==> r.sub == f.sub)
    && (f.tenant.Some? ==> OrEmpty(r.tenant) == f.tenant.value)
  }

  /** The WHERE clause on the indexed columns of the row. */
  predicate SqlMatches(r: Record, f: Filter) {
    && (f.event.None? || OrEmpty(r.event) == f.event.value)
    && (f.tool.None? || r.tool == f.tool)
    && (f.sub.None? || OrEmpty(r.sub) == f.sub.value)
    && (f.tenant.None? || OrEmpty(r.tenant) == f.tenant.value)
  }

  function Take<T>(s: seq<T>, n: nat): seq<T> {
    if n < |s| then s[..n] else s
  }

  function Matching(records: seq<Record>, f: Filter): seq<Record> {
    if records == [] then []
    else if Matches(records[0], f) then [records[0]] + Matching(records[1..], f)
    else Matching(records[1..], f)
  }

  function SqlMatching(records: seq<Record>, f: Filter): seq<Record> {
    if records == [] then []
    else if SqlMatches(records[0], f) then [records[0]] + SqlMatching(records[1..], f)
    else SqlMatching(records[1..], f)
  }

  /** A history of appends, newest first: the table read by descending id. */
  function NewestFirst(appended: seq<Record>): (r: seq<Record>)
    ensures |r| == |appended|
  {
    if appended == [] then []
    else [appended[|appended| - 1]] + NewestFirst(appended[..|appended| - 1])
  }

  /** `SELECT record ... ORDER BY id DESC LIMIT limit`. */
  function SqlQuery(appended: seq<Record>, f: Filter, limit: nat): seq<Record> {
    Take(SqlMatching(NewestFirst(appended), f), limit)
  }

  class AuditStore {
    const maxlen: nat
    var records: seq<Record>
    ghost var appended: seq<Record>

    /** The trail holds the newest `maxlen` of everything ever appended. */
    ghost predicate Valid()
      reads this
    {
      records == Take(NewestFirst(appended), maxlen)
    }

    constructor (maxlen: nat)
      ensures this.maxlen == maxlen && appended == [] && Valid()
    {
      this.maxlen, records, appended := maxlen, [], [];
    }

    method Append(r: Record)
      requires Valid()
      modifies this
      ensures Valid() && appended == old(appended) + [r]
    {
      records := [r] + records;
      if |records| > maxlen {
        records := records[..maxlen];
      }
      NewestSnoc(appended, r);
      appended := appended + [r];
    }

    /** Every query is the first `limit` matches among the newest `maxlen` appends. */
    method Query(f: Filter, limit: nat) returns (found: seq<Record>)
      requires Valid()
      ensures found == Take(Matching(Take(NewestFirst(appended), maxlen), f), limit)
    {
      found := [];
      for i := 0 to |records|
        invariant found + Matching(records[i..], f) == Matching(records, f)
      {
        assert records[i..][1..] == records[i + 1..];
        if Matches(records[i], f) {
          assert found + ([records[i]] + Matching(records[i + 1..], f))
              == (found + [records[i]]) + Matching(records[i + 1..], f);
          found := found + [records[i]];
        }
      }
      assert found == Matching(records, f);
      if |found| > limit {
        found := found[..limit];
      }
    }
  }

  lemma NewestSnoc(appended: seq<Record>, r: Record)
    ensures NewestFirst(appended + [r]) == [r] + NewestFirst(appended)
  {
    assert (appended + [r])[..|appended|] == appended;
  }

  /** The two filters, before empty strings are told apart. */
  predicate NoEmptyFilter(f: Filter) {
    f.event != Some("") && f.tool != Some("") && f.sub != Some("")
  }

  /** The two backends agree on every record if and only if no event, tool or sub filter is
      the empty string. */
  lemma BackendsAgreeIff(f: Filter)
    ensures NoEmptyFilter(f) <==> forall r :: Matches(r, f) == SqlMatches(r, f)
  {
    if !NoEmptyFilter(f) {
      var r := Record(if Given(f.event) then f.event else Some("other"),
                      if Given(f.tool) then f.tool else Some("other"),
                      if Given(f.sub) then f.sub else Some("other"), f.tenant, "");
      assert Matches(r, f) && !SqlMatches(r, f);
    }
  }

  /** A query answers with records of the trail that meet every filter given, and leaves none
      of them out: in particular a tenant's query shows no record of another tenant. */
  lemma {:induction false} MatchingIff(records: seq<Record>, f: Filter, r: Record)
    ensures r in Matching(records, f) <==>
      && r in records
      && (f.event.Some? && f.event.value != "" ==> r.event == f.event)
      && (f.tool.Some? && f.tool.value != "" ==> r.tool == f.tool)
      && (f.sub.Some? && f.sub.value != "" ==> r.sub == f.sub)
      && (f.tenant.Some? ==> if r.tenant.Some? then r.tenant == f.tenant else f.tenant.value == "")
  {
    if records != [] {
      MatchingIff(records[1..], f, r);
      assert records == [records[0]] + records[1..];
    }
  }

  /** The newest come first: the order of the trail is the reverse of the order of appending. */
  lemma {:induction false} NewestFirstAt(appended: seq<Record>, i: nat)
    requires i < |appended|
    ensures NewestFirst(appended)[i] == appended[|appended| - 1 - i]
  {
    if i > 0 {
      NewestFirstAt(appended[..|appended| - 1], i - 1);
    }
  }

  lemma {:induction false} SameMatches(records: seq<Record>, f: Filter)
    requires NoEmptyFilter(f)
    ensures Matching(records, f) == SqlMatching(records, f)
  {
    if records != [] {
      SameMatches(records[1..], f);
    }
  }

  lemma {:induction false} MatchingConcat(a: seq<Record>, b: seq<Record>, f: Filter)
    ensures Matching(a + b, f) == Matching(a, f) + Matching(b, f)
  {
    if a == [] {
      assert a + b == b;
    } else {
      assert (a + b)[1..] == a[1..] + b;
      MatchingConcat(a[1..], b, f);
      if Matches(a[0], f) {
        assert [a[0]] + (Matching(a[1..], f) + Matching(b, f)) == ([a[0]] + Matching(a[1..], f)) + Matching(b, f);
      }
    }
  }

  lemma TakeOfConcat<T>(a: seq<T>, b: seq<T>, n: nat)
    ensures Take(a, n) <= Take(a + b, n)
    ensures |a| >= n ==> Take(a, n) == Take(a + b, n)
  {
  }

  /** The bounded trail refines the table: its answer to a query is always the beginning of
      the table's, and all of it when nothing has been dropped yet or when the trail alone
      already fills the limit. */
  lemma BoundedTrailRefinesTable(appended: seq<Record>, maxlen: nat, f: Filter, limit: nat)
    requires NoEmptyFilter(f)
    ensures var kept := Matching(Take(NewestFirst(appended), maxlen), f);
            && Take(kept, limit) <= SqlQuery(appended, f, limit)
            && (|appended| <= maxlen || |kept| >= limit ==> Take(kept, limit) == SqlQuery(appended, f, limit))
  {
    var all := NewestFirst(appended);
    SameMatches(all, f);
    if maxlen < |all| {
      assert all == all[..maxlen] + all[maxlen..];
      MatchingConcat(all[..maxlen], all[maxlen..], f);
      TakeOfConcat(Matching(all[..maxlen], f), Matching(all[maxlen..], f), limit);
    }
  }
}
