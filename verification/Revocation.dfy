/** The revocation denylist (app/common/revocation.py): a short-lived cache in front of the
    authority (app/api/revocations.py). */
module Revocation {
  import opened Values

  const TTL := 5.0

  /** How a service learns of revocations: it is the authority, it has no denylist, or it
      asks the authority over the network. */
  datatype Mode = Authority | Disabled | Remote

  datatype Config = Config(mode: Mode, failClosed: bool)

  /** The module's globals. */
  datatype Cache = Cache(ids: set<string>, cachedAt: real, available: bool)

  const EMPTY := Cache({}, 0.0, false)

  predicate Unavailable(config: Config, c: Cache) {
    config.mode.Remote? && !c.available
  }

  predicate Due(config: Config, c: Cache, now: real) {
    config.mode.Remote? && now - c.cachedAt >= TTL
  }

  /** The cache after `revoked_ids`. A failed fetch keeps the ids and still counts as a look. */
  function AfterLookup(config: Config, c: Cache, authority: set<string>, now: real, reachable: bool): Cache {
    if !Due(config, c, now) then c
    else if reachable then Cache(authority, now, true)
    else c.(cachedAt := now)
  }

  function Ids(config: Config, c: Cache, authority: set<string>, now: real, reachable: bool): set<string> {
    match config.mode
    case Authority => authority
    case Disabled => {}
    case Remote => AfterLookup(config, c, authority, now, reachable).ids
  }

  function AfterQuery(config: Config, c: Cache, authority: set<string>, now: real, reachable: bool): Cache {
    if config.failClosed && Unavailable(config, c) then c else AfterLookup(config, c, authority, now, reachable)
  }

  predicate Answer(config: Config, c: Cache, authority: set<string>, id: string, now: real, reachable: bool) {
    (config.failClosed && Unavailable(config, c)) || id in Ids(config, c, authority, now, reachable)
  }

  class Denylist {
    const config: Config
    var ids: set<string>
    var cachedAt: real
    var available: bool

    ghost function Value(): Cache
      reads this
    {
      Cache(ids, cachedAt, available)
    }

    constructor (config: Config)
      ensures this.config == config && Value() == EMPTY
    {
      this.config, ids, cachedAt, available := config, {}, 0.0, false;
    }

    /** `authority` is what the authority holds now, `reachable` whether a fetch succeeds. */
    method RevokedIds(authority: set<string>, now: real, reachable: bool) returns (r: set<string>)
      modifies this
      ensures r == Ids(config, old(Value()), authority, now, reachable)
      ensures Value() == AfterLookup(config, old(Value()), authority, now, reachable)
    {
      if config.mode.Authority? {
        return authority;
      }
      if config.mode.Disabled? {
        return {};
      }
      if now - cachedAt < TTL {
        return ids;
      }
      if reachable {
        ids := authority;
        available := true;
      }
      cachedAt := now;
      return ids;
    }

    method IsRevoked(id: string, authority: set<string>, now: real, reachable: bool) returns (revoked: bool)
      modifies this
      ensures revoked == Answer(config, old(Value()), authority, id, now, reachable)
      ensures Value() == AfterQuery(config, old(Value()), authority, now, reachable)
    {
      if config.failClosed && config.mode.Remote? && !available {
        return true;
      }
      var known := RevokedIds(authority, now, reachable);
      return id in known;
    }
  }

  // ---- Whole runs --------------------------------------------------------------------------

  datatype Event =
    | Revoke(id: string, at: real)
    | Restore(id: string, at: real)
    | Query(id: string, at: real, reachable: bool)

  /** The authority's set after a history. */
  function AuthorityAfter(h: seq<Event>): set<string> {
    if h == [] then {}
    else
      var before := AuthorityAfter(h[..|h| - 1]);
      match h[|h| - 1]
      case Revoke(id, _) => before + {id}
      case Restore(id, _) => before - {id}
      case Query(_, _, _) => before
  }

  function CacheAfter(config: Config, h: seq<Event>): Cache {
    if h == [] then EMPTY
    else
      var front, e := h[..|h| - 1], h[|h| - 1];
      if e.Query? then AfterQuery(config, CacheAfter(config, front), AuthorityAfter(front), e.at, e.reachable)
      else CacheAfter(config, front)
  }

  predicate Sorted(h: seq<Event>) {
    (forall i | 0 <= i < |h| :: h[i].at >= 0.0) && forall i, j | 0 <= i < j < |h| :: h[i].at <= h[j].at
  }

  /** How much of the history the last successful fetch saw. */
  function SeenByLastFetch(config: Config, h: seq<Event>): (n: nat)
    ensures n <= |h|
  {
    if h == [] then 0
    else
      var front, e := h[..|h| - 1], h[|h| - 1];
      if e.Query? && e.reachable && Due(config, CacheAfter(config, front), e.at) then |front|
      else SeenByLastFetch(config, front)
  }

  /** Whatever fails, every answer comes from the authority's set as it was at the last
      successful fetch (the empty set before the first). */
  lemma {:induction false} AnswersComeFromTheLastFetch(config: Config, h: seq<Event>, q: Event)
    requires config.mode.Remote? && !config.failClosed && q.Query?
    ensures CacheAfter(config, h).ids == AuthorityAfter(h[..SeenByLastFetch(config, h)])
    ensures Answer(config, CacheAfter(config, h), AuthorityAfter(h), q.id, q.at, q.reachable)
        <==> q.id in AuthorityAfter((h + [q])[..SeenByLastFetch(config, h + [q])])
  {
    CacheIsTheLastFetch(config, h);
    CacheIsTheLastFetch(config, h + [q]);
    assert (h + [q])[..|h|] == h;
  }

  lemma {:induction false} CacheIsTheLastFetch(config: Config, h: seq<Event>)
    requires config.mode.Remote? && !config.failClosed
    ensures CacheAfter(config, h).ids == AuthorityAfter(h[..SeenByLastFetch(config, h)])
  {
    if h != [] {
      var front := h[..|h| - 1];
      CacheIsTheLastFetch(config, front);
      assert h[..SeenByLastFetch(config, front)] == front[..SeenByLastFetch(config, front)];
    }
  }

  /** When the authority last touched an id. */
  function LastChange(h: seq<Event>, id: string): Option<real> {
    if h == [] then None
    else if !h[|h| - 1].Query? && h[|h| - 1].id == id then Some(h[|h| - 1].at)
    else LastChange(h[..|h| - 1], id)
  }

  predicate AllReachable(h: seq<Event>) {
    forall i | 0 <= i < |h| && h[i].Query? :: h[i].reachable
  }

  /** The cache was looked at no later than the last event. */
  lemma {:induction false} LookedAtInThePast(config: Config, h: seq<Event>)
    requires Sorted(h)
    ensures CacheAfter(config, h).cachedAt <= if h == [] then 0.0 else h[|h| - 1].at
  {
    if h != [] {
      LookedAtInThePast(config, h[..|h| - 1]);
    }
  }

  /** If all fetches succeed, the cache is right about every id that was not touched since it
      was last looked at. */
  lemma {:induction false} CacheIsRightUpToItsAge(config: Config, h: seq<Event>, id: string)
    requires config.mode.Remote? && !config.failClosed && Sorted(h) && AllReachable(h)
    requires LastChange(h, id).Some? ==> LastChange(h, id).value < CacheAfter(config, h).cachedAt
    ensures id in CacheAfter(config, h).ids <==> id in AuthorityAfter(h)
  {
    if h != [] {
      var front, e := h[..|h| - 1], h[|h| - 1];
      LookedAtInThePast(config, h);
      LookedAtInThePast(config, front);
      if e.Query? && Due(config, CacheAfter(config, front), e.at) {
        assert CacheAfter(config, h).ids == AuthorityAfter(front);
      } else {
        assert CacheAfter(config, h) == CacheAfter(config, front);
        if !(!e.Query? && e.id == id) {
          CacheIsRightUpToItsAge(config, front, id);
        }
      }
    }
  }

  /** Revocation takes effect within the TTL, and so does restoring: if all fetches succeed
      and the authority has not touched an id for TTL seconds, the answer is the authority's. */
  lemma RevocationIsEffectiveWithinTtl(config: Config, h: seq<Event>, q: Event)
    requires config.mode.Remote? && !config.failClosed && q.Query? && q.reachable
    requires Sorted(h + [q]) && AllReachable(h)
    requires LastChange(h, q.id).Some? ==> LastChange(h, q.id).value <= q.at - 5.0
    ensures Answer(config, CacheAfter(config, h), AuthorityAfter(h), q.id, q.at, q.reachable)
        <==> q.id in AuthorityAfter(h)
  {
    assert forall i | 0 <= i < |h| :: h[i] == (h + [q])[i];
    if !Due(config, CacheAfter(config, h), q.at) {
      CacheIsRightUpToItsAge(config, h, q.id);
    }
  }

  /** The TTL cannot be improved: an id revoked just after a fetch is let through until the
      fetched set is TTL seconds old. */
  lemma StaleUntilTtl(id: string, at: real)
    requires 10.0 < at < 15.0
    ensures var h := [Query(id, 10.0, true), Revoke(id, 10.0)];
            var config := Config(Remote, false);
            && id in AuthorityAfter(h)
            && !Answer(config, CacheAfter(config, h), AuthorityAfter(h), id, at, true)
  {
    var h := [Query(id, 10.0, true), Revoke(id, 10.0)];
    assert h[..1] == [Query(id, 10.0, true)] && h[..1][..0] == [];
    var config := Config(Remote, false);
    assert AuthorityAfter(h[..1]) == {};
    assert CacheAfter(config, h[..1]) == Cache({}, 10.0, true);
  }

  /** The authority itself, and a service without a denylist, need no cache: the one is right
      about every id at every moment, the other refuses nobody, failing closed or not. */
  lemma OtherModesNeedNoCache(config: Config, h: seq<Event>, q: Event)
    requires !config.mode.Remote? && q.Query?
    ensures Answer(config, CacheAfter(config, h), AuthorityAfter(h), q.id, q.at, q.reachable)
        <==> config.mode.Authority? && q.id in AuthorityAfter(h)
    ensures Ids(config, CacheAfter(config, h), AuthorityAfter(h), q.at, q.reachable)
         == if config.mode.Authority? then AuthorityAfter(h) else {}
  {
  }

  /** The `i`-th event revokes the id, and no later one restores it. */
  predicate RevokedSince(h: seq<Event>, id: string, i: nat) {
    i < |h| && h[i].Revoke? && h[i].id == id && forall j | i < j < |h| :: !RestoresId(h[j], id)
  }

  predicate RestoresId(e: Event, id: string) {
    e.Restore? && e.id == id
  }

  lemma RevokedSinceSnoc(h: seq<Event>, id: string, i: nat)
    requires h != [] && i < |h| - 1
    ensures RevokedSince(h, id, i) <==> RevokedSince(h[..|h| - 1], id, i) && !RestoresId(h[|h| - 1], id)
  {
    var front := h[..|h| - 1];
    assert forall j | 0 <= j < |front| :: front[j] == h[j];
  }

  /** The authority's set is the ids that were revoked and not restored since. */
  lemma {:induction false} AuthorityIsTheLastChange(h: seq<Event>, id: string)
    ensures id in AuthorityAfter(h) <==> exists i: nat :: RevokedSince(h, id, i)
  {
    if h != [] {
      var front, last := h[..|h| - 1], |h| - 1;
      AuthorityIsTheLastChange(front, id);
      if id in AuthorityAfter(h) {
        if h[last].Revoke? && h[last].id == id {
          assert RevokedSince(h, id, last);
        } else {
          var i: nat :| RevokedSince(front, id, i);
          RevokedSinceSnoc(h, id, i);
        }
      }
      if i: nat :| RevokedSince(h, id, i) {
        if i < last {
          RevokedSinceSnoc(h, id, i);
        }
      }
    }
  }

  /** The `i`-th event is a query that goes to the authority, whether it is reached or not. */
  predicate Looks(config: Config, h: seq<Event>, i: nat) {
    && i < |h| && h[i].Query?
    && AfterQuery(config, CacheAfter(config, h[..i]), AuthorityAfter(h[..i]), h[i].at, h[i].reachable)
       != CacheAfter(config, h[..i])
  }

  /** When the service last looked, or the epoch. */
  function LastLook(config: Config, h: seq<Event>): real {
    if h == [] then 0.0
    else if Looks(config, h, |h| - 1) then h[|h| - 1].at
    else LastLook(config, h[..|h| - 1])
  }

  lemma {:induction false} CacheKeepsTheLook(config: Config, h: seq<Event>)
    requires config.mode.Remote? && !config.failClosed && Sorted(h)
    ensures CacheAfter(config, h).cachedAt == LastLook(config, h)
  {
    if h != [] {
      CacheKeepsTheLook(config, h[..|h| - 1]);
    }
  }

  /** The authority is asked at most once in every TTL, even while it cannot be reached, and
      no later: a query looks exactly when the last look was TTL seconds ago. */
  lemma LooksIffDue(config: Config, h: seq<Event>, i: nat)
    requires config.mode.Remote? && !config.failClosed && Sorted(h) && i < |h| && h[i].Query?
    ensures Looks(config, h, i) <==> h[i].at - LastLook(config, h[..i]) >= 5.0
  {
    assert forall j | 0 <= j < i :: h[..i][j] == h[j];
    CacheKeepsTheLook(config, h[..i]);
  }

  // ---- Failing closed ----------------------------------------------------------------------

  /** In fail-closed mode a service that has never fetched stays unavailable, and refuses
      everybody, for as long as `is_revoked` is all it calls: the test comes before the fetch
      that would end it, even when every fetch would succeed. */
  lemma {:induction false} FailClosedNeverRecovers(config: Config, h: seq<Event>, q: Event)
    requires config.mode.Remote? && config.failClosed && q.Query?
    ensures CacheAfter(config, h) == EMPTY && Unavailable(config, CacheAfter(config, h))
    ensures Answer(config, CacheAfter(config, h), AuthorityAfter(h), q.id, q.at, q.reachable)
  {
    if h != [] {
      FailClosedNeverRecovers(config, h[..|h| - 1], q);
    }
  }

  /** Exactly when queries refuse everybody: `unavailable` on entry, whatever the authority
      says. One direct lookup that is due and succeeds ends it for good. */
  lemma RefusesEverybodyIffUnavailable(config: Config, c: Cache, authority: set<string>, now: real)
    requires config.mode.Remote? && config.failClosed
    ensures (forall id, later: real, reachable ::
               Answer(config, c, authority, id, later, reachable)) <==> Unavailable(config, c)
    ensures Due(config, c, now) ==> !Unavailable(config, AfterLookup(config, c, authority, now, true))
  {
    if !Unavailable(config, c) {
      var id := Unlisted(c.ids);
      assert !Answer(config, c, authority, id, c.cachedAt, false);
    }
  }

  /** Some id is on no list. */
  lemma Unlisted(ids: set<string>) returns (id: string)
    ensures id !in ids
  {
    id := "";
    var longer := ids;
    while longer != {}
      invariant longer <= ids
      invariant forall s | s in ids - longer :: |s| < |id|
      decreases longer
    {
      var s :| s in longer;
      longer := longer - {s};
      id := if |s| < |id| then id else s + "x";
    }
    assert ids - longer == ids;
    assert forall s | s in ids :: s != id;
  }
}
