/** cosigner/audit.py and the deleting half of cosigner/retention.py: the two tables the
    limiter reads. `requests` is keyed by its AUTOINCREMENT id, so an id is never reused
    and a count is the size of a set of ids. */
module Audit {
  import opened Common

  datatype Action = Wrap | UnwrapAndSign | Unwrap | SignDpop | Rewrap

  datatype Decision = Allow | Deny

  // Why a request was refused; the numbers are the ones the refusal text reports.
  datatype Refusal =
    | Disabled
    | Unattested
    | BadRequest(why: string)
    | AlreadyWrapped
    | PerUserCeiling(used: nat)
    | SweepCeiling(seen: nat)
    | AggregateCeiling(total: nat)
    | SignCeiling(signed: nat)
    | RewrapCeiling(rewrapped: nat)

  datatype Row = Row(ts: real, uid: string, action: Action, decision: Decision, reason: Option<Refusal>)

  type Table = map<nat, Row>
  type Key = (string, Action)
  type Grants = map<Key, real>

  const DAY: real := 86400.0
  const ALLOW_RETENTION_SECONDS: real := 30.0 * DAY
  const DENY_RETENTION_SECONDS: real := 365.0 * DAY

  // --- what a query over the log means ---------------------------------------

  predicate Granted(r: Row, actions: set<Action>, uid: Option<string>) {
    r.decision.Allow? && r.action in actions && (uid.None? || r.uid == uid.value)
  }

  // The allowed rows at or after `since`. Windows are closed.
  function GrantIds(t: Table, actions: set<Action>, uid: Option<string>, since: real): set<nat> {
    set id | id in t && Granted(t[id], actions, uid) && since <= t[id].ts
  }

  function GrantedUids(t: Table, actions: set<Action>, since: real): set<string> {
    set id | id in GrantIds(t, actions, None, since) :: t[id].uid
  }

  // Row by row, what is counted and whose accounts.
  lemma CountedRows(t: Table, actions: set<Action>, uid: Option<string>, since: real)
    ensures forall id :: id in GrantIds(t, actions, uid, since) <==>
              && id in t && t[id].decision == Allow && t[id].action in actions && since <= t[id].ts
              && (uid.Some? ==> t[id].uid == uid.value)
    ensures forall u :: u in GrantedUids(t, actions, since) <==>
              exists id :: id in t && t[id].decision == Allow && t[id].action in actions && since <= t[id].ts && t[id].uid == u
  {
    forall u, id | id in t && t[id].decision == Allow && t[id].action in actions && since <= t[id].ts && t[id].uid == u
      ensures u in GrantedUids(t, actions, since)
    {
      assert id in GrantIds(t, actions, None, since);
    }
  }

  function Covered(actions: Option<seq<Action>>): set<Action> {
    match actions
    case None => {Wrap, UnwrapAndSign, Unwrap, SignDpop, Rewrap}
    case Some(s) => ToSet(s)
  }

  lemma EveryActionCovered(a: Action)
    ensures a in Covered(None)
  {
    match a
    case Wrap =>
    case UnwrapAndSign =>
    case Unwrap =>
    case SignDpop =>
    case Rewrap =>
  }

  // --- the grants table ------------------------------------------------------

  predicate AllowedRow(t: Table, id: nat, k: Key) {
    id in t && t[id].decision.Allow? && t[id].uid == k.0 && t[id].action == k.1
  }

  function AllowedKeys(t: Table): set<Key> {
    set id | id in t && t[id].decision.Allow? :: (t[id].uid, t[id].action)
  }

  lemma KeysAreAllowed(t: Table, k: Key)
    ensures k in AllowedKeys(t) <==> exists id :: AllowedRow(t, id, k)
  {
    if k in AllowedKeys(t) {
      var id :| id in t && t[id].decision.Allow? && k == (t[id].uid, t[id].action);
      assert AllowedRow(t, id, k);
    }
  }

  ghost predicate IsFirstGrant(t: Table, k: Key, at: real) {
    && (exists id :: AllowedRow(t, id, k) && t[id].ts == at)
    && (forall id :: AllowedRow(t, id, k) ==> at <= t[id].ts)
  }

  // `grants` says exactly which pairs were ever allowed, each with its earliest time.
  ghost predicate Exact(grants: Grants, t: Table) {
    && grants.Keys == AllowedKeys(t)
    && forall k :: k in grants ==> IsFirstGrant(t, k, grants[k])
  }

  lemma {:induction false} FirstGrantExists(t: Table, k: Key, ids: set<nat>) returns (at: real)
    requires ids != {} && forall id :: id in ids ==> AllowedRow(t, id, k)
    ensures exists id :: id in ids && id in t && t[id].ts == at
    ensures forall id :: id in ids && id in t ==> at <= t[id].ts
    decreases |ids|
  {
    var id :| id in ids;
    if ids == {id} {
      at := t[id].ts;
    } else {
      var rest := ids - {id};
      assert ids == rest + {id};
      at := FirstGrantExists(t, k, rest);
      if t[id].ts < at {
        at := t[id].ts;
      }
    }
  }

  // MIN(ts) over one group of the log.
  ghost function FirstTs(t: Table, k: Key): (at: real)
    requires k in AllowedKeys(t)
    ensures IsFirstGrant(t, k, at)
  {
    assert exists at :: IsFirstGrant(t, k, at) by {
      var id :| id in t && t[id].decision.Allow? && (t[id].uid, t[id].action) == k;
      var ids := set id | id in t && AllowedRow(t, id, k);
      assert id in ids;
      var at := FirstGrantExists(t, k, ids);
      assert IsFirstGrant(t, k, at);
    }
    var at :| IsFirstGrant(t, k, at);
    at
  }

  // BACKFILL: INSERT OR IGNORE of every allowed pair with its earliest row.
  ghost function Backfilled(t: Table, grants: Grants): (r: Grants)
    ensures r.Keys == grants.Keys + AllowedKeys(t)
    ensures forall k :: k in grants ==> r[k] == grants[k]
    ensures forall k :: k in r && k !in grants ==> IsFirstGrant(t, k, r[k])
  {
    map k | k in grants.Keys + AllowedKeys(t) :: if k in grants then grants[k] else FirstTs(t, k)
  }

  lemma ExactWithRow(grants: Grants, t: Table, id: nat, r: Row)
    requires Exact(grants, t) && id !in t
    ensures var k := (r.uid, r.action);
            Exact(if r.decision.Allow? && (k !in grants || r.ts < grants[k]) then grants[k := r.ts] else grants, t[id := r])
  {
    var k := (r.uid, r.action);
    var t' := t[id := r];
    var grants' := if r.decision.Allow? && (k !in grants || r.ts < grants[k]) then grants[k := r.ts] else grants;
    assert AllowedKeys(t') == AllowedKeys(t) + (if r.decision.Allow? then {k} else {}) by {
      forall q | q in AllowedKeys(t)
        ensures q in AllowedKeys(t')
      {
        var i :| i in t && t[i].decision.Allow? && (t[i].uid, t[i].action) == q;
        assert t'[i] == t[i];
      }
      assert t'[id] == r;
    }
    forall q | q in grants'
      ensures IsFirstGrant(t', q, grants'[q])
    {
      if grants'[q] == r.ts && q == k && r.decision.Allow? {
        assert AllowedRow(t', id, q);
      } else {
        var i :| AllowedRow(t, i, q) && t[i].ts == grants[q];
        assert AllowedRow(t', i, q);
      }
      forall i | AllowedRow(t', i, q)
        ensures grants'[q] <= t'[i].ts
      {
        if i != id {
          assert AllowedRow(t, i, q);
        }
      }
    }
  }

  lemma ScanOneMore(t: Table, todo: set<nat>, id: nat)
    requires id in todo && todo <= t.Keys
    ensures id !in t - todo && (t - todo)[id := t[id]] == t - (todo - {id})
  {
  }

  lemma ScannedAll(t: Table, found: Grants, grants: Grants)
    requires Exact(found, t - {})
    ensures found + grants == Backfilled(t, grants)
  {
    assert t - {} == t;
    forall k | k in found && k !in grants
      ensures found[k] == Backfilled(t, grants)[k]
    {
      assert IsFirstGrant(t, k, found[k]) && IsFirstGrant(t, k, Backfilled(t, grants)[k]);
    }
  }

  // A log that predates `grants` is recovered in full, and doing it again changes nothing.
  lemma BackfillRecoversOldLog(t: Table)
    ensures Exact(Backfilled(t, map[]), t)
    ensures forall part: Table :: part.Keys <= t.Keys && (forall id :: id in part ==> part[id] == t[id]) ==>
              Backfilled(part, Backfilled(t, map[])) == Backfilled(t, map[])
  {
    var g := Backfilled(t, map[]);
    assert Exact(g, t);
    forall part: Table | part.Keys <= t.Keys && (forall id :: id in part ==> part[id] == t[id])
      ensures Backfilled(part, g) == g
    {
      BackfillIsIdle(part, t, g);
    }
  }

  // Once `grants` is exact for the full history, backfilling from any part of it is a no-op.
  lemma BackfillIsIdle(part: Table, t: Table, grants: Grants)
    requires part.Keys <= t.Keys && forall id :: id in part ==> part[id] == t[id]
    requires Exact(grants, t)
    ensures Backfilled(part, grants) == grants
  {
    assert AllowedKeys(part) <= AllowedKeys(t);
  }

  // --- what a prune deletes --------------------------------------------------

  predicate Expired(r: Row, now: real) {
    match r.decision
    case Allow => r.ts < now - ALLOW_RETENTION_SECONDS
    case Deny => r.ts < now - DENY_RETENTION_SECONDS
  }

  function Pruned(t: Table, now: real): Table {
    map id | id in t && !Expired(t[id], now) :: t[id]
  }

  // Exactly when a prune leaves every windowed answer alone: its cutoff has not passed
  // the window's start. Beyond that point there is a log it miscounts.
  lemma PruneKeepsCountsIff(now: real, since: real)
    ensures (forall t: Table, actions, uid :: GrantIds(Pruned(t, now), actions, uid, since) == GrantIds(t, actions, uid, since))
            <==> now - ALLOW_RETENTION_SECONDS <= since
  {
    if now - ALLOW_RETENTION_SECONDS <= since {
      forall t: Table, actions, uid
        ensures GrantIds(Pruned(t, now), actions, uid, since) == GrantIds(t, actions, uid, since)
      {
      }
    } else {
      var t: Table := map[0 := Row(since, "a", Unwrap, Allow, None)];
      assert 0 in GrantIds(t, {Unwrap}, None, since);
      assert 0 !in Pruned(t, now);
      assert 0 !in GrantIds(Pruned(t, now), {Unwrap}, None, since);
    }
  }

  // --- the module itself -----------------------------------------------------

  class AuditLog {
    var requests: Table
    var nextId: nat
    var grants: Grants

    ghost predicate Valid()
      reads this
    {
      forall id :: id in requests ==> id < nextId
    }

    // A new process on an existing database: the schema is there, BACKFILL runs.
    constructor (stored: Table, next: nat, kept: Grants)
      requires forall id :: id in stored ==> id < next
      ensures Valid() && requests == stored && nextId == next
      ensures grants == Backfilled(stored, kept)
    {
      requests, nextId, grants := stored, next, kept;
      new;
      Connect();
    }

    // connect(): the group-by is a pass over the rows keeping the least time per pair.
    method Connect()
      requires Valid()
      modifies this`grants
      ensures grants == Backfilled(requests, old(grants))
    {
      var todo: set<nat> := requests.Keys;
      var found: Grants := map[];
      while todo != {}
        invariant todo <= requests.Keys
        invariant Exact(found, requests - todo)
        invariant grants == old(grants)
        decreases |todo|
      {
        var id :| id in todo;
        var r := requests[id];
        var k := (r.uid, r.action);
        ExactWithRow(found, requests - todo, id, r);
        if r.decision.Allow? && (k !in found || r.ts < found[k]) {
          found := found[k := r.ts];
        }
        ScanOneMore(requests, todo, id);
        todo := todo - {id};
      }
      ScannedAll(requests, found, grants);
      grants := found + grants;
    }

    // record(): the row and the first-grant state, in one transaction.
    method Record(uid: string, action: Action, decision: Decision, reason: Option<Refusal>, at: real)
      requires Valid()
      modifies this
      ensures Valid() && nextId == old(nextId) + 1
      ensures old(nextId) !in old(requests)
      ensures requests == old(requests)[old(nextId) := Row(at, uid, action, decision, reason)]
      ensures grants == if decision.Allow? && (uid, action) !in old(grants)
                        then old(grants)[(uid, action) := at] else old(grants)
    {
      requests := requests[nextId := Row(at, uid, action, decision, reason)];
      nextId := nextId + 1;
      if decision.Allow? && (uid, action) !in grants {
        grants := grants[(uid, action) := at];
      }
    }

    // granted_since(): counted one action at a time and summed.
    method GrantedSince(since: real, actions: Option<seq<Action>>, uid: Option<string>) returns (total: nat)
      requires actions.Some? ==> actions.value != []
      ensures total == |GrantIds(requests, Covered(actions), uid, since)|
    {
      if actions.None? {
        var every := set id | id in requests && requests[id].decision.Allow? && since <= requests[id].ts
                              && (uid.None? || requests[id].uid == uid.value);
        forall id | id in every
          ensures id in GrantIds(requests, Covered(None), uid, since)
        {
          EveryActionCovered(requests[id].action);
        }
        assert every == GrantIds(requests, Covered(None), uid, since);
        return |every|;
      }
      var once := Dedup(actions.value);
      total := 0;
      for i := 0 to |once|
        invariant total == |GrantIds(requests, ToSet(once[..i]), uid, since)|
      {
        assert ToSet(once[..i + 1]) == ToSet(once[..i]) + {once[i]};
        assert once[i] !in ToSet(once[..i]);
        CountsAddUp(requests, ToSet(once[..i]), once[i], uid, since);
        total := total + |GrantIds(requests, {once[i]}, uid, since)|;
      }
      assert once[..|once|] == once;
      assert ToSet(once) == Covered(actions);
    }

    // distinct_uids_since(): distinct counts do not add up, so the uids are unioned.
    method DistinctUidsSince(since: real, actions: seq<Action>) returns (n: nat)
      requires actions != []
      ensures n == |GrantedUids(requests, Covered(Some(actions)), since)|
    {
      var once := Dedup(actions);
      var seen: set<string> := {};
      for i := 0 to |once|
        invariant seen == GrantedUids(requests, ToSet(once[..i]), since)
      {
        assert ToSet(once[..i + 1]) == ToSet(once[..i]) + {once[i]};
        assert GrantIds(requests, ToSet(once[..i]) + {once[i]}, None, since)
            == GrantIds(requests, ToSet(once[..i]), None, since) + GrantIds(requests, {once[i]}, None, since);
        seen := seen + GrantedUids(requests, {once[i]}, since);
      }
      assert once[..|once|] == once;
      assert ToSet(once) == Covered(Some(actions));
      n := |seen|;
    }

    // ever_granted(): whether any row of the full history allowed it, however much of that
    // history has been pruned from the log since.
    method EverGranted(uid: string, action: Action) returns (yes: bool)
      ensures yes <==> (uid, action) in grants
      ensures forall full: Table :: Exact(grants, full) ==>
                (yes <==> exists id :: AllowedRow(full, id, (uid, action)))
    {
      yes := (uid, action) in grants;
      forall full: Table | Exact(grants, full)
        ensures yes <==> exists id :: AllowedRow(full, id, (uid, action))
      {
        KeysAreAllowed(full, (uid, action));
      }
    }

    // retention.prune(): returns how many rows of each kind went.
    method Prune(now: real) returns (allowed: nat, denied: nat)
      requires Valid()
      modifies this`requests
      ensures Valid() && requests == Pruned(old(requests), now)
      ensures forall id :: id in requests <==>
                && id in old(requests)
                && old(requests)[id].ts >= now - (if old(requests)[id].decision == Allow then 30.0 else 365.0) * 86400.0
      ensures forall id :: id in requests ==> requests[id] == old(requests)[id]
      ensures |requests| + allowed + denied == |old(requests)|
      ensures allowed == |set id | id in old(requests) && old(requests)[id].decision.Allow? && Expired(old(requests)[id], now)|
      ensures denied == |set id | id in old(requests) && old(requests)[id].decision.Deny? && Expired(old(requests)[id], now)|
    {
      var goneAllow := set id | id in requests && requests[id].decision.Allow? && Expired(requests[id], now);
      var goneDeny := set id | id in requests && requests[id].decision.Deny? && Expired(requests[id], now);
      PruneSplits(requests, now, goneAllow, goneDeny);
      allowed, denied := |goneAllow|, |goneDeny|;
      requests := requests - (goneAllow + goneDeny);
    }
  }

  lemma CountsAddUp(t: Table, done: set<Action>, action: Action, uid: Option<string>, since: real)
    requires action !in done
    ensures |GrantIds(t, done + {action}, uid, since)| == |GrantIds(t, done, uid, since)| + |GrantIds(t, {action}, uid, since)|
  {
    UnionSize(GrantIds(t, done, uid, since), GrantIds(t, {action}, uid, since));
    assert GrantIds(t, done + {action}, uid, since) == GrantIds(t, done, uid, since) + GrantIds(t, {action}, uid, since);
  }

  lemma PruneSplits(t: Table, now: real, a: set<nat>, d: set<nat>)
    requires a == set id | id in t && t[id].decision.Allow? && Expired(t[id], now)
    requires d == set id | id in t && t[id].decision.Deny? && Expired(t[id], now)
    ensures t - (a + d) == Pruned(t, now)
    ensures |Pruned(t, now)| + |a| + |d| == |t|
  {
    var p := Pruned(t, now);
    UnionSize(a, d);
    UnionSize(p.Keys, a + d);
    assert t.Keys == p.Keys + (a + d);
  }
}
