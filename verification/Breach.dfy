/** What owning the enclave is worth. The attacker has its secret, its disk and the data keys in its
    memory, and may send the co-signer any term it can make, under any handle, as often as the limiter
    lets it. The layers and the limiter together: beside what was in memory, the keys it gets are those
    of the accounts the audit log names. */
module Breach {
  import opened Common
  import Audit
  import Limiter
  import opened Layers
  import Bounds = LimiterBounds
  import KeyCache

  // The co-signer's own layer, under the handle it is bound to.
  predicate OuterSealed(t: Term) {
    t.Sealed? && t.key.Derived? && t.key.root.MasterKey? && t.key == OuterKey(t.aad, t.key.root.version)
  }

  // The data keys in memory when the breach begins, and those a create draws while it lasts.
  ghost predicate InMemory(s: State, held: iset<string>, t: Term) {
    exists h :: h in held && h in s.accounts && t == DataKey(s.accounts[h].dek)
  }

  ghost predicate Has(s: State, held: iset<string>, t: Term) { t in EnclaveHolds(s) || InMemory(s, held, t) }

  // What the attacker can have in at most `n` nested steps, when the co-signer answers both unwraps
  // for the handles of `asked`. Wraps and rewraps are answered for any handle and without limit.
  ghost predicate Gets(s: State, held: iset<string>, asked: iset<string>, t: Term, n: nat)
    decreases n, 0
  {
    || Has(s, held, t)
    || (n > 0 && (
          || (t.Derived? && Gets(s, held, asked, t.root, n - 1))
          || (t.Sealed? && Gets(s, held, asked, t.key, n - 1) && Gets(s, held, asked, t.body, n - 1))
          || (exists k, nonce, aad :: Gets(s, held, asked, Sealed(k, nonce, aad, t), n - 1)
                                   && Gets(s, held, asked, k, n - 1))
          || Unwraps(s, held, asked, t, n - 1)
          || (OuterSealed(t) && Gets(s, held, asked, t.body, n - 1))
          || (OuterSealed(t) && Rewraps(s, held, asked, t, n - 1))))
  }

  // /unwrap and /unwrap-and-sign: any record of a handle that is answered for
  ghost predicate Unwraps(s: State, held: iset<string>, asked: iset<string>, t: Term, n: nat)
    decreases n, 1
  {
    exists h, v, nonce :: h in asked && Gets(s, held, asked, WrapOuter(h, t, v, nonce), n)
  }

  // /rewrap: the same body under another version or nonce
  ghost predicate Rewraps(s: State, held: iset<string>, asked: iset<string>, t: Term, n: nat)
    requires t.Sealed?
    decreases n, 1
  {
    exists v, nonce :: Gets(s, held, asked, WrapOuter(t.aad, t.body, v, nonce), n)
  }

  ghost predicate WithinReach(s: State, held: iset<string>, asked: iset<string>, t: Term) {
    exists n: nat :: Gets(s, held, asked, t, n)
  }

  // --- what stays out of reach -----------------------------------------------

  ghost function OwnersOf(s: State, dek: nat): iset<string> {
    iset h | h in s.accounts && s.accounts[h].dek == dek
  }

  // `t` holds nothing of the co-signer's and nothing of an account outside `asked`, except under
  // a layer that only that account's own answer, or its own key, takes off.
  ghost predicate Clean(s: State, asked: iset<string>, t: Term)
    decreases t
  {
    match t
    case MasterKey(_) => false
    case DpopKey => false
    case AppSecret => true
    case Public(_) => true
    case DataKey(id) => OwnersOf(s, id) <= asked
    case RefreshToken(id) => id in s.tokenOwner ==> s.tokenOwner[id] in asked
    case Derived(root, _, _, _) => Clean(s, asked, root)
    case Sealed(key, _, aad, body) =>
      if OuterSealed(t) then Clean(s, asked + iset{aad}, body)
      else if key.DataKey? then Clean(s, asked + OwnersOf(s, key.id), body)
      else Clean(s, asked, body)
  }

  lemma {:induction false} CleanGrows(s: State, asked: iset<string>, more: iset<string>, t: Term)
    requires asked <= more && Clean(s, asked, t)
    ensures Clean(s, more, t)
    decreases t
  {
    match t
    case Derived(root, _, _, _) => CleanGrows(s, asked, more, root);
    case Sealed(key, _, aad, body) =>
      if OuterSealed(t) {
        CleanGrows(s, asked + iset{aad}, more + iset{aad}, body);
      } else if key.DataKey? {
        CleanGrows(s, asked + OwnersOf(s, key.id), more + OwnersOf(s, key.id), body);
      } else {
        CleanGrows(s, asked, more, body);
      }
    case _ =>
  }

  // The disk: records under their own handles, documents under their owners' keys.
  lemma RecordIsClean(s: State, asked: iset<string>, t: Term)
    requires Inv(s) && Outer(s, t)
    ensures Clean(s, asked, t)
  {
    var h := t.aad;
    var inner := s.accounts[h].inner;
    OwnTermsHaveShape(s, h);
    assert OwnersOf(s, s.accounts[h].dek) <= asked + iset{h};
    assert Clean(s, asked + iset{h}, DataKey(s.accounts[h].dek));
    assert Clean(s, asked + iset{h}, inner);
  }

  lemma DocumentIsClean(s: State, asked: iset<string>, t: Term)
    requires Inv(s) && Document(s, t)
    ensures Clean(s, asked, t)
  {
    var owner := s.tokenOwner[t.body.id];
    assert owner in OwnersOf(s, t.key.id);
    assert Clean(s, asked + OwnersOf(s, t.key.id), t.body);
  }

  lemma HeldIsClean(s: State, asked: iset<string>, t: Term)
    requires Inv(s) && t in EnclaveHolds(s)
    ensures Clean(s, asked, t)
  {
    if t in s.disk {
      if Outer(s, t) {
        RecordIsClean(s, asked, t);
      } else {
        DocumentIsClean(s, asked, t);
      }
    }
  }

  // Opening with a key in reach gives nothing away: the co-signer's keys never are, and an
  // account's data key only once the account was answered for.
  lemma OpeningIsClean(s: State, asked: iset<string>, k: Term, nonce: nat, aad: string, t: Term)
    requires Clean(s, asked, Sealed(k, nonce, aad, t)) && Clean(s, asked, k)
    ensures Clean(s, asked, t)
  {
    if k.DataKey? {
      assert asked + OwnersOf(s, k.id) == asked;
    }
  }

  lemma SealingIsClean(s: State, asked: iset<string>, t: Term)
    requires t.Sealed? && Clean(s, asked, t.key) && Clean(s, asked, t.body)
    ensures Clean(s, asked, t)
  {
    if t.key.DataKey? {
      CleanGrows(s, asked, asked + OwnersOf(s, t.key.id), t.body);
    }
  }

  lemma WrappingIsClean(s: State, asked: iset<string>, t: Term)
    requires OuterSealed(t) && Clean(s, asked, t.body)
    ensures Clean(s, asked, t)
  {
    CleanGrows(s, asked, asked + iset{t.aad}, t.body);
  }

  lemma UnwrappingIsClean(s: State, asked: iset<string>, h: string, t: Term, v: nat, nonce: nat)
    requires h in asked && Clean(s, asked, WrapOuter(h, t, v, nonce))
    ensures Clean(s, asked, t)
  {
    assert OuterSealed(WrapOuter(h, t, v, nonce));
    assert asked + iset{h} == asked;
  }

  lemma RewrappingIsClean(s: State, asked: iset<string>, t: Term, v: nat, nonce: nat)
    requires OuterSealed(t) && Clean(s, asked, WrapOuter(t.aad, t.body, v, nonce))
    ensures Clean(s, asked, t)
  {
    assert OuterSealed(WrapOuter(t.aad, t.body, v, nonce));
  }

  lemma MemoryIsClean(s: State, held: iset<string>, asked: iset<string>, t: Term)
    requires Inv(s) && InMemory(s, held, t)
    ensures Clean(s, asked + held, t)
  {
    var h :| h in held && h in s.accounts && t == DataKey(s.accounts[h].dek);
    assert forall g :: g in OwnersOf(s, t.id) ==> g == h;
  }

  lemma HasIsClean(s: State, held: iset<string>, asked: iset<string>, t: Term)
    requires Inv(s) && Has(s, held, t)
    ensures Clean(s, asked + held, t)
  {
    if t in EnclaveHolds(s) {
      HeldIsClean(s, asked + held, t);
    } else {
      MemoryIsClean(s, held, asked, t);
    }
  }

  lemma {:induction false} ReachIsClean(s: State, held: iset<string>, asked: iset<string>, t: Term, n: nat)
    requires Inv(s) && Gets(s, held, asked, t, n)
    ensures Clean(s, asked + held, t)
    decreases n
  {
    var open := asked + held;
    if Has(s, held, t) {
      HasIsClean(s, held, asked, t);
    } else if t.Derived? && Gets(s, held, asked, t.root, n - 1) {
      ReachIsClean(s, held, asked, t.root, n - 1);
    } else if t.Sealed? && Gets(s, held, asked, t.key, n - 1) && Gets(s, held, asked, t.body, n - 1) {
      ReachIsClean(s, held, asked, t.key, n - 1);
      ReachIsClean(s, held, asked, t.body, n - 1);
      SealingIsClean(s, open, t);
    } else if Unwraps(s, held, asked, t, n - 1) {
      var h, v, nonce :| h in asked && Gets(s, held, asked, WrapOuter(h, t, v, nonce), n - 1);
      ReachIsClean(s, held, asked, WrapOuter(h, t, v, nonce), n - 1);
      UnwrappingIsClean(s, open, h, t, v, nonce);
    } else if OuterSealed(t) && Gets(s, held, asked, t.body, n - 1) {
      ReachIsClean(s, held, asked, t.body, n - 1);
      WrappingIsClean(s, open, t);
    } else if OuterSealed(t) && Rewraps(s, held, asked, t, n - 1) {
      var v, nonce :| Gets(s, held, asked, WrapOuter(t.aad, t.body, v, nonce), n - 1);
      ReachIsClean(s, held, asked, WrapOuter(t.aad, t.body, v, nonce), n - 1);
      RewrappingIsClean(s, open, t, v, nonce);
    } else {
      var k, nonce, aad :| Gets(s, held, asked, Sealed(k, nonce, aad, t), n - 1) && Gets(s, held, asked, k, n - 1);
      ReachIsClean(s, held, asked, Sealed(k, nonce, aad, t), n - 1);
      ReachIsClean(s, held, asked, k, n - 1);
      OpeningIsClean(s, open, k, nonce, aad, t);
    }
  }

  // --- what an answer opens --------------------------------------------------

  // Every account's current record is on the disk.
  ghost predicate RecordsOnDisk(s: State) {
    forall h :: h in s.accounts ==> s.accounts[h].outer in s.disk
  }

  lemma DoKeepsRecords(s: State, op: Op)
    requires RecordsOnDisk(s)
    ensures RecordsOnDisk(Do(s, op))
  {
  }

  lemma {:induction false} RunKeepsRecords(s: State, ops: seq<Op>)
    requires RecordsOnDisk(s)
    ensures RecordsOnDisk(Run(s, ops))
    decreases |ops|
  {
    if ops != [] {
      DoKeepsRecords(s, ops[0]);
      RunKeepsRecords(Do(s, ops[0]), ops[1..]);
    }
  }

  lemma AnswerGivesKey(s: State, held: iset<string>, asked: iset<string>, h: string)
    requires Inv(s) && RecordsOnDisk(s) && h in s.accounts && h in asked
    ensures Gets(s, held, asked, DataKey(s.accounts[h].dek), 2)
  {
    var outer, inner := s.accounts[h].outer, s.accounts[h].inner;
    OwnTermsHaveShape(s, h);
    assert outer == WrapOuter(h, inner, outer.key.root.version, outer.nonce);
    assert Gets(s, held, asked, WrapOuter(h, inner, outer.key.root.version, outer.nonce), 0);
    assert Unwraps(s, held, asked, inner, 0);
    assert Gets(s, held, asked, inner, 1);
    assert Gets(s, held, asked, AppSecret, 0);
    assert Gets(s, held, asked, inner.key, 1);
    assert inner == Sealed(inner.key, inner.nonce, inner.aad, DataKey(s.accounts[h].dek));
  }

  lemma MemoryGivesKey(s: State, held: iset<string>, asked: iset<string>, h: string)
    requires h in s.accounts && h in held
    ensures Gets(s, held, asked, DataKey(s.accounts[h].dek), 2)
  {
  }

  lemma KeyGivesToken(s: State, held: iset<string>, asked: iset<string>, id: nat, doc: Term)
    requires OnDisk(s, id, doc) && Gets(s, held, asked, doc.key, 2)
    ensures Gets(s, held, asked, RefreshToken(id), 3)
  {
    assert Gets(s, held, asked, Sealed(doc.key, doc.nonce, doc.aad, RefreshToken(id)), 2);
  }

  // --- the theorems ----------------------------------------------------------

  lemma GivesKey(s: State, held: iset<string>, asked: iset<string>, h: string)
    requires Inv(s) && RecordsOnDisk(s) && h in s.accounts && (h in asked || h in held)
    ensures Gets(s, held, asked, DataKey(s.accounts[h].dek), 2)
  {
    if h in held {
      MemoryGivesKey(s, held, asked, h);
    } else {
      AnswerGivesKey(s, held, asked, h);
    }
  }

  // Whatever it sends, under whatever handles, the attacker reaches exactly the data keys that were
  // in memory and those of the accounts the co-signer answered an unwrap for.
  lemma KeysReachedAreThoseAnswered(ops: seq<Op>, held: iset<string>, asked: iset<string>, h: string)
    requires h in Run(Start(), ops).accounts
    ensures var s := Run(Start(), ops);
            WithinReach(s, held, asked, DataKey(s.accounts[h].dek)) <==> h in asked || h in held
  {
    var s := Run(Start(), ops);
    RunKeepsInv(Start(), ops);
    RunKeepsRecords(Start(), ops);
    if h in asked || h in held {
      GivesKey(s, held, asked, h);
    }
    if WithinReach(s, held, asked, DataKey(s.accounts[h].dek)) {
      var n: nat :| Gets(s, held, asked, DataKey(s.accounts[h].dek), n);
      ReachIsClean(s, held, asked, DataKey(s.accounts[h].dek), n);
      assert h in OwnersOf(s, s.accounts[h].dek);
    }
  }

  // And so for the refresh tokens.
  lemma TokensReachedAreThoseAnswered(ops: seq<Op>, held: iset<string>, asked: iset<string>, id: nat)
    requires id in Run(Start(), ops).tokenOwner
    ensures var s := Run(Start(), ops);
            WithinReach(s, held, asked, RefreshToken(id)) <==> s.tokenOwner[id] in asked || s.tokenOwner[id] in held
  {
    var s := Run(Start(), ops);
    RunKeepsInv(Start(), ops);
    RunKeepsRecords(Start(), ops);
    RunKeepsTokens(Start(), ops);
    var owner := s.tokenOwner[id];
    if owner in asked || owner in held {
      var doc :| OnDisk(s, id, doc);
      GivesKey(s, held, asked, owner);
      KeyGivesToken(s, held, asked, id, doc);
    }
    if WithinReach(s, held, asked, RefreshToken(id)) {
      var n: nat :| Gets(s, held, asked, RefreshToken(id), n);
      ReachIsClean(s, held, asked, RefreshToken(id), n);
    }
  }

  // The accounts the audit history names as having had key material released in [from, to].
  ghost function Named(hist: Audit.Table, from: real, to: real): iset<string> {
    iset h | h in Bounds.UidsWithin(hist, Limiter.KeyReleasing(), from, to)
  }

  ghost function KeysReached(s: State, held: iset<string>, asked: iset<string>): set<string> {
    set h | h in s.accounts && WithinReach(s, held, asked, DataKey(s.accounts[h].dek))
  }

  ghost function Beyond(reached: set<string>, held: iset<string>): set<string> {
    set h | h in reached && h !in held
  }

  ghost predicate HasRow(hist: Audit.Table, h: string, from: real, to: real) {
    exists id :: id in hist && Audit.Granted(hist[id], {Audit.UnwrapAndSign, Audit.Unwrap}, Some(h))
              && from <= hist[id].ts <= to
  }

  // Bounded exfiltration with evidence: beside what was in memory, a breach that lasts `span` seconds
  // yields the data key of an account if and only if an ALLOW row of those seconds names it, and so
  // of at most distinct * (floor(span / 900) + 1) accounts.
  lemma BreachIsBoundedAndNamed(ops: seq<Op>, held: iset<string>, lim: Limiter.Limits, now: real, es: seq<Limiter.Event>,
                                from: real, span: real)
    requires span >= 0.0
    ensures var s, hist := Run(Start(), ops), Limiter.Run(lim, Bounds.Fresh(now), es).hist;
            var reached := KeysReached(s, held, Named(hist, from, from + span));
            && (forall h :: h in s.accounts ==> (h in reached <==> h in held || HasRow(hist, h, from, from + span)))
            && |Beyond(reached, held)| <= lim.distinct * ((span / 900.0).Floor + 1)
  {
    var s, hist := Run(Start(), ops), Limiter.Run(lim, Bounds.Fresh(now), es).hist;
    ReachedAreNamed(ops, held, hist, from, from + span);
    Bounds.SweepOverSpan(lim, now, es, from, span);
    SubsetSize(Beyond(KeysReached(s, held, Named(hist, from, from + span)), held),
               Bounds.UidsWithin(hist, Limiter.KeyReleasing(), from, from + span));
  }

  lemma ReachedAreNamed(ops: seq<Op>, held: iset<string>, hist: Audit.Table, from: real, to: real)
    ensures var s := Run(Start(), ops);
            var reached := KeysReached(s, held, Named(hist, from, to));
            && (forall h :: h in s.accounts ==> (h in reached <==> h in held || HasRow(hist, h, from, to)))
            && (forall h :: h in reached && h !in held ==>
                  h in Bounds.UidsWithin(hist, Limiter.KeyReleasing(), from, to))
  {
    var s, named := Run(Start(), ops), Named(hist, from, to);
    forall h | h in s.accounts
      ensures h in KeysReached(s, held, named) <==> h in held || h in named
      ensures h in KeysReached(s, held, named) <==> h in held || HasRow(hist, h, from, to)
    {
      KeysReachedAreThoseAnswered(ops, held, named, h);
      NamedByARow(hist, h, from, to);
    }
  }

  lemma NamedByARow(hist: Audit.Table, h: string, from: real, to: real)
    ensures h in Bounds.UidsWithin(hist, Limiter.KeyReleasing(), from, to) <==> HasRow(hist, h, from, to)
  {
    if HasRow(hist, h, from, to) {
      var id :| id in hist && Audit.Granted(hist[id], {Audit.UnwrapAndSign, Audit.Unwrap}, Some(h))
                && from <= hist[id].ts <= to;
      assert id in Bounds.Within(hist, Limiter.KeyReleasing(), None, from, to);
    }
  }

  // --- and what memory adds --------------------------------------------------

  // Cached when the breach begins, at `before`, or created while it lasts, up to `after`.
  ghost function HeldOver(before: KeyCache.System, after: KeyCache.System): iset<string> {
    iset h | h in KeyCache.Remembered(before) || CreatedBetween(before, after, h)
  }

  ghost predicate CreatedBetween(before: KeyCache.System, after: KeyCache.System, h: string) {
    exists i :: |before.creates| <= i < |after.creates| && after.creates[i].0 == h
  }

  // Each of them has an ALLOW row in [now, end] or a create, and there are so few without a create.
  ghost predicate NamedSince(reached: set<string>, s: KeyCache.System, limit: nat, now: real, end: real) {
    && (forall h :: h in reached ==> HasRow(s.w.hist, h, now, end) || h in KeyCache.CreatedIn(s))
    && KeyCache.WithinCeiling(reached - KeyCache.CreatedIn(s), limit, now, end)
  }

  // A breach of processes that have run since `now`: every account whose key it yields is named by
  // an ALLOW row since `now`, or by a create; and beside the created ones they are at most
  // distinct * (floor(T / 900) + 1), T running from `now` to the end of the breach.
  lemma WarmBreachIsBoundedAndNamed(ops: seq<Op>, lim: Limiter.Limits, now: real, acts: seq<KeyCache.Move>,
                                    more: seq<KeyCache.Move>, span: real)
    requires span >= 0.0
    ensures var before := KeyCache.Run(lim, KeyCache.Cold(now), acts);
            var after := KeyCache.Run(lim, before, more);
            NamedSince(YieldOf(ops, before, after, span), after, lim.distinct, now, before.w.now + span)
  {
    var before := KeyCache.Run(lim, KeyCache.Cold(now), acts);
    WarmRun(lim, now, acts, more);
    WarmRunIsSwept(lim, now, acts, more);
    WarmReach(ops, before, KeyCache.Run(lim, before, more), lim.distinct, now, span);
  }

  lemma WarmReach(ops: seq<Op>, before: KeyCache.System, after: KeyCache.System, limit: nat, now: real, span: real)
    requires Warm(before, after, now) && span >= 0.0 && Bounds.SweepCeilingHolds(after.w.hist, limit)
    ensures NamedSince(YieldOf(ops, before, after, span), after, limit, now, before.w.now + span)
  {
    WarmYieldIsNamed(ops, before, after, now, span);
    WarmYieldIsReleased(ops, before, after, limit, now, span);
    KeyCache.ReleasedAreFew(YieldOf(ops, before, after, span) - KeyCache.CreatedIn(after), after.w.hist, limit, now,
                            before.w.now + span);
  }

  // The accounts whose key a breach yields that begins at `before` and ends `span` seconds later.
  ghost function YieldOf(ops: seq<Op>, before: KeyCache.System, after: KeyCache.System, span: real): set<string> {
    KeysReached(Run(Start(), ops), HeldOver(before, after), Named(after.w.hist, before.w.now, before.w.now + span))
  }

  // The history and the creates only grow, and every key in memory has its row or its create.
  ghost predicate Warm(before: KeyCache.System, after: KeyCache.System, now: real) {
    && now <= before.w.now && KeyCache.CreatedIn(before) <= KeyCache.CreatedIn(after)
    && (forall id :: id in before.w.hist ==> id in after.w.hist && after.w.hist[id] == before.w.hist[id])
    && (forall h :: h in KeyCache.Remembered(before) ==>
          KeyCache.Metered(before, h, now, before.w.now) || h in KeyCache.CreatedIn(before))
  }

  lemma WarmYieldIsNamed(ops: seq<Op>, before: KeyCache.System, after: KeyCache.System, now: real, span: real)
    requires Warm(before, after, now) && span >= 0.0
    ensures forall h :: h in YieldOf(ops, before, after, span) ==>
              HasRow(after.w.hist, h, now, before.w.now + span) || h in KeyCache.CreatedIn(after)
  {
    forall h | h in YieldOf(ops, before, after, span) && h !in KeyCache.CreatedIn(after)
      ensures HasRow(after.w.hist, h, now, before.w.now + span)
    {
      WarmYield(ops, before, after, span, h);
      WarmHasRow(before, after, h, now, before.w.now + span);
    }
  }

  lemma WarmYieldIsReleased(ops: seq<Op>, before: KeyCache.System, after: KeyCache.System, limit: nat,
                            now: real, span: real)
    requires Warm(before, after, now) && span >= 0.0 && Bounds.SweepCeilingHolds(after.w.hist, limit)
    ensures KeyCache.Released(YieldOf(ops, before, after, span) - KeyCache.CreatedIn(after), after.w.hist, limit, now,
                              before.w.now + span)
  {
    forall h | h in YieldOf(ops, before, after, span) && h !in KeyCache.CreatedIn(after)
      ensures h in Bounds.UidsWithin(after.w.hist, Limiter.KeyReleasing(), now, before.w.now + span)
    {
      WarmYield(ops, before, after, span, h);
      WarmHasRow(before, after, h, now, before.w.now + span);
      NamedByARow(after.w.hist, h, now, before.w.now + span);
    }
  }

  lemma WarmYield(ops: seq<Op>, before: KeyCache.System, after: KeyCache.System, span: real, h: string)
    requires h in YieldOf(ops, before, after, span) && h !in KeyCache.CreatedIn(after)
    ensures h in KeyCache.Remembered(before) || HasRow(after.w.hist, h, before.w.now, before.w.now + span)
  {
    ReachedAreNamed(ops, HeldOver(before, after), after.w.hist, before.w.now, before.w.now + span);
  }

  lemma WarmHasRow(before: KeyCache.System, after: KeyCache.System, h: string, now: real, end: real)
    requires Warm(before, after, now) && before.w.now <= end && h !in KeyCache.CreatedIn(after)
    requires h in KeyCache.Remembered(before) || HasRow(after.w.hist, h, before.w.now, end)
    ensures HasRow(after.w.hist, h, now, end)
  {
    if !HasRow(after.w.hist, h, before.w.now, end) {
      var id :| id in before.w.hist && Audit.Granted(before.w.hist[id], {Audit.Unwrap}, Some(h))
                && now <= before.w.hist[id].ts <= before.w.now;
      assert id in after.w.hist;
    }
  }

  lemma WarmRun(lim: Limiter.Limits, now: real, acts: seq<KeyCache.Move>, more: seq<KeyCache.Move>)
    ensures var before := KeyCache.Run(lim, KeyCache.Cold(now), acts);
            Warm(before, KeyCache.Run(lim, before, more), now)
  {
    var before := KeyCache.Run(lim, KeyCache.Cold(now), acts);
    KeyCache.MemoryHasRows(lim, now, acts);
    KeyCache.ColdIsSound(lim, now);
    KeyCache.RunKeepsSinceStart(lim, KeyCache.Cold(now), acts, now);
    KeyCache.RunKeepsSinceStart(lim, before, more, now);
    CreatesGrow(before, KeyCache.Run(lim, before, more));
  }

  lemma CreatesGrow(before: KeyCache.System, after: KeyCache.System)
    requires before.creates <= after.creates
    ensures KeyCache.CreatedIn(before) <= KeyCache.CreatedIn(after)
  {
    forall h | h in KeyCache.CreatedIn(before)
      ensures h in KeyCache.CreatedIn(after)
    {
      var i :| 0 <= i < |before.creates| && before.creates[i].0 == h;
      assert after.creates[i].0 == h;
    }
  }

  lemma WarmRunIsSwept(lim: Limiter.Limits, now: real, acts: seq<KeyCache.Move>, more: seq<KeyCache.Move>)
    ensures var before := KeyCache.Run(lim, KeyCache.Cold(now), acts);
            Bounds.SweepCeilingHolds(KeyCache.Run(lim, before, more).w.hist, lim.distinct)
  {
    var before := KeyCache.Run(lim, KeyCache.Cold(now), acts);
    KeyCache.ColdIsSound(lim, now);
    KeyCache.RunKeepsInv(lim, KeyCache.Cold(now), acts);
    KeyCache.RunKeepsInv(lim, before, more);
    KeyCache.SoundIsSwept(lim, KeyCache.Run(lim, before, more));
  }
}
