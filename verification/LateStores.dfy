/** What the parts of rewrap and create leave of Keyring's promise, that every stored record opens to
    the account's own key: the one condition on retiring a version, and the one on storing a new key,
    that keep it, and that no weaker ones do. */
module LateStores {
  import opened Common
  import opened Keyring
  import opened Shredding

  // What the call has in hand opens to `dek` under its handle.
  ghost predicate Yields(w: World, f: Flight, dek: bytes) {
    if f.Minted? then OpenDek(w, f.handle, f.inner, f.keyVersion) == Ok(dek)
    else
      && Openable(w, f.handle, f.outer)
      && OpenDek(w, f.handle, w.vault[Layer(f.handle, f.outer)], f.keyVersion) == Ok(dek)
  }

  predicate OfRewrap(f: Flight) { f.Loaded? || f.Answered? }

  // A record in hand, waiting for nothing but its store, names a version that still opens.
  predicate VersionLives(w: World, f: Flight) {
    !Waiting(f) ==> f.outer != [] && f.outer[0] as nat in Known(w)
  }

  ghost predicate Fits(w: World, f: Flight, handle: string, dek: bytes) { f.handle == handle && Yields(w, f, dek) }

  // A create has its own key in hand; a rewrap that can still store has the account's.
  ghost predicate KeyFits(w: World, f: Flight) {
    && IsHandle(f.handle)
    && if OfRewrap(f) then CanBeStored(w, f) ==> FitsAccount(w, f) else Yields(w, f, f.dek)
  }

  ghost predicate FitsAccount(w: World, f: Flight) {
    f.uid in w.drawn && f.uid in w.handleOf && Fits(w, f, w.handleOf[f.uid], w.drawn[f.uid])
  }

  ghost predicate FlightsFit(s: System) {
    forall tid :: tid in s.flights ==> VersionLives(s.w, s.flights[tid]) && KeyFits(s.w, s.flights[tid])
  }

  ghost predicate Sound(s: System) { Inv(s.w) && Traced(s) && FlightsFit(s) }

  // --- the two conditions ----------------------------------------------------

  // No call is between its answer and its store with a record on this version.
  predicate NobodyHolds(s: System, v: nat) {
    forall tid :: tid in s.flights && !Waiting(s.flights[tid]) && s.flights[tid].outer != [] ==>
      s.flights[tid].outer[0] as nat != v
  }

  // No rewrap begun on an earlier record of this account can still store it, except one that
  // opens to the very same key.
  ghost predicate NoneOvertakes(s: System, f: Flight)
    requires f.Wrapped?
  {
    forall tid :: tid in s.flights && s.flights[tid].uid == f.uid
                  && OfRewrap(s.flights[tid]) && CanBeStored(s.w, s.flights[tid]) ==>
      Fits(s.w, s.flights[tid], f.handle, f.dek)
  }

  ghost predicate Careful(s: System, e: Step) {
    match e
    case Operate(op) => op.Retire? && Enabled(s.w, op) ==> NobodyHolds(s, op.version)
    case Store(tid) => tid in s.flights && s.flights[tid].Wrapped? ==> NoneOvertakes(s, s.flights[tid])
    case _ => true
  }

  ghost predicate CarefulRun(s: System, es: seq<Step>)
    decreases |es|
  {
    es == [] || (Careful(s, es[0]) && CarefulRun(Next(s, es[0]), es[1..]))
  }

  // --- they are enough -------------------------------------------------------

  lemma SameNonces(w: World, w': World)
    requires w'.vault == w.vault
    ensures NonceLeft(w') <==> NonceLeft(w)
  {
    assert forall nonce :: FreshNonce(w', nonce) <==> FreshNonce(w, nonce);
  }

  lemma SameVaultFits(w: World, w': World, f: Flight)
    requires w'.vault == w.vault && w'.drawn == w.drawn && w'.handleOf == w.handleOf && KeyFits(w, f)
    ensures KeyFits(w', f)
  {
    SameNonces(w, w');
  }

  // One more seal, under a fresh nonce.
  ghost predicate Grown(w: World, w': World, x: Seal, text: bytes) {
    FreshNonce(w, x.nonce) && w' == w.(vault := w.vault[x := text])
  }

  lemma GrownFits(w: World, w': World, x: Seal, text: bytes, f: Flight)
    requires Grown(w, w', x, text) && Used(w, OuterOf(f)) && KeyFits(w, f)
    ensures KeyFits(w', f)
  {
    assert x !in w.vault;
    if OfRewrap(f) && CanBeStored(w', f) && !CanBeStored(w, f) {
      StaysShut(w, w', f, x);
    }
  }

  lemma GrownKeepsInv(w: World, w': World, x: Seal, text: bytes)
    requires Inv(w) && Grown(w, w', x, text)
    ensures Inv(w')
  {
    assert x !in w.vault;
    forall uid | uid in w'.store
      ensures Opens(w', uid)
    {
      assert Opens(w, uid);
      StillOpens(w, w', uid);
    }
  }

  lemma GrownKeepsSound(s: System, s': System, x: Seal, text: bytes, tid: nat)
    requires Sound(s) && Grown(s.w, s'.w, x, text) && Traced(s')
    requires tid in s'.flights && s'.flights == s.flights[tid := s'.flights[tid]]
    requires VersionLives(s'.w, s'.flights[tid]) && KeyFits(s'.w, s'.flights[tid])
    ensures Sound(s')
  {
    GrownKeepsInv(s.w, s'.w, x, text);
    forall t | t in s.flights
      ensures VersionLives(s'.w, s.flights[t]) && KeyFits(s'.w, s.flights[t])
    {
      GrownFits(s.w, s'.w, x, text, s.flights[t]);
    }
  }

  // What load_record returns opens under the account's handle and under no other.
  lemma BegunFits(w: World, uid: string, handle: string)
    requires Inv(w) && Begun(w, uid, handle).Ok?
    ensures KeyFits(w, Begun(w, uid, handle).value)
  {
    var f := Begun(w, uid, handle).value;
    assert Opens(w, uid);
    if CanBeStored(w, f) {
      assert Layer(handle, f.outer) in w.vault && Layer(w.handleOf[uid], f.outer) in w.vault;
    }
  }

  lemma SealingFits(w: World, uid: string, handle: string, dek: bytes, d: Draw)
    requires |dek| == KEY_LEN && GoodDraw(w, d, dek) && Sealing(w, uid, handle, dek, d).Ok?
    ensures KeyFits(Sealing(w, uid, handle, dek, d).value.0, Sealing(w, uid, handle, dek, d).value.1)
  {
    var f := Sealing(w, uid, handle, dek, d).value.1;
    assert f.inner[..NONCE_LEN] == d.nonce && f.inner[NONCE_LEN..] == d.text;
  }

  // The inner text a waiting call would have wrapped.
  function InnerOf(w: World, f: Flight): bytes
    requires Waiting(f) && (f.Loaded? ==> Openable(w, f.handle, f.outer))
  {
    if f.Minted? then f.inner else w.vault[Layer(f.handle, f.outer)]
  }

  // The answer puts one fresh seal over the same inner text, at the current version.
  lemma ReplyWraps(w: World, f: Flight, d: Draw, granted: bool) returns (x: Seal)
    requires Waiting(f) && Reply(w, f, d, granted).Ok? && FreshNonce(w, d.nonce) && |d.text| > TAG_LEN
    ensures f.Loaded? ==> Openable(w, f.handle, f.outer)
    ensures var (w', f') := Reply(w, f, d, granted).value;
            && Grown(w, w', x, InnerOf(w, f)) && VersionLives(w', f')
            && f'.handle == f.handle && f'.keyVersion == f.keyVersion && OfRewrap(f') == OfRewrap(f)
            && (f'.Wrapped? ==> f'.dek == f.dek)
            && LongEnough(f'.outer) && Layer(f'.handle, f'.outer) == x
  {
    var f' := Reply(w, f, d, granted).value.1;
    x := Seal(OuterKey(w.outerVersion, f.handle), d.nonce, f.handle, d.text);
    assert f'.outer == [w.outerVersion as byte] + d.nonce + d.text;
    assert f'.outer[1..1 + NONCE_LEN] == d.nonce && f'.outer[1 + NONCE_LEN..] == d.text;
  }

  // So it opens to whatever the call had in hand before.
  lemma ReplyYields(w: World, f: Flight, d: Draw, granted: bool, dek: bytes)
    requires Waiting(f) && Reply(w, f, d, granted).Ok? && FreshNonce(w, d.nonce) && |d.text| > TAG_LEN
    ensures Yields(Reply(w, f, d, granted).value.0, Reply(w, f, d, granted).value.1, dek) <==> Yields(w, f, dek)
  {
    var (w', f') := Reply(w, f, d, granted).value;
    var x := ReplyWraps(w, f, d, granted);
    var inner := InnerOf(w, f);
    assert w'.vault[Layer(f'.handle, f'.outer)] == inner;
    assert x !in w.vault && x.key.OuterKey?;
    assert OpenDek(w', f.handle, inner, f.keyVersion) == OpenDek(w, f.handle, inner, f.keyVersion);
  }

  lemma ReplyFits(w: World, f: Flight, d: Draw, granted: bool)
    requires Waiting(f) && Reply(w, f, d, granted).Ok? && FreshNonce(w, d.nonce) && |d.text| > TAG_LEN
    requires KeyFits(w, f)
    ensures KeyFits(Reply(w, f, d, granted).value.0, Reply(w, f, d, granted).value.1)
  {
    var x := ReplyWraps(w, f, d, granted);
    if OfRewrap(f) {
      assert CanBeStored(w, f);
      ReplyYields(w, f, d, granted, w.drawn[f.uid]);
    } else {
      ReplyYields(w, f, d, granted, f.dek);
    }
  }

  // A stored record opens exactly when it fits what is on file for the account.
  lemma PutOpensIff(w: World, f: Flight)
    requires Inv(w) && !Waiting(f) && VersionLives(w, f) && Openable(w, f.handle, f.outer)
    requires IsHandle(f.handle)
    ensures Opens(Put(w, f), f.uid) <==> FitsAccount(Put(w, f), f)
  {
    var w' := Put(w, f);
    RecordRoundTrip(f.keyVersion, f.outer, w'.store[f.uid]);
    assert LoadRecord(w', f.uid) == Ok((f.keyVersion, f.outer));
    if Opens(w', f.uid) {
      var handle := w'.handleOf[f.uid];
      assert Layer(handle, f.outer) in w.vault && Layer(f.handle, f.outer) in w.vault;
    }
  }

  lemma PutKeepsInv(w: World, f: Flight)
    requires Inv(w) && !Waiting(f) && VersionLives(w, f) && KeyFits(w, f)
    ensures Inv(Put(w, f))
  {
    var w' := Put(w, f);
    PutOpensIff(w, f);
    forall uid | uid in w'.store && uid != f.uid
      ensures Opens(w', uid)
    {
      assert Opens(w, uid);
      StillOpens(w, w', uid);
    }
  }

  // What a store leaves of another call's flight.
  lemma PutKeepsFlight(w: World, f: Flight, g: Flight)
    requires !Waiting(f)
    ensures CanBeStored(Put(w, f), g) <==> CanBeStored(w, g)
    ensures VersionLives(Put(w, f), g) <==> VersionLives(w, g)
    ensures forall handle, dek :: Fits(Put(w, f), g, handle, dek) <==> Fits(w, g, handle, dek)
  {
    SameNonces(w, Put(w, f));
  }

  lemma PutKeepsFits(w: World, f: Flight, g: Flight)
    requires !Waiting(f) && KeyFits(w, g)
    requires f.Wrapped? && g.uid == f.uid && OfRewrap(g) && CanBeStored(w, g) ==> Fits(w, g, f.handle, f.dek)
    ensures KeyFits(Put(w, f), g)
  {
    PutKeepsFlight(w, f, g);
    if OfRewrap(g) && CanBeStored(w, g) {
      assert FitsAccount(w, g);
      if f.Wrapped? && g.uid == f.uid {
        assert Fits(Put(w, f), g, f.handle, f.dek);
      } else {
        assert Fits(Put(w, f), g, w.handleOf[g.uid], w.drawn[g.uid]);
      }
    } else if !OfRewrap(g) {
      assert Fits(w, g, g.handle, g.dek);
      assert Fits(Put(w, f), g, g.handle, g.dek);
    }
  }

  lemma StoreKeepsSound(s: System, tid: nat)
    requires Sound(s) && tid in s.flights && !Waiting(s.flights[tid]) && Careful(s, Store(tid))
    ensures Sound(Next(s, Store(tid)))
  {
    var s' := Next(s, Store(tid));
    NextKeepsTraced(s, Store(tid));
    PutKeepsInv(s.w, s.flights[tid]);
    forall t | t in s'.flights
      ensures VersionLives(s'.w, s'.flights[t]) && KeyFits(s'.w, s'.flights[t])
    {
      PutKeepsFlight(s.w, s.flights[tid], s.flights[t]);
      PutKeepsFits(s.w, s.flights[tid], s.flights[t]);
    }
  }

  lemma AnswerKeepsSound(s: System, tid: nat, d: Draw, granted: bool)
    requires Sound(s)
    ensures Sound(Next(s, Answer(tid, d, granted)))
  {
    var s' := Next(s, Answer(tid, d, granted));
    NextKeepsTraced(s, Answer(tid, d, granted));
    if tid in s.flights && Waiting(s.flights[tid]) && FreshNonce(s.w, d.nonce) && |d.text| > TAG_LEN {
      var f, allowed := s.flights[tid], granted && MayWrap(s, s.flights[tid]);
      if Reply(s.w, f, d, allowed).Ok? {
        var x := ReplyWraps(s.w, f, d, allowed);
        ReplyFits(s.w, f, d, allowed);
        GrownKeepsSound(s, s', x, InnerOf(s.w, f), tid);
      }
    }
  }

  lemma BeginKeepsSound(s: System, e: Step)
    requires Sound(s) && (e.Load? || e.Mint?)
    ensures Sound(Next(s, e))
  {
    var s' := Next(s, e);
    NextKeepsTraced(s, e);
    match e
    case Load(tid, uid, handle) =>
      if s' != s {
        BegunFits(s.w, uid, handle);
      }
    case Mint(tid, uid, handle, dek, d) =>
      if s' != s {
        SealingFits(s.w, uid, handle, dek, d);
        GrownKeepsSound(s, s', Seal(InnerKey(handle, s.w.keyVersion), d.nonce, handle, d.text), dek, tid);
      }
  }

  lemma OperateKeepsVersion(w: World, op: Op, f: Flight)
    requires OnVersions(op) && VersionLives(w, f) && !Waiting(f)
    requires op.Retire? && Enabled(w, op) ==> f.outer[0] as nat != op.version
    ensures VersionLives(Do(w, op), f)
  {
  }

  lemma OperateKeepsRest(w: World, op: Op)
    requires OnVersions(op)
    ensures Do(w, op).vault == w.vault && Do(w, op).drawn == w.drawn && Do(w, op).handleOf == w.handleOf
  {
  }

  lemma OperateKeepsSound(s: System, op: Op)
    requires Sound(s) && Careful(s, Operate(op)) && OnVersions(op)
    ensures Sound(s.(w := Do(s.w, op)))
  {
    NextKeepsTraced(s, Operate(op));
    DoKeepsInv(s.w, op);
    OperateKeepsRest(s.w, op);
    forall tid | tid in s.flights
      ensures VersionLives(Do(s.w, op), s.flights[tid]) && KeyFits(Do(s.w, op), s.flights[tid])
    {
      SameVaultFits(s.w, Do(s.w, op), s.flights[tid]);
      if !Waiting(s.flights[tid]) {
        OperateKeepsVersion(s.w, op, s.flights[tid]);
      }
    }
  }

  lemma NextKeepsSound(s: System, e: Step)
    requires Sound(s) && Careful(s, e)
    ensures Sound(Next(s, e))
  {
    match e
    case Answer(tid, d, granted) => AnswerKeepsSound(s, tid, d, granted);
    case Operate(op) =>
      if OnVersions(op) {
        OperateKeepsSound(s, op);
      }
    case Store(tid) =>
      if Next(s, e) != s {
        StoreKeepsSound(s, tid);
      }
    case Abandon(tids) =>
      NextKeepsTraced(s, e);
    case Shred(uid) =>
      NextKeepsTraced(s, e);
      DoKeepsInv(s.w, Destroy(uid));
      forall tid | tid in s.flights
        ensures KeyFits(Next(s, e).w, s.flights[tid])
      {
        SameVaultFits(s.w, Next(s, e).w, s.flights[tid]);
      }
    case _ => BeginKeepsSound(s, e);
  }

  lemma {:induction false} RunKeepsSound(s: System, es: seq<Step>)
    requires Sound(s) && CarefulRun(s, es)
    ensures Sound(Shredding.Run(s, es))
    decreases |es|
  {
    if es != [] {
      NextKeepsSound(s, es[0]);
      RunKeepsSound(Next(s, es[0]), es[1..]);
    }
  }

  // --- and no weaker ones are ------------------------------------------------

  // A record that was in hand when its version went is stored where nobody can open it.
  lemma HeldVersionIsLost(s: System, v: nat, tid: nat) returns (es: seq<Step>)
    requires Enabled(s.w, Retire(v)) && tid in s.flights && !Waiting(s.flights[tid])
    requires s.flights[tid].outer != [] && s.flights[tid].outer[0] as nat == v
    ensures CarefulRun(Next(s, Operate(Retire(v))), es) && !Inv(Shredding.Run(Next(s, Operate(Retire(v))), es).w)
  {
    var s1 := Next(s, Operate(Retire(v)));
    es := StoreAlone(s1, tid);
    assert v !in Known(s1.w);
    PutWithoutItsVersion(s1.w, s.flights[tid]);
  }

  lemma PutWithoutItsVersion(w: World, f: Flight)
    requires !Waiting(f) && f.outer != [] && f.outer[0] as nat !in Known(w)
    ensures !Inv(Put(w, f))
  {
    var w' := Put(w, f);
    RecordRoundTrip(f.keyVersion, f.outer, w'.store[f.uid]);
    assert LoadRecord(w', f.uid) == Ok((f.keyVersion, f.outer));
    assert f.uid in w'.store && !Opens(w', f.uid);
  }

  // Everybody else gives up, and this one stores.
  lemma StoreAlone(s: System, tid: nat) returns (es: seq<Step>)
    requires tid in s.flights && !Waiting(s.flights[tid])
    ensures CarefulRun(s, es) && Shredding.Run(s, es).w == Put(s.w, s.flights[tid])
  {
    var alone, store := Abandon(s.flights.Keys - {tid}), Store(tid);
    es := [alone, store];
    var s1 := Next(s, alone);
    assert es[1..] == [store] && [store][1..] == [];
    assert s1.flights.Keys == {tid} && s1.flights[tid] == s.flights[tid];
    assert Careful(s1, store);
    assert Shredding.Run(s1, [store]) == Next(s1, store);
  }

  // The documented procedure, and a create that was answered before the bump: a rotation finds no
  // record to move and none that names the old version, and the record stored next opens for nobody.
  lemma RotationMissesACreate(uid: string, handle: string, dek: bytes, d1: Draw, d2: Draw)
    requires IsHandle(handle) && Enabled(Empty({1, 2}), DoCreate(uid, handle, dek, d1, d2, true))
    ensures var answered := Shredding.Run(EmptyBox({1, 2}), [Mint(0, uid, handle, dek, d1), Answer(0, d2, true)]);
            var retired := Shredding.Run(answered, [Operate(BumpOuter), Operate(Retire(1))]);
            && Opens(Next(answered, Store(0)).w, uid)
            && retired.w.credentials == {2} && retired.w.store == map[]
            && OpenKey(Next(retired, Store(0)).w, uid, handle) == Err(RecordInvalid)
  {
    AnsweredOnFirstVersion(uid, handle, dek, d1, d2);
    LateCreateIsLost(Shredding.Run(EmptyBox({1, 2}), [Mint(0, uid, handle, dek, d1), Answer(0, d2, true)]), uid, handle);
  }

  // The answer is in, at version 1, and nothing is stored.
  ghost predicate HeldAtFirst(s: System, uid: string, handle: string) {
    && Sound(s) && s.w.store == map[] && s.w.credentials == {1, 2} && s.w.outerVersion == 1
    && 0 in s.flights && s.flights[0].Wrapped? && s.flights[0].uid == uid && s.flights[0].handle == handle
    && s.flights[0].outer != [] && s.flights[0].outer[0] == 1
  }

  lemma AnsweredOnFirstVersion(uid: string, handle: string, dek: bytes, d1: Draw, d2: Draw)
    requires IsHandle(handle) && Enabled(Empty({1, 2}), DoCreate(uid, handle, dek, d1, d2, true))
    ensures HeldAtFirst(Shredding.Run(EmptyBox({1, 2}), [Mint(0, uid, handle, dek, d1), Answer(0, d2, true)]),
                        uid, handle)
  {
    var start, mint := EmptyBox({1, 2}), Mint(0, uid, handle, dek, d1);
    RunTwo(start, mint, Answer(0, d2, true));
    NextKeepsSound(start, mint);
    NextKeepsSound(Next(start, mint), Answer(0, d2, true));
    assert FreshNonce(Next(start, mint).w, d2.nonce);
  }

  lemma LateCreateIsLost(s: System, uid: string, handle: string)
    requires HeldAtFirst(s, uid, handle)
    ensures var retired := Shredding.Run(s, [Operate(BumpOuter), Operate(Retire(1))]);
            && Opens(Next(s, Store(0)).w, uid)
            && retired.w.credentials == {2} && retired.w.store == map[]
            && OpenKey(Next(retired, Store(0)).w, uid, handle) == Err(RecordInvalid)
  {
    StoredInTimeOpens(s, 0);
    RunTwo(s, Operate(BumpOuter), Operate(Retire(1)));
    BumpedAndRetired(s);
    StoredWithoutItsVersion(Next(Next(s, Operate(BumpOuter)), Operate(Retire(1))).w, s.flights[0]);
  }

  lemma StoredInTimeOpens(s: System, tid: nat)
    requires tid in s.flights && s.flights[tid].Wrapped?
    requires Inv(s.w) && VersionLives(s.w, s.flights[tid]) && KeyFits(s.w, s.flights[tid])
    ensures Opens(Next(s, Store(tid)).w, s.flights[tid].uid)
  {
    PutKeepsInv(s.w, s.flights[tid]);
    assert Opens(Put(s.w, s.flights[tid]), s.flights[tid].uid);
  }

  lemma BumpedAndRetired(s: System)
    requires s.w.store == map[] && s.w.credentials == {1, 2} && s.w.outerVersion == 1
    ensures var s' := Next(Next(s, Operate(BumpOuter)), Operate(Retire(1)));
            s'.flights == s.flights && s'.w.store == map[] && s'.w.credentials == {2}
  {
    assert {1, 2} - {1} == {2};
  }

  lemma StoredWithoutItsVersion(w: World, f: Flight)
    requires !Waiting(f) && f.outer != [] && f.outer[0] as nat !in Known(w) && IsHandle(f.handle)
    ensures OpenKey(Put(w, f), f.uid, f.handle) == Err(RecordInvalid)
  {
    RecordRoundTrip(f.keyVersion, f.outer, Put(w, f).store[f.uid]);
    assert LoadRecord(Put(w, f), f.uid) == Ok((f.keyVersion, f.outer));
  }

  lemma RunTwo(s: System, a: Step, b: Step)
    ensures Shredding.Run(s, [a, b]) == Next(Next(s, a), b)
  {
    assert [a, b][1..] == [b] && [b][1..] == [];
    assert Shredding.Run(Next(s, a), [b]) == Next(Next(s, a), b);
  }

  // A rewrap of the earlier record overwrites the new key's.
  lemma OvertakenKeyIsLost(s: System, tid: nat, other: nat) returns (es: seq<Step>)
    requires Sound(s) && tid in s.flights && s.flights[tid].Wrapped? && other in s.flights
    requires s.flights[other].uid == s.flights[tid].uid
    requires OfRewrap(s.flights[other]) && CanBeStored(s.w, s.flights[other])
    requires !Fits(s.w, s.flights[other], s.flights[tid].handle, s.flights[tid].dek)
    ensures CarefulRun(Next(s, Store(tid)), es) && !Inv(Shredding.Run(Next(s, Store(tid)), es).w)
  {
    var s1 := Next(s, Store(tid));
    var f, g := s.flights[tid], s.flights[other];
    PutKeepsInv(s.w, f);
    NextKeepsTraced(s, Store(tid));
    PutKeepsFlight(s.w, f, g);
    assert Fits(s.w, g, s.w.handleOf[g.uid], s.w.drawn[g.uid]);
    assert !Fits(s1.w, g, f.handle, f.dek);
    es := MisfitIsLost(s1, other);
  }

  // A rewrap that can still be stored, but opens to another key than the account's, is.
  lemma MisfitIsLost(s: System, tid: nat) returns (es: seq<Step>)
    requires Inv(s.w) && Traced(s) && tid in s.flights && OfRewrap(s.flights[tid]) && CanBeStored(s.w, s.flights[tid])
    requires IsHandle(s.flights[tid].handle) && Openable(s.w, s.flights[tid].handle, s.flights[tid].outer)
    requires !FitsAccount(s.w, s.flights[tid]) && VersionLives(s.w, s.flights[tid])
    ensures CarefulRun(s, es) && !Inv(Shredding.Run(s, es).w)
  {
    if s.flights[tid].Answered? {
      es := AnsweredMisfitIsLost(s, tid);
    } else {
      var p1, p2, d := GetsReady(s, tid);
      ProvisionKeepsMisfit(s, tid, p1);
      ProvisionKeepsMisfit(Next(s, p1), tid, p2);
      es := ReadyMisfitIsLost(Next(Next(s, p1), p2), tid, d);
      Prepended(Next(s, p1), p2, es);
      Prepended(s, p1, [p2] + es);
      es := [p1] + ([p2] + es);
    }
  }

  lemma ReadyMisfitIsLost(s: System, tid: nat, d: Draw) returns (es: seq<Step>)
    requires Inv(s.w) && Traced(s) && tid in s.flights && s.flights[tid].Loaded? && CanBeStored(s.w, s.flights[tid])
    requires IsHandle(s.flights[tid].handle) && !FitsAccount(s.w, s.flights[tid])
    requires s.w.outerVersion in s.w.credentials && s.flights[tid].outer[0] as nat in s.w.credentials
    requires FreshNonce(s.w, d.nonce) && |d.text| > TAG_LEN
    ensures CarefulRun(s, es) && !Inv(Shredding.Run(s, es).w)
  {
    var answer := Answer(tid, d, true);
    CanBeAnswered(s, tid, d);
    AnswerKeepsMisfit(s, tid, d);
    es := AnsweredMisfitIsLost(Next(s, answer), tid);
    Prepended(s, answer, es);
    es := [answer] + es;
  }

  lemma ProvisionKeepsMisfit(s: System, tid: nat, e: Step)
    requires Inv(s.w) && tid in s.flights && !FitsAccount(s.w, s.flights[tid]) && e.Operate? && e.op.Provision?
    ensures Inv(Next(s, e).w) && !FitsAccount(Next(s, e).w, s.flights[tid])
  {
    DoKeepsInv(s.w, e.op);
  }

  lemma Prepended(s: System, e: Step, es: seq<Step>)
    ensures Shredding.Run(s, [e] + es) == Shredding.Run(Next(s, e), es)
    ensures CarefulRun(s, [e] + es) <==> Careful(s, e) && CarefulRun(Next(s, e), es)
  {
    assert ([e] + es)[0] == e && ([e] + es)[1..] == es;
  }

  lemma AnsweredMisfitIsLost(s: System, tid: nat) returns (es: seq<Step>)
    requires Inv(s.w) && tid in s.flights && s.flights[tid].Answered?
    requires IsHandle(s.flights[tid].handle) && Openable(s.w, s.flights[tid].handle, s.flights[tid].outer)
    requires !FitsAccount(s.w, s.flights[tid]) && VersionLives(s.w, s.flights[tid])
    ensures CarefulRun(s, es) && !Inv(Shredding.Run(s, es).w)
  {
    var f := s.flights[tid];
    es := StoreAlone(s, tid);
    PutOpensIff(s.w, f);
    assert !Opens(Put(s.w, f), f.uid);
  }

  lemma AnswerKeepsMisfit(s: System, tid: nat, d: Draw)
    requires Inv(s.w) && tid in s.flights && s.flights[tid].Loaded? && !FitsAccount(s.w, s.flights[tid])
    requires FreshNonce(s.w, d.nonce) && |d.text| > TAG_LEN && Reply(s.w, s.flights[tid], d, true).Ok?
    ensures var s' := Next(s, Answer(tid, d, true));
            && Inv(s'.w) && tid in s'.flights && s'.flights[tid].Answered?
            && s'.flights[tid].handle == s.flights[tid].handle
            && Openable(s'.w, s'.flights[tid].handle, s'.flights[tid].outer)
            && !FitsAccount(s'.w, s'.flights[tid]) && VersionLives(s'.w, s'.flights[tid])
  {
    var f := s.flights[tid];
    var (w', f') := Reply(s.w, f, d, true).value;
    var x := ReplyWraps(s.w, f, d, true);
    GrownKeepsInv(s.w, w', x, InnerOf(s.w, f));
    if f.uid in s.w.drawn {
      ReplyYields(s.w, f, d, true, s.w.drawn[f.uid]);
    }
  }

  lemma CarefulIffAllOpen(s: System, e: Step)
    requires Sound(s)
    ensures (forall es: seq<Step> :: CarefulRun(Next(s, e), es) ==> Inv(Shredding.Run(Next(s, e), es).w))
            <==> Careful(s, e)
  {
    if Careful(s, e) {
      NextKeepsSound(s, e);
      forall es: seq<Step> | CarefulRun(Next(s, e), es)
        ensures Inv(Shredding.Run(Next(s, e), es).w)
      {
        RunKeepsSound(Next(s, e), es);
      }
    } else if e.Operate? {
      var tid :| tid in s.flights && !Waiting(s.flights[tid]) && s.flights[tid].outer != []
                 && s.flights[tid].outer[0] as nat == e.op.version;
      var es := HeldVersionIsLost(s, e.op.version, tid);
    } else {
      var f := s.flights[e.tid];
      var other :| other in s.flights && s.flights[other].uid == f.uid && OfRewrap(s.flights[other])
                   && CanBeStored(s.w, s.flights[other]) && !Fits(s.w, s.flights[other], f.handle, f.dek);
      var es := OvertakenKeyIsLost(s, e.tid, other);
    }
  }

  // Exactly: after any careful run every record opens to its own key; and a further step leaves that
  // true of every careful run after it if and only if it retires no version that a call between its
  // answer and its store holds, and stores no new key that a rewrap of an earlier record can overwrite.
  lemma RecordsOpenIffCareful(credentials: set<nat>, before: seq<Step>, e: Step)
    requires CarefulRun(EmptyBox(credentials), before)
    ensures var s := Shredding.Run(EmptyBox(credentials), before);
            && Inv(s.w)
            && ((forall es: seq<Step> :: CarefulRun(Next(s, e), es) ==> Inv(Shredding.Run(Next(s, e), es).w))
                <==> Careful(s, e))
  {
    RunKeepsSound(EmptyBox(credentials), before);
    CarefulIffAllOpen(Shredding.Run(EmptyBox(credentials), before), e);
  }
}
