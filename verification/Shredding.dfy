/** keyring.rewrap reads the record, asks the co-signer and writes what it answers; keyring.create
    looks for a record, asks and writes. Neither holds a lock over the three, and keyring.destroy may
    run in another process anywhere between them. When a destroyed record stays destroyed. */
module Shredding {
  import opened Common
  import opened Keyring

  // A call under way in some process, with what it has in hand.
  datatype Flight =
    | Loaded(uid: string, handle: string, keyVersion: byte, outer: bytes)    // rewrap, no answer yet
    | Answered(uid: string, handle: string, keyVersion: byte, outer: bytes)  // rewrap, not stored yet
    | Minted(uid: string, handle: string, keyVersion: byte, inner: bytes, dek: bytes)   // create, no answer yet
    | Wrapped(uid: string, handle: string, keyVersion: byte, outer: bytes, dek: bytes)  // create, not stored yet

  // `wrapped` are the handles the co-signer has allowed a wrap for: it never allows another.
  datatype System = System(w: World, flights: map<nat, Flight>, wrapped: set<string>)

  function EmptyBox(credentials: set<nat>): System { System(Empty(credentials), map[], {}) }

  // rewrap as far as load_record
  function Begun(w: World, uid: string, handle: string): (r: Result<Flight, Error>)
    ensures r.Ok? ==> r.value.Loaded? && r.value.uid == uid && uid in w.store
  {
    if !IsHandle(handle) then Err(InvalidHandle)
    else match LoadRecord(w, uid)
      case Err(e) => Err(e)
      case Ok((kv, outer)) => Ok(Loaded(uid, handle, kv, outer))
  }

  // create as far as seal_dek
  function Sealing(w: World, uid: string, handle: string, dek: bytes, d: Draw): (r: Result<(World, Flight), Error>)
    ensures r.Ok? ==> r.value.1.Minted? && r.value.1.uid == uid && uid !in w.store
  {
    if !IsHandle(handle) then Err(InvalidHandle)
    else if uid in w.store then Err(DataKeyExists)
    else
      var s := Seal(InnerKey(handle, w.keyVersion), d.nonce, handle, d.text);
      Ok((w.(vault := w.vault[s := dek]), Minted(uid, handle, w.keyVersion, d.nonce + d.text, dek)))
  }

  predicate Waiting(f: Flight) { f.Loaded? || f.Minted? }

  // /rewrap and /wrap on the co-signer's box
  function Reply(w: World, f: Flight, d: Draw, granted: bool): (r: Result<(World, Flight), Error>)
    requires Waiting(f)
    ensures r.Ok? ==> !Waiting(r.value.1) && r.value.1.uid == f.uid && r.value.0.store == w.store
  {
    if !granted then Err(Refused)
    else if f.Minted? then
      match WrapOuter(w, f.handle, f.inner, d)
      case Err(e) => Err(e)
      case Ok((w', outer)) => Ok((w', Wrapped(f.uid, f.handle, f.keyVersion, outer, f.dek)))
    else
      match UnwrapOuter(w, f.handle, f.outer)
      case Err(e) => Err(e)
      case Ok(inner) =>
        match WrapOuter(w, f.handle, inner, d)
        case Err(e) => Err(e)
        case Ok((w', outer)) => Ok((w', Answered(f.uid, f.handle, f.keyVersion, outer)))
  }

  // store_record, and the end of the call
  function Put(w: World, f: Flight): World
    requires !Waiting(f)
  {
    var stored := StoreRecord(w, f.uid, f.keyVersion, f.outer);
    if f.Answered? then stored
    else stored.(drawn := w.drawn[f.uid := f.dek], handleOf := w.handleOf[f.uid := f.handle])
  }

  function Shredded(w: World, uid: string): World { w.(store := w.store - {uid}) }

  datatype Step =
    | Load(tid: nat, uid: string, handle: string)
    | Mint(tid: nat, uid: string, handle: string, dek: bytes, d: Draw)
    | Answer(tid: nat, d: Draw, granted: bool)
    | Store(tid: nat)
    | Abandon(tids: set<nat>)   // their process died, or the answer never came
    | Shred(uid: string)
    | Operate(op: Op)           // what happens to the versions and to the co-signer's master keys

  // policy._wrap_once_refusal, for the calls that ask for a wrap
  predicate MayWrap(s: System, f: Flight) { f.Minted? ==> f.handle !in s.wrapped }

  ghost function Next(s: System, e: Step): System {
    match e
    case Load(tid, uid, handle) =>
      if tid in s.flights then s
      else (match Begun(s.w, uid, handle)
            case Err(_) => s
            case Ok(f) => s.(flights := s.flights[tid := f]))
    case Mint(tid, uid, handle, dek, d) =>
      if tid in s.flights || |dek| != KEY_LEN || !GoodDraw(s.w, d, dek) then s
      else (match Sealing(s.w, uid, handle, dek, d)
            case Err(_) => s
            case Ok((w', f)) => s.(w := w', flights := s.flights[tid := f]))
    case Answer(tid, d, granted) =>
      if tid !in s.flights || !Waiting(s.flights[tid]) || !FreshNonce(s.w, d.nonce) || |d.text| <= TAG_LEN then s
      else
        var f := s.flights[tid];
        var wrapped := if granted && f.Minted? then s.wrapped + {f.handle} else s.wrapped;
        (match Reply(s.w, f, d, granted && MayWrap(s, f))
         case Err(_) => s.(flights := s.flights - {tid}, wrapped := wrapped)
         case Ok((w', f')) => System(w', s.flights[tid := f'], wrapped))
    case Store(tid) =>
      if tid !in s.flights || Waiting(s.flights[tid]) then s
      else s.(w := Put(s.w, s.flights[tid]), flights := s.flights - {tid})
    case Abandon(tids) => s.(flights := s.flights - tids)
    case Shred(uid) => s.(w := Shredded(s.w, uid))
    case Operate(op) => if OnVersions(op) then s.(w := Do(s.w, op)) else s
  }

  predicate OnVersions(op: Op) { op.Provision? || op.BumpOuter? || op.BumpInner? || op.Retire? }

  ghost function Run(s: System, es: seq<Step>): System
    decreases |es|
  {
    if es == [] then s else Run(Next(s, es[0]), es[1..])
  }

  lemma RunThree(s: System, a: Step, b: Step, c: Step)
    ensures Run(s, [a, b, c]) == Next(Next(Next(s, a), b), c)
  {
    assert [a, b, c][1..] == [b, c] && [b, c][1..] == [c] && [c][1..] == [];
    assert Run(Next(Next(s, a), b), [c]) == Next(Next(Next(s, a), b), c);
    assert Run(Next(s, a), [b, c]) == Run(Next(Next(s, a), b), [c]);
  }

  lemma RunFour(s: System, a: Step, b: Step, c: Step, d: Step)
    ensures Run(s, [a, b, c, d]) == Next(Next(Next(Next(s, a), b), c), d)
  {
    assert [a, b, c, d][1..] == [b, c, d];
    RunThree(Next(s, a), b, c, d);
  }

  // --- the parts and the whole -----------------------------------------------

  lemma RewrapInParts(w: World, uid: string, handle: string, d: Draw, granted: bool)
    ensures Rewrap(w, uid, handle, d, granted)
         == match Begun(w, uid, handle)
            case Err(e) => Err(e)
            case Ok(f) =>
              match Reply(w, f, d, granted)
              case Err(e) => Err(e)
              case Ok((w', f')) => Ok(Put(w', f'))
  {
  }

  lemma CreateInParts(w: World, uid: string, handle: string, dek: bytes, d1: Draw, d2: Draw, granted: bool)
    ensures Create(w, uid, handle, dek, d1, d2, granted)
         == match Sealing(w, uid, handle, dek, d1)
            case Err(e) => Err(e)
            case Ok((w1, f)) =>
              match Reply(w1, f, d2, granted)
              case Err(e) => Err(e)
              case Ok((w', f')) => Ok(Put(w', f'))
  {
  }

  // The second and third step of a call whose flight is up.
  lemma AnswerAndStore(s: System, flights: map<nat, Flight>, tid: nat, d: Draw, granted: bool)
    requires tid !in flights && tid in s.flights && s.flights == flights[tid := s.flights[tid]]
    requires Waiting(s.flights[tid]) && FreshNonce(s.w, d.nonce) && |d.text| > TAG_LEN
    ensures Next(Next(s, Answer(tid, d, granted)), Store(tid))
         == var wrapped := if granted && s.flights[tid].Minted? then s.wrapped + {s.flights[tid].handle} else s.wrapped;
            match Reply(s.w, s.flights[tid], d, granted && MayWrap(s, s.flights[tid]))
            case Err(_) => System(s.w, flights, wrapped)
            case Ok((w', f')) => System(Put(w', f'), flights, wrapped)
  {
    assert s.flights - {tid} == flights;
    match Reply(s.w, s.flights[tid], d, granted && MayWrap(s, s.flights[tid]))
    case Err(_) =>
    case Ok((_, f')) => assert s.flights[tid := f'] - {tid} == flights;
  }

  // With nothing between them the parts are the whole call, in either outcome.
  lemma PartsMakeRewrap(s: System, tid: nat, uid: string, handle: string, d: Draw, granted: bool)
    requires tid !in s.flights && Enabled(s.w, DoRewrap(uid, handle, d, granted))
    ensures Run(s, [Load(tid, uid, handle), Answer(tid, d, granted), Store(tid)])
         == s.(w := Do(s.w, DoRewrap(uid, handle, d, granted)))
  {
    RunThree(s, Load(tid, uid, handle), Answer(tid, d, granted), Store(tid));
    RewrapInParts(s.w, uid, handle, d, granted);
    if Begun(s.w, uid, handle).Ok? {
      AnswerAndStore(Next(s, Load(tid, uid, handle)), s.flights, tid, d, granted);
    }
  }

  lemma PartsMakeCreate(s: System, tid: nat, uid: string, handle: string, dek: bytes, d1: Draw, d2: Draw, granted: bool)
    requires tid !in s.flights && Enabled(s.w, DoCreate(uid, handle, dek, d1, d2, granted))
    requires Create(s.w, uid, handle, dek, d1, d2, granted).Ok? && handle !in s.wrapped
    ensures Run(s, [Mint(tid, uid, handle, dek, d1), Answer(tid, d2, granted), Store(tid)])
         == s.(w := Do(s.w, DoCreate(uid, handle, dek, d1, d2, granted)), wrapped := s.wrapped + {handle})
  {
    RunThree(s, Mint(tid, uid, handle, dek, d1), Answer(tid, d2, granted), Store(tid));
    CreateInParts(s.w, uid, handle, dek, d1, d2, granted);
    AnswerAndStore(Next(s, Mint(tid, uid, handle, dek, d1)), s.flights, tid, d2, granted);
  }

  // A destroy between the parts is undone: before the answer or after it, the record comes back as
  // if nobody had destroyed it, and it opens to the destroyed key.
  lemma LateStoreRestores(s: System, tid: nat, uid: string, handle: string, d: Draw, granted: bool)
    requires tid !in s.flights && Inv(s.w) && Enabled(s.w, DoRewrap(uid, handle, d, granted))
    requires Rewrap(s.w, uid, handle, d, granted).Ok?
    ensures var s' := Run(s, [Load(tid, uid, handle), Shred(uid), Answer(tid, d, granted), Store(tid)]);
            && s' == Run(s, [Load(tid, uid, handle), Answer(tid, d, granted), Shred(uid), Store(tid)])
            && s' == Run(s, [Load(tid, uid, handle), Answer(tid, d, granted), Store(tid)])
            && Opens(s'.w, uid) && uid in s.w.drawn && s'.w.drawn[uid] == s.w.drawn[uid]
  {
    var load, shred, answer, store := Load(tid, uid, handle), Shred(uid), Answer(tid, d, granted), Store(tid);
    PartsMakeRewrap(s, tid, uid, handle, d, granted);
    RewrappedOpens(s.w, uid, handle, d, granted);
    RunThree(s, load, answer, store);
    RunFour(s, load, shred, answer, store);
    RunFour(s, load, answer, shred, store);
    ShredCommutes(Next(s, load), tid, uid, d, granted);
    LoadedIsAnswered(s, tid, uid, handle, d, granted);
    StoreUndoesShred(Next(Next(s, load), answer), tid);
    assert Opens(s.w, uid);
  }

  lemma LoadedIsAnswered(s: System, tid: nat, uid: string, handle: string, d: Draw, granted: bool)
    requires tid !in s.flights && Enabled(s.w, DoRewrap(uid, handle, d, granted))
    requires Rewrap(s.w, uid, handle, d, granted).Ok?
    ensures var s' := Next(Next(s, Load(tid, uid, handle)), Answer(tid, d, granted));
            tid in s'.flights && !Waiting(s'.flights[tid]) && s'.flights[tid].uid == uid
  {
    RewrapInParts(s.w, uid, handle, d, granted);
  }

  lemma StoreUndoesShred(s: System, tid: nat)
    requires tid in s.flights && !Waiting(s.flights[tid])
    ensures Next(Next(s, Shred(s.flights[tid].uid)), Store(tid)) == Next(s, Store(tid))
  {
    var f := s.flights[tid];
    assert Put(Shredded(s.w, f.uid), f).store == Put(s.w, f).store;
  }

  // The co-signer does not see whether the record is still there.
  lemma ShredCommutes(s: System, tid: nat, uid: string, d: Draw, granted: bool)
    ensures Next(Next(s, Shred(uid)), Answer(tid, d, granted)) == Next(Next(s, Answer(tid, d, granted)), Shred(uid))
  {
    assert FreshNonce(Shredded(s.w, uid), d.nonce) <==> FreshNonce(s.w, d.nonce);
    if tid in s.flights && Waiting(s.flights[tid]) {
      ReplyAfterShred(s.w, uid, s.flights[tid], d, granted);
    }
  }

  lemma ReplyAfterShred(w: World, uid: string, f: Flight, d: Draw, granted: bool)
    requires Waiting(f)
    ensures Reply(Shredded(w, uid), f, d, granted)
         == match Reply(w, f, d, granted)
            case Err(e) => Err(e)
            case Ok((w', f')) => Ok((Shredded(w', uid), f'))
  {
    if f.Loaded? {
      assert UnwrapOuter(Shredded(w, uid), f.handle, f.outer) == UnwrapOuter(w, f.handle, f.outer);
    }
  }

  // --- which flights can still bring a record back ---------------------------

  predicate LongEnough(outer: bytes) { |outer| > 1 + NONCE_LEN + TAG_LEN }

  // The layer the co-signer must have put on for `handle` to take it off.
  function Layer(handle: string, outer: bytes): Seal
    requires LongEnough(outer)
  {
    Seal(OuterKey(outer[0] as nat, handle), outer[1..1 + NONCE_LEN], handle, outer[1 + NONCE_LEN..])
  }

  predicate Openable(w: World, handle: string, outer: bytes) {
    LongEnough(outer) && Layer(handle, outer) in w.vault
  }

  // There are 2^96 nonces.
  ghost predicate NonceLeft(w: World) { exists nonce :: FreshNonce(w, nonce) }

  ghost predicate CanBeStored(w: World, f: Flight) {
    match f
    case Loaded(_, handle, _, outer) => Openable(w, handle, outer) && NonceLeft(w)
    case Minted(_, _, _, _, _) => NonceLeft(w)
    case _ => true
  }

  ghost predicate Pending(s: System, f: Flight) { CanBeStored(s.w, f) && MayWrap(s, f) }

  ghost predicate InFlight(s: System, uid: string) {
    exists tid :: tid in s.flights && s.flights[tid].uid == uid && Pending(s, s.flights[tid])
  }

  // --- every nonce on a record was drawn for it ------------------------------

  ghost predicate Used(w: World, outer: bytes) {
    LongEnough(outer) ==> exists x :: x in w.vault && x.nonce == outer[1..1 + NONCE_LEN]
  }

  function OuterOf(f: Flight): bytes { if f.Minted? then [] else f.outer }

  ghost predicate VersionsInRange(w: World) {
    && FIRST_VERSION <= w.outerVersion <= MAX_VERSION
    && (forall x :: x in w.vault && x.key.OuterKey? ==> FIRST_VERSION <= x.key.version <= w.outerVersion)
  }

  ghost predicate RecordsTraced(w: World) {
    forall uid :: uid in w.store && DecodeRecord(w.store[uid]).Ok? ==> Used(w, DecodeRecord(w.store[uid]).value.1)
  }

  ghost predicate FlightsTraced(s: System) {
    forall tid :: tid in s.flights ==> Used(s.w, OuterOf(s.flights[tid]))
  }

  ghost predicate Traced(s: System) {
    VersionsInRange(s.w) && RecordsTraced(s.w) && FlightsTraced(s)
  }

  lemma StillUsed(w: World, w': World, outer: bytes)
    requires Used(w, outer) && forall x :: x in w.vault ==> x in w'.vault
    ensures Used(w', outer)
  {
    if LongEnough(outer) {
      var x :| x in w.vault && x.nonce == outer[1..1 + NONCE_LEN];
      assert x in w'.vault;
    }
  }

  lemma NewlyUsed(w: World, handle: string, inner: bytes, d: Draw)
    requires WrapOuter(w, handle, inner, d).Ok? && |d.nonce| == NONCE_LEN
    ensures Used(WrapOuter(w, handle, inner, d).value.0, WrapOuter(w, handle, inner, d).value.1)
  {
    var (w', outer) := WrapOuter(w, handle, inner, d).value;
    assert outer[1..1 + NONCE_LEN] == d.nonce;
    assert Seal(OuterKey(w.outerVersion, handle), d.nonce, handle, d.text) in w'.vault;
  }

  // What the co-signer's answer leaves true, whichever of the two it answers.
  lemma ReplyTraced(w: World, f: Flight, d: Draw, granted: bool)
    requires Waiting(f) && VersionsInRange(w) && |d.nonce| == NONCE_LEN && Reply(w, f, d, granted).Ok?
    ensures var (w', f') := Reply(w, f, d, granted).value;
            && VersionsInRange(w') && Used(w', OuterOf(f')) && !Waiting(f') && f'.uid == f.uid
            && w' == w.(vault := w'.vault) && (forall x :: x in w.vault ==> x in w'.vault)
  {
    var inner := if f.Minted? then f.inner else UnwrapOuter(w, f.handle, f.outer).value;
    NewlyUsed(w, f.handle, inner, d);
  }

  lemma PutTraced(s: System, tid: nat)
    requires Traced(s) && tid in s.flights && !Waiting(s.flights[tid])
    ensures Traced(s.(w := Put(s.w, s.flights[tid]), flights := s.flights - {tid}))
  {
    var f := s.flights[tid];
    forall t | t in s.flights
      ensures Used(Put(s.w, f), OuterOf(s.flights[t]))
    {
      StillUsed(s.w, Put(s.w, f), OuterOf(s.flights[t]));
    }
    var w' := Put(s.w, f);
    forall uid | uid in w'.store && DecodeRecord(w'.store[uid]).Ok?
      ensures Used(w', DecodeRecord(w'.store[uid]).value.1)
    {
      if uid == f.uid {
        var (kv, outer) := DecodeRecord(w'.store[uid]).value;
        RecordRoundTrip(kv, outer, w'.store[uid]);
        assert outer == w'.store[uid][HEADER_LEN..] == f.outer;
        StillUsed(s.w, w', f.outer);
      } else {
        StillUsed(s.w, w', DecodeRecord(s.w.store[uid]).value.1);
      }
    }
  }

  // A vault that only grew, and no new record, keeps what was traced.
  lemma GrowthTraced(s: System, w': World)
    requires Traced(s) && w'.store == s.w.store && forall x :: x in s.w.vault ==> x in w'.vault
    ensures RecordsTraced(w') && FlightsTraced(s.(w := w'))
  {
    forall uid | uid in w'.store && DecodeRecord(w'.store[uid]).Ok?
      ensures Used(w', DecodeRecord(w'.store[uid]).value.1)
    {
      StillUsed(s.w, w', DecodeRecord(s.w.store[uid]).value.1);
    }
    forall tid | tid in s.flights
      ensures Used(w', OuterOf(s.flights[tid]))
    {
      StillUsed(s.w, w', OuterOf(s.flights[tid]));
    }
  }

  lemma AnswerTraced(s: System, tid: nat, d: Draw, granted: bool)
    requires Traced(s) && tid in s.flights && Waiting(s.flights[tid]) && |d.nonce| == NONCE_LEN
    ensures match Reply(s.w, s.flights[tid], d, granted)
            case Err(_) => true
            case Ok((w', f)) => Traced(s.(w := w', flights := s.flights[tid := f]))
  {
    if Reply(s.w, s.flights[tid], d, granted).Ok? {
      ReplyTraced(s.w, s.flights[tid], d, granted);
      GrowthTraced(s, Reply(s.w, s.flights[tid], d, granted).value.0);
    }
  }

  lemma NextKeepsTraced(s: System, e: Step)
    requires Traced(s)
    ensures Traced(Next(s, e))
  {
    var s' := Next(s, e);
    match e
    case Load(tid, uid, handle) =>
    case Mint(tid, uid, handle, dek, d) =>
      if s' != s {
        MintTraced(s, tid, uid, handle, dek, d);
      }
    case Answer(tid, d, granted) =>
      if tid in s.flights && Waiting(s.flights[tid]) && |d.nonce| == NONCE_LEN {
        AnswerTraced(s, tid, d, granted && MayWrap(s, s.flights[tid]));
      }
    case Store(tid) =>
      if tid in s.flights && !Waiting(s.flights[tid]) {
        PutTraced(s, tid);
      }
    case Abandon(tids) =>
    case Shred(uid) =>
    case Operate(op) =>
      if OnVersions(op) {
        OperateTraced(s, op);
      }
  }

  lemma MintTraced(s: System, tid: nat, uid: string, handle: string, dek: bytes, d: Draw)
    requires Traced(s) && Sealing(s.w, uid, handle, dek, d).Ok?
    ensures var (w', f) := Sealing(s.w, uid, handle, dek, d).value;
            Traced(s.(w := w', flights := s.flights[tid := f]))
  {
    GrowthTraced(s, Sealing(s.w, uid, handle, dek, d).value.0);
  }

  lemma OperateTraced(s: System, op: Op)
    requires Traced(s) && OnVersions(op)
    ensures Traced(s.(w := Do(s.w, op)))
  {
    GrowthTraced(s, Do(s.w, op));
  }

  lemma {:induction false} RunKeepsTraced(s: System, es: seq<Step>)
    requires Traced(s)
    ensures Traced(Run(s, es))
    decreases |es|
  {
    if es != [] {
      NextKeepsTraced(s, es[0]);
      RunKeepsTraced(Next(s, es[0]), es[1..]);
    }
  }

  // --- what stays destroyed --------------------------------------------------

  // Nobody begins to give the account a new key.
  predicate NoNewCreate(es: seq<Step>, uid: string) {
    forall i :: 0 <= i < |es| && es[i].Mint? ==> es[i].uid != uid
  }

  ghost predicate Gone(s: System, uid: string) { uid !in s.w.store && !InFlight(s, uid) }

  // A seal under a fresh nonce opens nothing that was written before it.
  lemma StaysShut(w: World, w': World, f: Flight, x: Seal)
    requires Used(w, OuterOf(f)) && !CanBeStored(w, f)
    requires FreshNonce(w, x.nonce) && w'.vault.Keys == w.vault.Keys + {x}
    ensures !CanBeStored(w', f)
  {
    if NonceLeft(w') {
      var nonce :| FreshNonce(w', nonce);
      assert FreshNonce(w, nonce);
      assert f.Loaded? && !Openable(w, f.handle, f.outer);
      if LongEnough(f.outer) {
        var y :| y in w.vault && y.nonce == f.outer[1..1 + NONCE_LEN];
        assert Layer(f.handle, f.outer) != x;
      }
    }
  }

  lemma GrowthKeepsGone(s: System, s': System, x: Seal, uid: string)
    requires Traced(s) && Gone(s, uid) && s.wrapped <= s'.wrapped && s'.w.store == s.w.store
    requires FreshNonce(s.w, x.nonce) && s'.w.vault.Keys == s.w.vault.Keys + {x}
    requires forall tid :: tid in s'.flights && s'.flights[tid].uid == uid ==>
               tid in s.flights && s.flights[tid] == s'.flights[tid]
    ensures Gone(s', uid)
  {
    forall t | t in s'.flights && s'.flights[t].uid == uid
      ensures !Pending(s', s'.flights[t])
    {
      assert !Pending(s, s.flights[t]);
      if !CanBeStored(s.w, s.flights[t]) {
        StaysShut(s.w, s'.w, s.flights[t], x);
      }
    }
  }

  // A flight that cannot be stored is not answered.
  lemma ReplyToShut(w: World, f: Flight, d: Draw, granted: bool)
    requires Waiting(f) && !CanBeStored(w, f) && FreshNonce(w, d.nonce)
    ensures Reply(w, f, d, granted).Err?
  {
  }

  lemma AnswerKeepsGone(s: System, tid: nat, d: Draw, granted: bool, uid: string)
    requires Traced(s) && Gone(s, uid)
    ensures Gone(Next(s, Answer(tid, d, granted)), uid)
  {
    var s' := Next(s, Answer(tid, d, granted));
    if tid in s.flights && Waiting(s.flights[tid]) && FreshNonce(s.w, d.nonce) && |d.text| > TAG_LEN {
      var f := s.flights[tid];
      if Reply(s.w, f, d, granted && MayWrap(s, f)).Err? {
        SameVaultKeepsGone(s, s', uid);
      } else {
        if f.uid == uid {
          assert !Pending(s, f);
          ReplyToShut(s.w, f, d, granted && MayWrap(s, f));
          assert false;
        }
        GrowthKeepsGone(s, s', Seal(OuterKey(s.w.outerVersion, f.handle), d.nonce, f.handle, d.text), uid);
      }
    }
  }

  lemma SameVaultKeepsGone(s: System, s': System, uid: string)
    requires Gone(s, uid) && s'.w.vault == s.w.vault && uid !in s'.w.store && s.wrapped <= s'.wrapped
    requires forall tid :: tid in s'.flights && s'.flights[tid].uid == uid ==>
               tid in s.flights && s.flights[tid] == s'.flights[tid]
    ensures Gone(s', uid)
  {
    forall tid | tid in s'.flights && s'.flights[tid].uid == uid
      ensures !Pending(s', s'.flights[tid])
    {
      assert !Pending(s, s.flights[tid]);
      assert NonceLeft(s'.w) ==> NonceLeft(s.w) by {
        if nonce :| FreshNonce(s'.w, nonce) {
          assert FreshNonce(s.w, nonce);
        }
      }
    }
  }

  lemma MintKeepsGone(s: System, tid: nat, uid': string, handle: string, dek: bytes, d: Draw, uid: string)
    requires Traced(s) && Gone(s, uid) && uid' != uid && FreshNonce(s.w, d.nonce)
    requires Sealing(s.w, uid', handle, dek, d).Ok?
    ensures var (w', f) := Sealing(s.w, uid', handle, dek, d).value;
            Gone(s.(w := w', flights := s.flights[tid := f]), uid)
  {
    var (w', f) := Sealing(s.w, uid', handle, dek, d).value;
    var x := Seal(InnerKey(handle, s.w.keyVersion), d.nonce, handle, d.text);
    GrowthKeepsGone(s, s.(w := w', flights := s.flights[tid := f]), x, uid);
  }

  lemma NextKeepsGone(s: System, e: Step, uid: string)
    requires Traced(s) && Gone(s, uid) && !(e.Mint? && e.uid == uid)
    ensures Gone(Next(s, e), uid)
  {
    match e
    case Mint(tid, uid', handle, dek, d) =>
      if Next(s, e) != s {
        MintKeepsGone(s, tid, uid', handle, dek, d, uid);
      }
    case Answer(tid, d, granted) =>
      AnswerKeepsGone(s, tid, d, granted, uid);
    case Load(tid, uid', handle) =>
      if tid !in s.flights && Begun(s.w, uid', handle).Ok? {
        SameVaultKeepsGone(s, s.(flights := s.flights[tid := Begun(s.w, uid', handle).value]), uid);
      }
    case Store(tid) =>
      if tid in s.flights && !Waiting(s.flights[tid]) {
        SameVaultKeepsGone(s, s.(w := Put(s.w, s.flights[tid]), flights := s.flights - {tid}), uid);
      }
    case Abandon(tids) =>
      SameVaultKeepsGone(s, s.(flights := s.flights - tids), uid);
    case Shred(uid') =>
      SameVaultKeepsGone(s, s.(w := Shredded(s.w, uid')), uid);
    case Operate(op) =>
      if OnVersions(op) {
        SameVaultKeepsGone(s, s.(w := Do(s.w, op)), uid);
      }
  }

  lemma {:induction false} StaysGone(s: System, es: seq<Step>, uid: string)
    requires Traced(s) && Gone(s, uid) && NoNewCreate(es, uid)
    ensures uid !in Run(s, es).w.store
    decreases |es|
  {
    if es != [] {
      NextKeepsTraced(s, es[0]);
      NextKeepsGone(s, es[0], uid);
      StaysGone(Next(s, es[0]), es[1..], uid);
    }
  }

  // --- what comes back -------------------------------------------------------

  // Whatever became of the versions since, a flight with its layer in the vault gets its answer
  // once the master keys of two versions are on the box.
  lemma CanBeAnswered(s: System, tid: nat, d: Draw)
    requires Traced(s) && tid in s.flights && Waiting(s.flights[tid]) && Pending(s, s.flights[tid])
    requires s.w.outerVersion in s.w.credentials
    requires s.flights[tid].Loaded? ==> s.flights[tid].outer[0] as nat in s.w.credentials
    requires FreshNonce(s.w, d.nonce) && |d.text| > TAG_LEN
    ensures var s' := Next(s, Answer(tid, d, true));
            tid in s'.flights && !Waiting(s'.flights[tid]) && s'.flights[tid].uid == s.flights[tid].uid
  {
    var f := s.flights[tid];
    if f.Loaded? {
      assert Layer(f.handle, f.outer) in s.w.vault;
      assert f.outer[0] as nat in Known(s.w);
    }
    assert Reply(s.w, f, d, true).Ok?;
  }

  lemma GetsReady(s: System, tid: nat) returns (p1: Step, p2: Step, d: Draw)
    requires Traced(s) && tid in s.flights && Waiting(s.flights[tid]) && Pending(s, s.flights[tid])
    ensures p1.Operate? && p1.op.Provision? && p2.Operate? && p2.op.Provision?
    ensures var s2 := Next(Next(s, p1), p2);
            && s2 == s.(w := s.w.(credentials := s2.w.credentials)) && Traced(s2) && Pending(s2, s.flights[tid])
            && s2.w.outerVersion in s2.w.credentials
            && (s.flights[tid].Loaded? ==> s.flights[tid].outer[0] as nat in s2.w.credentials)
            && FreshNonce(s2.w, d.nonce) && |d.text| > TAG_LEN
  {
    var f := s.flights[tid];
    var nonce :| FreshNonce(s.w, nonce);
    d := Draw(nonce, seq(TAG_LEN + 1, _ => 0));
    p1 := Operate(Provision(if f.Loaded? then f.outer[0] as nat else s.w.outerVersion));
    p2 := Operate(Provision(s.w.outerVersion));
    NextKeepsTraced(s, p1);
    NextKeepsTraced(Next(s, p1), p2);
    assert FreshNonce(Next(Next(s, p1), p2).w, nonce);
  }

  // The steps that bring it back.
  lemma ComesBack(s: System, tid: nat) returns (es: seq<Step>)
    requires Traced(s) && tid in s.flights && Pending(s, s.flights[tid])
    ensures NoNewCreate(es, s.flights[tid].uid) && s.flights[tid].uid in Run(s, es).w.store
  {
    if Waiting(s.flights[tid]) {
      var p1, p2, d := GetsReady(s, tid);
      es := [p1, p2, Answer(tid, d, true), Store(tid)];
      RunFour(s, p1, p2, Answer(tid, d, true), Store(tid));
      CanBeAnswered(Next(Next(s, p1), p2), tid, d);
    } else {
      es := [Store(tid)];
      assert es[1..] == [];
    }
  }

  // Exactly: at any moment of any run, a destroy is for good, short of a create begun after it, if
  // and only if no rewrap of the account is between its read and its store with a record the
  // co-signer can still open, and no create of it is between its test and its store with a wrap it
  // has or can still get.
  lemma DestroyedForGoodIff(credentials: set<nat>, before: seq<Step>, uid: string)
    ensures var s := Run(EmptyBox(credentials), before);
            (forall es: seq<Step> :: NoNewCreate(es, uid) ==> uid !in Run(Next(s, Shred(uid)), es).w.store)
            <==> !InFlight(s, uid)
  {
    RunKeepsTraced(EmptyBox(credentials), before);
    var s := Run(EmptyBox(credentials), before);
    var after := Next(s, Shred(uid));
    NextKeepsTraced(s, Shred(uid));
    ShredKeepsFlights(s, uid);
    if InFlight(after, uid) {
      var tid :| tid in after.flights && after.flights[tid].uid == uid && Pending(after, after.flights[tid]);
      var es := ComesBack(after, tid);
      assert NoNewCreate(es, uid) && uid in Run(after, es).w.store;
    } else {
      forall es: seq<Step> | NoNewCreate(es, uid)
        ensures uid !in Run(after, es).w.store
      {
        StaysGone(after, es, uid);
      }
    }
  }

  lemma ShredKeepsFlights(s: System, uid: string)
    ensures InFlight(Next(s, Shred(uid)), uid) <==> InFlight(s, uid)
  {
    var after := Next(s, Shred(uid));
    assert forall nonce :: FreshNonce(after.w, nonce) <==> FreshNonce(s.w, nonce);
    forall tid | tid in s.flights
      ensures Pending(after, s.flights[tid]) <==> Pending(s, s.flights[tid])
    {
    }
  }
}
