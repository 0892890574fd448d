/** The calls of backend/custody/keyring.py as one process makes them: the record store, the
    cache of opened keys with its time to live, and how often the co-signer is asked. Calls are
    serial; KeyCache treats many threads and processes at once. */
module DekCache {
  import opened Common
  import opened Keyring
  import KeyCache

  const DEK_TTL: real := KeyCache.DEK_TTL

  datatype Cached = Cached(dek: bytes, expires: real)

  // A key in memory is the key of a record on disk.
  ghost predicate Coherent(w: World, cache: map<string, Cached>) {
    Inv(w) && forall uid :: uid in cache ==> uid in w.store && uid in w.drawn && cache[uid].dek == w.drawn[uid]
  }

  lemma CreateStaysCoherent(w: World, cache: map<string, Cached>, uid: string, handle: string, dek: bytes, d1: Draw, d2: Draw,
                            granted: bool, expires: real)
    requires Coherent(w, cache) && Enabled(w, DoCreate(uid, handle, dek, d1, d2, granted))
    requires Keyring.Create(w, uid, handle, dek, d1, d2, granted).Ok?
    ensures Coherent(Keyring.Create(w, uid, handle, dek, d1, d2, granted).value, cache[uid := Cached(dek, expires)])
  {
    CreateKeepsInv(w, uid, handle, dek, d1, d2, granted);
    CreateAddsOne(w, uid, handle, dek, d1, d2, granted);
  }

  lemma CreateAddsOne(w: World, uid: string, handle: string, dek: bytes, d1: Draw, d2: Draw, granted: bool)
    requires Keyring.Create(w, uid, handle, dek, d1, d2, granted).Ok?
    ensures var w' := Keyring.Create(w, uid, handle, dek, d1, d2, granted).value;
            uid !in w.store && w'.store.Keys == w.store.Keys + {uid} && w'.drawn == w.drawn[uid := dek]
            && w'.handleOf == w.handleOf[uid := handle]
  {
  }

  lemma RewrapStaysCoherent(w: World, cache: map<string, Cached>, uid: string, handle: string, d: Draw, granted: bool)
    requires Coherent(w, cache) && Enabled(w, DoRewrap(uid, handle, d, granted))
    requires Keyring.Rewrap(w, uid, handle, d, granted).Ok?
    ensures Coherent(Keyring.Rewrap(w, uid, handle, d, granted).value, cache)
    ensures Names(Keyring.Rewrap(w, uid, handle, d, granted).value, uid) == Some(w.outerVersion)
  {
    RewrapKeepsInv(w, uid, handle, d, granted);
    RewrapKeepsKeys(w, uid, handle, d, granted);
  }

  lemma RewrapKeepsKeys(w: World, uid: string, handle: string, d: Draw, granted: bool)
    requires Keyring.Rewrap(w, uid, handle, d, granted).Ok?
    ensures var w' := Keyring.Rewrap(w, uid, handle, d, granted).value;
            w'.store.Keys == w.store.Keys && w'.drawn == w.drawn
  {
  }

  // The account's own key, as its record gives it.
  ghost predicate IsOwnKey(w: World, uid: string, dek: bytes) {
    && uid in w.drawn && dek == w.drawn[uid]
    && uid in w.handleOf && OpenKey(w, uid, w.handleOf[uid]) == Ok(dek)
  }

  lemma OpenedIsOwn(w: World, uid: string, handle: string)
    requires Inv(w) && OpenKey(w, uid, handle).Ok?
    ensures uid in w.store && IsOwnKey(w, uid, OpenKey(w, uid, handle).value)
  {
    assert Opens(w, uid);
    OneHandlePerSeal(w, uid, handle);
  }

  lemma RememberedIsOwn(w: World, cache: map<string, Cached>, uid: string)
    requires Coherent(w, cache) && uid in cache
    ensures IsOwnKey(w, uid, cache[uid].dek)
  {
    assert Opens(w, uid);
  }

  // How an unwrap for this account ends, the co-signer having granted it or not.
  ghost function Answered(w: World, uid: string, handle: string, granted: bool): Result<bytes, Error>
    requires Inv(w)
  {
    if !IsHandle(handle) then Err(InvalidHandle)
    else if uid !in w.store then Err(NoDataKey)
    else if !granted then Err(Refused)
    else if assert Opens(w, uid); handle == w.handleOf[uid] then Ok(w.drawn[uid])
    else Err(TagFailure)
  }

  // The record's own handle opens it; under any other the outer layer's tag does not check.
  lemma AnswerIs(w: World, uid: string, handle: string)
    requires Inv(w)
    ensures IsHandle(handle) && uid !in w.store ==> LoadRecord(w, uid) == Err(NoDataKey)
    ensures IsHandle(handle) && uid in w.store ==>
              LoadRecord(w, uid).Ok? && OpenKey(w, uid, handle) == Answered(w, uid, handle, true)
  {
    if uid in w.store {
      assert Opens(w, uid);
      OneHandlePerSeal(w, uid, handle);
    }
  }

  class Process {
    var w: World
    var cache: map<string, Cached>
    var now: real
    ghost var asked: nat          // unwraps the co-signer metered

    ghost predicate Valid()
      reads this
    {
      Coherent(w, cache)
    }

    constructor (credentials: set<nat>, start: real)
      ensures Valid() && cache == map[] && w == Empty(credentials) && now == start && asked == 0
    {
      w, cache, now, asked := Empty(credentials), map[], start, 0;
    }

    // create(): the key goes into the cache rather than to the caller, and costs no unwrap.
    method Create(uid: string, handle: string, dek: bytes, d1: Draw, d2: Draw, granted: bool) returns (r: Result<World, Error>)
      requires Valid() && Enabled(w, DoCreate(uid, handle, dek, d1, d2, granted))
      modifies `w, `cache, `now
      ensures Valid() && old(now) <= now
      ensures r == Keyring.Create(old(w), uid, handle, dek, d1, d2, granted)
      ensures r.Ok? ==> w == r.value && cache == old(cache)[uid := Cached(dek, now + DEK_TTL)]
      ensures r.Err? ==> w == old(w) && cache == old(cache)
    {
      r := Keyring.Create(w, uid, handle, dek, d1, d2, granted);
      Pass();
      if r.Ok? {
        CreateStaysCoherent(w, cache, uid, handle, dek, d1, d2, granted, now + DEK_TTL);
        Seed(r.value, uid, dek);
      }
    }

    // The record is on disk and its key in memory, from now until the TTL.
    method Seed(stored: World, uid: string, dek: bytes)
      requires Coherent(stored, cache[uid := Cached(dek, now + DEK_TTL)])
      modifies `w, `cache
      ensures Valid() && w == stored && cache == old(cache)[uid := Cached(dek, now + DEK_TTL)]
    {
      w, cache := stored, cache[uid := Cached(dek, now + DEK_TTL)];
    }

    // open_key(): straight from the co-signer, whose answer is `granted`, and which takes its time.
    // With a record on disk, the right handle and its leave, the account's own key comes back.
    method OpenUncached(uid: string, handle: string, granted: bool) returns (r: Result<bytes, Error>)
      requires Valid()
      modifies `now, `asked
      ensures Valid() && old(now) <= now
      ensures r == Answered(w, uid, handle, granted)
      ensures asked == old(asked) + if IsHandle(handle) && uid in w.store then 1 else 0
      ensures r.Ok? ==> IsOwnKey(w, uid, r.value)
    {
      AnswerIs(w, uid, handle);
      var record := LoadRecord(w, uid);
      if !IsHandle(handle) {
        return Err(InvalidHandle);
      }
      if record.Err? {
        return Err(record.error);
      }
      asked := asked + 1;
      Pass();
      if !granted {
        return Err(Refused);
      }
      r := OpenKey(w, uid, handle);
      if r.Ok? {
        OpenedIsOwn(w, uid, handle);
      }
    }

    // dek_for(): what comes back is the account's own key, remembered or not; a remembered one
    // costs no unwrap and is never older than the TTL counted from before the unwrap.
    method DekFor(uid: string, handle: string, granted: bool) returns (r: Result<bytes, Error>, ghost start: real)
      requires Valid()
      modifies this
      ensures Valid() && w == old(w) && old(now) <= start <= now
      ensures r.Ok? ==> IsOwnKey(w, uid, r.value)
      ensures if uid in old(cache) && old(cache)[uid].expires > start
              then r.Ok? && asked == old(asked)
              else && r == Answered(w, uid, handle, granted)
                   && asked == old(asked) + if IsHandle(handle) && uid in w.store then 1 else 0
      ensures cache == if r.Ok? && asked > old(asked) then old(cache)[uid := Cached(r.value, start + 300.0)] else old(cache)
    {
      Pass();
      var began := now;
      start := began;
      if uid in cache && cache[uid].expires > began {
        RememberedIsOwn(w, cache, uid);
        r := Ok(cache[uid].dek);
        return;
      }
      r := OpenUncached(uid, handle, granted);
      if r.Ok? {
        cache := cache[uid := Cached(r.value, began + DEK_TTL)];
      }
    }

    // release_for_refresh(): never answered from memory, so a refresh always meets the limiter.
    method ReleaseForRefresh(uid: string, handle: string, granted: bool) returns (r: Result<bytes, Error>)
      requires Valid()
      modifies `now, `asked
      ensures Valid() && old(now) <= now
      ensures r == Answered(w, uid, handle, granted)
      ensures asked == old(asked) + if IsHandle(handle) && uid in w.store then 1 else 0
      ensures r.Ok? ==> IsOwnKey(w, uid, r.value)
    {
      r := OpenUncached(uid, handle, granted);
    }

    // rewrap(): nothing in memory depends on the outer layer, so the cache stays.
    method Rewrap(uid: string, handle: string, d: Draw, granted: bool) returns (r: Result<World, Error>)
      requires Valid() && Enabled(w, DoRewrap(uid, handle, d, granted))
      modifies `w
      ensures Valid() && r == Keyring.Rewrap(old(w), uid, handle, d, granted)
      ensures w == if r.Ok? then r.value else old(w)
      ensures r.Ok? <==> CanMove(old(w), Account(uid, handle), granted)
      ensures r.Ok? ==> Names(w, uid) == Some(old(w).outerVersion)
    {
      RewrapSucceedsIff(w, Account(uid, handle), granted, d);
      r := Keyring.Rewrap(w, uid, handle, d, granted);
      if r.Ok? {
        RewrapStaysCoherent(w, cache, uid, handle, d, granted);
        w := r.value;
      }
    }

    // forget()
    method Forget(uid: Option<string>)
      requires Valid()
      modifies `cache
      ensures Valid() && cache == if uid.Some? then old(cache) - {uid.value} else map[]
    {
      cache := if uid.Some? then cache - {uid.value} else map[];
    }

    // destroy(): afterwards neither the disk nor the memory of this process opens the account.
    method Destroy(uid: string) returns (removed: bool)
      requires Valid()
      modifies this
      ensures Valid() && (removed <==> uid in old(w).store)
      ensures uid !in w.store && uid !in cache && (forall handle :: OpenKey(w, uid, handle).Err?)
      ensures w == Do(old(w), Op.Destroy(uid)) && cache == old(cache) - {uid}
    {
      Forget(Some(uid));
      removed := uid in w.store;
      DoKeepsInv(w, Op.Destroy(uid));
      w := w.(store := w.store - {uid});
    }

    // time.monotonic()
    method Pass()
      modifies `now
      ensures old(now) <= now
    {
      var moment: real := *;
      if moment > now {
        now := moment;
      }
    }
  }
}
