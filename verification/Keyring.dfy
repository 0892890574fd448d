/** The data-key records: their bytes on disk, both layers over them, and the rotation that
    moves them from one outer key version to the next. AES-GCM is an ideal AEAD, a vault of
    what was ever sealed; HKDF is ideal, so a key is named by its root, salt and label. */
module Keyring {
  import opened Common

  newtype byte = x: int | 0 <= x < 256
  type bytes = seq<byte>

  const KEY_LEN: nat := 32
  const NONCE_LEN: nat := 12
  const TAG_LEN: nat := 16
  const FIRST_VERSION: nat := 1
  const MAX_VERSION: nat := 255
  const RECORD_MAGIC: bytes := [76, 76, 68, 75]
  const RECORD_VERSION: byte := 1
  const HEADER_LEN: nat := 6

  datatype Error =
    | BadRecord | NoDataKey | DataKeyExists | InvalidHandle
    | RecordInvalid | NotConfigured | TagFailure | NotADataKey | Refused

  // --- the record on disk ----------------------------------------------------

  // magic | record version | inner key version | outer ciphertext
  function EncodeRecord(keyVersion: byte, outer: bytes): bytes {
    RECORD_MAGIC + [RECORD_VERSION, keyVersion] + outer
  }

  function DecodeRecord(blob: bytes): Result<(byte, bytes), Error> {
    if |blob| <= HEADER_LEN then Err(BadRecord)
    else if blob[..4] != RECORD_MAGIC then Err(BadRecord)
    else if blob[4] != RECORD_VERSION then Err(BadRecord)
    else Ok((blob[5], blob[HEADER_LEN..]))
  }

  // Decoding inverts encoding, and accepts nothing that encoding did not produce.
  lemma RecordRoundTrip(keyVersion: byte, outer: bytes, blob: bytes)
    ensures outer != [] ==> DecodeRecord(EncodeRecord(keyVersion, outer)) == Ok((keyVersion, outer))
    ensures DecodeRecord(blob) == Ok((keyVersion, outer)) <==> outer != [] && blob == EncodeRecord(keyVersion, outer)
  {
    var e := EncodeRecord(keyVersion, outer);
    assert e[..4] == RECORD_MAGIC && e[HEADER_LEN..] == outer && e[4] == RECORD_VERSION && e[5] == keyVersion;
    if DecodeRecord(blob) == Ok((keyVersion, outer)) {
      assert blob == blob[..4] + [blob[4], blob[5]] + blob[HEADER_LEN..];
    }
  }

  // --- ideal sealing ---------------------------------------------------------

  datatype Key = OuterKey(version: nat, handle: string) | InnerKey(handle: string, keyVersion: byte)

  // One AES-GCM output and what it authenticates: it opens to what was sealed, or to nothing.
  datatype Seal = Seal(key: Key, nonce: bytes, aad: string, text: bytes)

  type Vault = map<Seal, bytes>

  datatype World = World(
    outerVersion: nat,               // cosigner.keys.KEY_VERSION
    credentials: set<nat>,           // the master keys present on the co-signer's box
    keyVersion: byte,                // wrapping.KEY_VERSION
    vault: Vault,
    store: map<string, bytes>,       // database/<id>/dek.bin
    ghost drawn: map<string, bytes>, // the data key create() drew for each id
    ghost handleOf: map<string, string>)

  function Known(w: World): set<nat> {
    set v | v in w.credentials && FIRST_VERSION <= v <= w.outerVersion
  }

  // keys.unwrap
  function UnwrapOuter(w: World, handle: string, outer: bytes): Result<bytes, Error> {
    if |outer| <= 1 + NONCE_LEN + TAG_LEN then Err(RecordInvalid)
    else if outer[0] as nat !in Known(w) then Err(RecordInvalid)
    else
      var s := Seal(OuterKey(outer[0] as nat, handle), outer[1..1 + NONCE_LEN], handle, outer[1 + NONCE_LEN..]);
      if s in w.vault then Ok(w.vault[s]) else Err(TagFailure)
  }

  // wrapping.open_dek
  function OpenDek(w: World, handle: string, inner: bytes, keyVersion: byte): Result<bytes, Error> {
    if |inner| <= NONCE_LEN + TAG_LEN then Err(RecordInvalid)
    else
      var s := Seal(InnerKey(handle, keyVersion), inner[..NONCE_LEN], handle, inner[NONCE_LEN..]);
      if s !in w.vault then Err(TagFailure)
      else if |w.vault[s]| != KEY_LEN then Err(NotADataKey)
      else Ok(w.vault[s])
  }

  function LoadRecord(w: World, uid: string): Result<(byte, bytes), Error> {
    if uid !in w.store then Err(NoDataKey)
    else match DecodeRecord(w.store[uid])
      case Ok(r) => Ok(r)
      case Err(_) => Err(NoDataKey)
  }

  // keyring.open_key: off disk, through the co-signer, through the enclave's own layer
  function OpenKey(w: World, uid: string, handle: string): Result<bytes, Error> {
    if !IsHandle(handle) then Err(InvalidHandle)
    else match LoadRecord(w, uid)
      case Err(e) => Err(e)
      case Ok((kv, outer)) =>
        match UnwrapOuter(w, handle, outer)
        case Err(e) => Err(e)
        case Ok(inner) => OpenDek(w, handle, inner, kv)
  }

  // A nonce from os.urandom is one nobody has used before.
  predicate FreshNonce(w: World, nonce: bytes) {
    |nonce| == NONCE_LEN && forall s | s in w.vault :: s.nonce != nonce
  }

  // What the environment supplies to one seal: the nonce, and the text the cipher yields.
  datatype Draw = Draw(nonce: bytes, text: bytes)

  predicate GoodDraw(w: World, d: Draw, plain: bytes) {
    FreshNonce(w, d.nonce) && |d.text| == |plain| + TAG_LEN
  }

  // keys.wrap: the version is read once, for the key and for the prefix.
  function WrapOuter(w: World, handle: string, inner: bytes, d: Draw): Result<(World, bytes), Error> {
    if !(FIRST_VERSION <= w.outerVersion <= MAX_VERSION) then Err(RecordInvalid)
    else if w.outerVersion !in w.credentials then Err(NotConfigured)
    else
      var s := Seal(OuterKey(w.outerVersion, handle), d.nonce, handle, d.text);
      Ok((w.(vault := w.vault[s := inner]), [w.outerVersion as byte] + d.nonce + d.text))
  }

  function StoreRecord(w: World, uid: string, keyVersion: byte, outer: bytes): World {
    w.(store := w.store[uid := EncodeRecord(keyVersion, outer)])
  }

  // keyring.create. `granted` is the co-signer's answer to the one wrap it allows.
  function Create(w: World, uid: string, handle: string, dek: bytes, d1: Draw, d2: Draw, granted: bool): Result<World, Error> {
    if !IsHandle(handle) then Err(InvalidHandle)
    else if uid in w.store then Err(DataKeyExists)
    else
      var s := Seal(InnerKey(handle, w.keyVersion), d1.nonce, handle, d1.text);
      var sealed := w.(vault := w.vault[s := dek]);
      if !granted then Err(Refused)
      else match WrapOuter(sealed, handle, d1.nonce + d1.text, d2)
        case Err(e) => Err(e)
        case Ok((w', outer)) =>
          Ok(StoreRecord(w', uid, w.keyVersion, outer).(drawn := w.drawn[uid := dek], handleOf := w.handleOf[uid := handle]))
  }

  // keyring.rewrap over keys.rewrap: unwrap at the version the record names, wrap at the current one.
  function Rewrap(w: World, uid: string, handle: string, d: Draw, granted: bool): Result<World, Error> {
    if !IsHandle(handle) then Err(InvalidHandle)
    else match LoadRecord(w, uid)
      case Err(e) => Err(e)
      case Ok((kv, outer)) =>
        if !granted then Err(Refused)
        else match UnwrapOuter(w, handle, outer)
          case Err(e) => Err(e)
          case Ok(inner) =>
            match WrapOuter(w, handle, inner, d)
            case Err(e) => Err(e)
            case Ok((w', outer')) => Ok(StoreRecord(w', uid, kv, outer'))
  }

  // The outer version a stored record names.
  function Names(w: World, uid: string): Option<nat> {
    match LoadRecord(w, uid)
    case Ok((_, outer)) => Some(outer[0] as nat)
    case Err(_) => None
  }

  // --- runs ------------------------------------------------------------------

  datatype Op =
    | DoCreate(uid: string, handle: string, dek: bytes, d1: Draw, d2: Draw, granted: bool)
    | DoRewrap(uid: string, handle: string, d: Draw, granted: bool)
    | Destroy(uid: string)
    | Provision(version: nat)
    | BumpOuter
    | BumpInner
    | Retire(version: nat)      // only once no record names it: step 4 of the procedure

  ghost predicate Enabled(w: World, op: Op) {
    match op
    case DoCreate(_, _, dek, d1, d2, _) =>
      |dek| == KEY_LEN && GoodDraw(w, d1, dek) && GoodDraw(w, d2, d1.nonce + d1.text) && d1.nonce != d2.nonce
    case DoRewrap(_, _, d, _) => FreshNonce(w, d.nonce) && |d.text| > TAG_LEN
    case Destroy(_) => true
    case Provision(_) => true
    case BumpOuter => w.outerVersion < MAX_VERSION
    case BumpInner => w.keyVersion < 255
    case Retire(v) => forall uid :: uid in w.store ==> Names(w, uid) != Some(v)
  }

  ghost function Do(w: World, op: Op): World {
    if !Enabled(w, op) then w
    else match op
      case DoCreate(uid, handle, dek, d1, d2, granted) =>
        (match Create(w, uid, handle, dek, d1, d2, granted) case Ok(w') => w' case Err(_) => w)
      case DoRewrap(uid, handle, d, granted) =>
        (match Rewrap(w, uid, handle, d, granted) case Ok(w') => w' case Err(_) => w)
      case Destroy(uid) => w.(store := w.store - {uid})
      case Provision(v) => w.(credentials := w.credentials + {v})
      case BumpOuter => w.(outerVersion := w.outerVersion + 1)
      case BumpInner => w.(keyVersion := w.keyVersion + 1)
      case Retire(v) => w.(credentials := w.credentials - {v})
  }

  ghost function Run(w: World, ops: seq<Op>): World
    decreases |ops|
  {
    if ops == [] then w else Run(Do(w, ops[0]), ops[1..])
  }

  function Empty(credentials: set<nat>): World { World(1, credentials, 1, map[], map[], map[], map[]) }

  ghost predicate Opens(w: World, uid: string) {
    uid in w.handleOf && uid in w.drawn && OpenKey(w, uid, w.handleOf[uid]) == Ok(w.drawn[uid])
  }

  ghost predicate Inv(w: World) {
    && FIRST_VERSION <= w.outerVersion <= MAX_VERSION
    && (forall s, t :: s in w.vault && t in w.vault && s.nonce == t.nonce ==> s == t)
    && (forall uid {:trigger Opens(w, uid)} :: uid in w.store ==> Opens(w, uid))
  }

  // A vault that only gained seals and a box that lost no version a record names still open it.
  lemma StillOpens(w: World, w': World, uid: string)
    requires uid in w.store && Opens(w, uid)
    requires uid in w'.store && w'.store[uid] == w.store[uid]
    requires uid in w'.handleOf && w'.handleOf[uid] == w.handleOf[uid]
    requires uid in w'.drawn && w'.drawn[uid] == w.drawn[uid]
    requires forall s :: s in w.vault ==> s in w'.vault && w'.vault[s] == w.vault[s]
    requires Names(w, uid).Some? && Names(w, uid).value in Known(w) ==> Names(w, uid).value in Known(w')
    ensures Opens(w', uid)
  {
  }

  lemma CreateKeepsInv(w: World, uid: string, handle: string, dek: bytes, d1: Draw, d2: Draw, granted: bool)
    requires Inv(w) && Enabled(w, DoCreate(uid, handle, dek, d1, d2, granted))
    requires Create(w, uid, handle, dek, d1, d2, granted).Ok?
    ensures Inv(Create(w, uid, handle, dek, d1, d2, granted).value)
  {
    var w' := Create(w, uid, handle, dek, d1, d2, granted).value;
    var inner := d1.nonce + d1.text;
    var outer := [w.outerVersion as byte] + d2.nonce + d2.text;
    RecordRoundTrip(w.keyVersion, outer, w'.store[uid]);
    assert outer[1..1 + NONCE_LEN] == d2.nonce && outer[1 + NONCE_LEN..] == d2.text;
    assert inner[..NONCE_LEN] == d1.nonce && inner[NONCE_LEN..] == d1.text;
    assert UnwrapOuter(w', handle, outer) == Ok(inner);
    assert OpenDek(w', handle, inner, w.keyVersion) == Ok(dek);
    forall u | u in w'.store && u != uid
      ensures Opens(w', u)
    {
      StillOpens(w, w', u);
    }
  }

  lemma RewrapKeepsInv(w: World, uid: string, handle: string, d: Draw, granted: bool)
    requires Inv(w) && Enabled(w, DoRewrap(uid, handle, d, granted))
    requires Rewrap(w, uid, handle, d, granted).Ok?
    ensures Inv(Rewrap(w, uid, handle, d, granted).value)
    ensures Names(Rewrap(w, uid, handle, d, granted).value, uid) == Some(w.outerVersion)
    ensures uid in w.handleOf && handle == w.handleOf[uid]
  {
    var w' := Rewrap(w, uid, handle, d, granted).value;
    RewrappedOpens(w, uid, handle, d, granted);
    forall u | u in w'.store && u != uid
      ensures Opens(w', u)
    {
      StillOpens(w, w', u);
    }
  }

  // A create succeeds exactly for a legal handle with no record yet, with leave, while the current
  // version's key is there.
  lemma CreateSucceedsIff(w: World, uid: string, handle: string, dek: bytes, d1: Draw, d2: Draw, granted: bool)
    requires FIRST_VERSION <= w.outerVersion <= MAX_VERSION
    ensures var r := Create(w, uid, handle, dek, d1, d2, granted);
            && (r.Ok? <==> IsHandle(handle) && uid !in w.store && granted && w.outerVersion in w.credentials)
            && (!IsHandle(handle) ==> r == Err(InvalidHandle))
            && (IsHandle(handle) && uid in w.store ==> r == Err(DataKeyExists))
            && (IsHandle(handle) && uid !in w.store && !granted ==> r == Err(Refused))
  {
  }

  // The record just rewritten opens to the same key, under the outer version now current.
  lemma RewrappedOpens(w: World, uid: string, handle: string, d: Draw, granted: bool)
    requires Inv(w) && Enabled(w, DoRewrap(uid, handle, d, granted))
    requires Rewrap(w, uid, handle, d, granted).Ok?
    ensures Opens(Rewrap(w, uid, handle, d, granted).value, uid)
    ensures Names(Rewrap(w, uid, handle, d, granted).value, uid) == Some(w.outerVersion)
    ensures uid in w.handleOf && handle == w.handleOf[uid]
  {
    var w' := Rewrap(w, uid, handle, d, granted).value;
    assert Opens(w, uid);
    var (kv, outer) := LoadRecord(w, uid).value;
    var inner := UnwrapOuter(w, handle, outer).value;
    OneHandlePerSeal(w, uid, handle);
    var outer' := [w.outerVersion as byte] + d.nonce + d.text;
    RecordRoundTrip(kv, outer', w'.store[uid]);
    WrappedUnwraps(w, handle, inner, d);
    assert UnwrapOuter(w', handle, outer') == Ok(inner);
    assert OpenDek(w', handle, inner, kv) == Ok(w.drawn[uid]);
  }

  // What keys.wrap sealed under the current version, keys.unwrap opens, in any later store.
  lemma WrappedUnwraps(w: World, handle: string, inner: bytes, d: Draw)
    requires WrapOuter(w, handle, inner, d).Ok? && |d.nonce| == NONCE_LEN && |d.text| > TAG_LEN
    ensures var (w', outer) := WrapOuter(w, handle, inner, d).value;
            forall u: World :: u.vault == w'.vault && u.credentials == w.credentials && u.outerVersion == w.outerVersion ==>
              UnwrapOuter(u, handle, outer) == Ok(inner)
  {
    var outer := [w.outerVersion as byte] + d.nonce + d.text;
    assert outer[1..1 + NONCE_LEN] == d.nonce && outer[1 + NONCE_LEN..] == d.text;
  }

  // A record opens under no handle but its own: nobody else's key ever sealed under that nonce.
  lemma OneHandlePerSeal(w: World, uid: string, handle: string)
    requires Inv(w) && uid in w.store
    ensures LoadRecord(w, uid).Ok?
    ensures uid in w.handleOf
    ensures UnwrapOuter(w, handle, LoadRecord(w, uid).value.1).Ok? <==> handle == w.handleOf[uid]
  {
    assert Opens(w, uid);
  }

  lemma DoKeepsInv(w: World, op: Op)
    requires Inv(w)
    ensures Inv(Do(w, op))
  {
    if Enabled(w, op) {
      match op
      case DoCreate(uid, handle, dek, d1, d2, granted) =>
        if Create(w, uid, handle, dek, d1, d2, granted).Ok? {
          CreateKeepsInv(w, uid, handle, dek, d1, d2, granted);
        }
      case DoRewrap(uid, handle, d, granted) =>
        if Rewrap(w, uid, handle, d, granted).Ok? {
          RewrapKeepsInv(w, uid, handle, d, granted);
        }
      case _ =>
        forall u | u in Do(w, op).store
          ensures Opens(Do(w, op), u)
        {
          StillOpens(w, Do(w, op), u);
        }
    }
  }

  lemma {:induction false} RunKeepsInv(w: World, ops: seq<Op>)
    requires Inv(w)
    ensures Inv(Run(w, ops))
    decreases |ops|
  {
    if ops != [] {
      DoKeepsInv(w, ops[0]);
      RunKeepsInv(Do(w, ops[0]), ops[1..]);
    }
  }

  // Rotation preserves meaning. After any creates, bumps, rewraps in any order (a rotation
  // stopped anywhere and rerun is a list of these) and retirements of unnamed versions, every
  // record opens under its own handle to the key drawn for it, and under no other handle.
  lemma RecordsKeepTheirMeaning(credentials: set<nat>, ops: seq<Op>, uid: string, handle: string)
    requires uid in Run(Empty(credentials), ops).store
    ensures var w := Run(Empty(credentials), ops);
            && uid in w.handleOf && uid in w.drawn
            && OpenKey(w, uid, w.handleOf[uid]) == Ok(w.drawn[uid])
            && (handle != w.handleOf[uid] ==> OpenKey(w, uid, handle).Err?)
  {
    RunKeepsInv(Empty(credentials), ops);
    var w := Run(Empty(credentials), ops);
    assert Opens(w, uid);
    OneHandlePerSeal(w, uid, handle);
  }

  // The key drawn at create is the one that stays: nothing but a second create, which the
  // record on disk refuses, changes it.
  lemma {:induction false} DrawnKeyIsFixed(w: World, ops: seq<Op>, uid: string)
    requires uid in w.store && uid in w.drawn && forall op :: op in ops ==> op != Destroy(uid)
    ensures uid in Run(w, ops).store && uid in Run(w, ops).drawn && Run(w, ops).drawn[uid] == w.drawn[uid]
    decreases |ops|
  {
    if ops != [] {
      assert ops[0] in ops;
      assert forall op :: op in ops[1..] ==> op in ops;
      DrawnKeyIsFixed(Do(w, ops[0]), ops[1..], uid);
    }
  }

  // Retiring a version a record still names is a hard stop for that record.
  lemma RetiredVersionIsRefused(w: World, uid: string, handle: string, v: nat)
    requires Names(w, uid) == Some(v) && v !in w.credentials && IsHandle(handle)
    ensures OpenKey(w, uid, handle) == Err(RecordInvalid)
    ensures forall d, granted :: Rewrap(w, uid, handle, d, granted).Err?
  {
  }

  // --- the imperative halves -------------------------------------------------

  // known_versions(): newest first, from the credentials that load.
  method KnownVersions(w: World) returns (found: seq<nat>)
    ensures ToSet(found) == Known(w)
    ensures forall i, j :: 0 <= i < j < |found| ==> found[i] > found[j]
  {
    found := [];
    var version := w.outerVersion;
    while version >= FIRST_VERSION
      invariant forall v :: v in found <==> v in Known(w) && v > version
      invariant forall i :: 0 <= i < |found| ==> found[i] > version
      invariant forall i, j :: 0 <= i < j < |found| ==> found[i] > found[j]
      decreases version
    {
      if version in w.credentials {
        found := found + [version];
      }
      version := version - 1;
    }
  }

  datatype Account = Account(id: string, handle: string)

  predicate HasRecord(w: World, acct: Account) {
    acct.handle != "" && acct.id in w.store
  }

  function WithRecords(w: World, accounts: seq<Account>): seq<Account> {
    if accounts == [] then []
    else (if HasRecord(w, accounts[0]) then [accounts[0]] else []) + WithRecords(w, accounts[1..])
  }

  // The accounts with a handle and a record, in order.
  lemma WithRecordsPick(w: World, accounts: seq<Account>) returns (at: seq<int>)
    ensures Picks(accounts, at, WithRecords(w, accounts))
    ensures forall i :: 0 <= i < |accounts| ==> (i in at <==> accounts[i].handle != "" && accounts[i].id in w.store)
  {
    at := WithRecordsPickFrom(w, accounts, 0);
    assert accounts[0..] == accounts;
  }

  lemma {:induction false} WithRecordsPickFrom(w: World, accounts: seq<Account>, k: nat) returns (at: seq<int>)
    requires k <= |accounts|
    ensures Picks(accounts, at, WithRecords(w, accounts[k..])) && (at != [] ==> k <= at[0])
    ensures forall i :: k <= i < |accounts| ==> (i in at <==> accounts[i].handle != "" && accounts[i].id in w.store)
    decreases |accounts| - k
  {
    at := [];
    if k < |accounts| {
      at := WithRecordsPickFrom(w, accounts, k + 1);
      assert accounts[k..][1..] == accounts[k + 1..];
      if HasRecord(w, accounts[k]) {
        PicksOneBefore(accounts, k, at, WithRecords(w, accounts[k + 1..]));
        at := [k] + at;
      } else {
        assert k !in at;
        assert [] + WithRecords(w, accounts[k + 1..]) == WithRecords(w, accounts[k + 1..]);
      }
    }
  }

  class Enclave {
    var w: World

    constructor (credentials: set<nat>)
      ensures Inv(w)
    {
      w := Empty(credentials);
    }

    // rotate.candidates()
    method Candidates(accounts: seq<Account>) returns (found: seq<Account>)
      ensures found == WithRecords(w, accounts)
    {
      found := [];
      for i := 0 to |accounts|
        invariant found + WithRecords(w, accounts[i..]) == WithRecords(w, accounts)
      {
        assert accounts[i..][1..] == accounts[i + 1..];
        if accounts[i].handle != "" && accounts[i].id in w.store {
          found := found + [accounts[i]];
        }
      }
    }

    // One keyring.rewrap: `granted` is the co-signer's answer and `d` its draw. It succeeds exactly
    // for a record under its own handle, with leave, while the current version's key is there.
    method RewrapOne(acct: Account, granted: bool, d: Draw) returns (ok: bool)
      requires Inv(w) && FreshNonce(w, d.nonce) && |d.text| > TAG_LEN
      modifies this
      ensures Inv(w)
      ensures ok <==> CanMove(old(w), acct, granted)
      ensures !ok ==> w == old(w)
      ensures ok ==> Reached(old(w), w, [acct], 1) && (forall s :: s in w.vault ==> s in old(w).vault || s.nonce == d.nonce)
    {
      RewrapSucceedsIff(w, acct, granted, d);
      match Rewrap(w, acct.id, acct.handle, d, granted) {
        case Ok(w') =>
          RewrapKeepsInv(w, acct.id, acct.handle, d, granted);
          RewrapReaches(w, acct, d, granted);
          w := w';
          ok := true;
        case Err(_) =>
          ok := false;
      }
    }

    // rotate.rotate(apply=True), stopping at the first failure: `answers` and `draws` are the
    // co-signer's, one for each candidate.
    method Rotate(accounts: seq<Account>, answers: seq<bool>, draws: seq<Draw>) returns (candidates: seq<Account>, rewrapped: nat)
      requires Inv(w) && |answers| >= |accounts| && |draws| >= |accounts| && GoodDraws(w, draws, 0)
      modifies this
      ensures Inv(w) && rewrapped <= |candidates| <= |accounts| && Reached(old(w), w, candidates, rewrapped)
      ensures candidates == WithRecords(old(w), accounts)
      ensures forall i :: 0 <= i < rewrapped ==> CanMove(old(w), candidates[i], answers[i])
      ensures rewrapped < |candidates| ==> !CanMove(old(w), candidates[rewrapped], answers[rewrapped])
    {
      candidates := Candidates(accounts);
      WithRecordsFewer(w, accounts);
      rewrapped := 0;
      while rewrapped < |candidates|
        invariant Inv(w) && rewrapped <= |candidates| && Reached(old(w), w, candidates, rewrapped)
        invariant GoodDraws(w, draws, rewrapped)
        invariant forall i :: 0 <= i < rewrapped ==> CanMove(old(w), candidates[i], answers[i])
      {
        ghost var before := w;
        ghost var acct, granted := candidates[rewrapped], answers[rewrapped];
        MovesAlike(old(w), w, acct, granted);
        var ok := RewrapOne(candidates[rewrapped], answers[rewrapped], draws[rewrapped]);
        if !ok {
          return;
        }
        ReachedOneMore(old(w), before, w, candidates, rewrapped);
        DrawsStayGood(before, w, draws, rewrapped);
        rewrapped := rewrapped + 1;
      }
    }
  }

  ghost predicate CanMove(w: World, acct: Account, granted: bool) {
    && granted && acct.id in w.store && acct.id in w.handleOf && acct.handle == w.handleOf[acct.id]
    && w.outerVersion in w.credentials
  }

  lemma RewrapSucceedsIff(w: World, acct: Account, granted: bool, d: Draw)
    requires Inv(w)
    ensures Rewrap(w, acct.id, acct.handle, d, granted).Ok? <==> CanMove(w, acct, granted)
  {
    if acct.id in w.store {
      assert Opens(w, acct.id);
      OneHandlePerSeal(w, acct.id, acct.handle);
    }
  }

  // Nonces from os.urandom: unused, and no two alike.
  ghost predicate GoodDraws(w: World, draws: seq<Draw>, from: nat) {
    && (forall i :: from <= i < |draws| ==> FreshNonce(w, draws[i].nonce) && |draws[i].text| > TAG_LEN)
    && (forall i, j :: from <= i < j < |draws| ==> draws[i].nonce != draws[j].nonce)
  }

  lemma DrawsStayGood(w: World, w': World, draws: seq<Draw>, n: nat)
    requires n < |draws| && GoodDraws(w, draws, n)
    requires forall s :: s in w'.vault ==> s in w.vault || s.nonce == draws[n].nonce
    ensures GoodDraws(w', draws, n + 1)
  {
    forall i | n + 1 <= i < |draws|
      ensures FreshNonce(w', draws[i].nonce)
    {
      assert FreshNonce(w, draws[i].nonce) && draws[n].nonce != draws[i].nonce;
    }
  }

  lemma MovesAlike(w0: World, w: World, acct: Account, granted: bool)
    requires w == w0.(vault := w.vault, store := w.store) && w.store.Keys == w0.store.Keys
    ensures CanMove(w, acct, granted) <==> CanMove(w0, acct, granted)
  {
    assert acct.id in w.store.Keys <==> acct.id in w0.store.Keys;
  }

  lemma {:induction false} WithRecordsFewer(w: World, accounts: seq<Account>)
    ensures |WithRecords(w, accounts)| <= |accounts|
  {
    if accounts != [] {
      WithRecordsFewer(w, accounts[1..]);
    }
  }

  // The first `n` candidates are on the current version; every other record is untouched.
  ghost predicate Reached(before: World, after: World, candidates: seq<Account>, n: nat)
    requires n <= |candidates|
  {
    && after == before.(vault := after.vault, store := after.store)
    && after.store.Keys == before.store.Keys
    && (forall i :: 0 <= i < n ==> Names(after, candidates[i].id) == Some(after.outerVersion))
    && (forall uid :: uid in after.store && (forall i :: 0 <= i < n ==> candidates[i].id != uid) ==>
          after.store[uid] == before.store[uid])
  }

  lemma RewrapReaches(w: World, acct: Account, d: Draw, granted: bool)
    requires Rewrap(w, acct.id, acct.handle, d, granted).Ok?
    requires Names(Rewrap(w, acct.id, acct.handle, d, granted).value, acct.id) == Some(w.outerVersion)
    ensures Reached(w, Rewrap(w, acct.id, acct.handle, d, granted).value, [acct], 1)
  {
    assert [acct][0] == acct;
  }

  lemma ReachedOneMore(w0: World, w: World, w': World, candidates: seq<Account>, n: nat)
    requires n < |candidates| && Reached(w0, w, candidates, n) && Reached(w, w', [candidates[n]], 1)
    ensures Reached(w0, w', candidates, n + 1)
  {
    assert [candidates[n]][0] == candidates[n];
    forall uid | uid in w'.store && uid != candidates[n].id
      ensures w'.store[uid] == w.store[uid] && Names(w', uid) == Names(w, uid)
    {
    }
    forall i | 0 <= i < n + 1
      ensures Names(w', candidates[i].id) == Some(w'.outerVersion)
    {
      if candidates[i].id != candidates[n].id {
        assert Names(w, candidates[i].id) == Some(w.outerVersion);
      }
    }
  }

  // Stopped anywhere or not, every record still opens to its own key.
  lemma RotationIsHarmless(before: World, after: World, candidates: seq<Account>, n: nat, uid: string)
    requires Inv(before) && Inv(after) && n <= |candidates| && Reached(before, after, candidates, n)
    requires uid in before.store
    ensures uid in before.handleOf && uid in after.handleOf
    ensures OpenKey(after, uid, after.handleOf[uid]) == OpenKey(before, uid, before.handleOf[uid])
  {
    assert Opens(before, uid) && Opens(after, uid);
  }
}
