/** The layer order of split custody as a statement about knowledge. Keys, ciphertexts and
    derivations are terms; AEAD and HKDF are ideal, so what a party can learn is the closure of
    what it holds under opening, sealing and deriving. */
module Layers {

  datatype Term =
    | MasterKey(version: nat)       // the co-signer's, one per key version
    | AppSecret                     // the enclave's, released by its KMS
    | DpopKey
    | DataKey(id: nat)
    | RefreshToken(id: nat)
    | Public(text: string)          // handles, proofs, versions
    | Derived(root: Term, salt: string, keyVersion: nat, info: string)
    | Sealed(key: Term, nonce: nat, aad: string, body: Term)

  // --- knowledge -------------------------------------------------------------

  // `t` can be had from `s` in at most `n` nested steps.
  ghost predicate Derives(s: iset<Term>, t: Term, n: nat)
    decreases n
  {
    || t in s
    || (n > 0 && (
          || (t.Derived? && Derives(s, t.root, n - 1))
          || (t.Sealed? && Derives(s, t.key, n - 1) && Derives(s, t.body, n - 1))
          || (exists k, nonce, aad :: Derives(s, Sealed(k, nonce, aad, t), n - 1) && Derives(s, k, n - 1))))
  }

  ghost predicate Knows(s: iset<Term>, t: Term) {
    exists n: nat :: Derives(s, t, n)
  }

  // With the atoms of `hidden` withheld, `t` gives none of them away: whatever carries one is
  // sealed under a key that is itself out of reach.
  ghost predicate Safe(hidden: iset<Term>, t: Term) {
    match t
    case Derived(root, _, _, _) => Safe(hidden, root)
    case Sealed(key, _, _, body) => Safe(hidden, body) || !Safe(hidden, key)
    case _ => t !in hidden
  }

  lemma {:induction false} SafetyIsClosed(hidden: iset<Term>, s: iset<Term>, t: Term, n: nat)
    requires forall x :: x in s ==> Safe(hidden, x)
    requires Derives(s, t, n)
    ensures Safe(hidden, t)
    decreases n
  {
    if t !in s {
      if t.Derived? && Derives(s, t.root, n - 1) {
        SafetyIsClosed(hidden, s, t.root, n - 1);
      } else if t.Sealed? && Derives(s, t.key, n - 1) && Derives(s, t.body, n - 1) {
        SafetyIsClosed(hidden, s, t.body, n - 1);
      } else {
        var k, nonce, aad :| Derives(s, Sealed(k, nonce, aad, t), n - 1) && Derives(s, k, n - 1);
        SafetyIsClosed(hidden, s, Sealed(k, nonce, aad, t), n - 1);
        SafetyIsClosed(hidden, s, k, n - 1);
      }
    }
  }

  lemma HiddenStaysUnknown(hidden: iset<Term>, s: iset<Term>, t: Term)
    requires forall x :: x in s ==> Safe(hidden, x)
    requires !Safe(hidden, t)
    ensures !Knows(s, t)
  {
    if Knows(s, t) {
      var n: nat :| Derives(s, t, n);
      SafetyIsClosed(hidden, s, t, n);
    }
  }

  lemma {:induction false} DeeperStillDerives(s: iset<Term>, t: Term, n: nat, m: nat)
    requires Derives(s, t, n) && n <= m
    ensures Derives(s, t, m)
    decreases n
  {
    if t !in s {
      if t.Derived? && Derives(s, t.root, n - 1) {
        DeeperStillDerives(s, t.root, n - 1, m - 1);
      } else if t.Sealed? && Derives(s, t.key, n - 1) && Derives(s, t.body, n - 1) {
        DeeperStillDerives(s, t.key, n - 1, m - 1);
        DeeperStillDerives(s, t.body, n - 1, m - 1);
      } else {
        var k, nonce, aad :| Derives(s, Sealed(k, nonce, aad, t), n - 1) && Derives(s, k, n - 1);
        DeeperStillDerives(s, Sealed(k, nonce, aad, t), n - 1, m - 1);
        DeeperStillDerives(s, k, n - 1, m - 1);
      }
    }
  }

  lemma Opens(s: iset<Term>, k: Term, nonce: nat, aad: string, t: Term)
    requires Knows(s, Sealed(k, nonce, aad, t)) && Knows(s, k)
    ensures Knows(s, t)
  {
    var n: nat :| Derives(s, Sealed(k, nonce, aad, t), n);
    var m: nat :| Derives(s, k, m);
    var d := if n > m then n else m;
    DeeperStillDerives(s, Sealed(k, nonce, aad, t), n, d);
    DeeperStillDerives(s, k, m, d);
    assert Derives(s, t, d + 1);
  }

  // --- the two layers --------------------------------------------------------

  // cosigner.keys.outer_key and backend.custody.wrapping.inner_key
  function OuterKey(handle: string, version: nat): Term { Derived(MasterKey(version), handle, 0, "outer") }

  function InnerKey(handle: string, keyVersion: nat): Term { Derived(AppSecret, handle, keyVersion, "account-dek") }

  function SealDek(handle: string, dek: nat, keyVersion: nat, nonce: nat): Term {
    Sealed(InnerKey(handle, keyVersion), nonce, handle, DataKey(dek))
  }

  function WrapOuter(handle: string, inner: Term, version: nat, nonce: nat): Term {
    Sealed(OuterKey(handle, version), nonce, handle, inner)
  }

  // --- runs ------------------------------------------------------------------

  datatype Account = Account(dek: nat, inner: Term, outer: Term)

  datatype State = State(
    version: nat,                      // the co-signer's KEY_VERSION
    keyVersion: nat,                   // the enclave's KEY_VERSION
    unused: nat,                        // next unused nonce, data key or token number
    accounts: map<string, Account>,
    tokenOwner: map<nat, string>,
    ghost disk: iset<Term>,            // everything the enclave ever wrote
    ghost received: iset<Term>)        // everything that ever reached the co-signer, and its answers

  datatype Op =
    | Create(handle: string)           // /wrap
    | Refresh(handle: string)          // /unwrap-and-sign
    | Read(handle: string)             // /unwrap
    | Rotate(handle: string)           // /rewrap
    | StoreToken(handle: string)       // a refresh token encrypted under the data key
    | BumpOuter
    | BumpInner

  ghost function Created(s: State, h: string): State {
    var inner := SealDek(h, s.unused, s.keyVersion, s.unused + 1);
    var outer := WrapOuter(h, inner, s.version, s.unused + 2);
    s.(unused := s.unused + 3,
       accounts := s.accounts[h := Account(s.unused, inner, outer)],
       disk := s.disk + iset{outer},
       received := s.received + iset{Public(h), inner, outer})
  }

  // Either unwrap: the record goes over, the inner ciphertext comes back.
  ghost function Unwrapped(s: State, h: string): State
    requires h in s.accounts
  {
    s.(received := s.received + iset{Public(h), s.accounts[h].outer, s.accounts[h].inner})
  }

  ghost function Rewrapped(s: State, h: string): State
    requires h in s.accounts
  {
    var a := s.accounts[h];
    var outer := WrapOuter(h, a.inner, s.version, s.unused);
    s.(unused := s.unused + 1,
       accounts := s.accounts[h := Account(a.dek, a.inner, outer)],
       disk := s.disk + iset{outer},
       received := s.received + iset{Public(h), a.outer, a.inner, outer})
  }

  ghost function TokenStored(s: State, h: string): State
    requires h in s.accounts
  {
    s.(unused := s.unused + 2,
       tokenOwner := s.tokenOwner[s.unused := h],
       disk := s.disk + iset{Sealed(DataKey(s.accounts[h].dek), s.unused + 1, h + "|token.bin", RefreshToken(s.unused))})
  }

  ghost function Do(s: State, op: Op): State {
    match op
    case Create(h) => if h in s.accounts then s else Created(s, h)   // wrap-once
    case Refresh(h) => if h in s.accounts then Unwrapped(s, h) else s
    case Read(h) => if h in s.accounts then Unwrapped(s, h) else s
    case Rotate(h) => if h in s.accounts then Rewrapped(s, h) else s
    case StoreToken(h) => if h in s.accounts then TokenStored(s, h) else s
    case BumpOuter => s.(version := s.version + 1)
    case BumpInner => s.(keyVersion := s.keyVersion + 1)
  }

  ghost function Run(s: State, ops: seq<Op>): State
    decreases |ops|
  {
    if ops == [] then s else Run(Do(s, ops[0]), ops[1..])
  }

  ghost function Start(): State { State(1, 1, 0, map[], map[], iset{}, iset{}) }

  // What is on the co-signer: every master key it ever had, its signing key, anything public,
  // and the whole of what has crossed its wire in either direction.
  ghost function CoSignerHolds(s: State): iset<Term> {
    (iset t: Term | t.MasterKey? || t.DpopKey? || t.Public?) + s.received
  }

  // What is on the enclave between requests: its KMS secret and its disk, old copies included.
  ghost function EnclaveHolds(s: State): iset<Term> {
    (iset t: Term | t.AppSecret? || t.Public?) + s.disk
  }

  // An account's data key under the enclave's layer.
  ghost predicate Inner(s: State, t: Term) {
    && t.Sealed? && t.aad in s.accounts && t.body == DataKey(s.accounts[t.aad].dek)
    && t.key.Derived? && t.key.root == AppSecret
  }

  // The same with the co-signer's layer outside it.
  ghost predicate Outer(s: State, t: Term) {
    && t.Sealed? && t.aad in s.accounts && t.body == s.accounts[t.aad].inner
    && t.key.Derived? && t.key.root.MasterKey? && t.key == OuterKey(t.aad, t.key.root.version)
  }

  ghost predicate Document(s: State, t: Term) {
    && t.Sealed? && t.body.RefreshToken? && t.body.id in s.tokenOwner
    && s.tokenOwner[t.body.id] in s.accounts
    && t.key == DataKey(s.accounts[s.tokenOwner[t.body.id]].dek)
  }

  ghost predicate AccountsOk(s: State) {
    && (forall h :: h in s.accounts ==>
          && s.accounts[h].dek < s.unused
          && Inner(s, s.accounts[h].inner) && s.accounts[h].inner.aad == h
          && Outer(s, s.accounts[h].outer) && s.accounts[h].outer.aad == h)
    && (forall g, h :: g in s.accounts && h in s.accounts && s.accounts[g].dek == s.accounts[h].dek ==> g == h)
    && (forall t :: t in s.tokenOwner ==> t < s.unused && s.tokenOwner[t] in s.accounts)
  }

  ghost predicate DiskOk(s: State) {
    forall t :: t in s.disk ==> Outer(s, t) || Document(s, t)
  }

  ghost predicate WireOk(s: State) {
    forall t :: t in s.received ==> t.Public? || Inner(s, t) || Outer(s, t)
  }

  ghost predicate Inv(s: State) {
    AccountsOk(s) && DiskOk(s) && WireOk(s)
  }

  // Accounts keep their data key and their inner layer, so a term keeps its shape.
  ghost predicate Extends(s: State, s': State) {
    && (forall h :: h in s.accounts ==>
          h in s'.accounts && s'.accounts[h].dek == s.accounts[h].dek && s'.accounts[h].inner == s.accounts[h].inner)
    && (forall i :: i in s.tokenOwner ==> i in s'.tokenOwner && s'.tokenOwner[i] == s.tokenOwner[i])
  }

  lemma CreateKeepsAccounts(s: State, h: string)
    requires AccountsOk(s) && h !in s.accounts
    ensures AccountsOk(Created(s, h))
  {
    var s' := Created(s, h);
    forall g | g in s.accounts
      ensures g in s'.accounts && s'.accounts[g] == s.accounts[g]
    {
    }
    assert Inner(s', s'.accounts[h].inner) && Outer(s', s'.accounts[h].outer);
  }

  lemma CreateKeepsInv(s: State, h: string)
    requires Inv(s) && h !in s.accounts
    ensures Inv(Created(s, h))
  {
    CreateKeepsAccounts(s, h);
    CreateKeepsTerms(s, h);
  }

  lemma CreateKeepsTerms(s: State, h: string)
    requires Inv(s) && h !in s.accounts && AccountsOk(Created(s, h))
    ensures DiskOk(Created(s, h)) && WireOk(Created(s, h))
  {
    var s' := Created(s, h);
    var a := s'.accounts[h];
    OwnTermsHaveShape(s', h);
    DiskSurvives(s, s', a.outer);
    WireSurvives(s, s', h, a.outer, a.outer, a.inner);
  }

  lemma OwnTermsHaveShape(s: State, h: string)
    requires AccountsOk(s) && h in s.accounts
    ensures Inner(s, s.accounts[h].inner) && s.accounts[h].inner.aad == h
    ensures Outer(s, s.accounts[h].outer) && s.accounts[h].outer.aad == h
  {
  }

  // What the disk and the wire already held keeps its shape, so only what is added is to be shown.
  lemma DiskSurvives(s: State, s': State, written: Term)
    requires DiskOk(s) && Extends(s, s') && s'.disk == s.disk + iset{written}
    requires Outer(s', written) || Document(s', written)
    ensures DiskOk(s')
  {
    ShapesSurvive(s, s');
  }

  lemma WireSurvives(s: State, s': State, h: string, outer: Term, outer': Term, inner: Term)
    requires WireOk(s) && Extends(s, s') && Outer(s', outer) && Outer(s', outer') && Inner(s', inner)
    requires s'.received <= s.received + iset{Public(h), outer, inner, outer'}
    ensures WireOk(s')
  {
    ShapesSurvive(s, s');
  }

  lemma RotateKeepsAccounts(s: State, h: string)
    requires AccountsOk(s) && h in s.accounts
    ensures AccountsOk(Rewrapped(s, h))
  {
    var s' := Rewrapped(s, h);
    forall g | g in s.accounts
      ensures s'.accounts[g].inner == s.accounts[g].inner && Inner(s', s'.accounts[g].inner)
      ensures Outer(s', s'.accounts[g].outer) && s'.accounts[g].outer.aad == g
    {
      assert Inner(s, s.accounts[g].inner) && Outer(s, s.accounts[g].outer);
    }
  }

  lemma RotateKeepsInv(s: State, h: string)
    requires Inv(s) && h in s.accounts
    ensures Inv(Rewrapped(s, h))
  {
    RotateKeepsAccounts(s, h);
    RotateKeepsTerms(s, h);
  }

  lemma RotateKeepsTerms(s: State, h: string)
    requires Inv(s) && h in s.accounts && AccountsOk(Rewrapped(s, h))
    ensures DiskOk(Rewrapped(s, h)) && WireOk(Rewrapped(s, h))
  {
    var s' := Rewrapped(s, h);
    var a, outer := s.accounts[h], s'.accounts[h].outer;
    OwnTermsHaveShape(s, h);
    OwnTermsHaveShape(s', h);
    DiskSurvives(s, s', outer);
    WireSurvives(s, s', h, a.outer, outer, a.inner);
  }

  lemma ReadKeepsInv(s: State, h: string)
    requires Inv(s) && h in s.accounts
    ensures Inv(Unwrapped(s, h))
  {
    OwnTermsHaveShape(s, h);
    var a := s.accounts[h];
    WireSurvives(s, Unwrapped(s, h), h, a.outer, a.outer, a.inner);
  }

  lemma StoreKeepsInv(s: State, h: string)
    requires Inv(s) && h in s.accounts
    ensures Inv(TokenStored(s, h))
  {
    var s' := TokenStored(s, h);
    ShapesSurvive(s, s');
  }

  lemma ShapesSurvive(s: State, s': State)
    requires Extends(s, s')
    ensures forall t :: Inner(s, t) ==> Inner(s', t)
    ensures forall t :: Outer(s, t) ==> Outer(s', t)
    ensures forall t :: Document(s, t) ==> Document(s', t)
  {
  }

  lemma DoKeepsInv(s: State, op: Op)
    requires Inv(s)
    ensures Inv(Do(s, op))
  {
    match op
    case Create(h) => if h !in s.accounts { CreateKeepsInv(s, h); }
    case Refresh(h) => UnwrapKeepsInv(s, op);
    case Read(h) => UnwrapKeepsInv(s, op);
    case Rotate(h) => if h in s.accounts { RotateKeepsInv(s, h); }
    case StoreToken(h) => if h in s.accounts { StoreKeepsInv(s, h); }
    case BumpOuter => BumpKeepsInv(s, op);
    case BumpInner => BumpKeepsInv(s, op);
  }

  lemma UnwrapKeepsInv(s: State, op: Op)
    requires Inv(s) && (op.Refresh? || op.Read?)
    ensures Inv(Do(s, op))
  {
    if op.handle in s.accounts {
      ReadKeepsInv(s, op.handle);
    }
  }

  lemma BumpKeepsInv(s: State, op: Op)
    requires Inv(s) && (op.BumpOuter? || op.BumpInner?)
    ensures Inv(Do(s, op))
  {
    if op.BumpOuter? {
      VersionsDoNotMatter(s, s.version + 1, s.keyVersion);
    } else {
      VersionsDoNotMatter(s, s.version, s.keyVersion + 1);
    }
  }

  lemma VersionsDoNotMatter(s: State, version: nat, keyVersion: nat)
    requires Inv(s)
    ensures Inv(s.(version := version, keyVersion := keyVersion))
  {
    var s' := s.(version := version, keyVersion := keyVersion);
    assert forall t :: Inner(s, t) == Inner(s', t) && Outer(s, t) == Outer(s', t) && Document(s, t) == Document(s', t);
  }

  lemma {:induction false} RunKeepsInv(s: State, ops: seq<Op>)
    requires Inv(s)
    ensures Inv(Run(s, ops))
    decreases |ops|
  {
    if ops != [] {
      DoKeepsInv(s, ops[0]);
      RunKeepsInv(Do(s, ops[0]), ops[1..]);
    }
  }

  // --- what each side does hold ------------------------------------------------

  // Both layers of every account's key have been before the co-signer, and its handle.
  ghost predicate WireHasAll(s: State) {
    forall h :: h in s.accounts ==>
      s.accounts[h].inner in s.received && s.accounts[h].outer in s.received && Public(h) in s.received
  }

  lemma DoKeepsWire(s: State, op: Op)
    requires WireHasAll(s)
    ensures WireHasAll(Do(s, op)) && s.received <= Do(s, op).received && s.disk <= Do(s, op).disk
  {
  }

  lemma {:induction false} RunKeepsWire(s: State, ops: seq<Op>)
    requires WireHasAll(s)
    ensures WireHasAll(Run(s, ops)) && s.received <= Run(s, ops).received && s.disk <= Run(s, ops).disk
    decreases |ops|
  {
    if ops != [] {
      DoKeepsWire(s, ops[0]);
      RunKeepsWire(Do(s, ops[0]), ops[1..]);
    }
  }

  // The co-signer holds its own keys of every version and each account's data key as the enclave
  // sealed it, now and after any more of the run: what it lacks is the one key that opens that.
  lemma CoSignerHoldsTheSealed(ops: seq<Op>, more: seq<Op>, h: string, version: nat)
    requires h in Run(Start(), ops).accounts
    ensures var holds := CoSignerHolds(Run(Run(Start(), ops), more));
            && MasterKey(version) in holds && DpopKey in holds && Public(h) in holds
            && Run(Start(), ops).accounts[h].inner in holds && Run(Start(), ops).accounts[h].outer in holds
  {
    RunKeepsWire(Start(), ops);
    RunKeepsWire(Run(Start(), ops), more);
  }

  // --- the theorems ----------------------------------------------------------

  lemma WireIsSafe(s: State, hidden: iset<Term>)
    requires Inv(s) && hidden == iset t: Term | t.AppSecret? || t.DataKey? || t.RefreshToken?
    ensures forall t :: t in CoSignerHolds(s) ==> Safe(hidden, t)
  {
    forall t | t in CoSignerHolds(s)
      ensures Safe(hidden, t)
    {
      if t in s.received && !t.Public? {
        var inner := if Inner(s, t) then t else t.body;
        assert Inner(s, inner) && !Safe(hidden, inner.key);
      }
    }
  }

  // The co-signer alone: no data key, no refresh token and no enclave secret, whatever it has seen.
  lemma CoSignerLearnsNothing(ops: seq<Op>, id: nat)
    ensures var k := CoSignerHolds(Run(Start(), ops));
            !Knows(k, DataKey(id)) && !Knows(k, RefreshToken(id)) && !Knows(k, AppSecret)
  {
    RunKeepsInv(Start(), ops);
    var s := Run(Start(), ops);
    var hidden := iset t: Term | t.AppSecret? || t.DataKey? || t.RefreshToken?;
    WireIsSafe(s, hidden);
    HiddenStaysUnknown(hidden, CoSignerHolds(s), DataKey(id));
    HiddenStaysUnknown(hidden, CoSignerHolds(s), RefreshToken(id));
    HiddenStaysUnknown(hidden, CoSignerHolds(s), AppSecret);
  }

  // What the co-signer sends back when asked to unwrap these accounts.
  ghost function Answers(s: State, asked: iset<string>): iset<Term> {
    iset h | h in asked && h in s.accounts :: s.accounts[h].inner
  }

  // What stays hidden when only `asked` was answered.
  ghost function Unasked(s: State, asked: iset<string>): iset<Term> {
    iset t: Term | t.MasterKey?
                   || (t.DataKey? && exists h :: h in s.accounts && h !in asked && s.accounts[h].dek == t.id)
                   || (t.RefreshToken? && t.id in s.tokenOwner && s.tokenOwner[t.id] !in asked)
  }

  lemma OnDiskIsSafe(s: State, asked: iset<string>, t: Term)
    requires Inv(s) && t in s.disk
    ensures Safe(Unasked(s, asked), t)
  {
    if Document(s, t) && s.tokenOwner[t.body.id] !in asked {
      assert t.key in Unasked(s, asked);
    }
  }

  lemma AnswerIsSafe(s: State, asked: iset<string>, h: string)
    requires Inv(s) && h in asked && h in s.accounts
    ensures Safe(Unasked(s, asked), s.accounts[h].inner)
  {
    assert DataKey(s.accounts[h].dek) !in Unasked(s, asked);
  }

  lemma EnclaveIsSafe(s: State, asked: iset<string>, t: Term)
    requires Inv(s) && t in EnclaveHolds(s) + Answers(s, asked)
    ensures Safe(Unasked(s, asked), t)
  {
    if t in s.disk {
      OnDiskIsSafe(s, asked, t);
    } else if t in Answers(s, asked) {
      var h :| h in asked && h in s.accounts && t == s.accounts[h].inner;
      AnswerIsSafe(s, asked, h);
    }
  }

  lemma WithheldFromEnclave(s: State, asked: iset<string>, secret: Term)
    requires Inv(s) && secret in Unasked(s, asked)
    ensures !Knows(EnclaveHolds(s) + Answers(s, asked), secret)
  {
    forall t | t in EnclaveHolds(s) + Answers(s, asked)
      ensures Safe(Unasked(s, asked), t)
    {
      EnclaveIsSafe(s, asked, t);
    }
    HiddenStaysUnknown(Unasked(s, asked), EnclaveHolds(s) + Answers(s, asked), secret);
  }

  lemma InnerOpens(s: State, k: iset<Term>, h: string)
    requires Inv(s) && h in s.accounts && AppSecret in k && s.accounts[h].inner in k
    ensures Knows(k, DataKey(s.accounts[h].dek))
  {
    var t := s.accounts[h].inner;
    assert Inner(s, t);
    assert Derives(k, AppSecret, 0);
    assert Derives(k, t.key, 1);
    assert Derives(k, Sealed(t.key, t.nonce, t.aad, t.body), 0);
    Opens(k, t.key, t.nonce, t.aad, t.body);
  }

  // The enclave's disk and secret, with the co-signer's answers for some accounts: exactly those
  // accounts' data keys are within reach. With no answers, none is.
  lemma AnswersOpenOnlyTheirAccounts(ops: seq<Op>, asked: iset<string>, h: string)
    requires h in Run(Start(), ops).accounts
    ensures var s := Run(Start(), ops);
            Knows(EnclaveHolds(s) + Answers(s, asked), DataKey(s.accounts[h].dek)) <==> h in asked
  {
    RunKeepsInv(Start(), ops);
    var s := Run(Start(), ops);
    if h in asked {
      assert s.accounts[h].inner in Answers(s, asked);
      InnerOpens(s, EnclaveHolds(s) + Answers(s, asked), h);
    } else {
      WithheldFromEnclave(s, asked, DataKey(s.accounts[h].dek));
    }
  }

  // Every stored token's document is on the disk, under its owner's data key.
  ghost predicate OnDisk(s: State, id: nat, doc: Term) {
    && id in s.tokenOwner && s.tokenOwner[id] in s.accounts
    && doc in s.disk && doc.Sealed? && doc.body == RefreshToken(id)
    && doc.key == DataKey(s.accounts[s.tokenOwner[id]].dek)
  }

  ghost predicate TokensOnDisk(s: State) {
    forall id :: id in s.tokenOwner ==> exists doc :: OnDisk(s, id, doc)
  }

  // The disk only grows, and what accounts and tokens are does not change.
  lemma DoExtends(s: State, op: Op)
    requires forall t :: t in s.tokenOwner ==> t < s.unused
    ensures Extends(s, Do(s, op)) && s.disk <= Do(s, op).disk
  {
  }

  lemma DocumentStays(s: State, s': State, id: nat, doc: Term)
    requires OnDisk(s, id, doc) && Extends(s, s') && s.disk <= s'.disk
    ensures OnDisk(s', id, doc)
  {
  }

  lemma NewTokenOnDisk(s: State, h: string)
    requires Inv(s) && h in s.accounts
    ensures exists doc :: OnDisk(TokenStored(s, h), s.unused, doc)
  {
    var doc := Sealed(DataKey(s.accounts[h].dek), s.unused + 1, h + "|token.bin", RefreshToken(s.unused));
    assert OnDisk(TokenStored(s, h), s.unused, doc);
  }

  lemma DoKeepsTokens(s: State, op: Op, id: nat)
    requires Inv(s) && TokensOnDisk(s) && id in Do(s, op).tokenOwner
    ensures exists doc :: OnDisk(Do(s, op), id, doc)
  {
    if id in s.tokenOwner {
      var doc :| OnDisk(s, id, doc);
      DoExtends(s, op);
      DocumentStays(s, Do(s, op), id, doc);
    } else {
      NewTokenOnDisk(s, op.handle);
    }
  }

  lemma {:induction false} RunKeepsTokens(s: State, ops: seq<Op>)
    requires Inv(s) && TokensOnDisk(s)
    ensures TokensOnDisk(Run(s, ops))
    decreases |ops|
  {
    if ops != [] {
      forall id | id in Do(s, ops[0]).tokenOwner
        ensures exists doc :: OnDisk(Do(s, ops[0]), id, doc)
      {
        DoKeepsTokens(s, ops[0], id);
      }
      DoKeepsInv(s, ops[0]);
      RunKeepsTokens(Do(s, ops[0]), ops[1..]);
    }
  }

  lemma DocumentOpens(s: State, k: iset<Term>, id: nat, doc: Term)
    requires OnDisk(s, id, doc) && doc in k && Knows(k, doc.key)
    ensures Knows(k, RefreshToken(id))
  {
    assert Derives(k, Sealed(doc.key, doc.nonce, doc.aad, doc.body), 0);
    Opens(k, doc.key, doc.nonce, doc.aad, doc.body);
  }

  // The same for the refresh tokens stored under those keys: an answer for the owner, or nothing.
  lemma TokensNeedAnAnswer(ops: seq<Op>, asked: iset<string>, id: nat)
    requires id in Run(Start(), ops).tokenOwner
    ensures var s := Run(Start(), ops);
            Knows(EnclaveHolds(s) + Answers(s, asked), RefreshToken(id)) <==> s.tokenOwner[id] in asked
  {
    RunKeepsInv(Start(), ops);
    RunKeepsTokens(Start(), ops);
    var s := Run(Start(), ops);
    var k := EnclaveHolds(s) + Answers(s, asked);
    if s.tokenOwner[id] in asked {
      var doc :| OnDisk(s, id, doc);
      assert s.accounts[s.tokenOwner[id]].inner in Answers(s, asked);
      InnerOpens(s, k, s.tokenOwner[id]);
      DocumentOpens(s, k, id, doc);
    } else {
      WithheldFromEnclave(s, asked, RefreshToken(id));
    }
  }

  // Reverse the layers and the property is gone: the co-signer opens what it is handed.
  lemma ReversedOrderLeaks(handle: string, dek: nat, version: nat, nonce: nat)
    ensures Knows(iset{MasterKey(version), Sealed(OuterKey(handle, version), nonce, handle, DataKey(dek))}, DataKey(dek))
  {
    var k := iset{MasterKey(version), Sealed(OuterKey(handle, version), nonce, handle, DataKey(dek))};
    assert Derives(k, MasterKey(version), 0);
    assert Derives(k, OuterKey(handle, version), 1);
    assert Derives(k, Sealed(OuterKey(handle, version), nonce, handle, DataKey(dek)), 0);
    Opens(k, OuterKey(handle, version), nonce, handle, DataKey(dek));
  }
}
