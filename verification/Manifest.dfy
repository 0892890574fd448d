/** backend/accounts/account.py: the account manifest, what each of its writers does to it, and
    what all of them keep. A mutation is a function from one version to the next or to the
    error that leaves the file as it was. */
module Manifest {
  import opened Common

  datatype Error = InvalidAccountData | AccountLimitReached | NoSuchAccount | NoManifest | Misused

  // One entry of accounts.json; None is an absent key.
  datatype Entry = Entry(
    id: string,
    handle: Option<string>,
    identity: seq<string>,
    telegram: map<string, string>,
    planStatus: Option<string>,
    timezone: Option<string>,
    autoSchedule: Option<bool>,
    settings: map<string, string>,        // inference_provider, pii_analyzer, ban_dashes, community_calendar
    polarCustomerId: Option<string>,
    voiceFile: Option<string>,
    tokenFile: Option<string>,
    stateFile: Option<string>)

  type Data = seq<Entry>
  type File = Option<Data>

  // --- ids -------------------------------------------------------------------

  function Lower(c: char): char {
    if 'A' <= c <= 'Z' then c - 'A' + 'a' else c
  }

  function LowerAll(s: string): (r: string)
    ensures |r| == |s| && forall i :: 0 <= i < |s| ==> r[i] == Lower(s[i])
  {
    seq(|s|, i requires 0 <= i < |s| => Lower(s[i]))
  }

  // x.strip().lower()
  function Norm(s: string): string { LowerAll(Strip(s)) }

  lemma NormIsStable(s: string)
    ensures Norm(Norm(s)) == Norm(s)
  {
    var n := Norm(s);
    assert Strip(n) == n;
    assert LowerAll(n) == n;
  }

  predicate HasDots(s: string) {
    exists i :: 0 <= i < |s| - 1 && s[i] == '.' && s[i + 1] == '.'
  }

  predicate LegalEmail(email: string) {
    email != "" && '@' in email && '/' !in email && '\\' !in email && !HasDots(email)
  }

  predicate Given(x: Option<string>) { x.Some? && x.value != "" }

  // --- mutations -------------------------------------------------------------

  datatype Signup = Signup(
    identity: seq<string>,
    handle: Option<string>,
    newHandle: string,                    // what new_handle() would draw
    tokenFile: Option<string>, voiceFile: Option<string>, stateFile: Option<string>,
    chatId: Option<string>, botToken: Option<string>,
    planStatus: string, timezone: Option<string>, autoSchedule: bool)

  datatype Mutation =
    | Register(email: string, signup: Signup)
    | SetPlanStatus(id: string, status: string)
    | SetTelegram(id: string, chatId: Option<string>, token: Option<string>, clear: bool)
    | SetPolarCustomerId(id: string, customer: string)
    | SetVoice(id: string, file: Option<string>)
    | SetSettings(id: string, timezone: Option<string>, autoSchedule: Option<bool>,
                  asked: map<string, string>,
                  offered: set<string>,   // the inference providers this box has a key for
                  calendar: Option<string>)
    | Delete(id: string)

  const CALENDAR: string := "community_calendar"
  const PROVIDER: string := "inference_provider"

  predicate LocalChar(c: char) { 'a' <= c <= 'z' || '0' <= c <= '9' || c in "._%+-" }
  predicate HostChar(c: char) { 'a' <= c <= 'z' || '0' <= c <= '9' || c in ".-" }

  // CALENDAR_ID_RE, matched in full
  predicate CalendarId(s: string) {
    exists i, j :: 0 < i < j < |s| && s[i] == '@' && s[j] == '.'
      && ('a' <= s[0] <= 'z' || '0' <= s[0] <= '9') && i <= 128
      && (forall k :: 0 < k < i ==> LocalChar(s[k]))
      && 1 <= j - i - 1 <= 128 && (forall k :: i < k < j ==> HostChar(s[k]))
      && 2 <= |s| - j - 1 <= 24 && (forall k :: j < k < |s| ==> 'a' <= s[k] <= 'z')
  }

  // Where an id is found, by the first entry that normalizes to it.
  function Find(data: Data, aid: string): (r: Option<nat>)
    ensures r.Some? ==> r.value < |data| && Norm(data[r.value].id) == aid
    ensures r.Some? ==> forall i :: 0 <= i < r.value ==> Norm(data[i].id) != aid
    ensures r.None? ==> forall i :: 0 <= i < |data| ==> Norm(data[i].id) != aid
  {
    FindFrom(data, aid, 0)
  }

  function FindFrom(data: Data, aid: string, k: nat): (r: Option<nat>)
    requires k <= |data|
    ensures r.Some? ==> k <= r.value < |data| && Norm(data[r.value].id) == aid
    ensures r.Some? ==> forall i :: k <= i < r.value ==> Norm(data[i].id) != aid
    ensures r.None? ==> forall i :: k <= i < |data| ==> Norm(data[i].id) != aid
    decreases |data| - k
  {
    if k == |data| then None
    else if Norm(data[k].id) == aid then Some(k)
    else FindFrom(data, aid, k + 1)
  }

  function TelegramOf(chatId: Option<string>, token: Option<string>): map<string, string> {
    (if Given(chatId) then map["chat_id" := chatId.value] else map[])
    + (if Given(token) then map["token" := token.value] else map[])
  }

  function NewEntry(email: string, s: Signup): Entry {
    Entry(email, Some(if Given(s.handle) then s.handle.value else s.newHandle), s.identity,
          TelegramOf(s.chatId, s.botToken), Some(s.planStatus),
          Some(if Given(s.timezone) then s.timezone.value else "UTC"), Some(s.autoSchedule), map[], None,
          if Given(s.voiceFile) then s.voiceFile else None,
          if Given(s.tokenFile) then s.tokenFile else None,
          if Given(s.stateFile) then s.stateFile else None)
  }

  // A re-consent keeps what the user configured, the handle least negotiably.
  function Reconsented(existing: Entry, entry: Entry): Entry {
    entry.(handle := if Given(existing.handle) then existing.handle else entry.handle,
           planStatus := if existing.planStatus.Some? then existing.planStatus else entry.planStatus,
           telegram := existing.telegram + entry.telegram,
           timezone := if existing.timezone.Some? then existing.timezone else entry.timezone,
           autoSchedule := if existing.autoSchedule.Some? then existing.autoSchedule else entry.autoSchedule,
           settings := existing.settings,
           polarCustomerId := if Given(existing.polarCustomerId) then existing.polarCustomerId else None,
           voiceFile := if Given(existing.voiceFile) && entry.voiceFile.None? then existing.voiceFile else entry.voiceFile,
           tokenFile := if Given(existing.tokenFile) && entry.tokenFile.None? then existing.tokenFile else entry.tokenFile,
           stateFile := if Given(existing.stateFile) && entry.stateFile.None? then existing.stateFile else entry.stateFile)
  }

  function Registered(max: nat, data: Data, rawEmail: string, s: Signup): Result<Data, Error> {
    var email := Norm(rawEmail);
    var entry := NewEntry(email, s);
    if !LegalEmail(email) || !IsHandle(entry.handle.value) then Err(InvalidAccountData)
    else match Find(data, email)
      case Some(i) =>
        if Given(data[i].handle) && !IsHandle(data[i].handle.value) then Err(InvalidAccountData)
        else Ok(data[i := Reconsented(data[i], entry)])
      case None =>
        if |data| >= max then Err(AccountLimitReached) else Ok(data + [entry])
  }

  function HolderOf(data: Data, customer: string, besides: string): Option<nat>
  {
    if data == [] then None
    else if data[0].polarCustomerId == Some(customer) && data[0].id != besides then Some(0)
    else match HolderOf(data[1..], customer, besides)
      case None => None
      case Some(i) => Some(i + 1)
  }

  function WithCalendar(settings: map<string, string>, calendar: Option<string>): Result<map<string, string>, Error> {
    if calendar.None? then Ok(settings)
    else
      var c := Norm(calendar.value);
      if c == "" then Ok(settings - {CALENDAR})
      else if CalendarId(c) then Ok(settings[CALENDAR := c])
      else Err(InvalidAccountData)
  }

  function Edited(data: Data, i: nat, m: Mutation): Result<Entry, Error>
    requires i < |data| && !m.Register? && !m.Delete?
  {
    var e := data[i];
    match m
    case SetPlanStatus(_, status) => Ok(e.(planStatus := Some(status)))
    case SetTelegram(_, chatId, token, clear) =>
      Ok(e.(telegram := if clear then map[] else e.telegram + TelegramOf(chatId, token)))
    case SetPolarCustomerId(_, customer) =>
      if HolderOf(data, customer, e.id).Some? then Err(InvalidAccountData)
      else Ok(e.(polarCustomerId := Some(customer)))
    case SetVoice(_, file) => Ok(e.(voiceFile := file))
    case SetSettings(_, timezone, autoSchedule, asked, _, calendar) =>
      match WithCalendar(e.settings + asked, calendar)
      case Err(x) => Err(x)
      case Ok(settings) =>
        Ok(e.(settings := settings,
              timezone := if timezone.Some? then timezone else e.timezone,
              autoSchedule := if autoSchedule.Some? then autoSchedule else e.autoSchedule))
  }

  function Without(data: Data, aid: string): (r: Data)
    ensures forall i :: 0 <= i < |r| ==> Norm(r[i].id) != aid
    ensures forall e :: e in r <==> e in data && Norm(e.id) != aid
    ensures |r| <= |data|
  {
    if data == [] then []
    else if Norm(data[0].id) == aid then Without(data[1..], aid)
    else [data[0]] + Without(data[1..], aid)
  }

  // What a mutator refuses before it opens the transaction; the assertions are Misused.
  function Precluded(m: Mutation): Option<Error> {
    match m
    case SetPlanStatus(_, status) =>
      if status == "active" || status == "inactive" then None else Some(InvalidAccountData)
    case SetTelegram(_, chatId, token, clear) =>
      if clear || Given(chatId) || Given(token) then None else Some(Misused)
    case SetPolarCustomerId(_, customer) => if customer == "" then Some(Misused) else None
    case SetVoice(_, file) => if file == Some("") then Some(Misused) else None
    case SetSettings(_, timezone, autoSchedule, asked, offered, calendar) =>
      if timezone.None? && autoSchedule.None? && asked == map[] && calendar.None? then Some(Misused)
      else if PROVIDER in asked && asked[PROVIDER] !in offered then Some(Misused)
      else None
    case _ => None
  }

  function EditedIn(data: Data, m: Mutation): Result<Data, Error>
    requires !m.Register? && !m.Delete?
  {
    match Find(data, Norm(m.id))
    case None => Err(NoSuchAccount)
    case Some(i) =>
      match Edited(data, i, m)
      case Err(e) => Err(e)
      case Ok(e) => Ok(data[i := e])
  }

  function Apply(max: nat, data: Data, m: Mutation): Result<Data, Error> {
    if Precluded(m).Some? then Err(Precluded(m).value)
    else if m.Register? then Registered(max, data, m.email, m.signup)
    else if m.Delete? then Ok(Without(data, Norm(m.id)))
    else EditedIn(data, m)
  }

  // One transaction: the version it leaves behind. Only register_account may create the store,
  // and a body that raises leaves the file exactly as it was.
  function Outcome(max: nat, file: File, m: Mutation): Result<Data, Error> {
    if Precluded(m).Some? then Err(Precluded(m).value)
    else if file.None? && !m.Register? then Err(NoManifest)
    else Apply(max, if file.None? then [] else file.value, m)
  }

  function Committed(max: nat, file: File, m: Mutation): File {
    match Outcome(max, file, m)
    case Ok(data) => if data == (if file.None? then [] else file.value) then file else Some(data)
    case Err(_) => file
  }

  lemma EditCommits(max: nat, file: File, m: Mutation, i: nat)
    requires file.Some? && !m.Register? && !m.Delete? && Precluded(m).None?
    requires i < |file.value| && Find(file.value, Norm(m.id)) == Some(i)
    ensures match Edited(file.value, i, m)
            case Err(e) => Outcome(max, file, m) == Err(e) && Committed(max, file, m) == file
            case Ok(e) => Outcome(max, file, m).Ok? && Committed(max, file, m) == Some(file.value[i := e])
  {
  }

  // --- what every mutation keeps ---------------------------------------------

  ghost predicate UniqueIds(data: Data) {
    forall i, j :: 0 <= i < j < |data| ==> Norm(data[i].id) != Norm(data[j].id)
  }

  ghost predicate UniqueCustomers(data: Data) {
    forall i, j :: 0 <= i < j < |data| && Given(data[i].polarCustomerId) ==>
      data[i].polarCustomerId != data[j].polarCustomerId
  }

  ghost predicate Sound(data: Data) { UniqueIds(data) && UniqueCustomers(data) }

  lemma {:induction false} HolderIsFound(data: Data, customer: string, besides: string, k: nat)
    requires k < |data| && data[k].polarCustomerId == Some(customer) && data[k].id != besides
    ensures HolderOf(data, customer, besides).Some?
  {
    if k > 0 {
      HolderIsFound(data[1..], customer, besides, k - 1);
    }
  }

  lemma HeadDiffers(data: Data, e: Entry)
    requires Sound(data) && data != [] && e in data[1..]
    ensures Differ(data[0], e)
  {
    var k :| 0 < k < |data| && data[k] == e;
  }

  predicate Differ(a: Entry, b: Entry) {
    Norm(a.id) != Norm(b.id) && (Given(a.polarCustomerId) ==> a.polarCustomerId != b.polarCustomerId)
  }

  lemma ConsKeepsSound(e: Entry, rest: Data)
    requires Sound(rest) && forall x :: x in rest ==> Differ(e, x)
    ensures Sound([e] + rest)
  {
    forall j | 0 < j < |[e] + rest|
      ensures Differ(e, ([e] + rest)[j])
    {
      assert rest[j - 1] in rest;
    }
  }

  lemma {:induction false} DeleteKeepsSound(data: Data, aid: string)
    requires Sound(data)
    ensures Sound(Without(data, aid))
  {
    if data != [] {
      var rest := Without(data[1..], aid);
      DeleteKeepsSound(data[1..], aid);
      if Norm(data[0].id) != aid {
        forall e | e in rest
          ensures Differ(data[0], e)
        {
          HeadDiffers(data, e);
        }
        ConsKeepsSound(data[0], rest);
      }
    }
  }

  lemma EditKeepsSound(data: Data, i: nat, m: Mutation)
    requires Sound(data) && i < |data| && !m.Register? && !m.Delete?
    requires Edited(data, i, m).Ok?
    ensures Edited(data, i, m).value.id == data[i].id && Edited(data, i, m).value.handle == data[i].handle
    ensures Sound(data[i := Edited(data, i, m).value])
  {
    if m.SetPolarCustomerId? {
      forall k | 0 <= k < |data| && k != i
        ensures data[k].polarCustomerId != Some(m.customer)
      {
        assert Norm(data[k].id) != Norm(data[i].id);
        if data[k].polarCustomerId == Some(m.customer) {
          HolderIsFound(data, m.customer, data[i].id, k);
        }
      }
    }
    ReplaceKeepsSound(data, i, Edited(data, i, m).value);
  }

  lemma RegisterKeepsSound(max: nat, data: Data, email: string, s: Signup)
    requires Sound(data) && Registered(max, data, email, s).Ok?
    ensures Sound(Registered(max, data, email, s).value)
  {
    NormIsStable(email);
    var data' := Registered(max, data, email, s).value;
    var at := Find(data, Norm(email));
    if at.Some? {
      ReplaceKeepsSound(data, at.value, data'[at.value]);
    } else {
      assert data' == data + [data'[|data|]];
      assert data'[|data|].polarCustomerId == None;
    }
  }

  lemma ReplaceKeepsSound(data: Data, i: nat, e: Entry)
    requires Sound(data) && i < |data| && Norm(e.id) == Norm(data[i].id)
    requires Given(e.polarCustomerId) ==>
               forall k :: 0 <= k < |data| && k != i ==> data[k].polarCustomerId != e.polarCustomerId
    ensures Sound(data[i := e])
  {
  }

  // Normalized ids stay unique and so do Polar customer ids; the count never grows past the
  // ceiling; and an account keeps its place and its handle until it is deleted.
  lemma MutationsKeepSound(max: nat, data: Data, m: Mutation)
    requires Sound(data) && Apply(max, data, m).Ok?
    ensures Sound(Apply(max, data, m).value)
    ensures |Apply(max, data, m).value| > |data| ==> |Apply(max, data, m).value| <= max
    ensures !m.Delete? ==> KeepsAccounts(data, Apply(max, data, m).value)
  {
    if m.Register? {
      NormIsStable(m.email);
      RegisterKeepsSound(max, data, m.email, m.signup);
    } else if m.Delete? {
      DeleteKeepsSound(data, Norm(m.id));
    } else {
      EditKeepsSound(data, Find(data, Norm(m.id)).value, m);
    }
  }

  ghost predicate KeepsAccounts(data: Data, data': Data) {
    && |data| <= |data'|
    && forall i :: 0 <= i < |data| ==>
         && Norm(data'[i].id) == Norm(data[i].id)
         && (Given(data[i].handle) ==> data'[i].handle == data[i].handle)
  }

  // A re-consent with any handle at all leaves the one the records are sealed under.
  lemma ReconsentKeepsConfiguration(max: nat, data: Data, email: string, s: Signup, i: nat)
    requires Find(data, Norm(email)) == Some(i) && Given(data[i].handle) && Registered(max, data, email, s).Ok?
    ensures var e := Registered(max, data, email, s).value[i];
            && e.handle == data[i].handle && e.settings == data[i].settings
            && (data[i].planStatus.Some? ==> e.planStatus == data[i].planStatus)
            && (Given(data[i].polarCustomerId) ==> e.polarCustomerId == data[i].polarCustomerId)
            && (forall k :: k in data[i].telegram ==> k in e.telegram)
            && (s.chatId.None? && s.botToken.None? ==> e.telegram == data[i].telegram)
  {
  }

  // What was deleted is gone, and only register_account brings an id into existence.
  lemma OnlyRegisterIntroduces(max: nat, data: Data, m: Mutation, aid: string)
    requires Apply(max, data, m).Ok?
    requires Find(data, aid).None? && Find(Apply(max, data, m).value, aid).Some?
    ensures m.Register? && Norm(m.email) == aid
  {
    if m.Register? {
      NormIsStable(m.email);
      if Find(data, Norm(m.email)).Some? {
        SameIdsSameFind(data, Apply(max, data, m).value, aid);
      } else {
        Appended(data, Apply(max, data, m).value, aid);
      }
    } else if !m.Delete? {
      EditedSameId(data, Find(data, Norm(m.id)).value, m);
    }
  }

  lemma SameIdsSameFind(data: Data, data': Data, aid: string)
    requires |data| == |data'| && forall i :: 0 <= i < |data| ==> Norm(data'[i].id) == Norm(data[i].id)
    ensures Find(data, aid).None? <==> Find(data', aid).None?
  {
  }

  lemma Appended(data: Data, data': Data, aid: string)
    requires |data'| == |data| + 1 && data'[..|data|] == data
    requires Find(data, aid).None? && Find(data', aid).Some?
    ensures Norm(data'[|data|].id) == aid
  {
    assert forall k :: 0 <= k < |data| ==> data'[k] == data'[..|data|][k];
  }

  lemma EditedSameId(data: Data, i: nat, m: Mutation)
    requires i < |data| && !m.Register? && !m.Delete? && Edited(data, i, m).Ok?
    ensures Edited(data, i, m).value.id == data[i].id
  {
  }

  lemma TelegramEdited(before: map<string, string>, chatId: Option<string>, token: Option<string>)
    ensures before + TelegramOf(chatId, token)
         == var withChat := if Given(chatId) then before["chat_id" := chatId.value] else before;
            if Given(token) then withChat["token" := token.value] else withChat
  {
  }

  // --- what each writer writes, field by field -------------------------------

  // The account an id names: the first entry that normalizes to it.
  ghost predicate IsFirst(data: Data, accountId: string, at: nat) {
    && at < |data| && Norm(data[at].id) == Norm(accountId)
    && forall i :: 0 <= i < at ==> Norm(data[i].id) != Norm(accountId)
  }

  // Why an account is not found.
  ghost function Absent(file: File): Error { if file.None? then NoManifest else NoSuchAccount }

  // That entry is the one written over, and no other moves or changes.
  ghost predicate Written(before: File, after: File, accountId: string, at: nat, e: Entry) {
    before.Some? && IsFirst(before.value, accountId, at) && after == Some(before.value[at := e])
  }

  ghost predicate Present(file: File, accountId: string) {
    file.Some? && exists e :: e in file.value && Norm(e.id) == Norm(accountId)
  }

  // Blanks go from both ends and no further, and each letter left is lower case.
  lemma NormCutsAndLowers(s: string) returns (i: nat, j: nat)
    ensures i <= j <= |s| && (forall k :: 0 <= k < i || j <= k < |s| ==> Blank(s[k]))
    ensures i < j ==> !Blank(s[i]) && !Blank(s[j - 1])
    ensures |Norm(s)| == j - i
    ensures forall k :: i <= k < j ==>
              Norm(s)[k - i] == if 'A' <= s[k] <= 'Z' then (s[k] as int + 32) as char else s[k]
  {
    i, j := EndsExist(s, 0, |s|);
    StripCuts(s, 0, |s|, i, j);
    assert s[0..|s|] == s;
    forall k | i <= k < j
      ensures Norm(s)[k - i] == if 'A' <= s[k] <= 'Z' then (s[k] as int + 32) as char else s[k]
    {
      assert Strip(s)[k - i] == s[k];
    }
  }

  lemma NewEntryFields(email: string, s: Signup)
    ensures var e := NewEntry(email, s);
            && e.id == email && e.identity == s.identity
            && e.handle == Some(if Given(s.handle) then s.handle.value else s.newHandle)
            && (forall k :: k in e.telegram <==> (k == "chat_id" && Given(s.chatId)) || (k == "token" && Given(s.botToken)))
            && (Given(s.chatId) ==> e.telegram["chat_id"] == s.chatId.value)
            && (Given(s.botToken) ==> e.telegram["token"] == s.botToken.value)
            && e.planStatus == Some(s.planStatus) && e.autoSchedule == Some(s.autoSchedule)
            && e.timezone == Some(if Given(s.timezone) then s.timezone.value else "UTC")
            && e.settings == map[] && e.polarCustomerId.None?
            && e.voiceFile == (if Given(s.voiceFile) then s.voiceFile else None)
            && e.tokenFile == (if Given(s.tokenFile) then s.tokenFile else None)
            && e.stateFile == (if Given(s.stateFile) then s.stateFile else None)
  {
  }

  // What a re-consent takes from the signup, and what stays as the user left it.
  lemma ReconsentedFields(was: Entry, email: string, s: Signup)
    ensures var e := Reconsented(was, NewEntry(email, s));
            && e.id == email && e.identity == s.identity
            && e.handle == (if Given(was.handle) then was.handle else Some(if Given(s.handle) then s.handle.value else s.newHandle))
            && (forall k :: k in e.telegram <==>
                  k in was.telegram || (k == "chat_id" && Given(s.chatId)) || (k == "token" && Given(s.botToken)))
            && (Given(s.chatId) ==> e.telegram["chat_id"] == s.chatId.value)
            && (Given(s.botToken) ==> e.telegram["token"] == s.botToken.value)
            && (forall k :: k in was.telegram && (k == "chat_id" ==> !Given(s.chatId)) && (k == "token" ==> !Given(s.botToken)) ==>
                  e.telegram[k] == was.telegram[k])
            && e.planStatus == (if was.planStatus.Some? then was.planStatus else Some(s.planStatus))
            && e.autoSchedule == (if was.autoSchedule.Some? then was.autoSchedule else Some(s.autoSchedule))
            && e.timezone == (if was.timezone.Some? then was.timezone
                              else if Given(s.timezone) then s.timezone else Some("UTC"))
            && e.settings == was.settings
            && e.polarCustomerId == (if Given(was.polarCustomerId) then was.polarCustomerId else None)
            && e.voiceFile == (if Given(s.voiceFile) then s.voiceFile else if Given(was.voiceFile) then was.voiceFile else None)
            && e.tokenFile == (if Given(s.tokenFile) then s.tokenFile else if Given(was.tokenFile) then was.tokenFile else None)
            && e.stateFile == (if Given(s.stateFile) then s.stateFile else if Given(was.stateFile) then was.stateFile else None)
  {
    NewEntryFields(email, s);
  }

  // What register_account asks of the normalized address and of the handle, the ceiling apart.
  ghost predicate Registrable(id: string, s: Signup) {
    && '@' in id && '/' !in id && '\\' !in id && (forall i :: 0 <= i < |id| - 1 && id[i] == '.' ==> id[i + 1] != '.')
    && IsHandle(if Given(s.handle) then s.handle.value else s.newHandle)
  }

  // Cleared, or each field given taken over and the others kept.
  ghost predicate Targets(before: map<string, string>, after: map<string, string>, chatId: Option<string>,
                          token: Option<string>, clear: bool) {
    if clear then after == map[]
    else
      forall k ::
        && (k in after <==> k in before || (k == "chat_id" && Given(chatId)) || (k == "token" && Given(token)))
        && (k in after ==> after[k] == if k == "chat_id" && Given(chatId) then chatId.value
                                       else if k == "token" && Given(token) then token.value
                                       else before[k])
  }

  // The preferences a save leaves: what was asked over what was there, and the calendar on its own.
  lemma SettingsWritten(was: map<string, string>, asked: map<string, string>, calendar: Option<string>)
    ensures WithCalendar(was + asked, calendar).Err? <==>
              calendar.Some? && Norm(calendar.value) != "" && !CalendarId(Norm(calendar.value))
    ensures WithCalendar(was + asked, calendar).Err? ==> WithCalendar(was + asked, calendar).error == InvalidAccountData
    ensures WithCalendar(was + asked, calendar).Ok? ==>
              var now := WithCalendar(was + asked, calendar).value;
              && (forall k :: k != "community_calendar" || calendar.None? ==>
                    && (k in now <==> k in asked || k in was)
                    && (k in now ==> now[k] == if k in asked then asked[k] else was[k]))
              && (calendar.Some? ==> ("community_calendar" in now <==> Norm(calendar.value) != ""))
              && (calendar.Some? && "community_calendar" in now ==> now["community_calendar"] == Norm(calendar.value))
  {
  }

  // What is left of the manifest is the entries of every other id, in order.
  lemma WithoutPicks(data: Data, aid: string) returns (at: seq<int>)
    ensures Picks(data, at, Without(data, aid))
    ensures forall i :: 0 <= i < |data| ==> (i in at <==> Norm(data[i].id) != aid)
  {
    at := WithoutPicksFrom(data, aid, 0);
    assert data[0..] == data;
  }

  lemma {:induction false} WithoutPicksFrom(data: Data, aid: string, k: nat) returns (at: seq<int>)
    requires k <= |data|
    ensures Picks(data, at, Without(data[k..], aid)) && (at != [] ==> k <= at[0])
    ensures forall i :: k <= i < |data| ==> (i in at <==> Norm(data[i].id) != aid)
    decreases |data| - k
  {
    at := [];
    if k < |data| {
      at := WithoutPicksFrom(data, aid, k + 1);
      assert data[k..][1..] == data[k + 1..];
      if Norm(data[k].id) != aid {
        PicksOneBefore(data, k, at, Without(data[k + 1..], aid));
        at := [k] + at;
      } else {
        assert k !in at;
      }
    }
  }

  lemma {:induction false} HolderIsAnother(data: Data, customer: string, besides: string)
    ensures HolderOf(data, customer, besides).Some? <==>
              exists k :: 0 <= k < |data| && data[k].polarCustomerId == Some(customer) && data[k].id != besides
  {
    if data != [] {
      HolderIsAnother(data[1..], customer, besides);
      if k :| 0 <= k < |data[1..]| && data[1..][k].polarCustomerId == Some(customer) && data[1..][k].id != besides {
        assert data[k + 1] == data[1..][k];
      }
      if k :| 0 < k < |data| && data[k].polarCustomerId == Some(customer) && data[k].id != besides {
        assert data[1..][k - 1] == data[k];
      }
    }
  }

  // --- the module's own loops ------------------------------------------------

  class AccountStore {
    const maxAccounts: nat
    var file: File

    constructor (max: nat, file: File)
      ensures maxAccounts == max && this.file == file
    {
      maxAccounts, this.file := max, file;
    }

    // _entry_for, and the search in register_account
    static method EntryFor(data: Data, aid: string) returns (found: Option<nat>)
      ensures found == Find(data, aid)
    {
      for i := 0 to |data|
        invariant Find(data, aid) == FindFrom(data, aid, i)
      {
        if Norm(data[i].id) == aid {
          return Some(i);
        }
      }
      return None;
    }

    // `at` is where the account stood, or where it came to stand.
    method RegisterAccount(email: string, s: Signup) returns (r: Result<Entry, Error>, ghost at: nat)
      modifies this
      ensures var data, id := if old(file).None? then [] else old(file).value, Norm(email);
              && (r.Ok? ==> file.Some? && at <= |data| && (at < |data| ==> IsFirst(data, email, at)))
              && (r.Ok? && at < |data| ==> file.value == data[at := r.value] && r.value == Reconsented(data[at], NewEntry(id, s)))
              && (r.Ok? && at == |data| ==>
                    !Present(old(file), email) && file.value == data + [r.value] && r.value == NewEntry(id, s))
              && (r.Err? ==> file == old(file))
              && (r.Err? && r.error == AccountLimitReached <==>
                    && Registrable(id, s) && !Present(old(file), email) && |data| >= maxAccounts)
              && (r.Ok? <==> Registrable(id, s) && if Present(old(file), email)
                             then at < |data| && (Given(data[at].handle) ==> IsHandle(data[at].handle.value))
                             else |data| < maxAccounts)
      ensures file == Committed(maxAccounts, old(file), Register(email, s))
      ensures r.Ok? <==> Outcome(maxAccounts, old(file), Register(email, s)).Ok?
      ensures r.Ok? ==> file.Some? && r.value in file.value && r.value.id == Norm(email)
      ensures r.Err? ==> r.error == Outcome(maxAccounts, old(file), Register(email, s)).error
    {
      var id := Norm(email);
      r, at := Err(InvalidAccountData), 0;
      if id == "" || '@' !in id {
        return;
      }
      if '/' in id || '\\' in id || HasDots(id) {
        return;
      }
      var entry := NewEntry(id, s);
      if !IsHandle(entry.handle.value) {
        return;
      }
      var accounts := if file.None? then [] else file.value;
      var found := EntryFor(accounts, id);
      at := if found.Some? then found.value else |accounts|;
      if found.Some? {
        assert accounts[at] in accounts;
        var existing := accounts[found.value];
        if Given(existing.handle) && !IsHandle(existing.handle.value) {
          return;
        }
        entry := Reconsented(existing, entry);
        accounts := accounts[found.value := entry];
      } else {
        if |accounts| >= maxAccounts {
          r := Err(AccountLimitReached);
          return;
        }
        accounts := accounts + [entry];
      }
      assert accounts[at] == entry;
      file := Some(accounts);
      r := Ok(entry);
    }

    // held_by: whether another entry already carries the customer
    static method Held(accounts: Data, customer: string, besides: string) returns (held: bool)
      ensures held <==> HolderOf(accounts, customer, besides).Some?
    {
      held := false;
      for i := 0 to |accounts|
        invariant held || HolderOf(accounts[i..], customer, besides).Some? <==> HolderOf(accounts, customer, besides).Some?
      {
        assert accounts[i..][1..] == accounts[i + 1..];
        if accounts[i].polarCustomerId == Some(customer) && accounts[i].id != besides {
          held := true;
        }
      }
    }

    // The end of a transaction whose body edited one entry: written only if it changed something.
    method Save(accounts: Data, i: nat, entry: Entry)
      requires i < |accounts| && file == Some(accounts)
      modifies `file
      ensures file == Some(accounts[i := entry])
    {
      var edited := accounts[i := entry];
      if edited != accounts {
        file := Some(edited);
      }
    }

    // _entry_for inside an open transaction
    method Located(accountId: string) returns (at: Result<nat, Error>)
      ensures if Present(file, accountId) then at.Ok? && IsFirst(file.value, accountId, at.value) else at == Err(Absent(file))
      ensures file.None? ==> at == Err(NoManifest)
      ensures file.Some? ==> at == match Find(file.value, Norm(accountId))
                               case None => Err(NoSuchAccount)
                               case Some(i) => Ok(i)
    {
      if file.None? {
        return Err(NoManifest);
      }
      var found := EntryFor(file.value, Norm(accountId));
      if found.None? {
        return Err(NoSuchAccount);
      }
      return Ok(found.value);
    }

    method SetPolar(accountId: string, customer: string) returns (r: Result<Entry, Error>, ghost at: nat)
      modifies this
      ensures r.Ok? ==> Written(old(file), file, accountId, at, r.value)
      ensures r.Ok? ==> r.value == old(file).value[at].(polarCustomerId := Some(customer))
      ensures r.Err? ==> file == old(file)
      ensures customer == "" ==> r == Err(Misused)
      ensures customer != "" && !Present(old(file), accountId) ==> r == Err(Absent(old(file)))
      ensures customer != "" && Present(old(file), accountId) ==>
                && IsFirst(old(file).value, accountId, at)
                && if exists e :: e in old(file).value && e.polarCustomerId == Some(customer) && e.id != old(file).value[at].id
                   then r == Err(InvalidAccountData) else r.Ok?
      ensures file == Committed(maxAccounts, old(file), SetPolarCustomerId(accountId, customer))
      ensures r.Ok? <==> Outcome(maxAccounts, old(file), SetPolarCustomerId(accountId, customer)).Ok?
      ensures r.Err? ==> r.error == Outcome(maxAccounts, old(file), SetPolarCustomerId(accountId, customer)).error
    {
      at := 0;
      if customer == "" {
        r := Err(Misused);
        return;
      }
      var found := Located(accountId);
      if found.Err? {
        r := Err(found.error);
        return;
      }
      at := found.value;
      var accounts := file.value;
      var held := Held(accounts, customer, accounts[found.value].id);
      HolderIsAnother(accounts, customer, accounts[found.value].id);
      if held {
        r := Err(InvalidAccountData);
        return;
      }
      var entry := accounts[found.value].(polarCustomerId := Some(customer));
      Save(accounts, found.value, entry);
      r := Ok(entry);
    }

    // What it returns is the status the account had.
    method SetPlan(accountId: string, status: string) returns (r: Result<string, Error>, ghost at: nat)
      modifies this
      ensures r.Ok? ==> old(file).Some? && at < |old(file).value|
      ensures r.Ok? ==> Written(old(file), file, accountId, at, old(file).value[at].(planStatus := Some(status)))
      ensures r.Ok? ==> r.value == if old(file).value[at].planStatus.Some? then old(file).value[at].planStatus.value else "active"
      ensures r.Err? ==> file == old(file)
      ensures status != "active" && status != "inactive" ==> r == Err(InvalidAccountData)
      ensures status == "active" || status == "inactive" ==>
                if Present(old(file), accountId) then r.Ok? else r == Err(Absent(old(file)))
      ensures file == Committed(maxAccounts, old(file), SetPlanStatus(accountId, status))
      ensures r.Ok? <==> Outcome(maxAccounts, old(file), SetPlanStatus(accountId, status)).Ok?
      ensures r.Err? ==> r.error == Outcome(maxAccounts, old(file), SetPlanStatus(accountId, status)).error
    {
      at := 0;
      if status != "active" && status != "inactive" {
        r := Err(InvalidAccountData);
        return;
      }
      var found := Located(accountId);
      if found.Err? {
        r := Err(found.error);
        return;
      }
      at := found.value;
      var accounts := file.value;
      var entry := accounts[found.value];
      var prior := if entry.planStatus.Some? then entry.planStatus.value else "active";
      entry := entry.(planStatus := Some(status));
      Save(accounts, found.value, entry);
      r := Ok(prior);
    }

    // The block as set_telegram leaves it.
    static method Retargeted(before: map<string, string>, chatId: Option<string>, token: Option<string>, clear: bool)
      returns (telegram: map<string, string>)
      ensures Targets(before, telegram, chatId, token, clear)
      ensures telegram == if clear then map[] else before + TelegramOf(chatId, token)
    {
      telegram := map[];
      if clear {
        return;
      }
      telegram := before;
      if Given(chatId) {
        telegram := telegram["chat_id" := chatId.value];
      }
      if Given(token) {
        telegram := telegram["token" := token.value];
      }
      TelegramEdited(before, chatId, token);
    }

    method SetTarget(accountId: string, chatId: Option<string>, token: Option<string>, clear: bool)
      returns (r: Result<Entry, Error>, ghost at: nat)
      modifies this
      ensures r.Ok? ==> Written(old(file), file, accountId, at, r.value)
      ensures r.Ok? ==> r.value == old(file).value[at].(telegram := r.value.telegram)
      ensures r.Ok? ==> Targets(old(file).value[at].telegram, r.value.telegram, chatId, token, clear)
      ensures r.Err? ==> file == old(file)
      ensures if !clear && !Given(chatId) && !Given(token) then r == Err(Misused)
              else if Present(old(file), accountId) then r.Ok? else r == Err(Absent(old(file)))
      ensures file == Committed(maxAccounts, old(file), SetTelegram(accountId, chatId, token, clear))
      ensures r.Ok? <==> Outcome(maxAccounts, old(file), SetTelegram(accountId, chatId, token, clear)).Ok?
      ensures r.Err? ==> r.error == Outcome(maxAccounts, old(file), SetTelegram(accountId, chatId, token, clear)).error
    {
      at := 0;
      if !clear && !Given(chatId) && !Given(token) {
        r := Err(Misused);
        return;
      }
      var found := Located(accountId);
      if found.Err? {
        r := Err(found.error);
        return;
      }
      at := found.value;
      var accounts := file.value;
      var telegram := Retargeted(accounts[found.value].telegram, chatId, token, clear);
      var entry := accounts[found.value].(telegram := telegram);
      Save(accounts, found.value, entry);
      r := Ok(entry);
    }

    method SetVoiceFile(accountId: string, voiceFile: Option<string>) returns (r: Result<Entry, Error>, ghost at: nat)
      modifies this
      ensures r.Ok? ==> Written(old(file), file, accountId, at, r.value)
      ensures r.Ok? ==> r.value == old(file).value[at].(voiceFile := voiceFile)
      ensures r.Err? ==> file == old(file)
      ensures if voiceFile == Some("") then r == Err(Misused)
              else if Present(old(file), accountId) then r.Ok? else r == Err(Absent(old(file)))
      ensures file == Committed(maxAccounts, old(file), SetVoice(accountId, voiceFile))
      ensures r.Ok? <==> Outcome(maxAccounts, old(file), SetVoice(accountId, voiceFile)).Ok?
      ensures r.Err? ==> r.error == Outcome(maxAccounts, old(file), SetVoice(accountId, voiceFile)).error
    {
      at := 0;
      if voiceFile == Some("") {
        r := Err(Misused);
        return;
      }
      var found := Located(accountId);
      if found.Err? {
        r := Err(found.error);
        return;
      }
      at := found.value;
      var accounts := file.value;
      var entry := accounts[found.value].(voiceFile := voiceFile);
      Save(accounts, found.value, entry);
      r := Ok(entry);
    }

    method SetPreferences(accountId: string, timezone: Option<string>, autoSchedule: Option<bool>,
                          asked: map<string, string>, offered: set<string>, calendar: Option<string>)
      returns (r: Result<Entry, Error>, ghost at: nat)
      modifies this
      ensures r.Ok? ==> Written(old(file), file, accountId, at, r.value)
      ensures r.Ok? ==>
                var was := old(file).value[at];
                && r.value == was.(timezone := if timezone.Some? then timezone else was.timezone,
                                   autoSchedule := if autoSchedule.Some? then autoSchedule else was.autoSchedule,
                                   settings := r.value.settings)
                && WithCalendar(was.settings + asked, calendar) == Ok(r.value.settings)
      ensures r.Err? ==> file == old(file)
      ensures if timezone.None? && autoSchedule.None? && asked == map[] && calendar.None? then r == Err(Misused)
              else if "inference_provider" in asked && asked["inference_provider"] !in offered then r == Err(Misused)
              else if !Present(old(file), accountId) then r == Err(Absent(old(file)))
              else if calendar.Some? && Norm(calendar.value) != "" && !CalendarId(Norm(calendar.value))
              then r == Err(InvalidAccountData) else r.Ok?
      ensures var m := SetSettings(accountId, timezone, autoSchedule, asked, offered, calendar);
              && file == Committed(maxAccounts, old(file), m)
              && (r.Ok? <==> Outcome(maxAccounts, old(file), m).Ok?)
              && (r.Err? ==> r.error == Outcome(maxAccounts, old(file), m).error)
    {
      at := 0;
      if timezone.None? && autoSchedule.None? && asked == map[] && calendar.None? {
        r := Err(Misused);
        return;
      }
      if PROVIDER in asked && asked[PROVIDER] !in offered {
        r := Err(Misused);
        return;
      }
      var found := Located(accountId);
      if found.Err? {
        r := Err(found.error);
        return;
      }
      at := found.value;
      EditCommits(maxAccounts, file, SetSettings(accountId, timezone, autoSchedule, asked, offered, calendar), at);
      var accounts := file.value;
      var entry := accounts[found.value];
      entry := entry.(settings := entry.settings + asked);
      if timezone.Some? {
        entry := entry.(timezone := timezone);
      }
      if autoSchedule.Some? {
        entry := entry.(autoSchedule := autoSchedule);
      }
      var settings := WithCalendar(entry.settings, calendar);
      if settings.Err? {
        r := Err(settings.error);
        return;
      }
      entry := entry.(settings := settings.value);
      Save(accounts, found.value, entry);
      r := Ok(entry);
    }

    // The two comprehensions in delete_account: what goes, and what stays.
    static method Dropping(accounts: Data, aid: string) returns (kept: Data)
      ensures kept == Without(accounts, aid)
    {
      kept := [];
      for i := 0 to |accounts|
        invariant kept + Without(accounts[i..], aid) == Without(accounts, aid)
      {
        DroppingStep(kept, accounts, i, aid);
        if Norm(accounts[i].id) != aid {
          kept := kept + [accounts[i]];
        }
      }
    }

    method DeleteAccount(accountId: string) returns (removed: bool)
      requires file.Some?
      modifies this
      ensures file == Committed(maxAccounts, old(file), Delete(accountId)) && file.Some?
      ensures removed <==> exists e :: e in old(file).value && Norm(e.id) == Norm(accountId)
      ensures forall e :: e in file.value <==> e in old(file).value && Norm(e.id) != Norm(accountId)
    {
      var gone := EntryFor(file.value, Norm(accountId));
      var kept := Dropping(file.value, Norm(accountId));
      removed := gone.Some?;
      if kept != file.value {
        file := Some(kept);
      }
    }
  }

  lemma DroppingStep(kept: Data, accounts: Data, i: nat, aid: string)
    requires i < |accounts|
    ensures kept + Without(accounts[i..], aid)
         == (if Norm(accounts[i].id) == aid then kept else kept + [accounts[i]]) + Without(accounts[i + 1..], aid)
  {
    assert accounts[i..][1..] == accounts[i + 1..];
  }
}
