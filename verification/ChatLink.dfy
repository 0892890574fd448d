/** backend/accounts/chat_link.py: a chat is only ever detached by a code posted from it, and only
    ever attached by a code posted from the new one. Calls are serial; what happens between them
    (posts, time, registrations, deletions, restarts, the operator) is any sequence of events. */
module ChatLink {
  import opened Common

  const PENDING_TTL: int := 900

  datatype Change = Link | Unlink

  datatype Refusal = NoSuchAccount | NotConfigured | CodeExpired | ChangedMeanwhile
                   | CodeNotSeen | CodeNotSeenFromChat | CodeNotDelivered

  datatype Entry = Entry(action: Change, code: string, since: int, expires: int, chat: Option<string>)

  datatype Post = Post(chat: string, text: string, when: int)

  type Targets = map<string, Option<string>>

  datatype World = World(targets: Targets, pending: map<string, Entry>, posts: seq<Post>, clock: int)

  // `refusal` says why a code cannot go out: no bot is configured, or a code that is not shown to
  // the caller did not reach the mailbox. `view` is what getUpdates returned, newest first.
  datatype Event =
    | Begin(id: string, code: string, refusal: Option<Refusal>)
    | Finish(id: string, view: seq<Post>)
    | Forget(id: string)
    | ForceUnlink(id: string)
    | Posted(chat: string, text: string)
    | Pass(to: int)
    | Register(id: string)
    | Delete(id: string)
    | Restart

  // action_for
  function ActionFor(target: Option<string>): Change { if target.Some? then Unlink else Link }

  // _prune
  function Live(pending: map<string, Entry>, now: int): map<string, Entry> {
    map k | k in pending && pending[k].expires > now :: pending[k]
  }

  predicate Mentions(text: string, code: string) {
    code <= text || (text != "" && Mentions(text[1..], code))
  }

  // The code stands somewhere in the text.
  lemma {:induction false} MentionsIff(text: string, code: string)
    ensures Mentions(text, code) <==> exists before, after :: text == before + code + after
  {
    if code <= text {
      assert text == "" + code + text[|code|..];
    } else if text != "" {
      MentionsIff(text[1..], code);
      if Mentions(text[1..], code) {
        var before, after :| text[1..] == before + code + after;
        assert text == ([text[0]] + before) + code + after;
      }
      if before, after :| text == before + code + after {
        assert before != [];
        assert text[1..] == before[1..] + code + after;
      }
    }
  }

  predicate Answers(p: Post, code: string, since: int, chat: Option<string>) {
    Mentions(p.text, code) && p.when >= since && (chat.None? || p.chat == chat.value)
  }

  // _posted_since
  function PostedSince(view: seq<Post>, code: string, since: int, chat: Option<string>): Option<string> {
    if view == [] then None
    else if Answers(view[0], code, since, chat) then Some(view[0].chat)
    else PostedSince(view[1..], code, since, chat)
  }

  lemma {:induction false} PostedSinceIsExact(view: seq<Post>, code: string, since: int, chat: Option<string>)
    ensures var r := PostedSince(view, code, since, chat);
            && (r.Some? ==> exists p :: p in view && Answers(p, code, since, chat) && p.chat == r.value)
            && (r.None? ==> forall p :: p in view ==> !Answers(p, code, since, chat))
  {
    if view != [] {
      PostedSinceIsExact(view[1..], code, since, chat);
      assert forall p :: p in view <==> p == view[0] || p in view[1..];
    }
  }

  // finish(), as an answer: the new target, or why not
  function Finished(w: World, id: string, view: seq<Post>): Result<Option<string>, Refusal> {
    var live := Live(w.pending, w.clock);
    if id !in live then Err(CodeExpired)
    else
      var entry := live[id];
      if id !in w.targets then Err(NoSuchAccount)
      else if ActionFor(w.targets[id]) != entry.action || w.targets[id] != entry.chat then Err(ChangedMeanwhile)
      else if entry.action.Link? then
        match PostedSince(view, entry.code, entry.since, None)
        case None => Err(CodeNotSeen)
        case Some(chat) => Ok(Some(chat))
      else if PostedSince(view, entry.code, entry.since, entry.chat).None? then Err(CodeNotSeenFromChat)
      else Ok(None)
  }

  function Begun(w: World, id: string, refusal: Option<Refusal>): Option<Refusal> {
    if id !in w.targets then Some(NoSuchAccount) else refusal
  }

  function Step(w: World, e: Event): World {
    match e
    case Begin(id, code, refusal) =>
      if Begun(w, id, refusal).Some? then w
      else
        var target := w.targets[id];
        var entry := Entry(ActionFor(target), code, w.clock, w.clock + PENDING_TTL, target);
        w.(pending := Live(w.pending, w.clock)[id := entry])
    case Finish(id, view) =>
      var live := Live(w.pending, w.clock);
      (match Finished(w, id, view)
       case Ok(target) => w.(pending := live - {id}, targets := w.targets[id := target])
       case Err(ChangedMeanwhile) => w.(pending := live - {id})
       case Err(_) => w.(pending := live))
    case Forget(id) => w.(pending := w.pending - {id})
    case ForceUnlink(id) =>
      w.(pending := w.pending - {id}, targets := if id in w.targets then w.targets[id := None] else w.targets)
    case Posted(chat, text) => w.(posts := [Post(chat, text, w.clock)] + w.posts)
    case Pass(to) => if to > w.clock then w.(clock := to) else w
    case Register(id) => if id in w.targets then w else w.(targets := w.targets[id := None])
    case Delete(id) => w.(targets := w.targets - {id})
    case Restart => w.(pending := map[])
  }

  function Run(w: World, es: seq<Event>): World {
    if es == [] then w else Step(Run(w, es[..|es| - 1]), es[|es| - 1])
  }

  // The world before step i.
  function Before(w: World, es: seq<Event>, i: nat): World
    requires i <= |es|
  {
    Run(w, es[..i])
  }

  lemma StepAt(w: World, es: seq<Event>, i: nat)
    requires i < |es|
    ensures Before(w, es, i + 1) == Step(Before(w, es, i), es[i])
  {
    assert es[..i + 1][..i] == es[..i];
  }

  // Telegram only returns what somebody posted.
  ghost predicate Honest(w: World, es: seq<Event>) {
    forall i :: 0 <= i < |es| && es[i].Finish? ==>
      forall p :: p in es[i].view ==> p in Before(w, es, i).posts
  }

  ghost predicate Completes(w: World, es: seq<Event>, k: nat, id: string) {
    k < |es| && es[k].Finish? && es[k].id == id && Finished(Before(w, es, k), id, es[k].view).Ok?
  }

  // --- where pending entries and posts come from ------------------------------

  // Step i is the begin() that made `entry`, with the target it then had.
  ghost predicate Mints(w: World, es: seq<Event>, i: nat, id: string, entry: Entry) {
    && i < |es| && es[i] == Begin(id, entry.code, None)
    && var at := Before(w, es, i);
       && id in at.targets && at.targets[id] == entry.chat && at.clock == entry.since
       && entry.action == ActionFor(entry.chat) && entry.expires == entry.since + PENDING_TTL
  }

  lemma {:induction false} PendingWasBegun(w: World, es: seq<Event>, k: nat, id: string)
    requires k <= |es| && id in Before(w, es, k).pending
    ensures var entry := Before(w, es, k).pending[id];
            || (id in w.pending && w.pending[id] == entry)
            || (exists i :: 0 <= i < k && Mints(w, es, i, id, entry))
  {
    if k == 0 {
      assert es[..0] == [];
    } else {
      StepAt(w, es, k - 1);
      var before, after := Before(w, es, k - 1), Before(w, es, k);
      if id in before.pending && before.pending[id] == after.pending[id] {
        PendingWasBegun(w, es, k - 1, id);
      } else {
        assert Mints(w, es, k - 1, id, after.pending[id]);
      }
    }
  }

  lemma {:induction false} PostWasPosted(w: World, es: seq<Event>, k: nat, p: Post)
    requires k <= |es| && w.posts == [] && p in Before(w, es, k).posts
    ensures exists j :: 0 <= j < k && es[j] == Posted(p.chat, p.text) && Before(w, es, j).clock == p.when
  {
    if k > 0 {
      StepAt(w, es, k - 1);
      if p in Before(w, es, k - 1).posts {
        PostWasPosted(w, es, k - 1, p);
      } else {
        assert es[k - 1] == Posted(p.chat, p.text);
      }
    }
  }

  // --- safety ----------------------------------------------------------------

  // No single step, the operator's included, takes a target from one chat to another.
  lemma NeverReplacedDirectly(w: World, e: Event, id: string)
    requires id in w.targets && id in Step(w, e).targets
    requires w.targets[id].Some? && Step(w, e).targets[id].Some?
    ensures Step(w, e).targets[id] == w.targets[id]
  {
  }

  // Only a finish that succeeds changes a target, besides the operator and the account's own life.
  lemma OnlyFinishChanges(w: World, e: Event, id: string)
    requires id in w.targets && e != ForceUnlink(id)
    requires id in Step(w, e).targets && Step(w, e).targets[id] != w.targets[id]
    ensures e.Finish? && e.id == id && Finished(w, id, e.view) == Ok(Step(w, e).targets[id])
  {
  }

  // Chat `chat` answered, within its life, a code that begin() made for this account at step i.
  ghost predicate Answered(w: World, es: seq<Event>, i: nat, j: nat, k: nat, id: string, chat: string) {
    && i < k <= |es| && j < k
    && es[i].Begin? && es[i].id == id && es[i].refusal.None?
    && es[j].Posted? && es[j].chat == chat && Mentions(es[j].text, es[i].code)
    && Before(w, es, i).clock <= Before(w, es, j).clock
    && Before(w, es, k).clock < Before(w, es, i).clock + PENDING_TTL
  }

  lemma CompletionWasAnswered(w: World, es: seq<Event>, k: nat, id: string) returns (i: nat, j: nat, chat: string)
    requires w.posts == [] && w.pending == map[] && Honest(w, es) && Completes(w, es, k, id)
    ensures Answered(w, es, i, j, k, id, chat)
    ensures id in Before(w, es, i).targets && id in Before(w, es, k).targets
    ensures Before(w, es, i).targets[id] == Before(w, es, k).targets[id]
    ensures id in Before(w, es, k).pending && es[i].code == Before(w, es, k).pending[id].code
    ensures var target := Before(w, es, k).targets[id];
            Finished(Before(w, es, k), id, es[k].view) == Ok(if target.Some? then None else Some(chat))
            && (target.Some? ==> chat == target.value)
  {
    var at := Before(w, es, k);
    var entry := at.pending[id];
    PendingWasBegun(w, es, k, id);
    i :| 0 <= i < k && Mints(w, es, i, id, entry);
    var wanted := if entry.action.Link? then None else entry.chat;
    PostedSinceIsExact(es[k].view, entry.code, entry.since, wanted);
    chat := PostedSince(es[k].view, entry.code, entry.since, wanted).value;
    var p :| p in es[k].view && Answers(p, entry.code, entry.since, wanted) && p.chat == chat;
    PostWasPosted(w, es, k, p);
    j :| 0 <= j < k && es[j] == Posted(p.chat, p.text) && Before(w, es, j).clock == p.when;
  }

  // A target goes from A to none only after A itself posted the code minted while A was the
  // target, no earlier than that begin() and before the pending entry expired.
  lemma UnlinkNeedsTheOldChat(w: World, es: seq<Event>, k: nat, id: string, a: string)
    requires w.posts == [] && w.pending == map[] && Honest(w, es) && k < |es|
    requires id in Before(w, es, k).targets && Before(w, es, k).targets[id] == Some(a)
    requires id in Before(w, es, k + 1).targets && Before(w, es, k + 1).targets[id] == None
    requires es[k] != ForceUnlink(id)
    ensures exists i, j :: Answered(w, es, i, j, k, id, a)
              && id in Before(w, es, i).targets && Before(w, es, i).targets[id] == Some(a)
  {
    StepAt(w, es, k);
    OnlyFinishChanges(Before(w, es, k), es[k], id);
    var i, j, chat := CompletionWasAnswered(w, es, k, id);
    assert Answered(w, es, i, j, k, id, a);
  }

  // And from none to B only after B posted a code minted while there was no target.
  lemma LinkNeedsTheNewChat(w: World, es: seq<Event>, k: nat, id: string, b: string)
    requires w.posts == [] && w.pending == map[] && Honest(w, es) && k < |es|
    requires id in Before(w, es, k).targets && Before(w, es, k).targets[id] == None
    requires id in Before(w, es, k + 1).targets && Before(w, es, k + 1).targets[id] == Some(b)
    ensures exists i, j :: Answered(w, es, i, j, k, id, b)
              && id in Before(w, es, i).targets && Before(w, es, i).targets[id] == None
  {
    StepAt(w, es, k);
    OnlyFinishChanges(Before(w, es, k), es[k], id);
    var i, j, chat := CompletionWasAnswered(w, es, k, id);
    assert Answered(w, es, i, j, k, id, b);
  }

  lemma SilentChatOutlastsAStep(w: World, es: seq<Event>, k: nat, id: string, a: string)
    requires w.posts == [] && w.pending == map[] && Honest(w, es) && k < |es|
    requires id in Before(w, es, k).targets && Before(w, es, k).targets[id] == Some(a)
    requires es[k] != ForceUnlink(id) && es[k] != Delete(id)
    requires forall j :: 0 <= j < k ==> !(es[j].Posted? && es[j].chat == a)
    ensures id in Before(w, es, k + 1).targets && Before(w, es, k + 1).targets[id] == Some(a)
  {
    StepAt(w, es, k);
    if Completes(w, es, k, id) {
      var i, j, chat := CompletionWasAnswered(w, es, k, id);
      assert false;
    }
  }

  // However the rest of the box is driven, a chat that posts nothing stays the target.
  lemma {:induction false} SilentChatKeepsItsTarget(w: World, es: seq<Event>, k: nat, m: nat, id: string, a: string)
    requires w.posts == [] && w.pending == map[] && Honest(w, es) && k <= m <= |es|
    requires id in Before(w, es, k).targets && Before(w, es, k).targets[id] == Some(a)
    requires forall i :: 0 <= i < |es| ==> es[i] != ForceUnlink(id) && es[i] != Delete(id)
    requires forall i :: 0 <= i < |es| ==> !(es[i].Posted? && es[i].chat == a)
    ensures id in Before(w, es, m).targets && Before(w, es, m).targets[id] == Some(a)
    decreases m
  {
    if k < m {
      SilentChatKeepsItsTarget(w, es, k, m - 1, id, a);
      SilentChatOutlastsAStep(w, es, m - 1, id, a);
    }
  }

  // new_link_code: forty random bits, taken as never repeating.
  ghost predicate FreshCodes(es: seq<Event>) {
    forall i, j :: 0 <= i < j < |es| && es[i].Begin? && es[j].Begin? ==> es[i].code != es[j].code
  }

  lemma {:induction false} RunConcat(w: World, a: seq<Event>, b: seq<Event>)
    ensures Run(w, a + b) == Run(Run(w, a), b)
    decreases |b|
  {
    if b == [] {
      assert a + b == a;
    } else {
      var front, last := b[..|b| - 1], b[|b| - 1];
      RunConcat(w, a, front);
      assert (a + b)[..|a + b| - 1] == a + front;
      assert (a + b)[|a + b| - 1] == last;
    }
  }

  lemma RunSplits(w: World, es: seq<Event>, k: nat, m: nat)
    requires k <= m <= |es|
    ensures Before(w, es, m) == Run(Before(w, es, k), es[k..m])
  {
    assert es[..m] == es[..k] + es[k..m];
    RunConcat(w, es[..k], es[k..m]);
  }

  // The entry a finish completes is gone: an entry pending later is from a later begin().
  lemma LaterEntryIsNewer(w: World, es: seq<Event>, k: nat, m: nat, id: string)
    requires Completes(w, es, k, id) && k < m <= |es| && id in Before(w, es, m).pending
    ensures exists i :: k < i < m && es[i].Begin? && es[i].code == Before(w, es, m).pending[id].code
  {
    StepAt(w, es, k);
    var mid := Before(w, es, k + 1);
    var rest := es[k + 1..m];
    RunSplits(w, es, k + 1, m);
    assert rest[..|rest|] == rest;
    assert Before(mid, rest, |rest|) == Before(w, es, m);
    PendingWasBegun(mid, rest, |rest|, id);
    var i :| 0 <= i < |rest| && Mints(mid, rest, i, id, Before(w, es, m).pending[id]);
    assert es[k + 1 + i] == rest[i];
  }

  // Each code completes at most one change.
  lemma CompletesAtMostOnce(w: World, es: seq<Event>, k: nat, m: nat, id: string)
    requires w.posts == [] && w.pending == map[] && Honest(w, es) && FreshCodes(es)
    requires k < m && Completes(w, es, k, id) && Completes(w, es, m, id)
    ensures Before(w, es, k).pending[id].code != Before(w, es, m).pending[id].code
  {
    var i, _, _ := CompletionWasAnswered(w, es, k, id);
    LaterEntryIsNewer(w, es, k, m, id);
    var i' :| k < i' < m && es[i'].Begin? && es[i'].code == Before(w, es, m).pending[id].code;
    assert es[i].code != es[i'].code;
  }

  // --- a change that is answered goes through --------------------------------

  // Exactly when finish() succeeds.
  lemma FinishSucceedsIff(w: World, id: string, view: seq<Post>)
    ensures Finished(w, id, view).Ok? <==>
              && id in w.pending && w.pending[id].expires > w.clock && id in w.targets
              && var e := w.pending[id];
                 && w.targets[id] == e.chat && e.action == ActionFor(e.chat)
                 && exists p :: p in view && Answers(p, e.code, e.since, e.chat)
  {
    if id in w.pending {
      var e := w.pending[id];
      PostedSinceIsExact(view, e.code, e.since, e.chat);
    }
  }

  lemma AnsweredChangeCompletes(w: World, id: string, code: string, chat: string, text: string, at: int, done: int)
    requires id in w.targets && w.clock <= at <= done < w.clock + PENDING_TTL && Mentions(text, code)
    requires w.targets[id].Some? ==> chat == w.targets[id].value
    ensures var w1 := Step(Step(Step(Step(w, Begin(id, code, None)), Pass(at)), Posted(chat, text)), Pass(done));
            Step(w1, Finish(id, w1.posts)).targets == w.targets[id := if w.targets[id].Some? then None else Some(chat)]
  {
    var begun := Step(w, Begin(id, code, None));
    var entry := Entry(ActionFor(w.targets[id]), code, w.clock, w.clock + PENDING_TTL, w.targets[id]);
    assert begun.pending[id] == entry && begun.targets == w.targets;
    var posted := Step(Step(begun, Pass(at)), Posted(chat, text));
    assert posted.posts[0] == Post(chat, text, at) && posted.pending == begun.pending;
    NewestPostFinishes(Step(posted, Pass(done)), id);
  }

  // A live entry that still describes the account, and whose newest post answers it, finishes.
  lemma NewestPostFinishes(w: World, id: string)
    requires id in w.pending && id in w.targets && w.pending[id].expires > w.clock
    requires w.pending[id].chat == w.targets[id] && w.pending[id].action == ActionFor(w.targets[id])
    requires w.posts != [] && Answers(w.posts[0], w.pending[id].code, w.pending[id].since, w.pending[id].chat)
    ensures Finished(w, id, w.posts) == Ok(if w.targets[id].Some? then None else Some(w.posts[0].chat))
  {
    assert Live(w.pending, w.clock)[id] == w.pending[id];
  }

  // --- the calls as they are made --------------------------------------------

  class ChatLinks {
    var targets: Targets                 // the manifest's telegram blocks
    var pending: map<string, Entry>
    var now: int
    ghost var posts: seq<Post>

    ghost function Abs(): World
      reads this
    {
      World(targets, pending, posts, now)
    }

    constructor (targets: Targets, start: int)
      ensures Abs() == World(targets, map[], [], start)
    {
      this.targets, pending, posts, now := targets, map[], [], start;
    }

    method Prune()
      modifies `pending
      ensures pending == Live(old(pending), now)
    {
      ghost var before := pending;
      var keys := pending.Keys;
      while keys != {}
        invariant keys <= pending.Keys <= before.Keys
        invariant forall k :: k in pending ==> pending[k] == before[k]
        invariant forall k :: k in before && k !in keys ==> (k in pending <==> before[k].expires > now)
        decreases |keys|
      {
        var key :| key in keys;
        keys := keys - {key};
        if pending[key].expires <= now {
          pending := pending - {key};
        }
      }
    }

    // begin(); `refusal` is what the bot's configuration or the mailbox said
    method Begin(id: string, code: string, refusal: Option<Refusal>) returns (r: Result<Change, Refusal>)
      modifies `pending
      ensures Abs() == Step(old(Abs()), Event.Begin(id, code, refusal))
      ensures r == if id !in targets then Err(NoSuchAccount)
                   else if refusal.Some? then Err(refusal.value)
                   else Ok(if targets[id].Some? then Unlink else Link)
      ensures r.Err? ==> pending == old(pending)
      ensures r.Ok? ==>
                && id in pending && pending[id] == Entry(r.value, code, now, now + 900, targets[id])
                && forall k :: k != id ==> Kept(old(pending), pending, k)
    {
      if id !in targets { return Err(NoSuchAccount); }
      if refusal.Some? { return Err(refusal.value); }
      var action := ActionFor(targets[id]);
      Prune();
      pending := pending[id := Entry(action, code, now, now + PENDING_TTL, targets[id])];
      return Ok(action);
    }

    // An entry that has not expired is where it was, and one that has is gone.
    ghost predicate Kept(before: map<string, Entry>, after: map<string, Entry>, k: string)
      reads `now
    {
      && (k in after <==> k in before && before[k].expires > now)
      && (k in after ==> after[k] == before[k])
    }

    static method FirstAnswer(view: seq<Post>, code: string, since: int, chat: Option<string>)
      returns (found: Option<string>)
      ensures found == PostedSince(view, code, since, chat)
    {
      for i := 0 to |view|
        invariant PostedSince(view, code, since, chat) == PostedSince(view[i..], code, since, chat)
      {
        var p := view[i];
        if p.when < since { continue; }
        if chat.Some? && p.chat != chat.value { continue; }
        if !Mentions(p.text, code) { continue; }
        return Some(p.chat);
      }
      return None;
    }

    // finish()
    method Finish(id: string, view: seq<Post>) returns (r: Result<Option<string>, Refusal>)
      modifies `pending, `targets
      ensures Abs() == Step(old(Abs()), Event.Finish(id, view))
      ensures r == Finished(old(Abs()), id, view)
      // Other accounts' pending changes and targets stay; this one's entry is spent, unless the code
      // has not been seen yet.
      ensures forall k :: k != id ==> Kept(old(pending), pending, k)
      ensures forall k :: k != id ==> (k in targets <==> k in old(targets)) && (k in targets ==> targets[k] == old(targets)[k])
      ensures r.Ok? ==> id in old(targets) && id in targets && targets[id] == r.value && id !in pending
      ensures r.Err? ==> targets == old(targets)
      ensures r == Err(ChangedMeanwhile) ==> id !in pending
      ensures r.Err? && r.error != ChangedMeanwhile ==> Kept(old(pending), pending, id)
    {
      Prune();
      if id !in pending { return Err(CodeExpired); }
      var entry := pending[id];
      if id !in targets { return Err(NoSuchAccount); }
      if ActionFor(targets[id]) != entry.action || targets[id] != entry.chat {
        pending := pending - {id};
        return Err(ChangedMeanwhile);
      }
      if entry.action.Link? {
        var chat := FirstAnswer(view, entry.code, entry.since, None);
        if chat.None? { return Err(CodeNotSeen); }
        pending := pending - {id};
        targets := targets[id := chat];
        return Ok(chat);
      }
      var chat := FirstAnswer(view, entry.code, entry.since, entry.chat);
      if chat.None? { return Err(CodeNotSeenFromChat); }
      pending := pending - {id};
      targets := targets[id := None];
      return Ok(None);
    }

    // force_unlink(): the operator's, without the proof
    method ForceUnlink(id: string)
      modifies `pending, `targets
      ensures Abs() == Step(old(Abs()), Event.ForceUnlink(id))
      ensures id !in pending
      ensures forall k :: k != id ==> (k in pending <==> k in old(pending)) && (k in pending ==> pending[k] == old(pending)[k])
      ensures targets.Keys == old(targets).Keys
      ensures forall k :: k in targets ==> targets[k] == if k == id then None else old(targets)[k]
    {
      pending := pending - {id};
      if id in targets {
        targets := targets[id := None];
      }
    }
  }
}
