/** frontend/session.py: the `<kid>:<value>:<iat>:<sig>` codec every cookie and token goes
    through, and the cookies that hold several of them. The MAC is ideal: a function whose
    output is hex, and a table of what was signed that nobody else can add to. */
module SignedValues {
  import opened Common

  // --- strings ---------------------------------------------------------------

  function Split(s: string, sep: char): (r: seq<string>)
    ensures r != []
  {
    if s == "" then [""]
    else
      var rest := Split(s[1..], sep);
      if s[0] == sep then [""] + rest else [[s[0]] + rest[0]] + rest[1..]
  }

  function Join(parts: seq<string>, sep: char): string
    requires parts != []
  {
    if |parts| == 1 then parts[0] else parts[0] + [sep] + Join(parts[1..], sep)
  }

  lemma {:induction false} JoinSplit(s: string, sep: char)
    ensures Join(Split(s, sep), sep) == s
  {
    if s != "" {
      JoinSplit(s[1..], sep);
      var rest := Split(s[1..], sep);
      if s[0] == sep {
        assert ([""] + rest)[1..] == rest;
        assert Join(Split(s, sep), sep) == "" + [sep] + Join(rest, sep);
      } else {
        assert ([[s[0]] + rest[0]] + rest[1..])[1..] == rest[1..];
        assert s == [s[0]] + s[1..];
      }
    }
  }

  // What one more leading character does to the parts.
  function Prefixed(c: char, sep: char, parts: seq<string>): seq<string>
    requires parts != []
  {
    if c == sep then [""] + parts else [[c] + parts[0]] + parts[1..]
  }

  lemma {:induction false} SplitCons(c: char, s: string, sep: char)
    ensures Split([c] + s, sep) == Prefixed(c, sep, Split(s, sep))
  {
    assert ([c] + s)[1..] == s;
  }

  lemma PrefixedConcat(c: char, sep: char, parts: seq<string>, more: seq<string>)
    requires parts != []
    ensures Prefixed(c, sep, parts + more) == Prefixed(c, sep, parts) + more
  {
    assert (parts + more)[1..] == parts[1..] + more;
  }

  lemma {:induction false} SplitConcat(a: string, b: string, sep: char)
    ensures Split(a + [sep] + b, sep) == Split(a, sep) + Split(b, sep)
  {
    if a == "" {
      assert a + [sep] + b == [sep] + b;
      SplitCons(sep, b, sep);
    } else {
      SplitConcat(a[1..], b, sep);
      assert a + [sep] + b == [a[0]] + (a[1..] + [sep] + b);
      SplitCons(a[0], a[1..] + [sep] + b, sep);
      assert a == [a[0]] + a[1..];
      SplitCons(a[0], a[1..], sep);
      PrefixedConcat(a[0], sep, Split(a[1..], sep), Split(b, sep));
    }
  }

  lemma {:induction false} SplitOne(s: string, sep: char)
    requires sep !in s
    ensures Split(s, sep) == [s]
  {
    if s != "" {
      SplitOne(s[1..], sep);
      assert s == [s[0]] + s[1..];
    }
  }

  // --- integers as Python writes and reads them ------------------------------

  predicate Digit(c: char) { '0' <= c <= '9' }

  function Digits(n: nat): (r: string)
    ensures r != "" && forall i :: 0 <= i < |r| ==> Digit(r[i])
  {
    if n < 10 then ['0' + n as char] else Digits(n / 10) + ['0' + (n % 10) as char]
  }

  function Render(n: int): string {
    if n < 0 then "-" + Digits(-n) else Digits(n)
  }

  // The digits of int(): single underscores may separate them.
  function ReadDigits(s: string): Option<nat> {
    if s == "" then None
    else if |s| == 1 then (if Digit(s[0]) then Some((s[0] - '0') as nat) else None)
    else
      var last := s[|s| - 1];
      var front := if s[|s| - 2] == '_' then s[..|s| - 2] else s[..|s| - 1];
      if !Digit(last) then None
      else match ReadDigits(front)
        case None => None
        case Some(n) => Some(10 * n + (last - '0') as nat)
  }

  // int(s), or ValueError
  function ParseInt(s: string): Option<int> {
    var t := Strip(s);
    if t == "" then None
    else if t[0] == '-' || t[0] == '+' then
      match ReadDigits(t[1..])
      case None => None
      case Some(n) =>
        var sign: int := if t[0] == '-' then -1 else 1;
        Some(sign * n)
    else match ReadDigits(t)
      case None => None
      case Some(n) => Some(n)
  }

  lemma {:induction false} ReadDigitsInvertsDigits(n: nat)
    ensures ReadDigits(Digits(n)) == Some(n)
  {
    if n >= 10 {
      ReadDigitsInvertsDigits(n / 10);
      var s := Digits(n);
      assert s[..|s| - 1] == Digits(n / 10);
      assert Digit(s[|s| - 2]);
    }
  }

  lemma NothingToStrip(s: string)
    requires s != "" && !Blank(s[0]) && !Blank(s[|s| - 1])
    ensures Strip(s) == s
  {
  }

  lemma RenderIsPlain(n: int)
    ensures Render(n) != "" && forall i :: 0 <= i < |Render(n)| ==> Render(n)[i] == '-' || Digit(Render(n)[i])
  {
  }

  lemma ParseInvertsRender(n: int)
    ensures ParseInt(Render(n)) == Some(n)
    ensures ':' !in Render(n) && '|' !in Render(n)
  {
    RenderIsPlain(n);
    NothingToStrip(Render(n));
    ReadDigitsInvertsDigits(if n < 0 then -n else n);
    if n < 0 {
      assert Render(n)[1..] == Digits(-n);
    } else {
      assert Digit(Render(n)[0]);
    }
  }

  // int() looks past blanks on either side.
  lemma ParseIgnoresBlanks(before: string, n: int, after: string)
    requires forall i :: 0 <= i < |before| ==> Blank(before[i])
    requires forall i :: 0 <= i < |after| ==> Blank(after[i])
    ensures ParseInt(before + Render(n) + after) == Some(n)
  {
    var s, i, j := before + Render(n) + after, |before|, |before| + |Render(n)|;
    ParseInvertsRender(n);
    RenderIsPlain(n);
    NothingToStrip(Render(n));
    assert s[i..j] == Render(n) && s[i] == Render(n)[0] && s[j - 1] == Render(n)[|Render(n)| - 1];
    assert s[0..|s|] == s;
    StripCuts(s, 0, |s|, i, j);
  }

  // --- the codec -------------------------------------------------------------

  datatype Key = Key(kid: string, secret: string)

  type Mac = (string, string) -> string

  predicate Ascii(s: string) {
    forall i :: 0 <= i < |s| ==> s[i] < 128 as char
  }

  // HMAC output is hex, so it carries neither separator.
  ghost predicate Hex(mac: Mac) {
    forall k, m :: ':' !in mac(k, m) && '|' !in mac(k, m) && Ascii(mac(k, m))
  }

  predicate GoodRing(ring: seq<Key>) {
    && ring != []
    && (forall i :: 0 <= i < |ring| ==> ':' !in ring[i].kid && '|' !in ring[i].kid && Ascii(ring[i].kid))
    && (forall i, j :: 0 <= i < j < |ring| ==> ring[i].kid != ring[j].kid)
  }

  function Payload(kid: string, value: string, iat: string): string { kid + ":" + value + ":" + iat }

  // The string under the MAC: the purpose is inside it.
  function Message(purpose: string, kid: string, value: string, iat: string): string {
    purpose + ":" + Payload(kid, value, iat)
  }

  // _signed: under the current key only
  function Signed(mac: Mac, ring: seq<Key>, purpose: string, value: string, iat: int): string
    requires ring != []
  {
    var k := ring[0];
    Payload(k.kid, value, Render(iat)) + ":" + mac(k.secret, Message(purpose, k.kid, value, Render(iat)))
  }

  // _key_for: the last key the kid names, every key being compared
  function KeyFor(ring: seq<Key>, kid: string): Option<Key> {
    if ring == [] then None
    else if ring[|ring| - 1].kid == kid then Some(ring[|ring| - 1])
    else KeyFor(ring[..|ring| - 1], kid)
  }

  // How an attempt to open a string ends. hmac.compare_digest takes no string outside ASCII.
  datatype Opening = Value(value: string) | Refused | TypeError

  // _open_signed
  function OpenSigned(mac: Mac, ring: seq<Key>, purpose: string, raw: string, now: int, ttl: int): Opening
    requires ring != []
  {
    var parts := Split(raw, ':');
    if raw == "" || |parts| < 4 then Refused
    else
      var kid := parts[0];
      var value := Join(parts[1..|parts| - 2], ':');
      var sig := parts[|parts| - 1];
      match ParseInt(parts[|parts| - 2])
      case None => Refused
      case Some(iat) =>
        if now - iat > ttl then Refused
        else if !Ascii(kid) || !Ascii(sig) then TypeError
        else match KeyFor(ring, kid)
          case None => Refused
          case Some(key) =>
            if sig == mac(key.secret, Message(purpose, kid, value, Render(iat))) then Value(value) else Refused
  }

  // hmac.compare_digest raises on a presented key id or signature outside ASCII, once the string has
  // its fields and has not expired; the same string expired is merely refused.
  lemma RaisesIff(mac: Mac, ring: seq<Key>, purpose: string, raw: string, now: int, ttl: int)
    requires ring != []
    ensures var parts := Split(raw, ':');
            OpenSigned(mac, ring, purpose, raw, now, ttl).TypeError? <==>
              && |parts| >= 4 && ParseInt(parts[|parts| - 2]).Some? && now - ParseInt(parts[|parts| - 2]).value <= ttl
              && (HasWide(parts[0]) || HasWide(parts[|parts| - 1]))
  {
    var parts := Split(raw, ':');
    assert Split("", ':') == [""];
    assert HasWide(parts[0]) <==> !Ascii(parts[0]);
    assert HasWide(parts[|parts| - 1]) <==> !Ascii(parts[|parts| - 1]);
  }

  predicate HasWide(s: string) { exists i :: 0 <= i < |s| && s[i] >= 128 as char }

  lemma {:induction false} KeyForFinds(ring: seq<Key>, i: nat)
    requires i < |ring| && forall j, k :: 0 <= j < k < |ring| ==> ring[j].kid != ring[k].kid
    ensures KeyFor(ring, ring[i].kid) == Some(ring[i])
  {
    if i < |ring| - 1 {
      KeyForFinds(ring[..|ring| - 1], i);
    }
  }

  lemma {:induction false} KeyForIsInRing(ring: seq<Key>, kid: string)
    ensures KeyFor(ring, kid).Some? ==> KeyFor(ring, kid).value in ring && KeyFor(ring, kid).value.kid == kid
  {
    if ring != [] {
      KeyForIsInRing(ring[..|ring| - 1], kid);
    }
  }

  // Splitting what was joined finds the fields again, whatever colons the value has.
  lemma FieldsSplit(kid: string, value: string, iat: string, sig: string)
    requires ':' !in kid && ':' !in iat && ':' !in sig
    ensures Split(Payload(kid, value, iat) + ":" + sig, ':') == [kid] + Split(value, ':') + [iat, sig]
  {
    SplitOne(kid, ':');
    SplitOne(iat, ':');
    SplitOne(sig, ':');
    SplitConcat(Payload(kid, value, iat), sig, ':');
    SplitConcat(kid + ":" + value, iat, ':');
    SplitConcat(kid, value, ':');
  }

  // What the current key of one ring signed, any ring holding that key opens: at once, and after
  // a rotation that keeps the old key as the previous one.
  lemma OpenInvertsSigned(mac: Mac, ring: seq<Key>, later: seq<Key>, purpose: string, value: string,
                          iat: int, now: int, ttl: int)
    requires Hex(mac) && GoodRing(ring) && GoodRing(later) && ring[0] in later
    ensures OpenSigned(mac, later, purpose, Signed(mac, ring, purpose, value, iat), now, ttl)
         == if now - iat <= ttl then Value(value) else Refused
  {
    var k := ring[0];
    var sig := mac(k.secret, Message(purpose, k.kid, value, Render(iat)));
    ParseInvertsRender(iat);
    FieldsSplit(k.kid, value, Render(iat), sig);
    var parts := Split(Signed(mac, ring, purpose, value, iat), ':');
    assert parts[1..|parts| - 2] == Split(value, ':');
    JoinSplit(value, ':');
    var i :| 0 <= i < |later| && later[i] == k;
    KeyForFinds(later, i);
  }

  // --- authenticity ----------------------------------------------------------

  datatype Mint = Mint(purpose: string, kid: string, value: string, iat: int)

  // An ideal MAC: the only (key, message) pairs whose MAC a presented string can carry are
  // those of values this deployment minted.
  ghost predicate Unforgeable(mac: Mac, ring: seq<Key>, minted: set<Mint>, sig: string) {
    forall k, m :: k in ring && sig == mac(k.secret, m) ==>
      exists v :: v in minted && v.kid == k.kid && m == Message(v.purpose, v.kid, v.value, Render(v.iat))
  }

  lemma {:induction false} RenderIsInjective(a: int, b: int)
    requires Render(a) == Render(b)
    ensures a == b
  {
    ParseInvertsRender(a);
    ParseInvertsRender(b);
  }

  // The colon-joined string determines its fields: the purpose and the kid end at the first two
  // colons, the time begins after the last.
  lemma MessageIsInjective(p: string, kid: string, value: string, iat: int, p': string, kid': string, value': string, iat': int)
    requires ':' !in p && ':' !in p' && ':' !in kid && ':' !in kid'
    requires Message(p, kid, value, Render(iat)) == Message(p', kid', value', Render(iat'))
    ensures p == p' && kid == kid' && value == value' && iat == iat'
  {
    ParseInvertsRender(iat);
    ParseInvertsRender(iat');
    MessageSplit(p, kid, value, Render(iat));
    MessageSplit(p', kid', value', Render(iat'));
    var s := [p, kid] + Split(value, ':') + [Render(iat)];
    var s' := [p', kid'] + Split(value', ':') + [Render(iat')];
    assert s == s';
    assert s[0] == p && s'[0] == p' && s[1] == kid && s'[1] == kid';
    assert s[|s| - 1] == Render(iat) && s'[|s'| - 1] == Render(iat');
    assert s[2..|s| - 1] == Split(value, ':') && s'[2..|s'| - 1] == Split(value', ':');
    JoinSplit(value, ':');
    JoinSplit(value', ':');
    RenderIsInjective(iat, iat');
  }

  lemma MessageSplit(p: string, kid: string, value: string, iat: string)
    requires ':' !in p && ':' !in kid && ':' !in iat
    ensures Split(Message(p, kid, value, iat), ':') == [p, kid] + Split(value, ':') + [iat]
  {
    SplitOne(p, ':');
    SplitOne(kid, ':');
    SplitOne(iat, ':');
    SplitConcat(p, Payload(kid, value, iat), ':');
    SplitConcat(kid + ":" + value, iat, ':');
    SplitConcat(kid, value, ':');
  }

  // What a string that opened must have held: a time within the TTL, and the MAC of its own fields
  // under the key it names.
  ghost predicate Held(mac: Mac, purpose: string, raw: string, value: string, now: int, ttl: int, key: Key, iat: int) {
    var parts := Split(raw, ':');
    && |parts| >= 4 && ParseInt(parts[|parts| - 2]) == Some(iat) && now - iat <= ttl && key.kid == parts[0]
    && parts[|parts| - 1] == mac(key.secret, Message(purpose, key.kid, value, Render(iat)))
  }

  lemma OpenedFields(mac: Mac, ring: seq<Key>, purpose: string, raw: string, now: int, ttl: int) returns (key: Key, iat: int)
    requires ring != [] && OpenSigned(mac, ring, purpose, raw, now, ttl).Value?
    ensures key in ring && Held(mac, purpose, raw, OpenSigned(mac, ring, purpose, raw, now, ttl).value, now, ttl, key, iat)
  {
    var parts := Split(raw, ':');
    iat := ParseInt(parts[|parts| - 2]).value;
    KeyForIsInRing(ring, parts[0]);
    key := KeyFor(ring, parts[0]).value;
  }

  // The presented string names the mint's key and its time.
  predicate States(raw: string, v: Mint) {
    var parts := Split(raw, ':');
    |parts| >= 4 && parts[0] == v.kid && ParseInt(parts[|parts| - 2]) == Some(v.iat)
  }

  // The one mint a genuine MAC over these fields can come from.
  lemma MintOf(mac: Mac, ring: seq<Key>, minted: set<Mint>, key: Key, purpose: string, value: string, iat: int)
    returns (v: Mint)
    requires GoodRing(ring) && key in ring && ':' !in purpose
    requires forall v :: v in minted ==> ':' !in v.purpose && ':' !in v.kid
    requires Unforgeable(mac, ring, minted, mac(key.secret, Message(purpose, key.kid, value, Render(iat))))
    ensures v in minted && v == Mint(purpose, key.kid, value, iat)
  {
    v :| v in minted && v.kid == key.kid
         && Message(purpose, key.kid, value, Render(iat)) == Message(v.purpose, v.kid, v.value, Render(v.iat));
    MessageIsInjective(purpose, key.kid, value, iat, v.purpose, v.kid, v.value, v.iat);
  }

  lemma MintHeld(mac: Mac, ring: seq<Key>, minted: set<Mint>, purpose: string, raw: string, value: string,
                 now: int, ttl: int, key: Key, iat: int) returns (v: Mint)
    requires GoodRing(ring) && key in ring && ':' !in purpose
    requires forall v :: v in minted ==> ':' !in v.purpose && ':' !in v.kid
    requires Unforgeable(mac, ring, minted, Split(raw, ':')[|Split(raw, ':')| - 1])
    requires Held(mac, purpose, raw, value, now, ttl, key, iat)
    ensures v in minted && v == Mint(purpose, key.kid, value, iat) && States(raw, v) && now - v.iat <= ttl
  {
    v := MintOf(mac, ring, minted, key, purpose, value, iat);
  }

  // A value comes back for a purpose only if exactly that value was minted for exactly that
  // purpose, under the key the string names, at the time it states, and not longer ago than its
  // time to live.
  lemma OnlyMintedValuesOpen(mac: Mac, ring: seq<Key>, minted: set<Mint>, purpose: string, raw: string, now: int, ttl: int)
    returns (v: Mint)
    requires GoodRing(ring) && ':' !in purpose
    requires forall v :: v in minted ==> ':' !in v.purpose && ':' !in v.kid
    requires Unforgeable(mac, ring, minted, Split(raw, ':')[|Split(raw, ':')| - 1])
    requires OpenSigned(mac, ring, purpose, raw, now, ttl).Value?
    ensures v in minted && OpenSigned(mac, ring, purpose, raw, now, ttl) == Value(v.value)
    ensures States(raw, v) && v.purpose == purpose && now - v.iat <= ttl
  {
    var value := OpenSigned(mac, ring, purpose, raw, now, ttl).value;
    var key, iat := OpenedFields(mac, ring, purpose, raw, now, ttl);
    v := MintHeld(mac, ring, minted, purpose, raw, value, now, ttl, key, iat);
  }

  // --- cookies that hold several entries -------------------------------------

  const MAX_PENDING: nat := 3

  predicate Usable(e: string) { e != "" && '|' !in e }

  function Filter(es: seq<string>, keep: string -> bool): seq<string> {
    if es == [] then []
    else (if keep(es[0]) then [es[0]] else []) + Filter(es[1..], keep)
  }

  // PendingValues.live: the entries of the cookie that still open to something
  function Live(cookie: string, opens: string -> bool): seq<string> {
    Filter(Split(cookie, '|'), (e: string) => e != "" && opens(e))
  }

  function Newest(es: seq<string>): seq<string> {
    if |es| > MAX_PENDING then es[..MAX_PENDING] else es
  }

  // PendingValues._render, up to the attributes
  function RenderCookie(pending: seq<string>): string {
    if pending == [] then "" else Join(Newest(pending), '|')
  }

  // What the class means by an entry that is still good.
  function EntryOpens(mac: Mac, ring: seq<Key>, purpose: string, now: int, ttl: int): string -> bool
    requires ring != []
  {
    (e: string) => OpenSigned(mac, ring, purpose, e, now, ttl).Value? && OpenSigned(mac, ring, purpose, e, now, ttl).value != ""
  }

  function Others(entry: string, cookie: string, opens: string -> bool): seq<string> {
    Filter(Live(cookie, opens), (e: string) => e != entry)
  }

  function WithEntry(entry: string, cookie: string, opens: string -> bool): string {
    RenderCookie([entry] + Others(entry, cookie, opens))
  }

  function WithoutEntry(entry: string, cookie: string, opens: string -> bool): string {
    RenderCookie(Others(entry, cookie, opens))
  }

  lemma {:induction false} SplitJoin(parts: seq<string>, sep: char)
    requires parts != [] && forall i :: 0 <= i < |parts| ==> sep !in parts[i]
    ensures Split(Join(parts, sep), sep) == parts
  {
    SplitOne(parts[0], sep);
    if |parts| > 1 {
      SplitJoin(parts[1..], sep);
      SplitConcat(parts[0], Join(parts[1..], sep), sep);
      assert parts == [parts[0]] + parts[1..];
    }
  }

  lemma {:induction false} FilterAll(es: seq<string>, keep: string -> bool)
    requires forall i :: 0 <= i < |es| ==> keep(es[i])
    ensures Filter(es, keep) == es
  {
    if es != [] {
      FilterAll(es[1..], keep);
    }
  }

  lemma {:induction false} FilterKeeps(es: seq<string>, keep: string -> bool)
    ensures forall e :: e in Filter(es, keep) <==> e in es && keep(e)
  {
    if es != [] {
      FilterKeeps(es[1..], keep);
    }
  }

  lemma {:induction false} SplitHasNoSep(s: string, sep: char)
    ensures forall i :: 0 <= i < |Split(s, sep)| ==> sep !in Split(s, sep)[i]
  {
    if s != "" {
      SplitHasNoSep(s[1..], sep);
    }
  }

  // A filter takes exactly the places it keeps, in order.
  lemma FilterPicks(es: seq<string>, keep: string -> bool) returns (at: seq<int>)
    ensures Picks(es, at, Filter(es, keep))
    ensures forall i :: 0 <= i < |es| ==> (i in at <==> keep(es[i]))
  {
    at := FilterPicksFrom(es, keep, 0);
    assert es[0..] == es;
  }

  lemma {:induction false} FilterPicksFrom(es: seq<string>, keep: string -> bool, k: nat) returns (at: seq<int>)
    requires k <= |es|
    ensures Picks(es, at, Filter(es[k..], keep)) && (at != [] ==> k <= at[0])
    ensures forall i :: k <= i < |es| ==> (i in at <==> keep(es[i]))
    decreases |es| - k
  {
    at := [];
    if k < |es| {
      at := FilterPicksFrom(es, keep, k + 1);
      assert es[k..][1..] == es[k + 1..];
      if keep(es[k]) {
        PicksOneBefore(es, k, at, Filter(es[k + 1..], keep));
        at := [k] + at;
      } else {
        assert k !in at;
        assert [] + Filter(es[k + 1..], keep) == Filter(es[k + 1..], keep);
      }
    }
  }

  // What live() reads off any cookie: of the entries between its separators, exactly those that are
  // not empty and open, in the order they stand in.
  lemma LivePicks(entries: seq<string>, opens: string -> bool) returns (at: seq<int>)
    requires entries != [] && forall i :: 0 <= i < |entries| ==> '|' !in entries[i]
    ensures Picks(entries, at, Live(Join(entries, '|'), opens))
    ensures forall i :: 0 <= i < |entries| ==> (i in at <==> entries[i] != "" && opens(entries[i]))
  {
    SplitJoin(entries, '|');
    at := FilterPicks(entries, (e: string) => e != "" && opens(e));
  }

  // Parsing what was rendered gives back the first three, which are the newest, in order.
  lemma LiveInvertsRender(pending: seq<string>, opens: string -> bool)
    requires forall i :: 0 <= i < |pending| ==> Usable(pending[i]) && opens(pending[i])
    ensures Live(RenderCookie(pending), opens) == pending[..if |pending| < 3 then |pending| else 3]
  {
    var kept := Newest(pending);
    if kept != [] {
      SplitJoin(kept, '|');
      FilterAll(kept, (e: string) => e != "" && opens(e));
    } else {
      assert Split("", '|') == [""];
      assert [""][1..] == [];
    }
  }

  lemma LiveEntriesAreUsable(cookie: string, opens: string -> bool)
    ensures forall e :: e in Live(cookie, opens) ==> Usable(e) && opens(e)
  {
    FilterKeeps(Split(cookie, '|'), (e: string) => e != "" && opens(e));
    SplitHasNoSep(cookie, '|');
  }

  // The live entries that are not `entry`, and what a cookie rendered from them gives back.
  lemma OthersStayLive(entry: string, cookie: string, opens: string -> bool)
    ensures var others := Others(entry, cookie, opens);
            && (forall i :: 0 <= i < |others| ==> Usable(others[i]) && opens(others[i]))
            && |others| <= |Live(cookie, opens)|
            && (forall e :: e in others <==> e in Live(cookie, opens) && e != entry)
  {
    LiveEntriesAreUsable(cookie, opens);
    var live := Live(cookie, opens);
    var others := Others(entry, cookie, opens);
    FilterKeeps(live, (e: string) => e != entry);
    FilterShorter(live, (e: string) => e != entry);
    assert forall i :: 0 <= i < |others| ==> others[i] in others;
  }

  lemma OthersPicked(entry: string, cookie: string, opens: string -> bool) returns (at: seq<int>)
    ensures Picks(Live(cookie, opens), at, Others(entry, cookie, opens))
    ensures forall i :: 0 <= i < |Live(cookie, opens)| ==> (i in at <==> Live(cookie, opens)[i] != entry)
  {
    at := FilterPicks(Live(cookie, opens), (e: string) => e != entry);
  }

  lemma FirstAndTwo(entry: string, others: seq<string>)
    ensures ([entry] + others)[..if |others| < 2 then |others| + 1 else 3]
         == [entry] + others[..if |others| < 2 then |others| else 2]
  {
  }

  // Adding an entry puts it first, and behind it the first two of the other live ones, in order.
  lemma AddingPutsFirst(entry: string, cookie: string, opens: string -> bool)
    returns (others: seq<string>, at: seq<int>)
    requires Usable(entry) && opens(entry)
    ensures Live(WithEntry(entry, cookie, opens), opens) == [entry] + others[..if |others| < 2 then |others| else 2]
    ensures Picks(Live(cookie, opens), at, others)
    ensures forall i :: 0 <= i < |Live(cookie, opens)| ==> (i in at <==> Live(cookie, opens)[i] != entry)
  {
    others := Others(entry, cookie, opens);
    at := OthersPicked(entry, cookie, opens);
    OthersStayLive(entry, cookie, opens);
    LiveInvertsRender([entry] + others, opens);
    FirstAndTwo(entry, others);
  }

  // Removing an entry, one that no longer opens included, drops exactly it, and of a cookie within
  // the cap nothing else.
  lemma RemovingDropsExactly(entry: string, cookie: string, opens: string -> bool)
    returns (others: seq<string>, at: seq<int>)
    ensures Live(WithoutEntry(entry, cookie, opens), opens) == others[..if |others| < 3 then |others| else 3]
    ensures Picks(Live(cookie, opens), at, others)
    ensures forall i :: 0 <= i < |Live(cookie, opens)| ==> (i in at <==> Live(cookie, opens)[i] != entry)
    ensures |Live(cookie, opens)| <= 3 ==>
              forall e :: e in Live(WithoutEntry(entry, cookie, opens), opens) <==> e in Live(cookie, opens) && e != entry
  {
    others := Others(entry, cookie, opens);
    at := OthersPicked(entry, cookie, opens);
    OthersStayLive(entry, cookie, opens);
    LiveInvertsRender(others, opens);
  }

  lemma {:induction false} FilterShorter(es: seq<string>, keep: string -> bool)
    ensures |Filter(es, keep)| <= |es|
  {
    if es != [] {
      FilterShorter(es[1..], keep);
    }
  }

  // PendingValues.sign: what the class mints for a value free of the separator is an entry its own
  // cookie keeps for as long as the entry lives.
  lemma SignedEntriesAreUsable(mac: Mac, ring: seq<Key>, purpose: string, value: string, iat: int, now: int, ttl: int)
    requires Hex(mac) && GoodRing(ring) && value != "" && '|' !in value && now - iat <= ttl
    ensures Usable(Signed(mac, ring, purpose, value, iat))
    ensures EntryOpens(mac, ring, purpose, now, ttl)(Signed(mac, ring, purpose, value, iat))
  {
    OpenInvertsSigned(mac, ring, ring, purpose, value, iat, now, ttl);
    ParseInvertsRender(iat);
  }

  // And nothing but what this deployment minted for the cookie's own purpose, within its time to
  // live, is ever live in it.
  lemma LiveEntriesWereMinted(mac: Mac, ring: seq<Key>, minted: set<Mint>, purpose: string, cookie: string, now: int, ttl: int,
                              entry: string) returns (v: Mint)
    requires GoodRing(ring) && ':' !in purpose
    requires forall v :: v in minted ==> ':' !in v.purpose && ':' !in v.kid
    requires Unforgeable(mac, ring, minted, Split(entry, ':')[|Split(entry, ':')| - 1])
    requires entry in Live(cookie, EntryOpens(mac, ring, purpose, now, ttl))
    ensures v in minted && v.purpose == purpose && v.value != "" && now - v.iat <= ttl && States(entry, v)
    ensures OpenSigned(mac, ring, purpose, entry, now, ttl) == Value(v.value)
  {
    LiveEntriesAreUsable(cookie, EntryOpens(mac, ring, purpose, now, ttl));
    v := OnlyMintedValuesOpen(mac, ring, minted, purpose, entry, now, ttl);
  }

  // A consumed entry does not answer again, whatever else is pending.
  lemma ConsumedIsGone(entry: string, cookie: string, opens: string -> bool)
    ensures entry !in Live(WithoutEntry(entry, cookie, opens), opens)
  {
    var others, at := RemovingDropsExactly(entry, cookie, opens);
    FilterKeeps(Live(cookie, opens), (e: string) => e != entry);
  }

  // _key_for's loop runs to the end of the ring whatever it has found.
  method FindKey(ring: seq<Key>, kid: string) returns (found: Option<Key>)
    ensures found == KeyFor(ring, kid)
  {
    found := None;
    for i := 0 to |ring|
      invariant found == KeyFor(ring[..i], kid)
    {
      assert ring[..i + 1][..i] == ring[..i];
      if ring[i].kid == kid {
        found := Some(ring[i]);
      }
    }
    assert ring[..|ring|] == ring;
  }
}
