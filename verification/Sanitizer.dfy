/** backend/integrations/telegram.py: sanitize_model_html and the truncation under it. Model
    text is escaped whole, cut without splitting an entity, and given back only the tags of a
    fixed list, balanced. */
module Sanitizer {
  import opened Common

  const MODEL_TAGS: seq<string> := ["b", "strong", "i", "em", "u", "s", "code", "pre"]
  const MAX_NESTING: nat := 8
  const MAX_MODEL_CHARS: nat := 3800
  const TRUNCATED: string := "\n[truncated]"

  // --- html.escape(quote=False) ----------------------------------------------

  function EscapeChar(c: char): string {
    if c == '&' then "&amp;" else if c == '<' then "&lt;" else if c == '>' then "&gt;" else [c]
  }

  function Escape(text: string): string {
    if text == "" then "" else EscapeChar(text[0]) + Escape(text[1..])
  }

  predicate StartsWith(s: string, p: string) {
    |p| <= |s| && s[..|p|] == p
  }

  // The length of the entity at the head of `s`, or 0.
  function Entity(s: string): (n: nat)
    ensures n <= |s| && n <= 5 && (n > 0 ==> n >= 4 && s[0] == '&' && s[n - 1] == ';')
    ensures n > 0 ==> forall i :: 1 <= i < n - 1 ==> 'a' <= s[i] <= 'z'
  {
    if StartsWith(s, "&amp;") then 5
    else if StartsWith(s, "&lt;") then 4
    else if StartsWith(s, "&gt;") then 4
    else 0
  }

  // Escaped text: no angle bracket, and every ampersand begins a whole entity.
  predicate Whole(s: string)
    decreases |s|
  {
    if s == "" then true
    else if s[0] == '&' then Entity(s) > 0 && Whole(s[Entity(s)..])
    else s[0] != '<' && s[0] != '>' && Whole(s[1..])
  }

  lemma EntityAhead(p: string, rest: string)
    requires Entity(p) > 0
    ensures Entity(p + rest) == Entity(p) && (p + rest)[Entity(p)..] == p[Entity(p)..] + rest
  {
    var n := Entity(p);
    assert (p + rest)[..4] == p[..4];
    if |p| >= 5 {
      assert (p + rest)[..5] == p[..5];
    } else {
      assert p[..4] == p;
    }
  }

  lemma {:induction false} WholeConcat(a: string, b: string)
    requires Whole(a) && Whole(b)
    ensures Whole(a + b)
    decreases |a|
  {
    if a == "" {
      assert a + b == b;
    } else if a[0] == '&' {
      EntityAhead(a, b);
      WholeConcat(a[Entity(a)..], b);
    } else {
      assert (a + b)[1..] == a[1..] + b;
      WholeConcat(a[1..], b);
    }
  }

  lemma {:induction false} EscapeIsWhole(text: string)
    ensures Whole(Escape(text))
  {
    if text != "" {
      EscapeIsWhole(text[1..]);
      var c := EscapeChar(text[0]);
      assert Whole(c) by {
        if text[0] == '&' || text[0] == '<' || text[0] == '>' {
          assert c[Entity(c)..] == "";
        } else {
          assert c[1..] == "";
        }
      }
      WholeConcat(c, Escape(text[1..]));
    }
  }

  // An ampersand is always a boundary: whole text can be cut just before one.
  lemma {:induction false} CutAtAmpersand(s: string, i: nat)
    requires Whole(s) && i < |s| && s[i] == '&'
    ensures Whole(s[..i]) && Whole(s[i..])
    decreases |s|
  {
    if i == 0 {
      assert s[..0] == "" && s[0..] == s;
    } else {
      var n := HeadLength(s);
      HeadEndsBefore(s, i);
      CutAtAmpersand(s[n..], i - n);
      SlicesCompose(s, n, i);
      HeadIsWhole(s, n);
      WholeConcat(s[..n], s[n..][..i - n]);
    }
  }

  // The first character, or the entity it begins.
  function HeadLength(s: string): nat
    requires s != ""
  {
    if s[0] == '&' then Entity(s) else 1
  }

  lemma HeadEndsBefore(s: string, i: nat)
    requires 0 < i < |s| && s[i] == '&' && (s[0] == '&' ==> Entity(s) > 0)
    ensures 0 < HeadLength(s) <= i
  {
    var n := HeadLength(s);
    assert s[0] == '&' ==> s[n - 1] == ';';
  }

  lemma SlicesCompose(s: string, n: nat, i: nat)
    requires n <= i < |s|
    ensures s[n..][i - n] == s[i]
    ensures s[..i] == s[..n] + s[n..][..i - n] && s[i..] == s[n..][i - n..]
  {
  }

  lemma HeadIsWhole(s: string, n: nat)
    requires s != "" && Whole(s) && n == HeadLength(s)
    ensures Whole(s[..n])
  {
    var h := s[..n];
    assert h[n..] == "";
    if s[0] == '&' {
      assert s[..4] == h[..4];
      assert n == 5 ==> s[..5] == h[..5];
    } else {
      assert h[1..] == "";
    }
  }

  // --- _truncate_escaped -----------------------------------------------------

  // str.rfind("&")
  function LastAmp(s: string): (r: Option<nat>)
    ensures r.Some? ==> r.value < |s| && s[r.value] == '&' && forall j :: r.value < j < |s| ==> s[j] != '&'
    ensures r.None? ==> '&' !in s
  {
    if s == "" then None
    else if s[|s| - 1] == '&' then Some(|s| - 1)
    else LastAmp(s[..|s| - 1])
  }

  function Cut(s: string, limit: nat): string
    requires limit <= |s|
  {
    var cut := s[..limit];
    match LastAmp(cut)
    case Some(last) => if ';' !in cut[last..] then cut[..last] else cut
    case None => cut
  }

  function Truncate(escaped: string, limit: nat): string {
    if |escaped| <= limit then escaped else Cut(escaped, limit) + TRUNCATED
  }

  // A cut at `n` falls inside the entity that begins at `k`.
  ghost predicate SplitAt(s: string, n: nat, k: nat)
    requires n <= |s|
  {
    && k < n < k + 5 && s[k] == '&' && Whole(s[..k])
    && forall j :: k < j < n ==> s[j] != '&' && s[j] != ';'
  }

  lemma SplitLater(s: string, n: nat, w: nat, k: nat)
    requires w <= n <= |s| && Whole(s[..w]) && SplitAt(s[w..], n - w, k)
    ensures SplitAt(s, n, k + w)
  {
    var t := s[w..];
    assert s[..k + w] == s[..w] + t[..k];
    WholeConcat(s[..w], t[..k]);
    assert forall j :: k + w <= j < n ==> s[j] == t[j - w];
  }

  lemma {:induction false} PrefixIsWholeOrSplit(s: string, n: nat)
    requires Whole(s) && n <= |s|
    ensures Whole(s[..n]) || exists k: nat :: SplitAt(s, n, k)
    decreases |s|
  {
    if n == 0 {
      assert s[..0] == "";
    } else {
      var w := if s[0] == '&' then Entity(s) else 1;
      if n < w {
        assert s[..0] == "";
        assert SplitAt(s, n, 0);
      } else {
        PrefixIsWholeOrSplit(s[w..], n - w);
        HeadIsWhole(s, w);
        if Whole(s[w..][..n - w]) {
          assert s[..n] == s[..w] + s[w..][..n - w];
          WholeConcat(s[..w], s[w..][..n - w]);
        } else {
          var k: nat :| SplitAt(s[w..], n - w, k);
          SplitLater(s, n, w, k);
        }
      }
    }
  }

  // The cut is whole, never longer than the limit, and gives up at most four characters more
  // than it must.
  lemma CutIsWhole(s: string, limit: nat)
    requires Whole(s) && limit <= |s|
    ensures Whole(Cut(s, limit))
    ensures Cut(s, limit) <= s && |Cut(s, limit)| <= limit
    ensures limit <= |Cut(s, limit)| + 4
  {
    var cut := s[..limit];
    PrefixIsWholeOrSplit(s, limit);
    if Whole(cut) {
      if LastAmp(cut).Some? {
        AmpersandHasSemicolon(cut, LastAmp(cut).value);
      }
    } else {
      var k: nat :| SplitAt(s, limit, k);
      assert cut[k] == '&';
      assert LastAmp(cut).Some? && LastAmp(cut).value == k;
      assert ';' !in cut[k..];
      assert cut[..k] == s[..k];
    }
  }

  // And the longest such: any longer beginning within the limit splits an entity.
  lemma CutIsLongest(s: string, limit: nat, j: nat)
    requires Whole(s) && limit <= |s| && |Cut(s, limit)| < j <= limit
    ensures !Whole(s[..j])
  {
    var cut := s[..limit];
    var k := LastAmp(cut).value;
    assert |Cut(s, limit)| == k && ';' !in cut[k..];
    assert s[..j] == cut[..j];
    if Whole(s[..j]) {
      AmpersandHasSemicolon(s[..j], k);
      assert false;
    }
  }

  // In whole text every ampersand is followed by its semicolon.
  lemma AmpersandHasSemicolon(s: string, i: nat)
    requires Whole(s) && i < |s| && s[i] == '&'
    ensures ';' in s[i..]
  {
    CutAtAmpersand(s, i);
    var t := s[i..];
    assert t[0] == '&' && t[Entity(t) - 1] == ';';
  }

  // Text within the limit is left as it is; longer text is its longest beginning that splits no
  // entity, and the mark.
  lemma TruncateIsExact(text: string, limit: nat) returns (n: nat)
    ensures |Escape(text)| <= limit ==> Truncate(Escape(text), limit) == Escape(text)
    ensures |Escape(text)| > limit ==>
              n <= limit <= n + 4 && Truncate(Escape(text), limit) == Escape(text)[..n] + "\n[truncated]"
    ensures |Escape(text)| > limit ==> Whole(Escape(text)[..n]) && forall j :: n < j <= limit ==> !Whole(Escape(text)[..j])
  {
    n := 0;
    EscapeIsWhole(text);
    if |Escape(text)| > limit {
      n := LongestCut(Escape(text), limit);
    }
  }

  lemma LongestCut(s: string, limit: nat) returns (n: nat)
    requires Whole(s) && limit <= |s|
    ensures n <= limit <= n + 4 && Cut(s, limit) == s[..n] && Whole(s[..n])
    ensures forall j :: n < j <= limit ==> !Whole(s[..j])
  {
    CutIsWhole(s, limit);
    n := |Cut(s, limit)|;
    assert Cut(s, limit) == s[..n];
    forall j | n < j <= limit
      ensures !Whole(s[..j])
    {
      CutIsLongest(s, limit, j);
    }
  }

  lemma TruncateIsWhole(text: string)
    ensures Whole(Truncate(Escape(text), MAX_MODEL_CHARS))
    ensures |Truncate(Escape(text), MAX_MODEL_CHARS)| <= MAX_MODEL_CHARS + 12
  {
    EscapeIsWhole(text);
    TruncateStaysWhole(Escape(text), MAX_MODEL_CHARS);
  }

  lemma TruncateStaysWhole(escaped: string, limit: nat)
    requires Whole(escaped)
    ensures Whole(Truncate(escaped, limit)) && |Truncate(escaped, limit)| <= limit + 12
  {
    if |escaped| > limit {
      CutIsWhole(escaped, limit);
      MarkedIsWhole(Cut(escaped, limit));
    }
  }

  lemma MarkedIsWhole(cut: string)
    requires Whole(cut)
    ensures Whole(cut + TRUNCATED)
  {
    PlainIsWhole(TRUNCATED);
    WholeConcat(cut, TRUNCATED);
  }

  predicate Plain(s: string) {
    forall i :: 0 <= i < |s| ==> s[i] != '&' && s[i] != '<' && s[i] != '>'
  }

  lemma {:induction false} PlainIsWhole(s: string)
    requires Plain(s)
    ensures Whole(s)
  {
    if s != "" {
      PlainIsWhole(s[1..]);
    }
  }

  // --- what makes a message safe to send -------------------------------------

  // A list of tag names the scheme works for; ModelTagsAreTags says the permitted ones are.
  ghost predicate TagList(tags: seq<string>) {
    forall t :: t in tags ==> Name(t)
  }

  predicate Name(t: string) {
    t != "" && |t| <= 6 && forall i :: 0 <= i < |t| ==> 'a' <= t[i] <= 'z'
  }

  lemma ModelTagsAreTags()
    ensures TagList(MODEL_TAGS)
  {
  }

  // The first listed name written at the head of `s` before `close`.
  function TagFrom(s: string, tags: seq<string>, close: string): (r: Option<string>)
    ensures r.Some? ==> r.value in tags && StartsWith(s, r.value + close)
    ensures r.None? ==> forall t :: t in tags ==> !StartsWith(s, t + close)
  {
    if tags == [] then None
    else if StartsWith(s, tags[0] + close) then Some(tags[0])
    else TagFrom(s, tags[1..], close)
  }

  function OpenTag(t: string): string { "<" + t + ">" }
  function CloseTag(t: string): string { "</" + t + ">" }

  // A reader of finished markup. It accepts exactly the well-nested words over the given tags,
  // never deeper than MAX_NESTING, in which every '<' begins such a tag and every '&' a whole
  // entity.
  predicate Balanced(s: string, tags: seq<string>, open: seq<string>)
    decreases |s|
  {
    if s == "" then open == []
    else if s[0] == '<' then
      if |s| > 1 && s[1] == '/' then
        var t := TagFrom(s[2..], tags, ">");
        t.Some? && open != [] && open[|open| - 1] == t.value
        && Balanced(s[|t.value| + 3..], tags, open[..|open| - 1])
      else
        var t := TagFrom(s[1..], tags, ">");
        t.Some? && |open| < MAX_NESTING && Balanced(s[|t.value| + 2..], tags, open + [t.value])
    else if s[0] == '>' then false
    else if s[0] == '&' then Entity(s) > 0 && Balanced(s[Entity(s)..], tags, open)
    else Balanced(s[1..], tags, open)
  }

  // FORBIDDEN_TAG_RE finds nothing: every '<' is followed by /?tag>.
  ghost predicate NoForbiddenTag(s: string, tags: seq<string>) {
    forall i :: 0 <= i < |s| && s[i] == '<' ==> PermittedAt(s, tags, i)
  }

  ghost predicate PermittedAt(s: string, tags: seq<string>, i: nat)
    requires i <= |s|
  {
    exists t :: t in tags && (StartsWith(s[i..], OpenTag(t)) || StartsWith(s[i..], CloseTag(t)))
  }

  // A tag or unit of length n at the head hides no other '<'.
  lemma PermittedLater(s: string, tags: seq<string>, n: nat)
    requires 0 < n <= |s| && NoForbiddenTag(s[n..], tags)
    requires forall i :: 0 < i < n ==> s[i] != '<'
    requires s[0] == '<' ==> PermittedAt(s, tags, 0)
    ensures NoForbiddenTag(s, tags)
  {
    forall i | 0 <= i < |s| && s[i] == '<'
      ensures PermittedAt(s, tags, i)
    {
      if i >= n {
        assert s[n..][i - n] == '<' && s[n..][i - n..] == s[i..];
        assert PermittedAt(s[n..], tags, i - n);
      }
    }
  }

  lemma HeadTag(s: string, tags: seq<string>, t: string, closing: bool)
    requires TagList(tags) && t in tags && s != "" && s[0] == '<'
    requires if closing then |s| > 1 && s[1] == '/' && StartsWith(s[2..], t + ">") else StartsWith(s[1..], t + ">")
    ensures PermittedAt(s, tags, 0)
    ensures var n := |t| + (if closing then 3 else 2); n <= |s| && forall i :: 0 < i < n ==> s[i] != '<'
  {
    var k := if closing then 2 else 1;
    assert s[k..][..|t| + 1] == t + ">";
    assert forall i :: 0 <= i < |t| + 1 ==> s[k + i] == (t + ">")[i];
    assert s[0..] == s;
    if closing {
      assert CloseTag(t) == "</" + (t + ">") && s[..|t| + 3] == "</" + s[2..][..|t| + 1];
    } else {
      assert OpenTag(t) == "<" + (t + ">") && s[..|t| + 2] == "<" + s[1..][..|t| + 1];
    }
  }

  lemma {:induction false} BalancedHasNoForbiddenTag(s: string, tags: seq<string>, open: seq<string>)
    requires TagList(tags) && Balanced(s, tags, open)
    ensures NoForbiddenTag(s, tags)
    decreases |s|
  {
    if s == "" {
    } else if s[0] == '<' && |s| > 1 && s[1] == '/' {
      var t := TagFrom(s[2..], tags, ">").value;
      HeadTag(s, tags, t, true);
      BalancedHasNoForbiddenTag(s[|t| + 3..], tags, open[..|open| - 1]);
      PermittedLater(s, tags, |t| + 3);
    } else if s[0] == '<' {
      var t := TagFrom(s[1..], tags, ">").value;
      HeadTag(s, tags, t, false);
      BalancedHasNoForbiddenTag(s[|t| + 2..], tags, open + [t]);
      PermittedLater(s, tags, |t| + 2);
    } else {
      var n := if s[0] == '&' then Entity(s) else 1;
      BalancedHasNoForbiddenTag(s[n..], tags, open);
      PermittedLater(s, tags, n);
    }
  }

  // --- pieces of output, and what each does to the reader --------------------

  // Names are letters, so where one ends decides which it is.
  lemma SameName(s: string, a: string, b: string, close: string)
    requires Name(a) && Name(b) && close != "" && !('a' <= close[0] <= 'z')
    requires StartsWith(s, a + close) && StartsWith(s, b + close)
    ensures a == b
  {
    assert s[..|a + close|] == a + close && s[..|b + close|] == b + close;
    assert s[|a|] == (a + close)[|a|] == close[0];
    assert s[|b|] == (b + close)[|b|] == close[0];
    assert forall i :: 0 <= i < |a| ==> s[i] == (a + close)[i] == a[i];
    assert forall i :: 0 <= i < |b| ==> s[i] == (b + close)[i] == b[i];
    assert |a| == |b|;
  }

  lemma TagIsFound(t: string, rest: string, tags: seq<string>, close: string)
    requires TagList(tags) && t in tags && close != "" && !('a' <= close[0] <= 'z')
    ensures TagFrom(t + close + rest, tags, close) == Some(t)
  {
    var s := t + close + rest;
    assert s[..|t + close|] == t + close;
    assert StartsWith(s, t + close);
    SameName(s, t, TagFrom(s, tags, close).value, close);
  }

  lemma {:induction false} TextPasses(seg: string, rest: string, tags: seq<string>, open: seq<string>)
    requires Whole(seg)
    ensures Balanced(seg + rest, tags, open) <==> Balanced(rest, tags, open)
    decreases |seg|
  {
    if seg == "" {
      assert seg + rest == rest;
    } else if seg[0] == '&' {
      EntityAhead(seg, rest);
      TextPasses(seg[Entity(seg)..], rest, tags, open);
    } else {
      assert (seg + rest)[1..] == seg[1..] + rest;
      TextPasses(seg[1..], rest, tags, open);
    }
  }

  lemma OpenPasses(t: string, rest: string, tags: seq<string>, open: seq<string>)
    requires TagList(tags) && t in tags && |open| < MAX_NESTING
    ensures Balanced(OpenTag(t) + rest, tags, open) <==> Balanced(rest, tags, open + [t])
  {
    var s := OpenTag(t) + rest;
    TagIsFound(t, rest, tags, ">");
    assert s[1..] == t + ">" + rest;
    assert s[|t| + 2..] == rest;
    assert s[0] == '<' && s[1] == t[0];
  }

  lemma CloseUnfolds(s: string, t: string, tags: seq<string>, open: seq<string>)
    requires |s| > 1 && s[0] == '<' && s[1] == '/' && TagFrom(s[2..], tags, ">") == Some(t)
    requires open != [] && open[|open| - 1] == t
    ensures |t| + 3 <= |s|
    ensures Balanced(s, tags, open) <==> Balanced(s[|t| + 3..], tags, open[..|open| - 1])
  {
  }

  lemma CloseShape(t: string, rest: string, tags: seq<string>)
    requires TagList(tags) && t in tags
    ensures var s := CloseTag(t) + rest;
            |s| > 1 && s[0] == '<' && s[1] == '/' && TagFrom(s[2..], tags, ">") == Some(t) && s[|t| + 3..] == rest
  {
    var s := CloseTag(t) + rest;
    TagIsFound(t, rest, tags, ">");
    assert s[2..] == t + ">" + rest;
  }

  lemma ClosePasses(t: string, rest: string, tags: seq<string>, open: seq<string>)
    requires TagList(tags) && t in tags && open != [] && open[|open| - 1] == t
    ensures Balanced(CloseTag(t) + rest, tags, open) <==> Balanced(rest, tags, open[..|open| - 1])
  {
    CloseShape(t, rest, tags);
    CloseUnfolds(CloseTag(t) + rest, t, tags, open);
  }

  // The closers for whatever is still open, innermost first.
  function Closers(open: seq<string>): string {
    if open == [] then "" else CloseTag(open[|open| - 1]) + Closers(open[..|open| - 1])
  }

  lemma {:induction false} ClosersBalance(tags: seq<string>, open: seq<string>)
    requires TagList(tags) && forall i :: 0 <= i < |open| ==> open[i] in tags
    ensures Balanced(Closers(open), tags, open) && |Closers(open)| <= 9 * |open|
  {
    if open != [] {
      var t := open[|open| - 1];
      ClosersBalance(tags, open[..|open| - 1]);
      assert Name(t);
      ClosePasses(t, Closers(open[..|open| - 1]), tags, open);
    }
  }

  // Putting the escaped brackets back where a tag was let through.
  function Unmark(s: string): string {
    if s == "" then ""
    else (if s[0] == '<' then "&lt;" else if s[0] == '>' then "&gt;" else [s[0]]) + Unmark(s[1..])
  }

  lemma {:induction false} UnmarkConcat(a: string, b: string)
    ensures Unmark(a + b) == Unmark(a) + Unmark(b)
  {
    if a == "" {
      assert a + b == b;
    } else {
      assert (a + b)[1..] == a[1..] + b;
      UnmarkConcat(a[1..], b);
    }
  }

  lemma {:induction false} UnmarkText(s: string)
    requires forall i :: 0 <= i < |s| ==> s[i] != '<' && s[i] != '>'
    ensures Unmark(s) == s
  {
    if s != "" {
      UnmarkText(s[1..]);
    }
  }

  lemma {:induction false} WholeHasNoAngles(s: string)
    requires Whole(s)
    ensures forall i :: 0 <= i < |s| ==> s[i] != '<' && s[i] != '>'
    decreases |s|
  {
    if s != "" {
      var n := if s[0] == '&' then Entity(s) else 1;
      WholeHasNoAngles(s[n..]);
      assert forall i :: n <= i < |s| ==> s[i] == s[n..][i - n];
      assert s[0] == '&' ==> s[n - 1] == ';' && forall i :: 0 < i < n - 1 ==> 'a' <= s[i] <= 'z';
    }
  }

  lemma UnmarkChar(c: char)
    ensures Unmark([c]) == (if c == '<' then "&lt;" else if c == '>' then "&gt;" else [c])
  {
    assert [c][1..] == "";
  }

  lemma UnmarkTag(t: string)
    requires Name(t)
    ensures Unmark(OpenTag(t)) == "&lt;" + "" + t + "&gt;"
    ensures Unmark(CloseTag(t)) == "&lt;" + "/" + t + "&gt;"
  {
    UnmarkText(t);
    UnmarkChar('<');
    UnmarkChar('>');
    UnmarkChar('/');
    UnmarkConcat("<", t);
    UnmarkConcat("<" + t, ">");
    UnmarkConcat("<", "/");
    UnmarkConcat("</", t);
    UnmarkConcat("</" + t, ">");
    assert "<" + "/" == "</";
  }

  // --- MODEL_TAG_RE ----------------------------------------------------------

  datatype Match = NoMatch | Match(start: nat, closing: bool, tag: string) {
    function Slash(): string
      requires Match?
    {
      if closing then "/" else ""
    }

    function End(): nat
      requires Match?
    {
      start + 4 + |Slash()| + |tag| + 4
    }
  }

  // The match that begins at `i`, if one does.
  function MatchAt(s: string, tags: seq<string>, i: nat): (m: Match)
    ensures m.Match? ==> m.start == i && m.End() <= |s| && m.tag in tags
    ensures m.Match? ==> s[i..m.End()] == "&lt;" + m.Slash() + m.tag + "&gt;"
  {
    if i > |s| || !StartsWith(s[i..], "&lt;") then NoMatch
    else
      var closing := i + 4 < |s| && s[i + 4] == '/';
      var from := if closing then i + 5 else i + 4;
      match TagFrom(s[from..], tags, "&gt;")
      case None => NoMatch
      case Some(t) =>
        MatchedText(s, i, if closing then "/" else "", t);
        Match(i, closing, t)
  }

  // What the three parts found one after another spell.
  lemma MatchedText(s: string, i: nat, slash: string, t: string)
    requires i + 4 + |slash| <= |s| && StartsWith(s[i..], "&lt;")
    requires slash == s[i + 4..i + 4 + |slash|] && StartsWith(s[i + 4 + |slash|..], t + "&gt;")
    ensures i + 8 + |slash| + |t| <= |s|
    ensures s[i..i + 8 + |slash| + |t|] == "&lt;" + slash + t + "&gt;"
  {
    var from := i + 4 + |slash|;
    var end := from + |t| + 4;
    SliceOfTail(s, i, 4);
    SliceOfTail(s, from, |t| + 4);
    assert s[i..end] == s[i..i + 4] + s[i + 4..from] + s[from..end];
    assert "&lt;" + slash + (t + "&gt;") == "&lt;" + slash + t + "&gt;";
  }

  lemma SliceOfTail(s: string, i: nat, n: nat)
    requires i + n <= |s|
    ensures s[i..][..n] == s[i..i + n]
  {
  }

  // finditer: the next match at or after `i`.
  function NextMatch(s: string, tags: seq<string>, i: nat): (m: Match)
    requires i <= |s|
    ensures m.Match? ==> i <= m.start && m == MatchAt(s, tags, m.start)
    ensures forall j :: i <= j <= |s| && (m.Match? ==> j < m.start) ==> MatchAt(s, tags, j).NoMatch?
    decreases |s| - i
  {
    if MatchAt(s, tags, i).Match? then MatchAt(s, tags, i)
    else if i == |s| then NoMatch
    else NextMatch(s, tags, i + 1)
  }

  lemma AfterEntity(e: string, rest: string)
    requires e == "&lt;" || e == "&gt;"
    ensures Whole(e) && (Whole(e + rest) ==> Whole(rest))
  {
    assert e[..4] == e && (e + rest)[..4] == e;
    assert e[1] != 'a' && (e + rest)[1] == e[1];
    assert |e + rest| >= 5 ==> (e + rest)[..5][1] == e[1];
    assert "&amp;"[1] == 'a';
    assert Entity(e) == 4 && Entity(e + rest) == 4;
    assert e[4..] == "" && (e + rest)[4..] == rest;
  }

  lemma {:induction false} AfterPlain(p: string, rest: string)
    requires Plain(p) && Whole(p + rest)
    ensures Whole(rest)
  {
    if p == "" {
      assert p + rest == rest;
    } else {
      assert (p + rest)[1..] == p[1..] + rest;
      AfterPlain(p[1..], rest);
    }
  }

  // The escaped tag is whole text itself, and so is what follows it.
  lemma EscapedTagDivides(p: string, rest: string)
    requires Plain(p) && Whole("&lt;" + p + "&gt;" + rest)
    ensures Whole("&lt;" + p + "&gt;") && Whole(rest)
  {
    assert "&lt;" + p + "&gt;" + rest == "&lt;" + (p + ("&gt;" + rest));
    AfterEntity("&lt;", p + ("&gt;" + rest));
    AfterPlain(p, "&gt;" + rest);
    AfterEntity("&gt;", rest);
    PlainIsWhole(p);
    WholeConcat("&lt;", p);
    WholeConcat("&lt;" + p, "&gt;");
  }

  // Around a match the text divides into whole pieces.
  lemma MatchDivides(s: string, tags: seq<string>, pos: nat, m: Match)
    requires TagList(tags) && pos <= |s| && Whole(s[pos..]) && m == NextMatch(s, tags, pos) && m.Match?
    ensures pos <= m.start < m.End() <= |s|
    ensures Whole(s[pos..m.start]) && Whole(s[m.start..]) && Whole(s[m.start..m.End()]) && Whole(s[m.End()..])
  {
    assert m == MatchAt(s, tags, m.start);
    MatchBegins(s, tags, m);
    CutAtAmpersandFrom(s, pos, m.start);
    MatchIsWhole(s, tags, m);
  }

  lemma MatchBegins(s: string, tags: seq<string>, m: Match)
    requires m.Match? && m == MatchAt(s, tags, m.start)
    ensures m.start < m.End() <= |s| && s[m.start] == '&'
  {
    assert s[m.start..m.End()][0] == "&lt;"[0];
  }

  lemma CutAtAmpersandFrom(s: string, pos: nat, i: nat)
    requires pos <= i < |s| && Whole(s[pos..]) && s[i] == '&'
    ensures Whole(s[pos..i]) && Whole(s[i..])
  {
    var t := s[pos..];
    assert t[i - pos] == '&';
    CutAtAmpersand(t, i - pos);
    assert t[..i - pos] == s[pos..i] && t[i - pos..] == s[i..];
  }

  lemma MatchIsWhole(s: string, tags: seq<string>, m: Match)
    requires TagList(tags) && m.Match? && m == MatchAt(s, tags, m.start) && Whole(s[m.start..])
    ensures Whole(s[m.start..m.End()]) && Whole(s[m.End()..])
  {
    assert Name(m.tag);
    var p := m.Slash() + m.tag;
    assert s[m.start..m.End()] == "&lt;" + p + "&gt;";
    assert s[m.start..] == s[m.start..m.End()] + s[m.End()..];
    EscapedTagDivides(p, s[m.End()..]);
  }

  // --- sanitize_model_html ---------------------------------------------------

  // The reader, once past `out`, is inside exactly `open`.
  ghost predicate Reads(out: string, tags: seq<string>, open: seq<string>) {
    forall rest: string :: Balanced(out + rest, tags, []) <==> Balanced(rest, tags, open)
  }

  // What the loop knows: where the reader is; that undoing the tags in `out` gives the text
  // consumed so far; and that every open tag has saved six characters.
  ghost predicate Progress(escaped: string, tags: seq<string>, pos: nat, out: string, open: seq<string>) {
    && pos <= |escaped|
    && |open| <= MAX_NESTING && (forall i :: 0 <= i < |open| ==> open[i] in tags)
    && Reads(out, tags, open)
    && Unmark(out) == escaped[..pos]
    && |out| + 6 * |open| <= pos
  }

  lemma TextReads(out: string, tags: seq<string>, open: seq<string>, seg: string)
    requires Reads(out, tags, open) && Whole(seg)
    ensures Reads(out + seg, tags, open)
  {
    forall rest: string
      ensures Balanced(out + seg + rest, tags, []) <==> Balanced(rest, tags, open)
    {
      assert out + seg + rest == out + (seg + rest);
      TextPasses(seg, rest, tags, open);
    }
  }

  lemma TextAdvances(escaped: string, tags: seq<string>, pos: nat, out: string, open: seq<string>, to: nat)
    requires Progress(escaped, tags, pos, out, open) && pos <= to <= |escaped|
    requires Whole(escaped[pos..to])
    ensures Progress(escaped, tags, to, out + escaped[pos..to], open)
  {
    var seg := escaped[pos..to];
    TextReads(out, tags, open, seg);
    UnmarkConcat(out, seg);
    WholeHasNoAngles(seg);
    UnmarkText(seg);
    assert escaped[..to] == escaped[..pos] + seg;
  }

  lemma OpenReads(out: string, tags: seq<string>, open: seq<string>, t: string)
    requires TagList(tags) && Reads(out, tags, open) && t in tags && |open| < MAX_NESTING
    ensures Reads(out + OpenTag(t), tags, open + [t])
  {
    forall rest: string
      ensures Balanced(out + OpenTag(t) + rest, tags, []) <==> Balanced(rest, tags, open + [t])
    {
      assert out + OpenTag(t) + rest == out + (OpenTag(t) + rest);
      OpenPasses(t, rest, tags, open);
    }
  }

  lemma CloseReads(out: string, tags: seq<string>, open: seq<string>, t: string)
    requires TagList(tags) && Reads(out, tags, open) && t in tags && open != [] && open[|open| - 1] == t
    ensures Reads(out + CloseTag(t), tags, open[..|open| - 1])
  {
    forall rest: string
      ensures Balanced(out + CloseTag(t) + rest, tags, []) <==> Balanced(rest, tags, open[..|open| - 1])
    {
      assert out + CloseTag(t) + rest == out + (CloseTag(t) + rest);
      ClosePasses(t, rest, tags, open);
    }
  }

  lemma OpenAdvances(escaped: string, tags: seq<string>, out: string, open: seq<string>, m: Match)
    requires TagList(tags) && m.Match? && m == MatchAt(escaped, tags, m.start) && !m.closing
    requires Progress(escaped, tags, m.start, out, open) && |open| < MAX_NESTING
    ensures Progress(escaped, tags, m.End(), out + OpenTag(m.tag), open + [m.tag])
  {
    OpenReads(out, tags, open, m.tag);
    UnmarkConcat(out, OpenTag(m.tag));
    UnmarkTag(m.tag);
    assert escaped[..m.End()] == escaped[..m.start] + escaped[m.start..m.End()];
  }

  lemma CloseAdvances(escaped: string, tags: seq<string>, out: string, open: seq<string>, m: Match)
    requires TagList(tags) && m.Match? && m == MatchAt(escaped, tags, m.start) && m.closing
    requires Progress(escaped, tags, m.start, out, open) && open != [] && open[|open| - 1] == m.tag
    ensures Progress(escaped, tags, m.End(), out + CloseTag(m.tag), open[..|open| - 1])
  {
    CloseReads(out, tags, open, m.tag);
    UnmarkConcat(out, CloseTag(m.tag));
    UnmarkTag(m.tag);
    assert escaped[..m.End()] == escaped[..m.start] + escaped[m.start..m.End()];
  }

  // The whole contract of a sanitized message, over the text it was made from.
  ghost predicate SafeMessage(result: string, escaped: string, tags: seq<string>) {
    // a well-nested word over the permitted tags, every '<' one of them, every '&' an entity
    && Balanced(result, tags, [])
    // so the assertion the function ends with never fires
    && NoForbiddenTag(result, tags)
    && |result| <= |escaped| + 3 * MAX_NESTING
    // and nothing but tags and trailing closers separates it from the escaped text
    && exists body: string, open: seq<string> :: MadeOf(result, body, open) && Unmark(body) == escaped
  }

  predicate MadeOf(result: string, body: string, open: seq<string>) {
    |open| <= MAX_NESTING && result == body + Closers(open)
  }

  lemma Finished(escaped: string, tags: seq<string>, out: string, open: seq<string>)
    requires TagList(tags) && Progress(escaped, tags, |escaped|, out, open)
    ensures SafeMessage(out + Closers(open), escaped, tags)
  {
    ClosersBalance(tags, open);
    assert escaped[..|escaped|] == escaped;
    assert MadeOf(out + Closers(open), out, open);
    BalancedHasNoForbiddenTag(out + Closers(open), tags, []);
  }

  // Where in `s` a scanner sees tags.
  predicate Scans(s: string, at: nat -> Match) {
    forall i: nat :: i <= |s| && at(i).Match? ==> at(i).start == i && at(i).End() <= |s|
  }

  // Which escaped tags come back, read character by character from `i` with `open` still open: an
  // opening one while there is depth left, a closing one for the tag opened last; nothing else.
  function Permitted(s: string, at: nat -> Match, i: nat, open: seq<string>): string
    requires Scans(s, at)
    decreases |s| - i
  {
    if i >= |s| then Closers(open)
    else
      var m := at(i);
      if m.NoMatch? then [s[i]] + Permitted(s, at, i + 1, open)
      else if m.closing && open != [] && open[|open| - 1] == m.tag then
        CloseTag(m.tag) + Permitted(s, at, m.End(), open[..|open| - 1])
      else if !m.closing && |open| < MAX_NESTING then
        OpenTag(m.tag) + Permitted(s, at, m.End(), open + [m.tag])
      else s[i..m.End()] + Permitted(s, at, m.End(), open)
  }

  lemma {:induction false} TextIsCopied(s: string, at: nat -> Match, i: nat, j: nat, open: seq<string>)
    requires Scans(s, at) && i <= j <= |s| && forall k: nat :: i <= k < j ==> at(k).NoMatch?
    ensures Permitted(s, at, i, open) == s[i..j] + Permitted(s, at, j, open)
    decreases j - i
  {
    if i < j {
      TextIsCopied(s, at, i + 1, j, open);
      OneMoreCharacter(s, i, j, Permitted(s, at, j, open));
    }
  }

  lemma OneMoreCharacter(s: string, i: nat, j: nat, rest: string)
    requires i < j <= |s|
    ensures [s[i]] + (s[i + 1..j] + rest) == s[i..j] + rest
  {
  }

  // MODEL_TAG_RE as a scanner
  function Tags(s: string, tags: seq<string>): (at: nat -> Match)
    ensures Scans(s, at)
  {
    (i: nat) => MatchAt(s, tags, i)
  }

  // What the loop knows besides: what is out, and what the scanner would still let through.
  predicate OnCourse(s: string, at: nat -> Match, pos: nat, out: string, open: seq<string>, goal: string)
    requires Scans(s, at)
  {
    out + Permitted(s, at, pos, open) == goal
  }

  lemma TextKeepsCourse(s: string, at: nat -> Match, pos: nat, to: nat, out: string, open: seq<string>, goal: string)
    requires Scans(s, at) && OnCourse(s, at, pos, out, open, goal)
    requires pos <= to <= |s| && forall k: nat :: pos <= k < to ==> at(k).NoMatch?
    ensures OnCourse(s, at, to, out + s[pos..to], open, goal)
  {
    TextIsCopied(s, at, pos, to, open);
  }

  lemma TagKeepsCourse(s: string, at: nat -> Match, m: Match, out: string, open: seq<string>, goal: string)
    requires Scans(s, at) && m.Match? && m.start <= |s| && m == at(m.start) && OnCourse(s, at, m.start, out, open, goal)
    ensures if m.closing && open != [] && open[|open| - 1] == m.tag
            then OnCourse(s, at, m.End(), out + CloseTag(m.tag), open[..|open| - 1], goal)
            else if !m.closing && |open| < MAX_NESTING
            then OnCourse(s, at, m.End(), out + OpenTag(m.tag), open + [m.tag], goal)
            else OnCourse(s, at, m.End(), out + s[m.start..m.End()], open, goal)
  {
  }

  // The loop's invariant.
  ghost predicate InStep(escaped: string, tags: seq<string>, pos: nat, out: string, open: seq<string>) {
    && Progress(escaped, tags, pos, out, open)
    && Whole(escaped[pos..])
    && OnCourse(escaped, Tags(escaped, tags), pos, out, open, Permitted(escaped, Tags(escaped, tags), 0, []))
  }

  lemma BeginsInStep(escaped: string, tags: seq<string>)
    requires Whole(escaped)
    ensures InStep(escaped, tags, 0, "", [])
  {
    assert escaped[0..] == escaped && escaped[..0] == "";
    assert forall rest: string :: "" + rest == rest;
  }

  lemma TextInStep(escaped: string, tags: seq<string>, pos: nat, out: string, open: seq<string>, m: Match)
    requires TagList(tags) && InStep(escaped, tags, pos, out, open) && m == NextMatch(escaped, tags, pos) && m.Match?
    ensures pos <= m.start < m.End() <= |escaped| && m == MatchAt(escaped, tags, m.start)
    ensures InStep(escaped, tags, m.start, out + escaped[pos..m.start], open)
  {
    MatchDivides(escaped, tags, pos, m);
    TextAdvances(escaped, tags, pos, out, open, m.start);
    TextKeepsCourse(escaped, Tags(escaped, tags), pos, m.start, out, open, Permitted(escaped, Tags(escaped, tags), 0, []));
  }

  lemma TagInStep(escaped: string, tags: seq<string>, out: string, open: seq<string>, m: Match)
    requires TagList(tags) && m.Match? && m == MatchAt(escaped, tags, m.start) && InStep(escaped, tags, m.start, out, open)
    ensures if m.closing && open != [] && open[|open| - 1] == m.tag
            then InStep(escaped, tags, m.End(), out + CloseTag(m.tag), open[..|open| - 1])
            else if !m.closing && |open| < MAX_NESTING
            then InStep(escaped, tags, m.End(), out + OpenTag(m.tag), open + [m.tag])
            else InStep(escaped, tags, m.End(), out + escaped[m.start..m.End()], open)
  {
    var at := Tags(escaped, tags);
    assert m == at(m.start);
    TagKeepsCourse(escaped, at, m, out, open, Permitted(escaped, at, 0, []));
    MatchIsWhole(escaped, tags, m);
    if m.closing && open != [] && open[|open| - 1] == m.tag {
      CloseAdvances(escaped, tags, out, open, m);
    } else if !m.closing && |open| < MAX_NESTING {
      OpenAdvances(escaped, tags, out, open, m);
    } else {
      TextAdvances(escaped, tags, m.start, out, open, m.End());
    }
  }

  lemma EndsInStep(escaped: string, tags: seq<string>, pos: nat, out: string, open: seq<string>)
    requires TagList(tags) && InStep(escaped, tags, pos, out, open) && NextMatch(escaped, tags, pos).NoMatch?
    ensures SafeMessage(out + escaped[pos..] + Closers(open), escaped, tags)
    ensures out + escaped[pos..] + Closers(open) == Permitted(escaped, Tags(escaped, tags), 0, [])
  {
    var at := Tags(escaped, tags);
    assert escaped[pos..|escaped|] == escaped[pos..];
    TextAdvances(escaped, tags, pos, out, open, |escaped|);
    TextKeepsCourse(escaped, at, pos, |escaped|, out, open, Permitted(escaped, at, 0, []));
    Finished(escaped, tags, out + escaped[pos..], open);
  }

  // The loop of sanitize_model_html, over any list of tags.
  method PermitTags(escaped: string, tags: seq<string>) returns (result: string)
    requires TagList(tags) && Whole(escaped)
    ensures SafeMessage(result, escaped, tags)
    ensures result == Permitted(escaped, Tags(escaped, tags), 0, [])
  {
    var out: string, open: seq<string>, pos := "", [], 0;
    BeginsInStep(escaped, tags);
    var m := NextMatch(escaped, tags, 0);
    while m.Match?
      invariant InStep(escaped, tags, pos, out, open) && m == NextMatch(escaped, tags, pos)
      decreases |escaped| - pos
    {
      TextInStep(escaped, tags, pos, out, open, m);
      out := out + escaped[pos..m.start];
      pos := m.End();
      TagInStep(escaped, tags, out, open, m);
      if m.closing && open != [] && open[|open| - 1] == m.tag {
        open := open[..|open| - 1];
        out := out + CloseTag(m.tag);
      } else if !m.closing && |open| < MAX_NESTING {
        open := open + [m.tag];
        out := out + OpenTag(m.tag);
      } else {
        out := out + escaped[m.start..pos];
      }
      m := NextMatch(escaped, tags, pos);
    }
    EndsInStep(escaped, tags, pos, out, open);
    result := out + escaped[pos..] + Closers(open);
  }

  function Sanitized(text: string): string {
    var escaped := Truncate(Escape(text), MAX_MODEL_CHARS);
    Permitted(escaped, Tags(escaped, MODEL_TAGS), 0, [])
  }

  // What the loop makes of any whole text is safe to send.
  lemma {:induction false} PermittedFromIsSafe(escaped: string, tags: seq<string>, pos: nat, out: string, open: seq<string>)
    requires TagList(tags) && InStep(escaped, tags, pos, out, open)
    ensures SafeMessage(Permitted(escaped, Tags(escaped, tags), 0, []), escaped, tags)
    decreases |escaped| - pos
  {
    var m := NextMatch(escaped, tags, pos);
    if m.NoMatch? {
      EndsInStep(escaped, tags, pos, out, open);
    } else {
      TextInStep(escaped, tags, pos, out, open, m);
      var text := out + escaped[pos..m.start];
      TagInStep(escaped, tags, text, open, m);
      if m.closing && open != [] && open[|open| - 1] == m.tag {
        PermittedFromIsSafe(escaped, tags, m.End(), text + CloseTag(m.tag), open[..|open| - 1]);
      } else if !m.closing && |open| < MAX_NESTING {
        PermittedFromIsSafe(escaped, tags, m.End(), text + OpenTag(m.tag), open + [m.tag]);
      } else {
        PermittedFromIsSafe(escaped, tags, m.End(), text + escaped[m.start..m.End()], open);
      }
    }
  }

  lemma SanitizedIsSafe(text: string)
    ensures SafeMessage(Sanitized(text), Truncate(Escape(text), MAX_MODEL_CHARS), MODEL_TAGS)
  {
    var escaped := Truncate(Escape(text), MAX_MODEL_CHARS);
    TruncateIsWhole(text);
    ModelTagsAreTags();
    BeginsInStep(escaped, MODEL_TAGS);
    PermittedFromIsSafe(escaped, MODEL_TAGS, 0, "", []);
  }

  method SanitizeModelHtml(text: Option<string>) returns (result: string)
    ensures SafeMessage(result, Truncate(Escape(if text.Some? then text.value else ""), MAX_MODEL_CHARS), MODEL_TAGS)
    ensures |result| <= 3800 + 12 + 8 * 3
    ensures result == Sanitized(if text.Some? then text.value else "")
  {
    var given := if text.Some? then text.value else "";
    TruncateIsWhole(given);
    ModelTagsAreTags();
    result := PermitTags(Truncate(Escape(given), MAX_MODEL_CHARS), MODEL_TAGS);
  }
}
