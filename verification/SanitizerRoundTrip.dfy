/** What sanitize_model_html leaves alone: model text already written with the permitted tags,
    properly nested, comes through unchanged. Escaping and permitting back are inverse on it. */
module SanitizerRoundTrip {
  import opened Sanitizer

  lemma {:induction false} EscapeConcat(a: string, b: string)
    ensures Escape(a + b) == Escape(a) + Escape(b)
  {
    if a == "" {
      assert a + b == b;
    } else {
      assert (a + b)[1..] == a[1..] + b;
      EscapeConcat(a[1..], b);
    }
  }

  lemma {:induction false} PlainEscapesToItself(p: string)
    requires Plain(p)
    ensures Escape(p) == p
  {
    if p != "" {
      PlainEscapesToItself(p[1..]);
    }
  }

  lemma TagEscapes(p: string, rest: string)
    requires Plain(p)
    ensures Escape("<" + p + ">" + rest) == "&lt;" + p + "&gt;" + Escape(rest)
  {
    PlainEscapesToItself(p);
    EscapeConcat("<" + p + ">", rest);
    EscapeConcat("<" + p, ">");
    EscapeConcat("<", p);
    EscapeOne('<');
    EscapeOne('>');
  }

  // What each character becomes; with EscapeConcat, that is what any text becomes.
  lemma EscapeOne(c: char)
    ensures Escape([c]) == match c
                           case '&' => "&amp;"
                           case '<' => "&lt;"
                           case '>' => "&gt;"
                           case _ => [c]
  {
    assert [c][1..] == "";
    assert EscapeChar(c) + "" == EscapeChar(c);
  }

  // A reader's half: the three entities, each for the character it stands for.
  function Unescape(s: string): string
    decreases |s|
  {
    if s == "" then ""
    else if |s| >= 5 && s[0] == '&' && s[1] == 'a' && s[2] == 'm' && s[3] == 'p' && s[4] == ';' then "&" + Unescape(s[5..])
    else if |s| >= 4 && s[0] == '&' && s[1] == 'l' && s[2] == 't' && s[3] == ';' then "<" + Unescape(s[4..])
    else if |s| >= 4 && s[0] == '&' && s[1] == 'g' && s[2] == 't' && s[3] == ';' then ">" + Unescape(s[4..])
    else [s[0]] + Unescape(s[1..])
  }

  lemma UnescapeHead(c: char, rest: string)
    ensures Unescape(EscapeChar(c) + rest) == [c] + Unescape(rest)
  {
    var head := EscapeChar(c);
    assert (head + rest)[|head|..] == rest;
  }

  // What is displayed is what was written.
  lemma {:induction false} UnescapeInvertsEscape(text: string)
    ensures Unescape(Escape(text)) == text
  {
    if text != "" {
      UnescapeInvertsEscape(text[1..]);
      UnescapeHead(text[0], Escape(text[1..]));
      assert text == [text[0]] + text[1..];
    }
  }

  // The regular expression finds the escaped tag where it stands.
  lemma TagIsMatched(s: string, i: nat, closing: bool, t: string, rest: string, tags: seq<string>)
    requires TagList(tags) && t in tags && i <= |s|
    requires s[i..] == "&lt;" + ((if closing then "/" else "") + t) + "&gt;" + rest
    ensures MatchAt(s, tags, i) == Match(i, closing, t)
    ensures i < Match(i, closing, t).End() <= |s| && s[Match(i, closing, t).End()..] == rest
  {
    var slash := if closing then "/" else "";
    var tail := t + "&gt;" + rest;
    assert Name(t);
    TagShape(s, i, slash, t, rest);
    TagIsFound(t, rest, tags, "&gt;");
    assert tail[0] == t[0];
  }

  lemma TagShape(s: string, i: nat, slash: string, t: string, rest: string)
    requires i <= |s| && s[i..] == "&lt;" + (slash + t) + "&gt;" + rest
    ensures i + 8 + |slash| + |t| <= |s| && StartsWith(s[i..], "&lt;")
    ensures s[i + 4..] == slash + (t + "&gt;" + rest)
    ensures s[i + 4 + |slash|..] == t + "&gt;" + rest
    ensures s[i + 8 + |slash| + |t|..] == rest
  {
    Shifted(s, i, 4, slash + (t + "&gt;" + rest));
    Shifted(s, i + 4, |slash|, t + "&gt;" + rest);
    Shifted(s, i + 4 + |slash|, |t| + 4, rest);
  }

  lemma Shifted(s: string, i: nat, k: nat, rest: string)
    requires i + k <= |s| && s[i..][k..] == rest
    ensures s[i + k..] == rest
  {
  }

  lemma PlainIsNotMatched(s: string, i: nat, tags: seq<string>)
    requires i < |s| && s[i] != '&'
    ensures MatchAt(s, tags, i).NoMatch?
  {
    assert |s[i..]| >= 4 ==> s[i..][..4][0] == s[i];
  }

  lemma OpenStep(s: string, i: nat, t: string, rest: string, tags: seq<string>, open: seq<string>) returns (k: nat)
    requires TagList(tags) && t in tags && |open| < MAX_NESTING && i <= |s|
    requires s[i..] == "&lt;" + t + "&gt;" + rest
    ensures i < k <= |s| && s[k..] == rest
    ensures Permitted(s, Tags(s, tags), i, open) == OpenTag(t) + Permitted(s, Tags(s, tags), k, open + [t])
  {
    assert "" + t == t;
    TagIsMatched(s, i, false, t, rest, tags);
    k := Match(i, false, t).End();
    assert Tags(s, tags)(i) == Match(i, false, t);
  }

  lemma CloseStep(s: string, i: nat, t: string, rest: string, tags: seq<string>, open: seq<string>) returns (k: nat)
    requires TagList(tags) && t in tags && open != [] && open[|open| - 1] == t && i <= |s|
    requires s[i..] == "&lt;" + ("/" + t) + "&gt;" + rest
    ensures i < k <= |s| && s[k..] == rest
    ensures Permitted(s, Tags(s, tags), i, open) == CloseTag(t) + Permitted(s, Tags(s, tags), k, open[..|open| - 1])
  {
    TagIsMatched(s, i, true, t, rest, tags);
    k := Match(i, true, t).End();
    assert Tags(s, tags)(i) == Match(i, true, t);
  }

  lemma PlainStep(s: string, i: nat, c: char, rest: string, tags: seq<string>, open: seq<string>)
    requires c != '&' && i <= |s| && s[i..] == [c] + rest
    ensures i < |s| && s[i + 1..] == rest
    ensures Permitted(s, Tags(s, tags), i, open) == [c] + Permitted(s, Tags(s, tags), i + 1, open)
  {
    assert s[i..][0] == s[i] == c;
    Shifted(s, i, 1, rest);
    PlainIsNotMatched(s, i, tags);
    assert Tags(s, tags)(i).NoMatch?;
  }

  lemma {:induction false} WellNestedSurvives(s: string, i: nat, w: string, tags: seq<string>, open: seq<string>)
    requires TagList(tags) && Balanced(w, tags, open) && '&' !in w && i <= |s| && s[i..] == Escape(w)
    ensures Permitted(s, Tags(s, tags), i, open) == w
    decreases |w|
  {
    if w == "" {
    } else if w[0] == '<' {
      TagSurvives(s, i, w, tags, open);
    } else {
      PlainStep(s, i, w[0], Escape(w[1..]), tags, open);
      WellNestedSurvives(s, i + 1, w[1..], tags, open);
      assert w == [w[0]] + w[1..];
    }
  }

  lemma {:induction false} TagSurvives(s: string, i: nat, w: string, tags: seq<string>, open: seq<string>)
    requires TagList(tags) && Balanced(w, tags, open) && '&' !in w && i <= |s| && s[i..] == Escape(w)
    requires w != "" && w[0] == '<'
    ensures Permitted(s, Tags(s, tags), i, open) == w
    decreases |w|, 0
  {
    if w[1] == '/' {
      var t := TagFrom(w[2..], tags, ">").value;
      var rest := w[|t| + 3..];
      SplitClose(w, t);
      assert Name(t) && "<" + ("/" + t) == "</" + t;
      TagEscapes("/" + t, rest);
      var k := CloseStep(s, i, t, Escape(rest), tags, open);
      WellNestedSurvives(s, k, rest, tags, open[..|open| - 1]);
    } else {
      var t := TagFrom(w[1..], tags, ">").value;
      var rest := w[|t| + 2..];
      SplitOpen(w, t);
      assert Name(t);
      TagEscapes(t, rest);
      var k := OpenStep(s, i, t, Escape(rest), tags, open);
      WellNestedSurvives(s, k, rest, tags, open + [t]);
    }
  }

  lemma SplitOpen(w: string, t: string)
    requires w != "" && w[0] == '<' && StartsWith(w[1..], t + ">")
    ensures |t| + 2 <= |w| && w == OpenTag(t) + w[|t| + 2..]
  {
    assert w == "<" + w[1..];
    assert w[1..] == t + ">" + w[1..][|t| + 1..];
  }

  lemma SplitClose(w: string, t: string)
    requires |w| > 1 && w[0] == '<' && w[1] == '/' && StartsWith(w[2..], t + ">")
    ensures |t| + 3 <= |w| && w == CloseTag(t) + w[|t| + 3..]
  {
    assert w == "</" + w[2..];
    assert w[2..] == t + ">" + w[2..][|t| + 1..];
  }

  // Text in the permitted markup, nested no deeper than the limit and short enough not to be
  // cut, is sent exactly as the model wrote it.
  lemma WellFormedTextIsUntouched(w: string)
    requires Balanced(w, MODEL_TAGS, []) && '&' !in w && |Escape(w)| <= MAX_MODEL_CHARS
    ensures Sanitized(w) == w
  {
    ModelTagsAreTags();
    assert Escape(w)[0..] == Escape(w);
    WellNestedSurvives(Escape(w), 0, w, MODEL_TAGS, []);
  }

  // --- and nothing else does -------------------------------------------------

  function Angles(s: string): nat {
    if s == "" then 0 else (if s[0] == '<' || s[0] == '>' then 1 else 0) + Angles(s[1..])
  }

  function Ampersands(s: string): nat {
    if s == "" then 0 else (if s[0] == '&' then 1 else 0) + Ampersands(s[1..])
  }

  lemma {:induction false} AnglesConcat(a: string, b: string)
    ensures Angles(a + b) == Angles(a) + Angles(b)
  {
    if a == "" {
      assert a + b == b;
    } else {
      assert (a + b)[1..] == a[1..] + b;
      AnglesConcat(a[1..], b);
    }
  }

  lemma {:induction false} UnmarkedLength(s: string)
    ensures |Unmark(s)| == |s| + 3 * Angles(s)
  {
    if s != "" {
      UnmarkedLength(s[1..]);
    }
  }

  lemma {:induction false} EscapedLength(s: string)
    ensures |Escape(s)| == |s| + 3 * Angles(s) + 4 * Ampersands(s)
  {
    if s != "" {
      EscapedLength(s[1..]);
    }
  }

  lemma {:induction false} AmpersandsCounted(s: string)
    requires Ampersands(s) == 0
    ensures '&' !in s
  {
    if s != "" {
      AmpersandsCounted(s[1..]);
      assert s == [s[0]] + s[1..];
    }
  }

  // A safe message that is its own source never had an ampersand to escape: putting its tags back
  // has to make up the whole length of its escaping.
  lemma OwnSourceHasNoAmpersand(w: string, tags: seq<string>)
    requires SafeMessage(w, Escape(w), tags)
    ensures '&' !in w
  {
    var body, open :| MadeOf(w, body, open) && Unmark(body) == Escape(w);
    AnglesConcat(body, Closers(open));
    UnmarkedLength(body);
    EscapedLength(w);
    AmpersandsCounted(w);
  }

  // Exactly: text that is not cut is sent as written if and only if it is in the permitted markup,
  // nested within the limit, and has no ampersand.
  lemma UntouchedIff(w: string)
    requires |Escape(w)| <= MAX_MODEL_CHARS
    ensures Sanitized(w) == w <==> Balanced(w, MODEL_TAGS, []) && '&' !in w
  {
    if Sanitized(w) == w {
      SanitizedIsSafe(w);
      OwnSourceHasNoAmpersand(w, MODEL_TAGS);
    }
    if Balanced(w, MODEL_TAGS, []) && '&' !in w {
      WellFormedTextIsUntouched(w);
    }
  }
}
