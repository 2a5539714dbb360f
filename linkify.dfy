/** The linkifier: scan the text, validate and resolve each candidate, trim
    its trailing punctuation, shorten its display text and render it, passing
    all other text through unchanged. */
module Linkify {
  import opened Wrappers
  import opened Chars
  import opened Lexer
  import opened SchemePolicy
  import opened Scanner
  import opened Trimmer
  import opened Truncator
  import opened LocalResolver
  import opened Renderer

  /** The caller's options: the board address (absent: the default board)
      and a class that replaces `postlink` (absent: `postlink`). */
  datatype Options = Options(boardUrl: Option<string>, cssClass: Option<string>)

  const DefaultClass: string := "postlink"

  function BoardOf(opts: Options): string {
    if opts.boardUrl.Some? then opts.boardUrl.value else DefaultBoardUrl
  }

  function ClassOf(opts: Options): string {
    if opts.cssClass.Some? then opts.cssClass.value else DefaultClass
  }

  /** The anchor for a candidate whose trimmed text is `body`. */
  function Classify(form: Form, body: string, board: string): (a: Anchor)
    ensures form == MailForm ==> a == Anchor(Email, "mailto:" + body, body)
    ensures form == WwwForm ==> a == Anchor(LazyUrl, "http://" + body, Shorten(body))
    ensures form == SchemeForm ==>
      && a.href == body
      && (a.kind == LocalUrl <==> board + "/" <= body)
      && (a.kind == LocalUrl ==> body == board + "/" + RelativePart(body, board).value
                                 && a.text == Shorten(RelativePart(body, board).value))
      && (a.kind != LocalUrl ==> a.kind == FullUrl && a.text == Shorten(body))
  {
    match form
    case SchemeForm =>
      (match RelativePart(body, board)
       case Some(rel) => Anchor(LocalUrl, body, Shorten(rel))
       case None => Anchor(FullUrl, body, Shorten(body)))
    case WwwForm => Anchor(LazyUrl, "http://" + body, Shorten(body))
    case MailForm => Anchor(Email, "mailto:" + body, body)
  }

  /** A link's markup followed by the punctuation trimmed off its end. */
  function RenderLink(c: Candidate, opts: Options): string {
    var t := TrimTrailing(c.text);
    Markup(Classify(c.form, t.body, BoardOf(opts)), ClassOf(opts)) + t.tail
  }

  /** The renderer `MakeClickable` hands each link to. */
  function LinkMarkup(opts: Options): Candidate -> string {
    c => RenderLink(c, opts)
  }

  /** A span's output: a literal as it is, a link as `link` renders it. */
  function RenderSpan(sp: Span, link: Candidate -> string): string {
    match sp
    case Literal(t) => t
    case Link(c) => link(c)
  }

  function RenderSpans(spans: seq<Span>, link: Candidate -> string): string {
    if spans == [] then [] else RenderSpan(spans[0], link) + RenderSpans(spans[1..], link)
  }

  /** The output for `text`: every span rendered, in order. */
  function MakeClickable(text: string, opts: Options, idn: char -> bool): string {
    RenderSpans(Scan(text, idn), LinkMarkup(opts))
  }

  lemma {:induction false} RenderSpansAppend(a: seq<Span>, b: seq<Span>, link: Candidate -> string)
    ensures RenderSpans(a + b, link) == RenderSpans(a, link) + RenderSpans(b, link)
  {
    if a == [] {
      assert a + b == b;
    } else {
      assert (a + b)[1..] == a[1..] + b;
      RenderSpansAppend(a[1..], b, link);
    }
  }

  /** Literal spans render as the characters they hold. */
  lemma {:induction false} RenderLiterals(t: string, link: Candidate -> string)
    ensures RenderSpans(Literals(t), link) == t
  {
    if t != [] {
      RenderLiterals(t[1..], link);
      assert Literals(t)[1..] == Literals(t[1..]);
      assert t == [t[0]] + t[1..];
    }
  }

  /** A stretch with no candidate in it is copied to the output as is. */
  lemma SkipText(s: string, table: seq<Option<Candidate>>, i: nat, j: nat, link: Candidate -> string)
    requires IsCandidateTable(s, table) && i <= j <= |s|
    requires forall k | i <= k < j :: table[k].None?
    ensures RenderSpans(ScanFrom(s, table, i), link) == s[i..j] + RenderSpans(ScanFrom(s, table, j), link)
  {
    SkipLiterals(s, table, i, j);
    RenderSpansAppend(Literals(s[i..j]), ScanFrom(s, table, j), link);
    RenderLiterals(s[i..j], link);
  }

  /** Where the table has a candidate, the output holds its rendering and
      continues after it. */
  lemma TakeLink(s: string, table: seq<Option<Candidate>>, i: nat, c: Candidate, link: Candidate -> string)
    requires IsCandidateTable(s, table) && i < |s| && table[i] == Some(c)
    ensures i + |c.text| <= |s|
    ensures RenderSpans(ScanFrom(s, table, i), link) == link(c) + RenderSpans(ScanFrom(s, table, i + |c.text|), link)
  {
    ScanFromStep(s, table, i);
    var rest := ScanFrom(s, table, i + |c.text|);
    assert ([Link(c)] + rest)[1..] == rest;
  }

  /** A text in which no position starts a candidate comes out unchanged. */
  lemma NoCandidatesNoChange(s: string, opts: Options, idn: char -> bool)
    requires forall k | 0 <= k <= |s| :: CandidateAt(s, k, idn).None?
    ensures MakeClickable(s, opts, idn) == s
  {
    var table := CandidateTable(s, idn);
    SkipText(s, table, 0, |s|, LinkMarkup(opts));
  }

  /** Text with no `:`, no `@` and no `www.` holds no link: every candidate
      needs `://`, `www.` or `@`. */
  lemma PlainTextUnchanged(s: string, opts: Options, idn: char -> bool)
    requires forall k | 0 <= k < |s| :: s[k] != ':' && s[k] != '@'
    requires forall k | 0 <= k <= |s| :: !WwwAt(s, k)
    ensures MakeClickable(s, opts, idn) == s
  {
    forall k | 0 <= k <= |s|
      ensures CandidateAt(s, k, idn).None?
    {
      var sl := Run(s, k, SchemeChars, idn);
      if k + sl < |s| {
        assert s[k + sl] != ':';
      }
      var ml := Run(s, k, MailboxChars, idn);
      if k + ml < |s| {
        assert s[k + ml] != '@';
      }
    }
    NoCandidatesNoChange(s, opts, idn);
  }

  /** A `javascript://` URL, in any letter case, is never linkified: as long as
      nothing in it could start another link, it comes out as it went in. */
  lemma JavascriptUrlUnchanged(scheme: string, rest: string, opts: Options, idn: char -> bool)
    requires IsDeniedScheme(scheme)
    requires forall k | 0 <= k < |rest| :: !IsSeparator(rest[k])
    ensures MakeClickable(scheme + "://" + rest, opts, idn) == scheme + "://" + rest
  {
    var s := scheme + "://" + rest;
    assert s[..|scheme|] == scheme;
    JavascriptNeverCandidate(s, 0, scheme, idn);
    assert forall k | 0 <= k < |s| :: !IsSeparator(s[k]) by {
      forall k | 0 <= k < |s|
        ensures !IsSeparator(s[k])
      {
        if k < |scheme| {
          assert s[k] == "javascript"[k] || s[k] == "JAVASCRIPT"[k];
        } else if k >= |scheme| + 3 {
          assert s[k] == rest[k - |scheme| - 3];
        }
      }
    }
    OnlyFirstPositionCounts(s, idn);
    NoCandidatesNoChange(s, opts, idn);
  }

  /** An anchor built from a text that does not end in trailing punctuation
      ends in none either, in its target or in its shown text. */
  lemma AnchorEndsClean(form: Form, body: string, board: string)
    requires body == [] || !IsTrailingPunct(body[|body| - 1])
    ensures var a := Classify(form, body, board);
      && (a.href == [] || !IsTrailingPunct(a.href[|a.href| - 1]))
      && (a.text == [] || !IsTrailingPunct(a.text[|a.text| - 1]))
  {
    var a := Classify(form, body, board);
    if form == SchemeForm && board + "/" <= body {
      var rel := RelativePart(body, board).value;
      if rel != [] {
        assert rel[|rel| - 1] == body[|body| - 1];
      }
      ShortenKeepsLast(rel);
    } else if form != MailForm {
      ShortenKeepsLast(body);
      if form == WwwForm && body == [] {
        assert a.href[|a.href| - 1] == '/';
      }
    }
  }

  /** Punctuation trimmed off a link follows its closing sentinel verbatim, and
      neither the target nor the shown text of the link ends in it. */
  lemma TrailingPunctuationFollowsMarkup(c: Candidate, opts: Options)
    ensures
      var t := TrimTrailing(c.text);
      var a := Classify(c.form, t.body, BoardOf(opts));
      && RenderLink(c, opts) == Markup(a, ClassOf(opts)) + t.tail
      && c.text == t.body + t.tail
      && AllTrailingPunct(t.tail)
      && (a.href == [] || !IsTrailingPunct(a.href[|a.href| - 1]))
      && (a.text == [] || !IsTrailingPunct(a.text[|a.text| - 1]))
  {
    AnchorEndsClean(c.form, TrimTrailing(c.text).body, BoardOf(opts));
  }

  /** The shown text of a URL link is at most 55 characters long. */
  lemma DisplayTextBounded(c: Candidate, opts: Options)
    ensures
      var a := Classify(c.form, TrimTrailing(c.text).body, BoardOf(opts));
      a.kind != Email ==> |a.text| <= MaxDisplay
  {
    var body := TrimTrailing(c.text).body;
    ShortenBounds(body);
    if c.form == SchemeForm && RelativePart(body, BoardOf(opts)).Some? {
      ShortenBounds(RelativePart(body, BoardOf(opts)).value);
    }
  }

  /** A text that is exactly one link renders as that link. */
  lemma WholeTextIsLink(s: string, c: Candidate, opts: Options, idn: char -> bool)
    requires CandidateAt(s, 0, idn) == Some(c) && |c.text| == |s|
    ensures MakeClickable(s, opts, idn) == RenderLink(c, opts)
  {
    var table := CandidateTable(s, idn);
    TakeLink(s, table, 0, c, LinkMarkup(opts));
  }

  /** Text with no link in it, followed by a link that runs to the end, comes
      out as that text followed by the link's rendering. */
  lemma TextThenLink(pre: string, u: string, c: Candidate, opts: Options, idn: char -> bool)
    requires forall k | 0 <= k < |pre| :: CandidateAt(pre + u, k, idn).None?
    requires CandidateAt(pre + u, |pre|, idn) == Some(c) && |c.text| == |u|
    ensures MakeClickable(pre + u, opts, idn) == pre + RenderLink(c, opts)
  {
    var s := pre + u;
    var table, link := CandidateTable(s, idn), LinkMarkup(opts);
    SkipText(s, table, 0, |pre|, link);
    TakeLink(s, table, |pre|, c, link);
    assert s[0..|pre|] == pre;
    TextThenOutput(RenderSpans(ScanFrom(s, table, 0), link), pre, RenderSpans(ScanFrom(s, table, |pre|), link),
      link(c), RenderSpans(ScanFrom(s, table, |s|), link));
  }

  /** Regrouping an output made of a text, a link's rendering and nothing. */
  lemma TextThenOutput(whole: string, lead: string, after: string, x: string, end: string)
    requires whole == lead + after && after == x + end && end == []
    ensures whole == lead + x
  {
  }

  /** A link at the start of the text followed by text in which no link
      starts comes out as the link's rendering followed by that text. */
  lemma LinkThenText(u: string, post: string, c: Candidate, opts: Options, idn: char -> bool)
    requires CandidateAt(u + post, 0, idn) == Some(c) && |c.text| == |u|
    requires forall k | |u| <= k < |u + post| :: CandidateAt(u + post, k, idn).None?
    ensures MakeClickable(u + post, opts, idn) == RenderLink(c, opts) + post
  {
    var s := u + post;
    var table := CandidateTable(s, idn);
    forall k | |u| <= k < |s|
      ensures table[k].None?
    {
    }
    LinkThenRest(s, table, c, LinkMarkup(opts));
    assert s[|u|..] == post;
  }

  lemma LinkThenRest(s: string, table: seq<Option<Candidate>>, c: Candidate, link: Candidate -> string)
    requires IsCandidateTable(s, table) && 0 < |s| && table[0] == Some(c)
    requires forall k | |c.text| <= k < |s| :: table[k].None?
    ensures RenderSpans(ScanFrom(s, table, 0), link) == link(c) + s[|c.text|..]
  {
    TakeLink(s, table, 0, c, link);
    SkipText(s, table, |c.text|, |s|, link);
    assert s[|c.text|..|s|] == s[|c.text|..];
  }

  /** Sentence punctuation is always something a path may hold. */
  lemma PunctIsUrl(punct: string, idn: char -> bool)
    requires AllTrailingPunct(punct)
    ensures AllIn(UrlChars, idn, punct)
  {
    forall k | 0 <= k < |punct|
      ensures InClass(UrlChars, idn, punct[k])
    {
      assert IsTrailingPunct(punct[k]);
    }
  }

  /** A link whose text is a body that does not end in sentence punctuation
      followed by such punctuation renders as the anchor for the body, then
      the punctuation. */
  lemma RenderTrimmed(c: Candidate, body: string, punct: string, opts: Options)
    requires c.text == body + punct && AllTrailingPunct(punct)
    requires body == [] || !IsTrailingPunct(body[|body| - 1])
    ensures RenderLink(c, opts) == Markup(Classify(c.form, body, BoardOf(opts)), ClassOf(opts)) + punct
  {
    TrimUnique(c.text, body, punct);
  }

  /** A text that is one scheme URL, possibly followed by sentence punctuation
      right after its path, renders as the anchor for the URL without the
      punctuation, then the punctuation. */
  lemma SchemeUrlRendered(scheme: string, host: string, path: string, punct: string, opts: Options, idn: char -> bool)
    requires 0 < |scheme| && IsAsciiLetter(scheme[0]) && AllIn(SchemeChars, idn, scheme) && !IsDeniedScheme(scheme)
    requires 0 < |host| && IsLabelStart(idn, host[0]) && AllIn(HostChars, idn, host)
    requires path == [] || (IsPathStart(path[0]) && AllIn(UrlChars, idn, path))
    requires AllTrailingPunct(punct) && (punct != [] ==> path != [])
    requires path == [] ==> !IsTrailingPunct(host[|host| - 1])
    requires path != [] ==> !IsTrailingPunct(path[|path| - 1])
    ensures
      var body := scheme + "://" + host + path;
      MakeClickable(body + punct, opts, idn) == Markup(Classify(SchemeForm, body, BoardOf(opts)), ClassOf(opts)) + punct
  {
    var body := scheme + "://" + host + path;
    var s := body + punct;
    PunctIsUrl(punct, idn);
    SchemeUrlWhole(scheme, host, path, punct, idn);
    var c := Candidate(SchemeForm, scheme, s);
    WholeTextIsLink(s, c, opts, idn);
    assert body[|body| - 1] == if path == [] then host[|host| - 1] else path[|path| - 1];
    RenderTrimmed(c, body, punct, opts);
  }

  /** A text that is one `www.` URL, possibly followed by sentence punctuation
      right after its path, links to `http://` and the URL and shows the URL,
      then the punctuation. */
  lemma WwwUrlRendered(domain: string, path: string, punct: string, opts: Options, idn: char -> bool)
    requires 0 < |domain| && IsLabelStart(idn, domain[0]) && AllIn(DomainChars, idn, domain)
    requires path == [] || (IsPathStart(path[0]) && AllIn(UrlChars, idn, path))
    requires AllTrailingPunct(punct) && (punct != [] ==> path != [])
    requires path == [] ==> !IsTrailingPunct(domain[|domain| - 1])
    requires path != [] ==> !IsTrailingPunct(path[|path| - 1])
    ensures
      var body := "www." + domain + path;
      MakeClickable(body + punct, opts, idn) == Markup(Anchor(LazyUrl, "http://" + body, Shorten(body)), ClassOf(opts)) + punct
  {
    var body := "www." + domain + path;
    var s := body + punct;
    PunctIsUrl(punct, idn);
    WwwUrlWhole(domain, path, punct, idn);
    var c := Candidate(WwwForm, [], s);
    WholeTextIsLink(s, c, opts, idn);
    assert body[|body| - 1] == if path == [] then domain[|domain| - 1] else path[|path| - 1];
    RenderTrimmed(c, body, punct, opts);
  }

  /** A text that is one e-mail address with a plain ASCII domain renders as a
      `mailto:` anchor showing the address. */
  lemma EmailRendered(local: string, domain: string, opts: Options, idn: char -> bool)
    requires 0 < |local| && AllIn(MailboxChars, idn, local)
    requires AllIn(DomainChars, idn, domain) && IsMailDomainRun(domain)
    requires !IsTrailingPunct(domain[|domain| - 1])
    requires !WwwAt(local + "@" + domain, 0)
    ensures
      var s := local + "@" + domain;
      MakeClickable(s, opts, idn) == Markup(Anchor(Email, "mailto:" + s, s), ClassOf(opts))
  {
    var s := local + "@" + domain;
    EmailWhole(local, domain, idn);
    var c := Candidate(MailForm, [], s);
    WholeTextIsLink(s, c, opts, idn);
    assert s + [] == s;
    RenderTrimmed(c, s, [], opts);
    assert Classify(MailForm, s, BoardOf(opts)) == Anchor(Email, "mailto:" + s, s);
  }
}
