/** The three lexical shapes a link can take, each recognised at one position
    of the text by maximal runs of character classes:
      - a scheme URL   `scheme://authority[/path][?query][#fragment]`
      - a lazy URL     `www.domain[/path]`
      - an e-mail      `local@domain` whose domain is plain ASCII. */
module Lexer {
  import opened Wrappers
  import opened Chars
  import opened Trimmer

  datatype Form = SchemeForm | WwwForm | MailForm

  /** A candidate link: its shape, its scheme token (empty unless
      `form == SchemeForm`) and the text it covers. */
  datatype Candidate = Candidate(form: Form, scheme: string, text: string)

  /** Length of the run of `cls` characters starting at `i`; `RunSpan` says
      that it is the longest such run. */
  function Run(s: string, i: nat, cls: CharClass, idn: char -> bool): (n: nat)
    requires i <= |s|
    ensures i + n <= |s|
    decreases |s| - i
  {
    if i < |s| && InClass(cls, idn, s[i]) then 1 + Run(s, i + 1, cls, idn) else 0
  }

  /** Every character of `t` is in `cls`. */
  predicate AllIn(cls: CharClass, idn: char -> bool, t: string) {
    forall k | 0 <= k < |t| :: InClass(cls, idn, t[k])
  }

  /** The run is all `cls` and stops at a non-`cls` character or at the end
      of the text. */
  lemma {:induction false} RunSpan(s: string, i: nat, cls: CharClass, idn: char -> bool)
    requires i <= |s|
    ensures AllIn(cls, idn, s[i..i + Run(s, i, cls, idn)])
    ensures i + Run(s, i, cls, idn) == |s| || !InClass(cls, idn, s[i + Run(s, i, cls, idn)])
    decreases |s| - i
  {
    if i < |s| && InClass(cls, idn, s[i]) {
      RunSpan(s, i + 1, cls, idn);
      var n := Run(s, i, cls, idn);
      assert s[i..i + n] == [s[i]] + s[i + 1..i + n];
    }
  }

  /** The run from `i` ends at or before the first non-`cls` character. */
  lemma {:induction false} RunStops(s: string, i: nat, j: nat, cls: CharClass, idn: char -> bool)
    requires i <= j < |s| && !InClass(cls, idn, s[j])
    ensures i + Run(s, i, cls, idn) <= j
    decreases j - i
  {
    if i < j && InClass(cls, idn, s[i]) {
      RunStops(s, i + 1, j, cls, idn);
    }
  }

  /** Conversely, a stretch that is all `cls` and stops at a non-`cls`
      character or at the end is the run. */
  lemma {:induction false} RunIs(s: string, i: nat, cls: CharClass, idn: char -> bool, n: nat)
    requires i + n <= |s| && AllIn(cls, idn, s[i..i + n])
    requires i + n == |s| || !InClass(cls, idn, s[i + n])
    ensures Run(s, i, cls, idn) == n
    decreases n
  {
    if n > 0 {
      assert s[i] == s[i..i + n][0];
      assert s[i + 1..i + n] == s[i..i + n][1..];
      RunIs(s, i + 1, cls, idn, n - 1);
    }
  }

  /** Length of the optional path, query and fragment that starts at `p`. */
  function PathLength(s: string, p: nat, idn: char -> bool): (n: nat)
    requires p <= |s|
    ensures p + n <= |s|
    ensures n > 0 <==> p < |s| && IsPathStart(s[p])
  {
    if p < |s| && IsPathStart(s[p]) then Run(s, p, UrlChars, idn) else 0
  }

  /** A domain or authority run together with the path after it consists of
      URL characters only, so a link never takes in a character that a URL
      could not hold. */
  lemma UrlTail(s: string, h: nat, cls: CharClass, idn: char -> bool)
    requires cls == DomainChars || cls == HostChars
    requires h <= |s|
    ensures var p := h + Run(s, h, cls, idn);
      AllIn(UrlChars, idn, s[h..p + PathLength(s, p, idn)])
  {
    var p := h + Run(s, h, cls, idn);
    var e := p + PathLength(s, p, idn);
    RunSpan(s, h, cls, idn);
    if p < e {
      RunSpan(s, p, UrlChars, idn);
    }
    forall k | 0 <= k < e - h
      ensures InClass(UrlChars, idn, s[h..e][k])
    {
      if h + k < p {
        assert s[h..e][k] == s[h..p][k];
        ClassesNest(idn, s[h + k]);
      } else {
        assert s[h..e][k] == s[p..e][h + k - p];
      }
    }
  }

  /** `scheme://authority` and an optional path at `i`.  The scheme is the
      maximal run of scheme characters at `i`; it must start with a letter and
      be followed directly by `://`, and the authority must not be empty. */
  function SchemeUrlAt(s: string, i: nat, idn: char -> bool): (r: Option<Candidate>)
    requires i <= |s|
    ensures r.Some? ==>
      var n, sl := |r.value.text|, |r.value.scheme|;
      && r.value.form == SchemeForm
      && sl + 4 <= n && i + n <= |s|
      && r.value.text == s[i..i + n]
      && r.value.scheme == s[i..i + sl]
  {
    var sl := Run(s, i, SchemeChars, idn);
    if sl == 0 || !IsAsciiLetter(s[i]) || i + sl + 3 > |s| || !(s[i + sl] == ':' && s[i + sl + 1] == '/' && s[i + sl + 2] == '/') then None
    else
      var h := i + sl + 3;
      var hl := Run(s, h, HostChars, idn);
      if hl == 0 || !IsLabelStart(idn, s[h]) then None
      else
        var p := h + hl;
        var pl := PathLength(s, p, idn);
        Some(Candidate(SchemeForm, s[i..i + sl], s[i..p + pl]))
  }

  /** The four characters `www.` stand at `i`. */
  predicate WwwAt(s: string, i: nat) {
    i + 4 <= |s| && s[i] == 'w' && s[i + 1] == 'w' && s[i + 2] == 'w' && s[i + 3] == '.'
  }

  /** `www.` followed by a non-empty domain and an optional path at `i`. */
  function WwwUrlAt(s: string, i: nat, idn: char -> bool): (r: Option<Candidate>)
    requires i <= |s|
    ensures r.Some? ==>
      var n := |r.value.text|;
      && r.value.form == WwwForm && r.value.scheme == []
      && 5 <= n && i + n <= |s|
      && r.value.text == s[i..i + n]
      && WwwAt(s, i)
  {
    if !WwwAt(s, i) then None
    else
      var dl := Run(s, i + 4, DomainChars, idn);
      if dl == 0 || !IsLabelStart(idn, s[i + 4]) then None
      else
        var p := i + 4 + dl;
        var pl := PathLength(s, p, idn);
        Some(Candidate(WwwForm, [], s[i..p + pl]))
  }

  predicate IsAsciiText(t: string) {
    forall k | 0 <= k < |t| :: IsAscii(t[k])
  }

  /** What the domain of an e-mail address must be: non-empty, dotted, ASCII. */
  predicate IsMailDomain(t: string) {
    |t| > 0 && '.' in t && IsAsciiText(t)
  }

  /** A dot stands in `t` before the sentence punctuation at its end. */
  predicate DottedBody(t: string)
    decreases |t|
  {
    0 < |t| && if IsTrailingPunct(t[|t| - 1]) then DottedBody(t[..|t| - 1]) else '.' in t
  }

  lemma {:induction false} DottedBodyHasDot(t: string)
    requires DottedBody(t)
    ensures '.' in t
    decreases |t|
  {
    if IsTrailingPunct(t[|t| - 1]) {
      DottedBodyHasDot(t[..|t| - 1]);
      assert t == t[..|t| - 1] + [t[|t| - 1]];
    }
  }

  /** What the domain run after an `@` must be: plain ASCII, starting with a
      letter or a digit, with a dot before its trailing punctuation (`a@b.`
      has none).  `MailDomainRunTrimmed` shows this is a mail domain once the
      punctuation is cut off. */
  predicate IsMailDomainRun(t: string) {
    0 < |t| && IsAsciiAlnum(t[0]) && IsAsciiText(t) && DottedBody(t)
  }

  /** `local@domain` at `i`: a non-empty local part, `@`, and the maximal run of
      domain characters after it, which must be a mail domain run.  An address
      whose domain holds an IDN character is not a candidate at all. */
  function EmailAt(s: string, i: nat, idn: char -> bool): (r: Option<Candidate>)
    requires i <= |s|
    ensures r.Some? ==>
      var n, at := |r.value.text|, Run(s, i, MailboxChars, idn);
      && r.value.form == MailForm && r.value.scheme == []
      && 0 < at < n - 1 && i + n <= |s|
      && r.value.text == s[i..i + n]
      && s[i + at] == '@'
      && IsMailDomain(s[i + at + 1..i + n])
  {
    var ll := Run(s, i, MailboxChars, idn);
    if ll == 0 || i + ll >= |s| || s[i + ll] != '@' then None
    else
      var d := i + ll + 1;
      var dl := Run(s, d, DomainChars, idn);
      var domain := s[d..d + dl];
      if !IsMailDomainRun(domain) then None
      else
        DottedBodyHasDot(domain);
        Some(Candidate(MailForm, [], s[i..d + dl]))
  }

  /** What a scheme URL starts with: a scheme of scheme characters whose first
      character is a letter, then `://`.  (What follows is an authority run and
      its path, which `UrlTail` shows to be URL characters.) */
  lemma SchemeUrlShape(s: string, i: nat, idn: char -> bool)
    requires i <= |s|
    ensures var r := SchemeUrlAt(s, i, idn);
      r.Some? ==>
        var sl := |r.value.scheme|;
        && IsAsciiLetter(s[i]) && AllIn(SchemeChars, idn, r.value.scheme)
        && s[i + sl] == ':' && s[i + sl + 1] == '/' && s[i + sl + 2] == '/'
  {
    RunSpan(s, i, SchemeChars, idn);
  }

  /** An e-mail address takes the whole domain run after its `@`. */
  lemma EmailShape(s: string, i: nat, idn: char -> bool)
    requires i <= |s|
    ensures var r := EmailAt(s, i, idn);
      r.Some? ==>
        && AllIn(MailboxChars, idn, s[i..i + Run(s, i, MailboxChars, idn)])
        && (i + |r.value.text| == |s| || !InClass(DomainChars, idn, s[i + |r.value.text|]))
  {
    RunSpan(s, i, MailboxChars, idn);
    var ll := Run(s, i, MailboxChars, idn);
    if EmailAt(s, i, idn).Some? {
      RunSpan(s, i + ll + 1, DomainChars, idn);
    }
  }

  /** The shape found at `i`, trying a scheme URL, then a lazy URL, then an
      e-mail address. */
  function ShapeAt(s: string, i: nat, idn: char -> bool): (r: Option<Candidate>)
    requires i <= |s|
    ensures r.Some? ==> 0 < |r.value.text| && i + |r.value.text| <= |s| && r.value.text == s[i..i + |r.value.text|]
  {
    var u := SchemeUrlAt(s, i, idn);
    if u.Some? then u
    else
      var w := WwwUrlAt(s, i, idn);
      if w.Some? then w else EmailAt(s, i, idn)
  }

  /** Proof step for `SchemeUrlOf`: a scheme URL whose runs are known (a
      scheme run of `sl` characters starting with a letter and followed by
      `://`, a non-empty authority run of `hl` characters starting a label, and
      a path of `pl` characters). */
  lemma {:induction false} SchemeUrlIs(s: string, i: nat, idn: char -> bool, sl: nat, hl: nat, pl: nat)
    requires i + sl + 3 + hl + pl <= |s|
    requires 0 < sl && IsAsciiLetter(s[i]) && Run(s, i, SchemeChars, idn) == sl
    requires s[i + sl] == ':' && s[i + sl + 1] == '/' && s[i + sl + 2] == '/'
    requires 0 < hl && Run(s, i + sl + 3, HostChars, idn) == hl && IsLabelStart(idn, s[i + sl + 3])
    requires PathLength(s, i + sl + 3 + hl, idn) == pl
    ensures SchemeUrlAt(s, i, idn) == Some(Candidate(SchemeForm, s[i..i + sl], s[i..i + sl + 3 + hl + pl]))
  {
  }

  /** Proof step for `WwwUrlOf`: a lazy URL whose runs are known (`www.`, a
      non-empty domain run of `dl` characters starting a label, and a path of
      `pl` characters). */
  lemma {:induction false} WwwUrlIs(s: string, i: nat, idn: char -> bool, dl: nat, pl: nat)
    requires i + 4 + dl + pl <= |s|
    requires WwwAt(s, i)
    requires 0 < dl && Run(s, i + 4, DomainChars, idn) == dl && IsLabelStart(idn, s[i + 4])
    requires PathLength(s, i + 4 + dl, idn) == pl
    ensures WwwUrlAt(s, i, idn) == Some(Candidate(WwwForm, [], s[i..i + 4 + dl + pl]))
  {
  }

  /** A piece `t` of class `cls` that is followed by the end of the text or by
      a character outside `cls` is exactly one run. */
  lemma RunOver(pre: string, t: string, post: string, cls: CharClass, idn: char -> bool)
    requires AllIn(cls, idn, t)
    requires post == [] || !InClass(cls, idn, post[0])
    ensures Run(pre + t + post, |pre|, cls, idn) == |t|
  {
    var s := pre + t + post;
    assert s[|pre|..|pre| + |t|] == t;
    assert |pre| + |t| < |s| ==> s[|pre| + |t|] == post[0];
    RunIs(s, |pre|, cls, idn, |t|);
  }

  /** The path that starts a piece `t` and is followed by the end of the text
      or by a character outside the URL class is exactly `t`. */
  lemma PathOver(pre: string, t: string, post: string, idn: char -> bool)
    requires t == [] || (IsPathStart(t[0]) && AllIn(UrlChars, idn, t))
    requires t == [] ==> post == [] || !IsPathStart(post[0])
    requires t != [] ==> post == [] || !InClass(UrlChars, idn, post[0])
    ensures PathLength(pre + t + post, |pre|, idn) == |t|
  {
    var s := pre + t + post;
    if t == [] {
      assert s == pre + post;
      assert |pre| < |s| ==> s[|pre|] == post[0];
    } else {
      assert s[|pre|] == t[0];
      RunOver(pre, t, post, UrlChars, idn);
    }
  }

  lemma AllInAppend(cls: CharClass, idn: char -> bool, a: string, b: string)
    requires AllIn(cls, idn, a) && AllIn(cls, idn, b)
    ensures AllIn(cls, idn, a + b)
  {
    forall k | 0 <= k < |a + b|
      ensures InClass(cls, idn, (a + b)[k])
    {
      if k >= |a| {
        assert (a + b)[k] == b[k - |a|];
      }
    }
  }

  /** The groupings of an assembled scheme URL that its proof uses. */
  lemma SchemeUrlRegroup(pre: string, scheme: string, host: string, path: string, post: string)
    ensures
      var s := pre + scheme + "://" + host + path + post;
      && s == pre + scheme + ("://" + host + path + post)
      && s == (pre + scheme + "://") + host + (path + post)
      && s == pre + (scheme + "://" + host + path) + post
      && s == pre + (scheme + "://") + (host + path + post)
  {
  }

  /** The groupings of an assembled lazy URL that its proof uses. */
  lemma WwwUrlRegroup(pre: string, domain: string, path: string, post: string)
    ensures
      var s := pre + "www." + domain + path + post;
      && s == (pre + "www.") + domain + (path + post)
      && s == pre + ("www." + domain + path) + post
      && s == pre + "www." + (domain + path + post)
  {
  }

  /** Where a piece stands in the text it is part of. */
  lemma PieceAt(pre: string, u: string, post: string)
    ensures (pre + u + post)[|pre|..|pre| + |u|] == u
    ensures forall k | 0 <= k < |u| :: (pre + u + post)[|pre| + k] == u[k]
  {
  }

  /** What follows a host or domain: a path, which always starts outside the
      domain and authority classes, or else whatever follows the URL. */
  lemma AfterDomain(path: string, post: string, cls: CharClass, idn: char -> bool)
    requires cls == DomainChars || cls == HostChars
    requires path == [] || IsPathStart(path[0])
    requires post != [] && path == [] ==> !InClass(cls, idn, post[0])
    ensures path + post == [] || !InClass(cls, idn, (path + post)[0])
  {
    if path == [] {
      assert path + post == post;
    } else {
      assert (path + post)[0] == path[0];
    }
  }

  /** The scheme run of an assembled scheme URL is its scheme. */
  lemma SchemeRunOf(pre: string, scheme: string, host: string, path: string, post: string, idn: char -> bool)
    requires 0 < |scheme| && AllIn(SchemeChars, idn, scheme)
    ensures Run(pre + scheme + "://" + host + path + post, |pre|, SchemeChars, idn) == |scheme|
  {
    SchemeUrlPlaces(pre, scheme, host, path, post);
    RunIs(pre + scheme + "://" + host + path + post, |pre|, SchemeChars, idn, |scheme|);
  }

  lemma HostRegroup(pre: string, scheme: string, host: string, path: string, post: string)
    ensures pre + scheme + "://" + host + path + post == (pre + scheme + "://") + host + (path + post)
  {
  }

  /** The authority run of an assembled scheme URL is its host. */
  lemma HostRunOf(pre: string, scheme: string, host: string, path: string, post: string, idn: char -> bool)
    requires 0 < |host| && AllIn(HostChars, idn, host)
    requires path == [] || IsPathStart(path[0])
    requires post != [] && path == [] ==> !InClass(HostChars, idn, post[0])
    ensures Run(pre + scheme + "://" + host + path + post, |pre| + |scheme| + 3, HostChars, idn) == |host|
  {
    HostRegroup(pre, scheme, host, path, post);
    AfterDomain(path, post, HostChars, idn);
    RunOver(pre + scheme + "://", host, path + post, HostChars, idn);
  }

  /** The three runs of an assembled scheme URL. */
  lemma SchemeUrlRuns(pre: string, scheme: string, host: string, path: string, post: string, idn: char -> bool)
    requires 0 < |scheme| && AllIn(SchemeChars, idn, scheme) && 0 < |host| && AllIn(HostChars, idn, host)
    requires path == [] || (IsPathStart(path[0]) && AllIn(UrlChars, idn, path))
    requires post != [] && path == [] ==> !InClass(HostChars, idn, post[0]) && !IsPathStart(post[0])
    requires post != [] && path != [] ==> !InClass(UrlChars, idn, post[0])
    ensures
      var s, i := pre + scheme + "://" + host + path + post, |pre|;
      && Run(s, i, SchemeChars, idn) == |scheme|
      && Run(s, i + |scheme| + 3, HostChars, idn) == |host|
      && PathLength(s, i + |scheme| + 3 + |host|, idn) == |path|
  {
    SchemeRunOf(pre, scheme, host, path, post, idn);
    HostRunOf(pre, scheme, host, path, post, idn);
    PathOver(pre + scheme + "://" + host, path, post, idn);
  }

  /** Where the parts of an assembled scheme URL stand. */
  lemma SchemeUrlPlaces(pre: string, scheme: string, host: string, path: string, post: string)
    requires 0 < |scheme|
    ensures
      var s, i, sl := pre + scheme + "://" + host + path + post, |pre|, |scheme|;
      && i + sl + 3 + |host| + |path| <= |s|
      && s[i..i + sl + 3 + |host| + |path|] == scheme + "://" + host + path
      && s[i..i + sl] == scheme
      && s[i] == scheme[0] && s[i + sl] == ':' && s[i + sl + 1] == '/' && s[i + sl + 2] == '/'
      && (0 < |host| ==> s[i + sl + 3] == host[0])
  {
    SchemeUrlRegroup(pre, scheme, host, path, post);
    PieceAt(pre, scheme + "://" + host + path, post);
    PieceAt(pre, scheme + "://", host + path + post);
    if 0 < |host| {
      assert (host + path + post)[0] == host[0];
    }
  }

  /** A scheme URL assembled from its parts is recognised as exactly those
      parts, whatever text stands before it and whatever follows it, provided
      the character after it cannot continue its last part. */
  lemma {:induction false} SchemeUrlOf(pre: string, scheme: string, host: string, path: string, post: string, idn: char -> bool)
    requires 0 < |scheme| && IsAsciiLetter(scheme[0]) && AllIn(SchemeChars, idn, scheme)
    requires 0 < |host| && IsLabelStart(idn, host[0]) && AllIn(HostChars, idn, host)
    requires path == [] || (IsPathStart(path[0]) && AllIn(UrlChars, idn, path))
    requires post != [] && path == [] ==> !InClass(HostChars, idn, post[0]) && !IsPathStart(post[0])
    requires post != [] && path != [] ==> !InClass(UrlChars, idn, post[0])
    ensures SchemeUrlAt(pre + scheme + "://" + host + path + post, |pre|, idn)
         == Some(Candidate(SchemeForm, scheme, scheme + "://" + host + path))
  {
    SchemeUrlRuns(pre, scheme, host, path, post, idn);
    SchemeUrlPlaces(pre, scheme, host, path, post);
    SchemeUrlIs(pre + scheme + "://" + host + path + post, |pre|, idn, |scheme|, |host|, |path|);
  }

  /** A lazy URL assembled from its parts is recognised as exactly those
      parts, provided the character after it cannot continue its last part. */
  lemma {:induction false} WwwUrlOf(pre: string, domain: string, path: string, post: string, idn: char -> bool)
    requires 0 < |domain| && IsLabelStart(idn, domain[0]) && AllIn(DomainChars, idn, domain)
    requires path == [] || (IsPathStart(path[0]) && AllIn(UrlChars, idn, path))
    requires post != [] && path == [] ==> !InClass(DomainChars, idn, post[0]) && !IsPathStart(post[0])
    requires post != [] && path != [] ==> !InClass(UrlChars, idn, post[0])
    ensures WwwUrlAt(pre + "www." + domain + path + post, |pre|, idn)
         == Some(Candidate(WwwForm, [], "www." + domain + path))
  {
    var s := pre + "www." + domain + path + post;
    WwwUrlRegroup(pre, domain, path, post);
    AfterDomain(path, post, DomainChars, idn);
    RunOver(pre + "www.", domain, path + post, DomainChars, idn);
    PathOver(pre + "www." + domain, path, post, idn);
    PieceAt(pre, "www." + domain + path, post);
    PieceAt(pre, "www.", domain + path + post);
    assert (domain + path + post)[0] == domain[0];
    WwwUrlIs(s, |pre|, idn, |domain|, |path|);
  }

  /** Proof step for `EmailOf`: an e-mail address whose runs are known (a
      local run of `ll` characters, `@`, and a domain run of `dl` characters)
      is a candidate exactly when that domain run is a mail domain run. */
  lemma {:induction false} EmailIs(s: string, i: nat, idn: char -> bool, ll: nat, dl: nat)
    requires i + ll + 1 + dl <= |s|
    requires 0 < ll && Run(s, i, MailboxChars, idn) == ll && s[i + ll] == '@'
    requires Run(s, i + ll + 1, DomainChars, idn) == dl
    ensures EmailAt(s, i, idn)
         == if IsMailDomainRun(s[i + ll + 1..i + ll + 1 + dl]) then Some(Candidate(MailForm, [], s[i..i + ll + 1 + dl])) else None
  {
  }

  /** The groupings of an assembled e-mail address that its proof uses. */
  lemma EmailRegroup(pre: string, local: string, domain: string, post: string)
    ensures
      var s := pre + local + "@" + domain + post;
      && s == pre + local + ("@" + domain + post)
      && s == (pre + local + "@") + domain + post
      && s == pre + (local + "@" + domain) + post
  {
  }

  /** An e-mail address assembled from its parts is recognised as exactly
      those parts when its domain is a mail domain run, and not at all
      otherwise (an internationalised domain, say). */
  lemma {:induction false} EmailOf(pre: string, local: string, domain: string, post: string, idn: char -> bool)
    requires 0 < |local| && AllIn(MailboxChars, idn, local)
    requires AllIn(DomainChars, idn, domain)
    requires post == [] || !InClass(DomainChars, idn, post[0])
    ensures EmailAt(pre + local + "@" + domain + post, |pre|, idn)
         == if IsMailDomainRun(domain) then Some(Candidate(MailForm, [], local + "@" + domain)) else None
  {
    var s := pre + local + "@" + domain + post;
    EmailRegroup(pre, local, domain, post);
    assert ("@" + domain + post)[0] == '@';
    RunOver(pre, local, "@" + domain + post, MailboxChars, idn);
    RunOver(pre + local + "@", domain, post, DomainChars, idn);
    PieceAt(pre, local + "@" + domain, post);
    PieceAt(pre + local + "@", domain, post);
    assert s[|pre| + |local|] == (local + "@" + domain)[|local|];
    EmailIs(s, |pre|, idn, |local|, |domain|);
  }

  /** No scheme URL starts at `i` when a character outside the scheme class
      comes before any `:`. */
  lemma NoSchemeUrl(s: string, i: nat, j: nat, idn: char -> bool)
    requires i <= j < |s| && !InClass(SchemeChars, idn, s[j])
    requires forall k | i <= k <= j :: s[k] != ':'
    ensures SchemeUrlAt(s, i, idn) == None
  {
    RunStops(s, i, j, SchemeChars, idn);
  }

  /** No scheme URL starts at `i` when no `:` follows it. */
  lemma NoColonNoSchemeUrl(s: string, i: nat, idn: char -> bool)
    requires i <= |s|
    requires forall k | i <= k < |s| :: s[k] != ':'
    ensures SchemeUrlAt(s, i, idn) == None
  {
  }

  /** No e-mail address starts at `i` when a character outside the mailbox
      class comes before any `@`. */
  lemma NoEmail(s: string, i: nat, j: nat, idn: char -> bool)
    requires i <= j < |s| && !InClass(MailboxChars, idn, s[j])
    requires forall k | i <= k <= j :: s[k] != '@'
    ensures EmailAt(s, i, idn) == None
  {
    RunStops(s, i, j, MailboxChars, idn);
  }

  /** A `www.` URL is not read as a scheme URL: its domain holds no `:` and
      what follows the domain, if anything, starts outside the scheme class. */
  lemma WwwNotSchemeUrl(domain: string, rest: string, idn: char -> bool)
    requires AllIn(DomainChars, idn, domain)
    requires rest == [] || IsPathStart(rest[0])
    ensures SchemeUrlAt("www." + domain + rest, 0, idn) == None
  {
    var s := "www." + domain + rest;
    forall k | 0 <= k < 4 + |domain|
      ensures s[k] != ':'
    {
      if 4 <= k {
        assert s[k] == domain[k - 4] && InClass(DomainChars, idn, domain[k - 4]);
      }
    }
    if rest == [] {
      assert s == "www." + domain;
      NoColonNoSchemeUrl(s, 0, idn);
    } else {
      assert s[4 + |domain|] == rest[0];
      NoSchemeUrl(s, 0, 4 + |domain|, idn);
    }
  }

  /** A dot before the trailing punctuation is a dot in what trimming keeps. */
  lemma {:induction false} DottedBodyTrimmed(t: string)
    ensures DottedBody(t) <==> '.' in TrimTrailing(t).body
    decreases |t|
  {
    if t == [] {
      TrimUnique(t, [], []);
    } else if IsTrailingPunct(t[|t| - 1]) {
      DottedBodyTrimmed(t[..|t| - 1]);
      TrimDropsLast(t);
    } else {
      TrimUnique(t, t, []);
    }
  }

  /** A mail domain run is a domain run that starts with a letter or a digit
      and is a mail domain once its trailing punctuation is cut off. */
  lemma MailDomainRunTrimmed(t: string)
    ensures IsMailDomainRun(t) <==>
      0 < |t| && IsAsciiAlnum(t[0]) && IsMailDomain(TrimTrailing(t).body)
  {
    var r := TrimTrailing(t);
    DottedBodyTrimmed(t);
    if 0 < |t| && IsAsciiAlnum(t[0]) {
      TrimKeepsFirst(t);
      forall k | 0 <= k < |t|
        ensures IsAscii(t[k]) <==> k >= |r.body| || IsAscii(r.body[k])
      {
        if k >= |r.body| {
          assert t[k] == r.tail[k - |r.body|];
        }
      }
    }
  }

  /** A prefix of a stretch of `cls` characters is one too. */
  lemma AllInPrefix(cls: CharClass, idn: char -> bool, t: string, m: nat)
    requires AllIn(cls, idn, t) && m <= |t|
    ensures AllIn(cls, idn, t[..m])
  {
    forall k | 0 <= k < m
      ensures InClass(cls, idn, t[..m][k])
    {
      assert t[..m][k] == t[k];
    }
  }

  /** Cutting `a + b` after `n` characters: within `a`, or after all of it. */
  lemma Cut(a: string, b: string, n: nat)
    requires n <= |a| + |b|
    ensures n <= |a| ==> (a + b)[..n] == a[..n]
    ensures |a| <= n ==> (a + b)[..n] == a + b[..n - |a|]
  {
    if |a| <= n {
      assert (a + b)[..n] == a + b[..n - |a|];
    } else {
      assert (a + b)[..n] == a[..n];
    }
  }

  /** Trimming `head + rest`, when `rest` starts with a character that is not
      sentence punctuation, keeps all of `head` and a non-empty prefix of
      `rest`. */
  lemma TrimKeepsHead(head: string, rest: string) returns (m: nat)
    requires 0 < |rest| && !IsTrailingPunct(rest[0])
    ensures 0 < m <= |rest|
    ensures TrimTrailing(head + rest).body == head + rest[..m]
  {
    var t := head + rest;
    assert t[|head|] == rest[0];
    var n := TrailingStart(t);
    m := n - |head|;
    Cut(head, rest, n);
  }

  /** A slice is the slices on either side of any point inside it. */
  lemma SliceAt(s: string, a: nat, b: nat, c: nat)
    requires a <= b <= c <= |s|
    ensures s[a..c] == s[a..b] + s[b..c]
  {
  }

  lemma SliceParts(s: string, a: nat, b: nat, c: nat, d: nat)
    requires a <= b <= c <= d <= |s|
    ensures s[a..d] == s[a..b] + s[b..c] + s[c..d]
  {
    SliceAt(s, a, b, d);
    SliceAt(s, b, c, d);
  }

  /** A path is empty or opens with `/`, `?` or `#` and holds URL characters
      only. */
  lemma PathParts(s: string, p: nat, idn: char -> bool)
    requires p <= |s|
    ensures var path := s[p..p + PathLength(s, p, idn)];
      path == [] || (IsPathStart(path[0]) && AllIn(UrlChars, idn, path))
  {
    if p < |s| && IsPathStart(s[p]) {
      RunSpan(s, p, UrlChars, idn);
    }
  }

  /** The parts of a URL whose head (a scheme and `://`, or `www.`) is `k`
      characters long: the head, the run of `cls` characters after it, and
      the path after that. */
  lemma UrlParts(s: string, i: nat, k: nat, e: nat, cls: CharClass, idn: char -> bool) returns (run: string, path: string)
    requires i + k <= |s|
    requires var p := i + k + Run(s, i + k, cls, idn); e == p + PathLength(s, p, idn)
    ensures e <= |s| && s[i..e] == s[i..i + k] + run + path
    ensures run == s[i + k..i + k + |run|] && AllIn(cls, idn, run)
    ensures path == [] || (IsPathStart(path[0]) && AllIn(UrlChars, idn, path))
  {
    var h := i + k;
    var p := h + Run(s, h, cls, idn);
    SliceParts(s, i, h, p, e);
    run, path := s[h..p], s[p..e];
    RunSpan(s, h, cls, idn);
    PathParts(s, p, idn);
  }

  /** The parts of a scheme URL whose scheme run is `sl` characters long, read
      off its runs: an authority that starts a label, and a path. */
  lemma SchemeRunParts(s: string, i: nat, sl: nat, e: nat, idn: char -> bool) returns (host: string, path: string)
    requires i + sl + 3 < |s| && s[i + sl..i + sl + 3] == "://"
    requires IsLabelStart(idn, s[i + sl + 3])
    requires var p := i + sl + 3 + Run(s, i + sl + 3, HostChars, idn); e == p + PathLength(s, p, idn)
    ensures s[i..e] == s[i..i + sl] + "://" + host + path
    ensures 0 < |host| && IsLabelStart(idn, host[0]) && AllIn(HostChars, idn, host)
    ensures path == [] || (IsPathStart(path[0]) && AllIn(UrlChars, idn, path))
  {
    var h := i + sl + 3;
    assert InClass(HostChars, idn, s[h]);
    host, path := UrlParts(s, i, sl + 3, e, HostChars, idn);
    SliceAt(s, i, i + sl, h);
  }

  /** The parts of a scheme URL after its scheme: an authority that starts a
      label, and a path that is empty or opens with `/`, `?` or `#`. */
  lemma SchemeUrlParts(s: string, i: nat, idn: char -> bool) returns (host: string, path: string)
    requires i <= |s| && SchemeUrlAt(s, i, idn).Some?
    ensures var c := SchemeUrlAt(s, i, idn).value;
      && c.text == c.scheme + "://" + host + path
      && 0 < |host| && IsLabelStart(idn, host[0]) && AllIn(HostChars, idn, host)
      && (path == [] || (IsPathStart(path[0]) && AllIn(UrlChars, idn, path)))
  {
    var sl := Run(s, i, SchemeChars, idn);
    assert s[i + sl..i + sl + 3] == "://";
    host, path := SchemeRunParts(s, i, sl, i + |SchemeUrlAt(s, i, idn).value.text|, idn);
  }

  /** The parts of a lazy URL: a domain that starts a label and a path that is
      empty or opens with `/`, `?` or `#`. */
  lemma WwwUrlParts(s: string, i: nat, idn: char -> bool) returns (domain: string, path: string)
    requires i <= |s| && WwwUrlAt(s, i, idn).Some?
    ensures var c := WwwUrlAt(s, i, idn).value;
      && c.text == "www." + domain + path
      && 0 < |domain| && IsLabelStart(idn, domain[0]) && AllIn(DomainChars, idn, domain)
      && (path == [] || (IsPathStart(path[0]) && AllIn(UrlChars, idn, path)))
  {
    var c := WwwUrlAt(s, i, idn).value;
    domain, path := UrlParts(s, i, 4, i + |c.text|, DomainChars, idn);
    assert s[i..i + 4] == "www.";
    assert domain[0] == c.text[4];
  }

  /** The parts of an e-mail address whose local run is `ll` characters long
      and is followed by `@`: the local part and the domain run. */
  lemma MailParts(s: string, i: nat, ll: nat, e: nat, idn: char -> bool) returns (local: string, domain: string)
    requires i + ll < |s| && s[i + ll] == '@' && Run(s, i, MailboxChars, idn) == ll
    requires e == i + ll + 1 + Run(s, i + ll + 1, DomainChars, idn)
    ensures e <= |s| && s[i..e] == local + "@" + domain
    ensures local == s[i..i + ll] && AllIn(MailboxChars, idn, local)
    ensures domain == s[i + ll + 1..e] && AllIn(DomainChars, idn, domain)
  {
    var d := i + ll + 1;
    SliceParts(s, i, i + ll, d, e);
    assert s[i + ll..d] == "@";
    local, domain := s[i..i + ll], s[d..e];
    RunSpan(s, i, MailboxChars, idn);
    RunSpan(s, d, DomainChars, idn);
  }

  /** The parts of an e-mail address: a local part and a mail domain run. */
  lemma EmailParts(s: string, i: nat, idn: char -> bool) returns (local: string, domain: string)
    requires i <= |s| && EmailAt(s, i, idn).Some?
    ensures var c := EmailAt(s, i, idn).value;
      && c.text == local + "@" + domain
      && 0 < |local| && AllIn(MailboxChars, idn, local)
      && AllIn(DomainChars, idn, domain) && IsMailDomainRun(domain)
  {
    var ll := Run(s, i, MailboxChars, idn);
    var d := i + ll + 1;
    local, domain := MailParts(s, i, ll, d + Run(s, d, DomainChars, idn), idn);
  }

  /** Where trimming cuts a scheme URL: after a non-empty part of its
      authority, or inside its path. */
  lemma TrimmedSchemeUrlParts(scheme: string, host: string, path: string, idn: char -> bool)
      returns (h: string, p: string)
    requires 0 < |host| && !IsTrailingPunct(host[0]) && AllIn(HostChars, idn, host)
    requires path == [] || (IsPathStart(path[0]) && AllIn(UrlChars, idn, path))
    ensures TrimTrailing(scheme + "://" + host + path).body == scheme + "://" + h + p
    ensures 0 < |h| && h[0] == host[0] && AllIn(HostChars, idn, h)
    ensures p == [] || (IsPathStart(p[0]) && AllIn(UrlChars, idn, p))
  {
    var head, rest := scheme + "://", host + path;
    assert scheme + "://" + host + path == head + rest;
    assert rest[0] == host[0];
    var m := TrimKeepsHead(head, rest);
    Cut(host, path, m);
    if m <= |host| {
      h, p := host[..m], [];
      AllInPrefix(HostChars, idn, host, m);
    } else {
      h, p := host, path[..m - |host|];
      AllInPrefix(UrlChars, idn, path, m - |host|);
    }
  }

  /** Cutting the trailing punctuation off a scheme URL leaves a scheme URL
      with the same scheme that covers all of what is left. */
  lemma TrimmedSchemeUrl(scheme: string, host: string, path: string, idn: char -> bool)
    requires 0 < |scheme| && IsAsciiLetter(scheme[0]) && AllIn(SchemeChars, idn, scheme)
    requires 0 < |host| && IsLabelStart(idn, host[0]) && AllIn(HostChars, idn, host)
    requires path == [] || (IsPathStart(path[0]) && AllIn(UrlChars, idn, path))
    ensures var b := TrimTrailing(scheme + "://" + host + path).body;
      SchemeUrlAt(b, 0, idn) == Some(Candidate(SchemeForm, scheme, b))
  {
    var h, p := TrimmedSchemeUrlParts(scheme, host, path, idn);
    SchemeUrlOf([], scheme, h, p, [], idn);
    assert [] + scheme + "://" + h + p + [] == scheme + "://" + h + p;
  }

  /** Where trimming cuts a lazy URL: after a non-empty part of its domain,
      or inside its path. */
  lemma TrimmedWwwUrlParts(domain: string, path: string, idn: char -> bool) returns (d: string, p: string)
    requires 0 < |domain| && !IsTrailingPunct(domain[0]) && AllIn(DomainChars, idn, domain)
    requires path == [] || (IsPathStart(path[0]) && AllIn(UrlChars, idn, path))
    ensures TrimTrailing("www." + domain + path).body == "www." + d + p
    ensures 0 < |d| && d[0] == domain[0] && AllIn(DomainChars, idn, d)
    ensures p == [] || (IsPathStart(p[0]) && AllIn(UrlChars, idn, p))
  {
    var rest := domain + path;
    assert "www." + domain + path == "www." + rest;
    assert rest[0] == domain[0];
    var m := TrimKeepsHead("www.", rest);
    Cut(domain, path, m);
    if m <= |domain| {
      d, p := domain[..m], [];
      AllInPrefix(DomainChars, idn, domain, m);
    } else {
      d, p := domain, path[..m - |domain|];
      AllInPrefix(UrlChars, idn, path, m - |domain|);
    }
  }

  /** Cutting the trailing punctuation off a lazy URL leaves a lazy URL that
      covers all of what is left and is not read as a scheme URL. */
  lemma TrimmedWwwUrl(domain: string, path: string, idn: char -> bool)
    requires 0 < |domain| && IsLabelStart(idn, domain[0]) && AllIn(DomainChars, idn, domain)
    requires path == [] || (IsPathStart(path[0]) && AllIn(UrlChars, idn, path))
    ensures var b := TrimTrailing("www." + domain + path).body;
      SchemeUrlAt(b, 0, idn) == None && WwwUrlAt(b, 0, idn) == Some(Candidate(WwwForm, [], b))
  {
    var d, p := TrimmedWwwUrlParts(domain, path, idn);
    WwwUrlOf([], d, p, [], idn);
    WwwNotSchemeUrl(d, p, idn);
    assert [] + "www." + d + p + [] == "www." + d + p;
  }

  /** Whether a lazy URL starts a text is settled by its first five
      characters, so a text with none at `i` has none at the start of any
      stretch taken from `i`. */
  lemma NoWwwUrlInStretch(s: string, i: nat, n: nat, idn: char -> bool)
    requires i + n <= |s| && WwwUrlAt(s, i, idn) == None
    ensures WwwUrlAt(s[i..i + n], 0, idn) == None
  {
    var b := s[i..i + n];
    if WwwAt(b, 0) {
      assert b[..4] == s[i..i + 4];
      assert WwwAt(s, i);
      if 4 < n {
        assert b[4] == s[i + 4];
        if InClass(DomainChars, idn, s[i + 4]) {
          assert 0 < Run(s, i + 4, DomainChars, idn);
        }
      }
    }
  }

  /** Trimming a mail domain run leaves a mail domain run that is a prefix of
      it. */
  lemma TrimmedMailDomain(domain: string, idn: char -> bool)
    requires AllIn(DomainChars, idn, domain) && IsMailDomainRun(domain)
    ensures var d := TrimTrailing(domain).body;
      && d == domain[..|d|] && AllIn(DomainChars, idn, d) && IsMailDomainRun(d)
  {
    var d := TrimTrailing(domain).body;
    MailDomainRunTrimmed(domain);
    TrimKeepsFirst(domain);
    TrimIdempotent(domain);
    MailDomainRunTrimmed(d);
    assert d == domain[..|d|];
    AllInPrefix(DomainChars, idn, domain, |d|);
  }

  /** Nothing before the `@` of an e-mail address can end a scheme. */
  lemma EmailNotSchemeUrl(local: string, domain: string, idn: char -> bool)
    requires AllIn(MailboxChars, idn, local)
    ensures SchemeUrlAt(local + "@" + domain, 0, idn) == None
  {
    var t := local + "@" + domain;
    forall k | 0 <= k <= |local|
      ensures t[k] != ':'
    {
      if k < |local| {
        assert t[k] == local[k] && InClass(MailboxChars, idn, local[k]);
      }
    }
    NoSchemeUrl(t, 0, |local|, idn);
  }

  /** Cutting the trailing punctuation off an e-mail address leaves an e-mail
      address that covers all of what is left, with the domain trimmed; it is
      read neither as a scheme URL nor as a lazy URL. */
  lemma TrimmedEmail(local: string, domain: string, idn: char -> bool)
    requires 0 < |local| && AllIn(MailboxChars, idn, local)
    requires AllIn(DomainChars, idn, domain) && IsMailDomainRun(domain)
    requires WwwUrlAt(local + "@" + domain, 0, idn) == None
    ensures var b := TrimTrailing(local + "@" + domain).body;
      && SchemeUrlAt(b, 0, idn) == None && WwwUrlAt(b, 0, idn) == None
      && EmailAt(b, 0, idn) == Some(Candidate(MailForm, [], b))
  {
    var t := local + "@" + domain;
    var d := TrimTrailing(domain).body;
    TrimKeepsPrefix(local + "@", domain);
    var b := local + "@" + d;
    TrimmedMailDomain(domain, idn);
    EmailOf([], local, d, [], idn);
    assert [] + local + "@" + d + [] == b;
    EmailNotSchemeUrl(local, d, idn);
    assert t[0..|b|] == b;
    NoWwwUrlInStretch(t, 0, |b|, idn);
  }

  /** Cutting the trailing sentence punctuation off any shape leaves a text
      that is, from its first character to its last, a shape of the same form
      and scheme: trimming never cuts into a scheme, its `://`, a `www.`, an
      `@` or the first character of a domain, and never leaves an e-mail
      domain without its dot. */
  lemma {:induction false} ShapeTrimmed(s: string, i: nat, idn: char -> bool)
    requires i <= |s| && ShapeAt(s, i, idn).Some?
    ensures var c := ShapeAt(s, i, idn).value;
      var b := TrimTrailing(c.text).body;
      ShapeAt(b, 0, idn) == Some(Candidate(c.form, c.scheme, b))
  {
    if SchemeUrlAt(s, i, idn).Some? {
      var host, path := SchemeUrlParts(s, i, idn);
      SchemeUrlShape(s, i, idn);
      TrimmedSchemeUrl(SchemeUrlAt(s, i, idn).value.scheme, host, path, idn);
    } else if WwwUrlAt(s, i, idn).Some? {
      var domain, path := WwwUrlParts(s, i, idn);
      TrimmedWwwUrl(domain, path, idn);
    } else {
      var local, domain := EmailParts(s, i, idn);
      var c := EmailAt(s, i, idn).value;
      NoWwwUrlInStretch(s, i, |c.text|, idn);
      TrimmedEmail(local, domain, idn);
    }
  }
}
