/** The conformance vectors of the linkifier, each proved about the model.

    Every URL is written as the parts the lexer finds in it (scheme, `://`,
    authority, path), and every expected output as the pieces of its markup,
    so that `"http" + "://" + "testhost" + "/viewtopic.php?t=1"` stands for
    the text `http://testhost/viewtopic.php?t=1`.  Characters of
    internationalised domains are written out as Latin and Cyrillic letters,
    which `SampleIdn` admits; `╫` stands for a code point no IDN label may
    hold.  Vectors without such characters hold for every IDN table. */
module Vectors {
  import opened Wrappers
  import opened Chars
  import opened Lexer
  import opened SchemePolicy
  import opened Scanner
  import opened Trimmer
  import opened Truncator
  import opened LocalResolver
  import opened Renderer
  import opened Linkify

  /** The IDN table the vectors use: Latin-1 and Latin Extended letters and
      the Cyrillic block. */
  predicate SampleIdn(c: char) {
    ('\U{C0}' <= c <= '\U{24F}' && c != '\U{D7}' && c != '\U{F7}') || ('\U{400}' <= c <= '\U{4FF}')
  }

  /** No board address and no class: the defaults apply. */
  const NoOptions := Options(None, None)

  /** The board address of the internationalised local-link vectors. */
  const IdnBoard: string := "http://www.домен.рф"

  // ---------------------------------------------------------------------
  // Facts about the pieces the vectors are made of.

  lemma Schemes(idn: char -> bool)
    ensures IsAsciiLetter("http"[0]) && AllIn(SchemeChars, idn, "http") && !IsDeniedScheme("http")
    ensures IsAsciiLetter("ftp"[0]) && AllIn(SchemeChars, idn, "ftp") && !IsDeniedScheme("ftp")
    ensures IsAsciiLetter("sip"[0]) && AllIn(SchemeChars, idn, "sip") && !IsDeniedScheme("sip")
    ensures IsAsciiLetter("pt"[0]) && AllIn(SchemeChars, idn, "pt") && !IsDeniedScheme("pt")
  {
    DeniedSchemeSamples();
  }

  lemma AsciiHosts(idn: char -> bool)
    ensures AllIn(HostChars, idn, "www.phpbb.com")
    ensures AllIn(HostChars, idn, "ftp.phpbb.com")
    ensures AllIn(HostChars, idn, "bantu@phpbb.com")
    ensures AllIn(HostChars, idn, "testhost")
    ensures AllIn(DomainChars, idn, "phpbb.com")
    ensures IsLabelStart(idn, "www.phpbb.com"[0]) && IsLabelStart(idn, "ftp.phpbb.com"[0])
    ensures IsLabelStart(idn, "bantu@phpbb.com"[0]) && IsLabelStart(idn, "testhost"[0])
    ensures IsLabelStart(idn, "phpbb.com"[0])
  {
  }

  lemma AsciiPaths(idn: char -> bool)
    ensures IsPathStart("/community/"[0]) && AllIn(UrlChars, idn, "/community/")
    ensures IsPathStart("/path/file.ext#section"[0]) && AllIn(UrlChars, idn, "/path/file.ext#section")
    ensures IsPathStart("/"[0]) && AllIn(UrlChars, idn, "/")
    ensures IsPathStart("/viewtopic.php?t=1"[0]) && AllIn(UrlChars, idn, "/viewtopic.php?t=1")
  {
  }

  lemma Punctuation()
    ensures AllTrailingPunct([]) && AllTrailingPunct("!") && AllTrailingPunct("?")
  {
  }

  /** The relative part of a URL under the default board. */
  lemma UnderTestHost(scheme: string, host: string, rel: string)
    requires scheme == "http" && host == "testhost"
    ensures RelativePart(scheme + "://" + host + ("/" + rel), DefaultBoardUrl) == Some(rel)
  {
    assert scheme + "://" + host == DefaultBoardUrl;
    assert scheme + "://" + host + ("/" + rel) == DefaultBoardUrl + "/" + rel;
    RelativeOf(DefaultBoardUrl, rel);
  }

  lemma Regroup(a: string, b: string, c: string)
    ensures a + (b + c) == a + b + c
  {
  }

  lemma Regroup4(a: string, b: string, c: string, d: string)
    ensures a + (b + c + d) == a + b + c + d
  {
  }

  lemma ViewtopicSplit()
    ensures "/viewtopic.php?t=1" == "/" + "viewtopic.php?t=1"
  {
  }

  /** A short URL off the board is shown in full as an `m` link. */
  lemma ShownInFull(url: string, board: string, k: nat)
    requires k < |url| && k <= |board| && url[k] != (board + "/")[k]
    requires |url| <= MaxDisplay
    ensures Classify(SchemeForm, url, board) == Anchor(FullUrl, url, url)
  {
    NotUnder(url, board, k);
  }

  // ---------------------------------------------------------------------
  // data_test_make_clickable_url_positive

  lemma CommunityUrlShown()
    ensures var url := "http" + "://" + "www.phpbb.com" + "/community/";
      Classify(SchemeForm, url, DefaultBoardUrl) == Anchor(FullUrl, url, url)
  {
    ShownInFull("http" + "://" + "www.phpbb.com" + "/community/", DefaultBoardUrl, 7);
  }

  /** A scheme URL off the board becomes an `m` link shown in full. */
  lemma CommunityUrl(idn: char -> bool)
    ensures var url := "http" + "://" + "www.phpbb.com" + "/community/";
      MakeClickable(url, NoOptions, idn)
        == "<!-- m --><a class=\"" + "postlink" + "\" href=\"" + url + "\">" + url + "</a><!-- m -->"
  {
    var url := "http" + "://" + "www.phpbb.com" + "/community/";
    Schemes(idn);
    AsciiHosts(idn);
    AsciiPaths(idn);
    Punctuation();
    SchemeUrlRendered("http", "www.phpbb.com", "/community/", [], NoOptions, idn);
    assert url + [] == url;
    CommunityUrlShown();
  }

  lemma FragmentUrlShown()
    ensures var url := "http" + "://" + "www.phpbb.com" + "/path/file.ext#section";
      Classify(SchemeForm, url, DefaultBoardUrl) == Anchor(FullUrl, url, url)
  {
    ShownInFull("http" + "://" + "www.phpbb.com" + "/path/file.ext#section", DefaultBoardUrl, 7);
  }

  /** A fragment is part of the link. */
  lemma FragmentUrl(idn: char -> bool)
    ensures var url := "http" + "://" + "www.phpbb.com" + "/path/file.ext#section";
      MakeClickable(url, NoOptions, idn)
        == "<!-- m --><a class=\"" + "postlink" + "\" href=\"" + url + "\">" + url + "</a><!-- m -->"
  {
    var url := "http" + "://" + "www.phpbb.com" + "/path/file.ext#section";
    Schemes(idn);
    AsciiHosts(idn);
    AsciiPaths(idn);
    Punctuation();
    SchemeUrlRendered("http", "www.phpbb.com", "/path/file.ext#section", [], NoOptions, idn);
    assert url + [] == url;
    FragmentUrlShown();
  }

  lemma FtpUrlShown()
    ensures var url := "ftp" + "://" + "ftp.phpbb.com" + "/";
      Classify(SchemeForm, url, DefaultBoardUrl) == Anchor(FullUrl, url, url)
  {
    ShownInFull("ftp" + "://" + "ftp.phpbb.com" + "/", DefaultBoardUrl, 0);
  }

  /** Other schemes link the same way. */
  lemma FtpUrl(idn: char -> bool)
    ensures var url := "ftp" + "://" + "ftp.phpbb.com" + "/";
      MakeClickable(url, NoOptions, idn)
        == "<!-- m --><a class=\"" + "postlink" + "\" href=\"" + url + "\">" + url + "</a><!-- m -->"
  {
    var url := "ftp" + "://" + "ftp.phpbb.com" + "/";
    Schemes(idn);
    AsciiHosts(idn);
    AsciiPaths(idn);
    Punctuation();
    SchemeUrlRendered("ftp", "ftp.phpbb.com", "/", [], NoOptions, idn);
    assert url + [] == url;
    FtpUrlShown();
  }

  lemma SipUrlShown()
    ensures var url := "sip" + "://" + "bantu@phpbb.com";
      Classify(SchemeForm, url, DefaultBoardUrl) == Anchor(FullUrl, url, url)
  {
    ShownInFull("sip" + "://" + "bantu@phpbb.com", DefaultBoardUrl, 0);
  }

  /** A URL whose authority holds an `@` is a URL, not an e-mail address. */
  lemma SipUrl(idn: char -> bool)
    ensures var url := "sip" + "://" + "bantu@phpbb.com";
      MakeClickable(url, NoOptions, idn)
        == "<!-- m --><a class=\"" + "postlink" + "\" href=\"" + url + "\">" + url + "</a><!-- m -->"
  {
    var url := "sip" + "://" + "bantu@phpbb.com";
    Schemes(idn);
    AsciiHosts(idn);
    Punctuation();
    SchemeUrlRendered("sip", "bantu@phpbb.com", [], [], NoOptions, idn);
    assert "sip" + "://" + "bantu@phpbb.com" + [] == url;
    assert url + [] == url;
    SipUrlShown();
  }

  lemma LazyUrlShown()
    ensures var url := "www." + "phpbb.com" + "/community/";
      Shorten(url) == url
  {
  }

  /** A `www.` URL becomes a `w` link to `http://` and the URL. */
  lemma LazyUrl(idn: char -> bool)
    ensures var url := "www." + "phpbb.com" + "/community/";
      MakeClickable(url, NoOptions, idn)
        == "<!-- w --><a class=\"" + "postlink" + "\" href=\"" + "http://" + url + "\">" + url + "</a><!-- w -->"
  {
    var url := "www." + "phpbb.com" + "/community/";
    AsciiHosts(idn);
    AsciiPaths(idn);
    Punctuation();
    WwwUrlRendered("phpbb.com", "/community/", [], NoOptions, idn);
    assert url + [] == url;
    LazyUrlShown();
    Regroup("<!-- w --><a class=\"" + "postlink" + "\" href=\"", "http://", url);
  }

  /** A URL under the board becomes an `l` link shown relative to the board. */
  lemma LocalUrl(idn: char -> bool)
    ensures var url := "http" + "://" + "testhost" + "/viewtopic.php?t=1";
      MakeClickable(url, NoOptions, idn)
        == "<!-- l --><a class=\"" + "postlink" + "-local\" href=\"" + url + "\">" + "viewtopic.php?t=1" + "</a><!-- l -->"
  {
    var url := "http" + "://" + "testhost" + "/viewtopic.php?t=1";
    Schemes(idn);
    AsciiHosts(idn);
    AsciiPaths(idn);
    Punctuation();
    SchemeUrlRendered("http", "testhost", "/viewtopic.php?t=1", [], NoOptions, idn);
    assert url + [] == url;
    ViewtopicSplit();
    UnderTestHost("http", "testhost", "viewtopic.php?t=1");
  }

  /** A `javascript:` URL stays text. */
  lemma JavascriptUrl(idn: char -> bool)
    ensures var url := "javascript" + "://" + "testhost/viewtopic.php?t=1";
      MakeClickable(url, NoOptions, idn) == url
  {
    DeniedSchemeSamples();
    JavascriptUrlUnchanged("javascript", "testhost/viewtopic.php?t=1", NoOptions, idn);
  }

  lemma NewlineSplitNoLinks(idn: char -> bool)
    ensures var s := "java\nscri\n" + ("pt" + "://" + "testhost" + "/viewtopic.php?t=1");
      forall k | 0 <= k < 10 :: CandidateAt(s, k, idn).None?
  {
    var s := "java\nscri\n" + ("pt" + "://" + "testhost" + "/viewtopic.php?t=1");
    NoSchemeUrl(s, 0, 4, idn);
    NoEmail(s, 0, 4, idn);
    NoSchemeUrl(s, 5, 9, idn);
    NoEmail(s, 5, 9, idn);
    forall k | 0 <= k < 10
      ensures CandidateAt(s, k, idn).None?
    {
      if k != 0 && k != 5 {
        assert !IsSeparator(s[k - 1]);
      }
    }
  }

  lemma NewlineSplitShape(idn: char -> bool)
    ensures var u := "pt" + "://" + "testhost" + "/viewtopic.php?t=1";
      SchemeUrlAt("java\nscri\n" + u, 10, idn) == Some(Candidate(SchemeForm, "pt", u))
  {
    var pre := "java\nscri\n";
    var u := "pt" + "://" + "testhost" + "/viewtopic.php?t=1";
    Schemes(idn);
    AsciiHosts(idn);
    AsciiPaths(idn);
    SchemeUrlOf(pre, "pt", "testhost", "/viewtopic.php?t=1", [], idn);
    Regroup4(pre, "pt" + "://", "testhost", "/viewtopic.php?t=1");
    Regroup("pt", "://", "testhost");
    assert pre + "pt" + "://" + "testhost" + "/viewtopic.php?t=1" + [] == pre + u;
  }

  lemma NewlineSplitLink(idn: char -> bool)
    ensures var u := "pt" + "://" + "testhost" + "/viewtopic.php?t=1";
      CandidateAt("java\nscri\n" + u, 10, idn) == Some(Candidate(SchemeForm, "pt", u))
  {
    var pre := "java\nscri\n";
    var u := "pt" + "://" + "testhost" + "/viewtopic.php?t=1";
    NewlineSplitShape(idn);
    DeniedSchemeSamples();
    assert (pre + u)[9] == '\n';
  }

  lemma NewlineSplitShown()
    ensures var u := "pt" + "://" + "testhost" + "/viewtopic.php?t=1";
      Classify(SchemeForm, u, DefaultBoardUrl) == Anchor(FullUrl, u, u)
  {
    ShownInFull("pt" + "://" + "testhost" + "/viewtopic.php?t=1", DefaultBoardUrl, 0);
  }

  /** When line breaks split `javascript`, only the part after the last break
      is read as the scheme: the text before it passes through and the rest
      is an ordinary link. */
  lemma NewlineSplitJavascript(idn: char -> bool)
    ensures var u := "pt" + "://" + "testhost" + "/viewtopic.php?t=1";
      MakeClickable("java\nscri\n" + u, NoOptions, idn)
        == "java\nscri\n" + ("<!-- m --><a class=\"" + "postlink" + "\" href=\"" + u + "\">" + u + "</a><!-- m -->")
  {
    var u := "pt" + "://" + "testhost" + "/viewtopic.php?t=1";
    NewlineSplitNoLinks(idn);
    NewlineSplitLink(idn);
    TextThenLink("java\nscri\n", u, Candidate(SchemeForm, "pt", u), NoOptions, idn);
    NewlineSplitMarkup();
  }

  lemma NewlineSplitMarkup()
    ensures var u := "pt" + "://" + "testhost" + "/viewtopic.php?t=1";
      RenderLink(Candidate(SchemeForm, "pt", u), NoOptions)
        == "<!-- m --><a class=\"" + "postlink" + "\" href=\"" + u + "\">" + u + "</a><!-- m -->"
  {
    var u := "pt" + "://" + "testhost" + "/viewtopic.php?t=1";
    Punctuation();
    assert u + [] == u;
    RenderTrimmed(Candidate(SchemeForm, "pt", u), u, [], NoOptions);
    NewlineSplitShown();
    FullUrlMarkup(u, u, "postlink");
  }

  lemma EmailPieces(idn: char -> bool)
    ensures AllIn(MailboxChars, idn, "email") && AllIn(DomainChars, idn, "domain.com") && IsMailDomainRun("domain.com")
    ensures !IsTrailingPunct("domain.com"[|"domain.com"| - 1]) && !WwwAt("email" + "@" + "domain.com", 0)
  {
    assert "domain.com"[6] == '.';
  }

  /** An e-mail address becomes an `e` link to `mailto:` and the address,
      with no class. */
  lemma EmailAddress(idn: char -> bool)
    ensures var addr := "email" + "@" + "domain.com";
      MakeClickable(addr, NoOptions, idn)
        == "<!-- e --><a href=\"" + "mailto:" + addr + "\">" + addr + "</a><!-- e -->"
  {
    var addr := "email" + "@" + "domain.com";
    EmailPieces(idn);
    EmailRendered("email", "domain.com", NoOptions, idn);
    EmailMarkupIgnoresClass("mailto:" + addr, addr, "postlink", "postlink");
    Regroup("<!-- e --><a href=\"", "mailto:", addr);
  }

  /** A `!` after a link is not part of it and follows the markup. */
  lemma LocalUrlExclamation(idn: char -> bool)
    ensures var url := "http" + "://" + "testhost" + "/viewtopic.php?t=1";
      MakeClickable(url + "!", NoOptions, idn)
        == "<!-- l --><a class=\"" + "postlink" + "-local\" href=\"" + url + "\">" + "viewtopic.php?t=1" + "</a><!-- l -->" + "!"
  {
    Schemes(idn);
    AsciiHosts(idn);
    AsciiPaths(idn);
    Punctuation();
    SchemeUrlRendered("http", "testhost", "/viewtopic.php?t=1", "!", NoOptions, idn);
    ViewtopicSplit();
    UnderTestHost("http", "testhost", "viewtopic.php?t=1");
  }

  /** A `?` after a lazy URL's path is not part of it and follows the markup. */
  lemma LazyUrlQuestion(idn: char -> bool)
    ensures var url := "www." + "phpbb.com" + "/community/";
      MakeClickable(url + "?", NoOptions, idn)
        == "<!-- w --><a class=\"" + "postlink" + "\" href=\"" + "http://" + url + "\">" + url + "</a><!-- w -->" + "?"
  {
    var url := "www." + "phpbb.com" + "/community/";
    AsciiHosts(idn);
    AsciiPaths(idn);
    Punctuation();
    WwwUrlRendered("phpbb.com", "/community/", "?", NoOptions, idn);
    LazyUrlShown();
    Regroup("<!-- w --><a class=\"" + "postlink" + "\" href=\"", "http://", url);
  }

  lemma LongPath(idn: char -> bool)
    ensures var path := "/community/path/to/" + "long/url/file.e" + "xt#section";
      IsPathStart(path[0]) && AllIn(UrlChars, idn, path) && path[|path| - 1] == 'n'
  {
    assert AllIn(UrlChars, idn, "/community/path/to/");
    assert AllIn(UrlChars, idn, "long/url/file.e");
    assert AllIn(UrlChars, idn, "xt#section");
    AllInAppend(UrlChars, idn, "/community/path/to/", "long/url/file.e");
    AllInAppend(UrlChars, idn, "/community/path/to/" + "long/url/file.e", "xt#section");
  }

  lemma LongUrlShown()
    ensures var head := "http" + "://" + "www.phpbb.com" + "/community/path/to/";
      var url := head + "long/url/file.e" + "xt#section";
      Classify(SchemeForm, url, DefaultBoardUrl) == Anchor(FullUrl, url, head + " ... " + "xt#section")
  {
    var head := "http" + "://" + "www.phpbb.com" + "/community/path/to/";
    var url := head + "long/url/file.e" + "xt#section";
    NotUnder(url, DefaultBoardUrl, 7);
    ShortenOf(head, "long/url/file.e", "xt#section");
  }

  /** A URL over 55 characters is shown as its first 39 characters, ` ... `
      and its last 10; the target keeps the whole URL. */
  lemma LongUrl(idn: char -> bool)
    ensures var head := "http" + "://" + "www.phpbb.com" + "/community/path/to/";
      var url := head + "long/url/file.e" + "xt#section";
      MakeClickable(url, NoOptions, idn)
        == "<!-- m --><a class=\"" + "postlink" + "\" href=\"" + url + "\">" + head + " ... " + "xt#section" + "</a><!-- m -->"
  {
    var head := "http" + "://" + "www.phpbb.com" + "/community/path/to/";
    var url := head + "long/url/file.e" + "xt#section";
    Schemes(idn);
    AsciiHosts(idn);
    LongPath(idn);
    Punctuation();
    SchemeUrlRendered("http", "www.phpbb.com", "/community/path/to/" + "long/url/file.e" + "xt#section", [], NoOptions, idn);
    Regroup4("http" + "://" + "www.phpbb.com", "/community/path/to/", "long/url/file.e", "xt#section");
    assert url + [] == url;
    LongUrlShown();
    Regroup4("<!-- m --><a class=\"" + "postlink" + "\" href=\"" + url + "\">", head, " ... ", "xt#section");
  }

  // ---------------------------------------------------------------------
  // Trailing punctuation never eats into the part a link needs: a text
  // whose authority, domain or mail domain is nothing but punctuation stays
  // text, for every IDN table and every option.

  /** `www.` followed only by dots is not a link. */
  lemma WwwDotsUnlinked(opts: Options, idn: char -> bool)
    ensures MakeClickable("www..", opts, idn) == "www.."
  {
    var s := "www..";
    assert !IsLabelStart(idn, s[4]);
    assert Run(s, 0, MailboxChars, idn) == 5;
    forall k | 0 <= k < |s|
      ensures !IsSeparator(s[k])
    {
    }
    OnlyFirstPositionCounts(s, idn);
    NoCandidatesNoChange(s, opts, idn);
  }

  /** A mailbox followed by `@` and a lone dot is not an address. */
  lemma MailDotUnlinked(opts: Options, idn: char -> bool)
    ensures MakeClickable("a@.", opts, idn) == "a@."
  {
    var s := "a@.";
    assert Run(s, 0, SchemeChars, idn) == 1;
    assert Run(s, 0, MailboxChars, idn) == 1;
    assert Run(s, 2, DomainChars, idn) == 1;
    assert s[2..3] == ".";
    forall k | 0 <= k < |s|
      ensures !IsSeparator(s[k])
    {
    }
    OnlyFirstPositionCounts(s, idn);
    NoCandidatesNoChange(s, opts, idn);
  }

  /** A scheme and `://` followed only by dots is not a link. */
  lemma SchemeDotsUnlinked(opts: Options, idn: char -> bool)
    ensures MakeClickable("http://...", opts, idn) == "http://..."
  {
    var s := "http://...";
    assert Run(s, 0, SchemeChars, idn) == 4;
    assert !IsLabelStart(idn, s[7]);
    assert Run(s, 0, MailboxChars, idn) == 4;
    forall k | 0 <= k < |s|
      ensures !IsSeparator(s[k])
    {
    }
    OnlyFirstPositionCounts(s, idn);
    NoCandidatesNoChange(s, opts, idn);
  }

  // ---------------------------------------------------------------------
  // data_test_make_clickable_url_idn

  lemma IdnHosts()
    ensures AllIn(HostChars, SampleIdn, "www.täst.de")
    ensures AllIn(HostChars, SampleIdn, "ftp.täst.de")
    ensures AllIn(HostChars, SampleIdn, "bantu@täst.de")
    ensures AllIn(HostChars, SampleIdn, "домен.рф")
    ensures AllIn(HostChars, SampleIdn, "www.домен.рф")
    ensures IsLabelStart(SampleIdn, "www.täst.de"[0]) && IsLabelStart(SampleIdn, "ftp.täst.de"[0])
    ensures IsLabelStart(SampleIdn, "bantu@täst.de"[0]) && IsLabelStart(SampleIdn, "домен.рф"[0])
    ensures IsLabelStart(SampleIdn, "www.домен.рф"[0])
  {
  }

  lemma IdnDomains()
    ensures AllIn(DomainChars, SampleIdn, "täst.de")
    ensures AllIn(DomainChars, SampleIdn, "домен.рф")
    ensures IsLabelStart(SampleIdn, "täst.de"[0]) && IsLabelStart(SampleIdn, "домен.рф"[0])
  {
  }

  lemma IdnPaths()
    ensures IsPathStart("/сообщество/"[0]) && AllIn(UrlChars, SampleIdn, "/сообщество/")
  {
  }

  lemma IdnCommunityUrlShown()
    ensures var url := "http" + "://" + "www.täst.de" + "/community/";
      Classify(SchemeForm, url, DefaultBoardUrl) == Anchor(FullUrl, url, url)
  {
    ShownInFull("http" + "://" + "www.täst.de" + "/community/", DefaultBoardUrl, 7);
  }

  /** A scheme URL with an internationalised host links like any other. */
  lemma IdnCommunityUrl()
    ensures var url := "http" + "://" + "www.täst.de" + "/community/";
      MakeClickable(url, NoOptions, SampleIdn)
        == "<!-- m --><a class=\"" + "postlink" + "\" href=\"" + url + "\">" + url + "</a><!-- m -->"
  {
    var url := "http" + "://" + "www.täst.de" + "/community/";
    Schemes(SampleIdn);
    IdnHosts();
    AsciiPaths(SampleIdn);
    Punctuation();
    SchemeUrlRendered("http", "www.täst.de", "/community/", [], NoOptions, SampleIdn);
    assert url + [] == url;
    IdnCommunityUrlShown();
  }

  lemma IdnFragmentUrlShown()
    ensures var url := "http" + "://" + "www.täst.de" + "/path/file.ext#section";
      Classify(SchemeForm, url, DefaultBoardUrl) == Anchor(FullUrl, url, url)
  {
    ShownInFull("http" + "://" + "www.täst.de" + "/path/file.ext#section", DefaultBoardUrl, 7);
  }

  lemma IdnFragmentUrl()
    ensures var url := "http" + "://" + "www.täst.de" + "/path/file.ext#section";
      MakeClickable(url, NoOptions, SampleIdn)
        == "<!-- m --><a class=\"" + "postlink" + "\" href=\"" + url + "\">" + url + "</a><!-- m -->"
  {
    var url := "http" + "://" + "www.täst.de" + "/path/file.ext#section";
    Schemes(SampleIdn);
    IdnHosts();
    AsciiPaths(SampleIdn);
    Punctuation();
    SchemeUrlRendered("http", "www.täst.de", "/path/file.ext#section", [], NoOptions, SampleIdn);
    assert url + [] == url;
    IdnFragmentUrlShown();
  }

  lemma IdnFtpUrlShown()
    ensures var url := "ftp" + "://" + "ftp.täst.de" + "/";
      Classify(SchemeForm, url, DefaultBoardUrl) == Anchor(FullUrl, url, url)
  {
    ShownInFull("ftp" + "://" + "ftp.täst.de" + "/", DefaultBoardUrl, 0);
  }

  lemma IdnFtpUrl()
    ensures var url := "ftp" + "://" + "ftp.täst.de" + "/";
      MakeClickable(url, NoOptions, SampleIdn)
        == "<!-- m --><a class=\"" + "postlink" + "\" href=\"" + url + "\">" + url + "</a><!-- m -->"
  {
    var url := "ftp" + "://" + "ftp.täst.de" + "/";
    Schemes(SampleIdn);
    IdnHosts();
    AsciiPaths(SampleIdn);
    Punctuation();
    SchemeUrlRendered("ftp", "ftp.täst.de", "/", [], NoOptions, SampleIdn);
    assert url + [] == url;
    IdnFtpUrlShown();
  }

  /** A `javascript:` URL stays text whatever its host. */
  lemma IdnJavascriptUrl(idn: char -> bool)
    ensures var url := "javascript" + "://" + "täst.de/";
      MakeClickable(url, NoOptions, idn) == url
  {
    DeniedSchemeSamples();
    JavascriptUrlUnchanged("javascript", "täst.de/", NoOptions, idn);
  }

  lemma IdnSipUrlShown()
    ensures var url := "sip" + "://" + "bantu@täst.de";
      Classify(SchemeForm, url, DefaultBoardUrl) == Anchor(FullUrl, url, url)
  {
    ShownInFull("sip" + "://" + "bantu@täst.de", DefaultBoardUrl, 0);
  }

  lemma IdnSipUrl()
    ensures var url := "sip" + "://" + "bantu@täst.de";
      MakeClickable(url, NoOptions, SampleIdn)
        == "<!-- m --><a class=\"" + "postlink" + "\" href=\"" + url + "\">" + url + "</a><!-- m -->"
  {
    var url := "sip" + "://" + "bantu@täst.de";
    Schemes(SampleIdn);
    IdnHosts();
    Punctuation();
    SchemeUrlRendered("sip", "bantu@täst.de", [], [], NoOptions, SampleIdn);
    assert "sip" + "://" + "bantu@täst.de" + [] == url;
    assert url + [] == url;
    IdnSipUrlShown();
  }

  lemma IdnLazyUrlShown()
    ensures var url := "www." + "täst.de" + "/community/";
      Shorten(url) == url
  {
  }

  lemma IdnLazyUrl()
    ensures var url := "www." + "täst.de" + "/community/";
      MakeClickable(url, NoOptions, SampleIdn)
        == "<!-- w --><a class=\"" + "postlink" + "\" href=\"" + "http://" + url + "\">" + url + "</a><!-- w -->"
  {
    var url := "www." + "täst.de" + "/community/";
    IdnDomains();
    AsciiPaths(SampleIdn);
    Punctuation();
    WwwUrlRendered("täst.de", "/community/", [], NoOptions, SampleIdn);
    assert url + [] == url;
    IdnLazyUrlShown();
    Regroup("<!-- w --><a class=\"" + "postlink" + "\" href=\"", "http://", url);
  }

  lemma IdnUrlExclamationShown()
    ensures var url := "http" + "://" + "домен.рф" + "/viewtopic.php?t=1";
      Classify(SchemeForm, url, DefaultBoardUrl) == Anchor(FullUrl, url, url)
  {
    ShownInFull("http" + "://" + "домен.рф" + "/viewtopic.php?t=1", DefaultBoardUrl, 7);
  }

  lemma IdnUrlExclamation()
    ensures var url := "http" + "://" + "домен.рф" + "/viewtopic.php?t=1";
      MakeClickable(url + "!", NoOptions, SampleIdn)
        == "<!-- m --><a class=\"" + "postlink" + "\" href=\"" + url + "\">" + url + "</a><!-- m -->" + "!"
  {
    Schemes(SampleIdn);
    IdnHosts();
    AsciiPaths(SampleIdn);
    Punctuation();
    SchemeUrlRendered("http", "домен.рф", "/viewtopic.php?t=1", "!", NoOptions, SampleIdn);
    IdnUrlExclamationShown();
  }

  lemma IdnLazyUrlQuestionShown()
    ensures var url := "www." + "домен.рф" + "/сообщество/";
      Shorten(url) == url
  {
  }

  lemma IdnLazyUrlQuestion()
    ensures var url := "www." + "домен.рф" + "/сообщество/";
      MakeClickable(url + "?", NoOptions, SampleIdn)
        == "<!-- w --><a class=\"" + "postlink" + "\" href=\"" + "http://" + url + "\">" + url + "</a><!-- w -->" + "?"
  {
    var url := "www." + "домен.рф" + "/сообщество/";
    IdnDomains();
    IdnPaths();
    Punctuation();
    WwwUrlRendered("домен.рф", "/сообщество/", "?", NoOptions, SampleIdn);
    IdnLazyUrlQuestionShown();
    Regroup("<!-- w --><a class=\"" + "postlink" + "\" href=\"", "http://", url);
  }

  lemma IdnLongPath()
    ensures var path := "/сообщество/путь/до/" + "длинной/ссылки/file.e" + "xt#section";
      IsPathStart(path[0]) && AllIn(UrlChars, SampleIdn, path) && path[|path| - 1] == 'n'
  {
    assert AllIn(UrlChars, SampleIdn, "/сообщество/путь/до/");
    assert AllIn(UrlChars, SampleIdn, "длинной/ссылки/file.e");
    assert AllIn(UrlChars, SampleIdn, "xt#section");
    AllInAppend(UrlChars, SampleIdn, "/сообщество/путь/до/", "длинной/ссылки/file.e");
    AllInAppend(UrlChars, SampleIdn, "/сообщество/путь/до/" + "длинной/ссылки/file.e", "xt#section");
  }

  lemma IdnLongUrlShown()
    ensures var head := "http" + "://" + "www.домен.рф" + "/сообщество/путь/до/";
      var url := head + "длинной/ссылки/file.e" + "xt#section";
      Classify(SchemeForm, url, DefaultBoardUrl) == Anchor(FullUrl, url, head + " ... " + "xt#section")
  {
    var head := "http" + "://" + "www.домен.рф" + "/сообщество/путь/до/";
    var url := head + "длинной/ссылки/file.e" + "xt#section";
    NotUnder(url, DefaultBoardUrl, 7);
    ShortenOf(head, "длинной/ссылки/file.e", "xt#section");
  }

  /** Shortening counts characters, not bytes, in internationalised URLs. */
  lemma IdnLongUrl()
    ensures var head := "http" + "://" + "www.домен.рф" + "/сообщество/путь/до/";
      var url := head + "длинной/ссылки/file.e" + "xt#section";
      MakeClickable(url, NoOptions, SampleIdn)
        == "<!-- m --><a class=\"" + "postlink" + "\" href=\"" + url + "\">" + head + " ... " + "xt#section" + "</a><!-- m -->"
  {
    var head := "http" + "://" + "www.домен.рф" + "/сообщество/путь/до/";
    var url := head + "длинной/ссылки/file.e" + "xt#section";
    Schemes(SampleIdn);
    IdnHosts();
    IdnLongPath();
    Punctuation();
    SchemeUrlRendered("http", "www.домен.рф", "/сообщество/путь/до/" + "длинной/ссылки/file.e" + "xt#section", [], NoOptions, SampleIdn);
    Regroup4("http" + "://" + "www.домен.рф", "/сообщество/путь/до/", "длинной/ссылки/file.e", "xt#section");
    assert url + [] == url;
    IdnLongUrlShown();
    Regroup4("<!-- m --><a class=\"" + "postlink" + "\" href=\"" + url + "\">", head, " ... ", "xt#section");
  }

  lemma InvalidCharLink()
    ensures var u := "http" + "://" + "www.täst";
      CandidateAt(u + "╫.de", 0, SampleIdn) == Some(Candidate(SchemeForm, "http", u))
  {
    var u := "http" + "://" + "www.täst";
    Schemes(SampleIdn);
    assert AllIn(HostChars, SampleIdn, "www.täst") && IsLabelStart(SampleIdn, "www.täst"[0]);
    SchemeUrlOf([], "http", "www.täst", [], "╫.de", SampleIdn);
    assert [] + "http" + "://" + "www.täst" + [] + "╫.de" == u + "╫.de";
    assert "http" + "://" + "www.täst" + [] == u;
  }

  lemma InvalidCharRest()
    ensures var s := "http" + "://" + "www.täst" + "╫.de";
      forall k | 15 <= k < |s| :: CandidateAt(s, k, SampleIdn).None?
  {
    var s := "http" + "://" + "www.täst" + "╫.de";
    forall k | 15 <= k < |s|
      ensures CandidateAt(s, k, SampleIdn).None?
    {
      assert !IsSeparator(s[k - 1]);
    }
  }

  lemma InvalidCharShown()
    ensures var u := "http" + "://" + "www.täst";
      Classify(SchemeForm, u, DefaultBoardUrl) == Anchor(FullUrl, u, u)
  {
    ShownInFull("http" + "://" + "www.täst", DefaultBoardUrl, 7);
  }

  /** The host ends at the first character no IDN label may hold; the rest
      stays text after the link. */
  lemma IdnInvalidChar()
    ensures var u := "http" + "://" + "www.täst";
      MakeClickable(u + "╫.de", NoOptions, SampleIdn)
        == "<!-- m --><a class=\"" + "postlink" + "\" href=\"" + u + "\">" + u + "</a><!-- m -->" + "╫.de"
  {
    var u := "http" + "://" + "www.täst";
    InvalidCharLink();
    InvalidCharRest();
    LinkThenText(u, "╫.de", Candidate(SchemeForm, "http", u), NoOptions, SampleIdn);
    InvalidCharMarkup();
  }

  lemma InvalidCharMarkup()
    ensures var u := "http" + "://" + "www.täst";
      RenderLink(Candidate(SchemeForm, "http", u), NoOptions)
        == "<!-- m --><a class=\"" + "postlink" + "\" href=\"" + u + "\">" + u + "</a><!-- m -->"
  {
    var u := "http" + "://" + "www.täst";
    Punctuation();
    assert u + [] == u;
    RenderTrimmed(Candidate(SchemeForm, "http", u), u, [], NoOptions);
    InvalidCharShown();
    FullUrlMarkup(u, u, "postlink");
  }

  lemma IdnEmailNoCandidate()
    ensures CandidateAt("почта" + "@" + "домен.рф", 0, SampleIdn).None?
  {
    var s := "почта" + "@" + "домен.рф";
    assert AllIn(MailboxChars, SampleIdn, "почта");
    IdnDomains();
    NoSchemeUrl(s, 0, 0, SampleIdn);
    EmailOf([], "почта", "домен.рф", [], SampleIdn);
    assert [] + "почта" + "@" + "домен.рф" + [] == s;
    assert !IsAscii("домен.рф"[0]);
  }

  /** An e-mail address with an internationalised domain is not linked. */
  lemma IdnEmailUnsupported()
    ensures var s := "почта" + "@" + "домен.рф";
      MakeClickable(s, NoOptions, SampleIdn) == s
  {
    var s := "почта" + "@" + "домен.рф";
    IdnEmailNoCandidate();
    forall k | 0 <= k < |s|
      ensures !IsSeparator(s[k])
    {
    }
    OnlyFirstPositionCounts(s, SampleIdn);
    NoCandidatesNoChange(s, NoOptions, SampleIdn);
  }

  // ---------------------------------------------------------------------
  // data_test_make_clickable_local_url_idn and _custom_classes

  /** The relative part of a URL under the internationalised board. */
  lemma UnderIdnBoard(rel: string)
    ensures RelativePart("http" + "://" + "www.домен.рф" + ("/" + rel), IdnBoard) == Some(rel)
  {
    assert "http" + "://" + "www.домен.рф" == IdnBoard;
    assert "http" + "://" + "www.домен.рф" + ("/" + rel) == IdnBoard + "/" + rel;
    RelativeOf(IdnBoard, rel);
  }

  lemma CommunitySplit()
    ensures "/сообщество/" == "/" + "сообщество/"
  {
  }

  /** A URL under the board given by the caller becomes an `l` link. */
  lemma IdnLocalUrl()
    ensures var url := "http" + "://" + "www.домен.рф" + "/viewtopic.php?t=1";
      MakeClickable(url, Options(Some(IdnBoard), None), SampleIdn)
        == "<!-- l --><a class=\"" + "postlink" + "-local\" href=\"" + url + "\">" + "viewtopic.php?t=1" + "</a><!-- l -->"
  {
    var url := "http" + "://" + "www.домен.рф" + "/viewtopic.php?t=1";
    Schemes(SampleIdn);
    IdnHosts();
    AsciiPaths(SampleIdn);
    Punctuation();
    SchemeUrlRendered("http", "www.домен.рф", "/viewtopic.php?t=1", [], Options(Some(IdnBoard), None), SampleIdn);
    assert url + [] == url;
    ViewtopicSplit();
    UnderIdnBoard("viewtopic.php?t=1");
  }

  lemma IdnLocalUrlExclamation()
    ensures var url := "http" + "://" + "www.домен.рф" + "/viewtopic.php?t=1";
      MakeClickable(url + "!", Options(Some(IdnBoard), None), SampleIdn)
        == "<!-- l --><a class=\"" + "postlink" + "-local\" href=\"" + url + "\">" + "viewtopic.php?t=1" + "</a><!-- l -->" + "!"
  {
    Schemes(SampleIdn);
    IdnHosts();
    AsciiPaths(SampleIdn);
    Punctuation();
    SchemeUrlRendered("http", "www.домен.рф", "/viewtopic.php?t=1", "!", Options(Some(IdnBoard), None), SampleIdn);
    ViewtopicSplit();
    UnderIdnBoard("viewtopic.php?t=1");
  }

  /** The shown text of a local link is the path after the board, here an
      internationalised one. */
  lemma IdnLocalUrlQuestion()
    ensures var url := "http" + "://" + "www.домен.рф" + "/сообщество/";
      MakeClickable(url + "?", Options(Some(IdnBoard), None), SampleIdn)
        == "<!-- l --><a class=\"" + "postlink" + "-local\" href=\"" + url + "\">" + "сообщество/" + "</a><!-- l -->" + "?"
  {
    Schemes(SampleIdn);
    IdnHosts();
    IdnPaths();
    Punctuation();
    SchemeUrlRendered("http", "www.домен.рф", "/сообщество/", "?", Options(Some(IdnBoard), None), SampleIdn);
    CommunitySplit();
    UnderIdnBoard("сообщество/");
  }

  /** A caller's class replaces `postlink`, and becomes `class1-local` on a
      local link. */
  lemma ClassLocalUrl()
    ensures var url := "http" + "://" + "www.домен.рф" + "/viewtopic.php?t=1";
      MakeClickable(url, Options(Some(IdnBoard), Some("class1")), SampleIdn)
        == "<!-- l --><a class=\"" + "class1" + "-local\" href=\"" + url + "\">" + "viewtopic.php?t=1" + "</a><!-- l -->"
  {
    var url := "http" + "://" + "www.домен.рф" + "/viewtopic.php?t=1";
    Schemes(SampleIdn);
    IdnHosts();
    AsciiPaths(SampleIdn);
    Punctuation();
    SchemeUrlRendered("http", "www.домен.рф", "/viewtopic.php?t=1", [], Options(Some(IdnBoard), Some("class1")), SampleIdn);
    assert url + [] == url;
    ViewtopicSplit();
    UnderIdnBoard("viewtopic.php?t=1");
  }

  lemma ClassUrlShown(path: string)
    requires path == "/viewtopic.php?t=1" || path == "/сообщество/"
    ensures var url := "http" + "://" + "www.домен.рф" + path;
      Classify(SchemeForm, url, DefaultBoardUrl) == Anchor(FullUrl, url, url)
  {
    ShownInFull("http" + "://" + "www.домен.рф" + path, DefaultBoardUrl, 7);
  }

  /** Without a board address the default board applies, so the same URL is
      an `m` link with the caller's class. */
  lemma ClassUrlExclamation()
    ensures var url := "http" + "://" + "www.домен.рф" + "/viewtopic.php?t=1";
      MakeClickable(url + "!", Options(None, Some("class2")), SampleIdn)
        == "<!-- m --><a class=\"" + "class2" + "\" href=\"" + url + "\">" + url + "</a><!-- m -->" + "!"
  {
    Schemes(SampleIdn);
    IdnHosts();
    AsciiPaths(SampleIdn);
    Punctuation();
    SchemeUrlRendered("http", "www.домен.рф", "/viewtopic.php?t=1", "!", Options(None, Some("class2")), SampleIdn);
    ClassUrlShown("/viewtopic.php?t=1");
  }

  lemma ClassUrlQuestion()
    ensures var url := "http" + "://" + "www.домен.рф" + "/сообщество/";
      MakeClickable(url + "?", Options(None, Some("class3")), SampleIdn)
        == "<!-- m --><a class=\"" + "class3" + "\" href=\"" + url + "\">" + url + "</a><!-- m -->" + "?"
  {
    Schemes(SampleIdn);
    IdnHosts();
    IdnPaths();
    Punctuation();
    SchemeUrlRendered("http", "www.домен.рф", "/сообщество/", "?", Options(None, Some("class3")), SampleIdn);
    ClassUrlShown("/сообщество/");
  }

  lemma ClassLazyUrl(idn: char -> bool)
    ensures var url := "www." + "phpbb.com" + "/community/";
      MakeClickable(url, Options(None, Some("class2")), idn)
        == "<!-- w --><a class=\"" + "class2" + "\" href=\"" + "http://" + url + "\">" + url + "</a><!-- w -->"
  {
    var url := "www." + "phpbb.com" + "/community/";
    AsciiHosts(idn);
    AsciiPaths(idn);
    Punctuation();
    WwwUrlRendered("phpbb.com", "/community/", [], Options(None, Some("class2")), idn);
    assert url + [] == url;
    LazyUrlShown();
    Regroup("<!-- w --><a class=\"" + "class2" + "\" href=\"", "http://", url);
  }

  lemma ClassLocalTesthost(idn: char -> bool)
    ensures var url := "http" + "://" + "testhost" + "/viewtopic.php?t=1";
      MakeClickable(url, Options(None, Some("class1")), idn)
        == "<!-- l --><a class=\"" + "class1" + "-local\" href=\"" + url + "\">" + "viewtopic.php?t=1" + "</a><!-- l -->"
  {
    var url := "http" + "://" + "testhost" + "/viewtopic.php?t=1";
    Schemes(idn);
    AsciiHosts(idn);
    AsciiPaths(idn);
    Punctuation();
    SchemeUrlRendered("http", "testhost", "/viewtopic.php?t=1", [], Options(None, Some("class1")), idn);
    assert url + [] == url;
    ViewtopicSplit();
    UnderTestHost("http", "testhost", "viewtopic.php?t=1");
  }

  /** An e-mail link carries no class even when the caller gives one. */
  lemma ClassEmail(idn: char -> bool)
    ensures var addr := "email" + "@" + "domain.com";
      MakeClickable(addr, Options(None, Some("class-email")), idn)
        == "<!-- e --><a href=\"" + "mailto:" + addr + "\">" + addr + "</a><!-- e -->"
  {
    var addr := "email" + "@" + "domain.com";
    EmailPieces(idn);
    EmailRendered("email", "domain.com", Options(None, Some("class-email")), idn);
    EmailMarkupIgnoresClass("mailto:" + addr, addr, "class-email", "class-email");
    Regroup("<!-- e --><a href=\"", "mailto:", addr);
  }
}
