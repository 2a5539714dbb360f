/** Renderer: the anchor markup for one link, wrapped in the sentinel comments
    that tag it with its kind:
      m  a full URL with a scheme
      l  a URL under the board's own address
      w  a `www.` URL without a scheme
      e  an e-mail address (which never carries a class attribute). */
module Renderer {

  datatype Kind = FullUrl | LocalUrl | LazyUrl | Email

  /** What one link becomes: its kind, its target and the text shown. */
  datatype Anchor = Anchor(kind: Kind, href: string, text: string)

  /** The comment that opens and closes the markup of a link of kind `k`. */
  function Sentinel(k: Kind): string {
    match k
    case FullUrl => "<!-- m -->"
    case LocalUrl => "<!-- l -->"
    case LazyUrl => "<!-- w -->"
    case Email => "<!-- e -->"
  }

  /** Everything in front of the target: the opening sentinel, `<a`, the class
      attribute (`cls` for URLs, `cls-local` for local URLs, none for e-mail
      addresses) and the start of `href`. */
  function OpenTag(k: Kind, cls: string): (r: string)
    ensures |r| >= 10 && r[..10] == Sentinel(k)
  {
    match k
    case FullUrl => "<!-- m --><a class=\"" + cls + "\" href=\""
    case LocalUrl => "<!-- l --><a class=\"" + cls + "-local\" href=\""
    case LazyUrl => "<!-- w --><a class=\"" + cls + "\" href=\""
    case Email => "<!-- e --><a href=\""
  }

  /** Everything after the shown text: `</a>` and the closing sentinel. */
  function CloseTag(k: Kind): (r: string)
    ensures r == "</a>" + Sentinel(k)
  {
    match k
    case FullUrl => "</a><!-- m -->"
    case LocalUrl => "</a><!-- l -->"
    case LazyUrl => "</a><!-- w -->"
    case Email => "</a><!-- e -->"
  }

  function Markup(a: Anchor, cls: string): string {
    OpenTag(a.kind, cls) + a.href + "\">" + a.text + CloseTag(a.kind)
  }

  /** The markup of a link opens and closes with the sentinel of its kind. */
  lemma SentinelsWrap(a: Anchor, cls: string)
    ensures var m := Markup(a, cls);
      |m| >= 20 && m[..10] == Sentinel(a.kind) && m[|m| - 10..] == Sentinel(a.kind)
  {
    var m := Markup(a, cls);
    var open, close := OpenTag(a.kind, cls), CloseTag(a.kind);
    assert m == open + (a.href + "\">" + a.text) + close;
    assert m[..10] == open[..10];
    assert m[|m| - 10..] == close[4..];
  }

  /** Each kind has its own sentinel, so the markup can be told apart later. */
  lemma SentinelsDistinct(k1: Kind, k2: Kind)
    ensures Sentinel(k1) == Sentinel(k2) <==> k1 == k2
  {
    if Sentinel(k1) == Sentinel(k2) {
      assert Sentinel(k1)[5] == Sentinel(k2)[5];
    }
  }

  /** The markup of a full URL, written out. */
  lemma FullUrlMarkup(href: string, text: string, cls: string)
    ensures Markup(Anchor(FullUrl, href, text), cls)
      == "<!-- m --><a class=\"" + cls + "\" href=\"" + href + "\">" + text + "</a><!-- m -->"
  {
  }

  /** An e-mail anchor is the same whatever class is in effect. */
  lemma EmailMarkupIgnoresClass(href: string, text: string, cls1: string, cls2: string)
    ensures Markup(Anchor(Email, href, text), cls1) == Markup(Anchor(Email, href, text), cls2)
    ensures Markup(Anchor(Email, href, text), cls1) == "<!-- e --><a href=\"" + href + "\">" + text + "</a><!-- e -->"
  {
  }
}
