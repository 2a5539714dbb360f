/** Display truncator: link text longer than 55 characters is shown as its
    first 39 characters, ` ... ` and its last 10 characters. */
module Truncator {

  const MaxDisplay: nat := 55
  const HeadLength: nat := 39
  const TailLength: nat := 10
  const Ellipsis: string := " ... "

  function Shorten(s: string): (r: string)
    ensures |s| <= MaxDisplay ==> r == s
    ensures |s| > MaxDisplay ==>
      && |r| == HeadLength + |Ellipsis| + TailLength
      && r[..HeadLength] == s[..HeadLength]
      && r[HeadLength..HeadLength + |Ellipsis|] == Ellipsis
      && r[HeadLength + |Ellipsis|..] == s[|s| - TailLength..]
  {
    if |s| <= MaxDisplay then s
    else s[..HeadLength] + Ellipsis + s[|s| - TailLength..]
  }

  /** Shortened text is at most 55 characters long and never longer than the
      original, and shortening twice changes nothing more. */
  lemma ShortenBounds(s: string)
    ensures |Shorten(s)| <= MaxDisplay && |Shorten(s)| <= |s|
    ensures Shorten(Shorten(s)) == Shorten(s)
  {
  }

  /** Both ends of the text survive: the shown text starts with the first
      characters of the original and ends with its last characters. */
  lemma ShortenKeepsEnds(s: string)
    ensures |s| > MaxDisplay ==> s[..HeadLength] <= Shorten(s)
    ensures |s| > MaxDisplay ==> Shorten(s)[|Shorten(s)| - TailLength..] == s[|s| - TailLength..]
  {
  }

  /** The shown text is empty exactly when the original is, and otherwise ends
      in the original's last character. */
  lemma ShortenKeepsLast(s: string)
    ensures Shorten(s) == [] <==> s == []
    ensures s != [] ==> Shorten(s)[|Shorten(s)| - 1] == s[|s| - 1]
  {
    if |s| > MaxDisplay {
      ShortenKeepsEnds(s);
      assert Shorten(s)[|Shorten(s)| - 1] == Shorten(s)[|Shorten(s)| - TailLength..][TailLength - 1];
    }
  }

  /** A text over the limit, seen as its first 39 characters, a middle and
      its last 10 characters, is shown as the head, ` ... ` and the tail. */
  lemma ShortenOf(head: string, mid: string, tail: string)
    requires |head| == HeadLength && |tail| == TailLength
    requires |head| + |mid| + |tail| > MaxDisplay
    ensures Shorten(head + mid + tail) == head + Ellipsis + tail
  {
    var s := head + mid + tail;
    assert s[..HeadLength] == head;
    assert s[|s| - TailLength..] == tail;
  }
}
