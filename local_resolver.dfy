/** Local resolver: a URL that lies under the board's own address is a local
    link, shown relative to that address. */
module LocalResolver {
  import opened Wrappers
  import opened Chars
  import opened Trimmer

  /** The board address the linkifier falls back to when the caller gives
      none. */
  const DefaultBoardUrl: string := "http://testhost"

  /** The part of `url` after the board address and the slash that follows
      it; `None` when `url` is not under the board address.  The comparison is
      exact and case-sensitive. */
  function RelativePart(url: string, board: string): (r: Option<string>)
    ensures r.Some? <==> board + "/" <= url
    ensures r.Some? ==> url == board + "/" + r.value
  {
    var prefix := board + "/";
    if prefix <= url then
      assert url == prefix + url[|prefix|..];
      Some(url[|prefix|..])
    else None
  }

  /** Resolving before or after trimming gives the same answer: the URL is
      local either way or not at all, and the relative part of the trimmed URL
      is the trimmed relative part. */
  lemma ResolveCommutesWithTrim(url: string, board: string)
    ensures RelativePart(TrimTrailing(url).body, board).Some? <==> RelativePart(url, board).Some?
    ensures RelativePart(url, board).Some? ==>
      RelativePart(TrimTrailing(url).body, board) == Some(TrimTrailing(RelativePart(url, board).value).body)
  {
    var t := TrimTrailing(url);
    var prefix := board + "/";
    if prefix <= url {
      var rel := url[|prefix|..];
      assert url == prefix + rel;
      TrimKeepsPrefix(prefix, rel);
      assert t.body == prefix + TrimTrailing(rel).body;
      assert prefix <= t.body;
      assert t.body[|prefix|..] == TrimTrailing(rel).body;
    } else {
      assert url == t.body + t.tail;
    }
  }

  /** A URL made of the board address, `/` and a rest resolves to that rest. */
  lemma RelativeOf(board: string, rel: string)
    ensures RelativePart(board + "/" + rel, board) == Some(rel)
  {
    var url := board + "/" + rel;
    assert url[|board + "/"|..] == rel;
  }

  /** A URL that differs from the board address and its `/` at some position
      is not under the board. */
  lemma NotUnder(url: string, board: string, k: nat)
    requires k < |url| && k < |board + "/"| && url[k] != (board + "/")[k]
    ensures RelativePart(url, board) == None
  {
  }
}
