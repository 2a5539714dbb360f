/** Punctuation trimmer: sentence punctuation at the end of a link is not part
    of it.  The trailing run of such characters is cut off the link and
    re-emitted as text right after the generated markup. */
module Trimmer {
  import opened Chars

  /** A link split into the part that stays a link and the punctuation after it. */
  datatype Trimmed = Trimmed(body: string, tail: string)

  predicate AllTrailingPunct(t: string) {
    forall k | 0 <= k < |t| :: IsTrailingPunct(t[k])
  }

  /** Where the trailing punctuation run of `s` starts. */
  function TrailingStart(s: string): (n: nat)
    ensures n <= |s|
    ensures forall k | n <= k < |s| :: IsTrailingPunct(s[k])
    ensures n == 0 || !IsTrailingPunct(s[n - 1])
    decreases |s|
  {
    if |s| > 0 && IsTrailingPunct(s[|s| - 1]) then
      var n := TrailingStart(s[..|s| - 1]);
      assert forall k | n <= k < |s| - 1 :: s[..|s| - 1][k] == s[k];
      n
    else |s|
  }

  /** The body keeps every character up to the last one that is not trailing
      punctuation; the tail is the punctuation run after it. */
  function TrimTrailing(s: string): (r: Trimmed)
    ensures r.body + r.tail == s
    ensures AllTrailingPunct(r.tail)
    ensures r.body == [] || !IsTrailingPunct(r.body[|r.body| - 1])
  {
    var n := TrailingStart(s);
    assert s[..n] + s[n..] == s;
    Trimmed(s[..n], s[n..])
  }

  /** The split is determined by its two properties: any body and tail that
      spell `s`, with an all-punctuation tail and a body that does not end in
      punctuation, are the ones `TrimTrailing` returns. */
  lemma {:induction false} TrimUnique(s: string, body: string, tail: string)
    requires body + tail == s
    requires AllTrailingPunct(tail)
    requires body == [] || !IsTrailingPunct(body[|body| - 1])
    ensures TrimTrailing(s) == Trimmed(body, tail)
  {
    if tail == [] {
      assert body == s;
    } else {
      var last := |tail| - 1;
      assert s[|s| - 1] == tail[last];
      assert s[..|s| - 1] == body + tail[..last];
      TrimUnique(s[..|s| - 1], body, tail[..last]);
      assert tail == tail[..last] + [tail[last]];
    }
  }

  /** Trimming a trimmed link removes nothing more. */
  lemma {:induction false} TrimIdempotent(s: string)
    ensures TrimTrailing(TrimTrailing(s).body) == Trimmed(TrimTrailing(s).body, [])
  {
    var b := TrimTrailing(s).body;
    assert b + [] == b;
    TrimUnique(b, b, []);
  }

  /** Text in front of a non-punctuation character is never touched: trimming
      `p + q` when `p` ends in a non-punctuation character trims only `q`. */
  lemma {:induction false} TrimKeepsPrefix(p: string, q: string)
    requires p != [] && !IsTrailingPunct(p[|p| - 1])
    ensures TrimTrailing(p + q) == Trimmed(p + TrimTrailing(q).body, TrimTrailing(q).tail)
  {
    var r := TrimTrailing(q);
    KeepsPrefixSplit(p, r.body, r.tail);
    TrimUnique(p + q, p + r.body, r.tail);
  }

  /** Putting `p` in front of a body keeps it ending in non-punctuation. */
  lemma KeepsPrefixSplit(p: string, body: string, tail: string)
    requires p != [] && !IsTrailingPunct(p[|p| - 1])
    requires body == [] || !IsTrailingPunct(body[|body| - 1])
    ensures (p + body) + tail == p + (body + tail)
    ensures !IsTrailingPunct((p + body)[|p + body| - 1])
  {
    if body == [] {
      assert p + body == p;
    } else {
      assert (p + body)[|p + body| - 1] == body[|body| - 1];
    }
  }

  /** Trimming never reaches a first character that is not punctuation. */
  lemma TrimKeepsFirst(s: string)
    requires 0 < |s| && !IsTrailingPunct(s[0])
    ensures 0 < |TrimTrailing(s).body| && TrimTrailing(s).body[0] == s[0]
  {
  }

  /** A text ending in punctuation trims to what the text without its last
      character trims to. */
  lemma TrimDropsLast(s: string)
    requires 0 < |s| && IsTrailingPunct(s[|s| - 1])
    ensures TrimTrailing(s).body == TrimTrailing(s[..|s| - 1]).body
  {
    var u := s[..|s| - 1];
    var n := TrailingStart(u);
    assert TrailingStart(s) == n;
    assert s[..n] == u[..n];
  }
}
