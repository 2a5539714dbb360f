/** Scanner: one left-to-right pass that splits the text into literal spans
    and validated link candidates.  A candidate is looked for only where a
    link may start (the start of the text or just after a separator); once
    found, scanning resumes after it, so candidates never overlap and the
    spans, read in order, spell the input again. */
module Scanner {
  import opened Wrappers
  import opened Chars
  import opened Lexer
  import opened Trimmer
  import opened SchemePolicy

  /** A literal span holds one character of the input passed through as is. */
  datatype Span = Literal(text: string) | Link(candidate: Candidate)

  function SpanSource(sp: Span): string {
    match sp
    case Literal(t) => t
    case Link(c) => c.text
  }

  /** The input text a sequence of spans covers. */
  function Source(spans: seq<Span>): string {
    if spans == [] then [] else SpanSource(spans[0]) + Source(spans[1..])
  }

  lemma {:induction false} SourceAppend(a: seq<Span>, b: seq<Span>)
    ensures Source(a + b) == Source(a) + Source(b)
  {
    if a == [] {
      assert a + b == b;
    } else {
      assert (a + b)[1..] == a[1..] + b;
      SourceAppend(a[1..], b);
    }
  }

  /** A link may start at the beginning of the text or after a separator. */
  predicate AtBoundary(s: string, i: nat)
    requires i <= |s|
  {
    i == 0 || IsSeparator(s[i - 1])
  }

  /** The validated candidate that starts at `i`, if any. */
  function CandidateAt(s: string, i: nat, idn: char -> bool): (r: Option<Candidate>)
    requires i <= |s|
    ensures r.Some? ==>
      && AtBoundary(s, i) && Admissible(r.value)
      && 0 < |r.value.text| && i + |r.value.text| <= |s|
      && r.value.text == s[i..i + |r.value.text|]
  {
    if !AtBoundary(s, i) then None
    else
      var c := ShapeAt(s, i, idn);
      if c.Some? && Admissible(c.value) then c else None
  }

  /** What the scanner relies on about a candidate found at position `k`. */
  predicate IsCandidateAt(s: string, k: nat, c: Candidate) {
    && k <= |s|
    && 0 < |c.text| && k + |c.text| <= |s|
    && c.text == s[k..k + |c.text|]
  }

  /** A table giving, for every position of `s` and the end, the candidate that
      starts there. */
  predicate IsCandidateTable(s: string, table: seq<Option<Candidate>>) {
    && |table| == |s| + 1
    && forall k {:trigger IsCandidateAt(s, k, table[k].value)} | 0 <= k < |table| ::
         table[k].Some? ==> IsCandidateAt(s, k, table[k].value)
  }

  /** Every candidate in the table passed the scheme validator. */
  predicate IsAdmissibleTable(table: seq<Option<Candidate>>) {
    forall k | 0 <= k < |table| :: table[k].Some? ==> Admissible(table[k].value)
  }

  /** The classification of every position of `s`. */
  function CandidateTable(s: string, idn: char -> bool): (table: seq<Option<Candidate>>)
    ensures IsCandidateTable(s, table) && IsAdmissibleTable(table)
    ensures forall k | 0 <= k <= |s| :: table[k] == CandidateAt(s, k, idn)
  {
    seq(|s| + 1, k requires 0 <= k <= |s| => CandidateAt(s, k, idn))
  }

  predicate WellFormed(sp: Span) {
    match sp
    case Literal(t) => |t| == 1
    case Link(c) => Admissible(c) && |c.text| > 0
  }

  /** The span at `i`: the table's candidate if there is one, else the
      character at `i` as literal text. */
  function SpanAt(s: string, table: seq<Option<Candidate>>, i: nat): Span
    requires |table| == |s| + 1 && i < |s|
  {
    if table[i].Some? then Link(table[i].value) else Literal([s[i]])
  }

  /** Where scanning resumes after the span at `i`. */
  function NextAt(s: string, table: seq<Option<Candidate>>, i: nat): (j: nat)
    requires IsCandidateTable(s, table) && i < |s|
    ensures i < j <= |s|
  {
    if table[i].Some? then
      assert IsCandidateAt(s, i, table[i].value);
      i + |table[i].value.text|
    else i + 1
  }

  /** The span at `i` covers exactly the text up to where scanning resumes. */
  lemma SpanAtSource(s: string, table: seq<Option<Candidate>>, i: nat)
    requires IsCandidateTable(s, table) && i < |s|
    ensures SpanSource(SpanAt(s, table, i)) == s[i..NextAt(s, table, i)]
  {
    if table[i].Some? {
      assert IsCandidateAt(s, i, table[i].value);
    } else {
      assert s[i..i + 1] == [s[i]];
    }
  }

  /** The spans of `s[i..]`: the span at `i`, then the spans from where
      scanning resumes. */
  function ScanFrom(s: string, table: seq<Option<Candidate>>, i: nat): (r: seq<Span>)
    requires IsCandidateTable(s, table) && i <= |s|
    ensures |r| <= |s| - i
    ensures r == [] <==> i == |s|
    decreases |s| - i
  {
    if i == |s| then [] else [SpanAt(s, table, i)] + ScanFrom(s, table, NextAt(s, table, i))
  }

  /** The spans `ScanFrom` gives, read in order, spell `s[i..]` again. */
  lemma {:induction false} ScanFromSource(s: string, table: seq<Option<Candidate>>, i: nat)
    requires IsCandidateTable(s, table) && i <= |s|
    ensures Source(ScanFrom(s, table, i)) == s[i..]
    decreases |s| - i
  {
    if i < |s| {
      var j := NextAt(s, table, i);
      ScanFromSource(s, table, j);
      SpanAtSource(s, table, i);
      SourceStep(s, i, j, SpanAt(s, table, i), ScanFrom(s, table, j));
    }
  }

  /** A span covering `s[i..j]` in front of spans covering `s[j..]` covers
      `s[i..]`. */
  lemma SourceStep(s: string, i: nat, j: nat, head: Span, rest: seq<Span>)
    requires i <= j <= |s| && SpanSource(head) == s[i..j] && Source(rest) == s[j..]
    ensures Source([head] + rest) == s[i..]
  {
    assert ([head] + rest)[1..] == rest;
    assert s[i..] == s[i..j] + s[j..];
  }

  /** Every span `ScanFrom` gives is one character or an admissible link. */
  lemma {:induction false} ScanFromWellFormed(s: string, table: seq<Option<Candidate>>, i: nat)
    requires IsCandidateTable(s, table) && IsAdmissibleTable(table) && i <= |s|
    ensures forall k | 0 <= k < |ScanFrom(s, table, i)| :: WellFormed(ScanFrom(s, table, i)[k])
    decreases |s| - i
  {
    if i < |s| {
      var r := ScanFrom(s, table, i);
      var j := NextAt(s, table, i);
      ScanFromWellFormed(s, table, j);
      assert r[1..] == ScanFrom(s, table, j);
      assert table[i].Some? ==> IsCandidateAt(s, i, table[i].value);
      assert WellFormed(r[0]);
      forall k | 1 <= k < |r|
        ensures WellFormed(r[k])
      {
        assert r[k] == r[1..][k - 1];
      }
    }
  }

  /** The spans of the whole text: literal characters and validated links, in
      order, covering the input exactly. */
  function Scan(s: string, idn: char -> bool): (r: seq<Span>)
    ensures Source(r) == s
    ensures forall k | 0 <= k < |r| :: WellFormed(r[k])
  {
    ScanFromSource(s, CandidateTable(s, idn), 0);
    ScanFromWellFormed(s, CandidateTable(s, idn), 0);
    assert s[0..] == s;
    ScanFrom(s, CandidateTable(s, idn), 0)
  }

  /** One step of `ScanFrom`: the span at `i` and where the rest starts. */
  lemma ScanFromStep(s: string, table: seq<Option<Candidate>>, i: nat)
    requires IsCandidateTable(s, table) && i < |s|
    ensures table[i].Some? ==>
      && i + |table[i].value.text| <= |s|
      && ScanFrom(s, table, i) == [Link(table[i].value)] + ScanFrom(s, table, i + |table[i].value.text|)
    ensures table[i].None? ==> ScanFrom(s, table, i) == [Literal([s[i]])] + ScanFrom(s, table, i + 1)
  {
    if table[i].Some? {
      assert IsCandidateAt(s, i, table[i].value);
    }
  }

  /** The scanning loop over a candidate table: one span per step, emitting
      the table's candidate where there is one and a literal character
      elsewhere; it ends with exactly the spans `ScanFrom` describes. */
  method ScanText(s: string, table: seq<Option<Candidate>>) returns (spans: seq<Span>)
    requires IsCandidateTable(s, table)
    ensures spans == ScanFrom(s, table, 0)
    ensures Source(spans) == s
  {
    spans := [];
    var i := 0;
    while i < |s|
      invariant i <= |s|
      invariant spans + ScanFrom(s, table, i) == ScanFrom(s, table, 0)
      decreases |s| - i
    {
      ScanFromStep(s, table, i);
      var span, next;
      if table[i].Some? {
        span, next := Link(table[i].value), i + |table[i].value.text|;
      } else {
        span, next := Literal([s[i]]), i + 1;
      }
      ghost var rest := ScanFrom(s, table, next);
      assert (spans + [span]) + rest == spans + ([span] + rest);
      spans, i := spans + [span], next;
    }
    assert spans + [] == spans;
    ScanFromSource(s, table, 0);
    assert s[0..] == s;
  }

  /** One literal span per character of `t`. */
  function Literals(t: string): (r: seq<Span>)
    ensures |r| == |t|
    ensures Source(r) == t
  {
    if t == [] then [] else
      var r := [Literal([t[0]])] + Literals(t[1..]);
      assert r[1..] == Literals(t[1..]);
      r
  }

  /** Regrouping a span put in front of two span sequences. */
  lemma ConsThenAppend(x: Span, whole: seq<Span>, after: seq<Span>, lits: seq<Span>, rest: seq<Span>, tail: seq<Span>)
    requires whole == [x] + after && after == rest + tail && lits == [x] + rest
    ensures whole == lits + tail
  {
  }

  /** The literals of a stretch: its first character, then the rest. */
  lemma LiteralsFirst(s: string, i: nat, j: nat)
    requires i < j <= |s|
    ensures Literals(s[i..j]) == [Literal([s[i]])] + Literals(s[i + 1..j])
  {
    assert s[i..j][0] == s[i] && s[i..j][1..] == s[i + 1..j];
  }

  /** A stretch with no candidate in it is passed through character by
      character. */
  lemma {:induction false} SkipLiterals(s: string, table: seq<Option<Candidate>>, i: nat, j: nat)
    requires IsCandidateTable(s, table) && i <= j <= |s|
    requires forall k | i <= k < j :: table[k].None?
    ensures ScanFrom(s, table, i) == Literals(s[i..j]) + ScanFrom(s, table, j)
    decreases j - i
  {
    if i < j {
      SkipLiterals(s, table, i + 1, j);
      ScanFromStep(s, table, i);
      LiteralsFirst(s, i, j);
      ConsThenAppend(Literal([s[i]]), ScanFrom(s, table, i), ScanFrom(s, table, i + 1),
        Literals(s[i..j]), Literals(s[i + 1..j]), ScanFrom(s, table, j));
    } else {
      assert s[i..j] == [];
    }
  }

  /** In a text without separators a link can only start at the beginning. */
  lemma OnlyFirstPositionCounts(s: string, idn: char -> bool)
    requires forall k | 0 <= k < |s| :: !IsSeparator(s[k])
    requires CandidateAt(s, 0, idn).None?
    ensures forall k | 0 <= k <= |s| :: CandidateAt(s, k, idn).None?
  {
    forall k | 0 < k <= |s|
      ensures CandidateAt(s, k, idn).None?
    {
      assert !AtBoundary(s, k);
    }
  }

  /** A `javascript` scheme, in any case, followed by `://` never yields a
      candidate, so the whole URL stays text. */
  lemma JavascriptNeverCandidate(s: string, i: nat, t: string, idn: char -> bool)
    requires i + |t| + 3 <= |s|
    requires s[i..i + |t|] == t && s[i + |t|..i + |t| + 3] == "://"
    requires IsDeniedScheme(t)
    ensures CandidateAt(s, i, idn) == None
  {
    JavascriptRuns(s, i, t, idn);
    assert s[i + |t|] == s[i + |t|..i + |t| + 3][0];
    assert EmailAt(s, i, idn) == None;
    assert WwwUrlAt(s, i, idn) == None;
    assert SchemeUrlAt(s, i, idn).Some? ==> SchemeUrlAt(s, i, idn).value.scheme == t;
  }

  /** The letters of a denied scheme are one run of scheme characters and one
      of mailbox characters, starting with a `j`. */
  lemma JavascriptRuns(s: string, i: nat, t: string, idn: char -> bool)
    requires i + |t| < |s|
    requires s[i..i + |t|] == t && s[i + |t|] == ':'
    requires IsDeniedScheme(t)
    ensures Run(s, i, SchemeChars, idn) == |t| && Run(s, i, MailboxChars, idn) == |t|
    ensures s[i] == 'j' || s[i] == 'J'
  {
    var u := s[i..i + |t|];
    forall k | 0 <= k < |u|
      ensures IsAsciiLetter(u[k])
    {
      assert t[k] == "javascript"[k] || t[k] == "JAVASCRIPT"[k];
    }
    assert AllIn(SchemeChars, idn, u) && AllIn(MailboxChars, idn, u);
    RunIs(s, i, SchemeChars, idn, |t|);
    RunIs(s, i, MailboxChars, idn, |t|);
    assert t[0] == 'j' || t[0] == 'J';
  }

  /** A text that is one scheme URL with an admissible scheme, whose path may
      end in sentence punctuation, is one candidate from start to end. */
  lemma SchemeUrlWhole(scheme: string, host: string, path: string, punct: string, idn: char -> bool)
    requires 0 < |scheme| && IsAsciiLetter(scheme[0]) && AllIn(SchemeChars, idn, scheme) && !IsDeniedScheme(scheme)
    requires 0 < |host| && IsLabelStart(idn, host[0]) && AllIn(HostChars, idn, host)
    requires path == [] || (IsPathStart(path[0]) && AllIn(UrlChars, idn, path))
    requires AllIn(UrlChars, idn, punct) && (punct != [] ==> path != [])
    ensures var s := scheme + "://" + host + path + punct;
      CandidateAt(s, 0, idn) == Some(Candidate(SchemeForm, scheme, s))
  {
    var s := scheme + "://" + host + path + punct;
    AllInAppend(UrlChars, idn, path, punct);
    if path == [] {
      assert path + punct == [];
    } else {
      assert (path + punct)[0] == path[0];
    }
    SchemeUrlOf([], scheme, host, path + punct, [], idn);
    assert [] + scheme + "://" + host + (path + punct) + [] == s;
    assert scheme + "://" + host + (path + punct) == s;
  }

  /** The text a candidate keeps once its trailing punctuation is cut off is,
      on its own, exactly one candidate of the same form and scheme: the
      markup of a link always points at something the linkifier would itself
      link. */
  lemma CandidateTrimmed(s: string, i: nat, idn: char -> bool)
    requires i <= |s| && CandidateAt(s, i, idn).Some?
    ensures var c := CandidateAt(s, i, idn).value;
      var b := TrimTrailing(c.text).body;
      CandidateAt(b, 0, idn) == Some(Candidate(c.form, c.scheme, b))
  {
    ShapeTrimmed(s, i, idn);
  }

  /** A text that is one `www.` URL, whose path may end in sentence
      punctuation, is one candidate from start to end. */
  lemma WwwUrlWhole(domain: string, path: string, punct: string, idn: char -> bool)
    requires 0 < |domain| && IsLabelStart(idn, domain[0]) && AllIn(DomainChars, idn, domain)
    requires path == [] || (IsPathStart(path[0]) && AllIn(UrlChars, idn, path))
    requires AllIn(UrlChars, idn, punct) && (punct != [] ==> path != [])
    ensures var s := "www." + domain + path + punct;
      CandidateAt(s, 0, idn) == Some(Candidate(WwwForm, [], s))
  {
    var s := "www." + domain + path + punct;
    AllInAppend(UrlChars, idn, path, punct);
    if path == [] {
      assert path + punct == [];
    } else {
      assert (path + punct)[0] == path[0];
    }
    WwwUrlOf([], domain, path + punct, [], idn);
    assert [] + "www." + domain + (path + punct) + [] == s;
    assert "www." + domain + (path + punct) == s;
    WwwNotSchemeUrl(domain, path + punct, idn);
  }

  /** A text that is one e-mail address with a mail domain, and does not
      start with `www.`, is one candidate from start to end. */
  lemma EmailWhole(local: string, domain: string, idn: char -> bool)
    requires 0 < |local| && AllIn(MailboxChars, idn, local)
    requires AllIn(DomainChars, idn, domain) && IsMailDomainRun(domain)
    requires !WwwAt(local + "@" + domain, 0)
    ensures var s := local + "@" + domain;
      CandidateAt(s, 0, idn) == Some(Candidate(MailForm, [], s))
  {
    var s := local + "@" + domain;
    forall k | 0 <= k <= |local|
      ensures s[k] != ':'
    {
      if k < |local| {
        assert s[k] == local[k] && InClass(MailboxChars, idn, local[k]);
      }
    }
    NoSchemeUrl(s, 0, |local|, idn);
    EmailOf([], local, domain, [], idn);
    assert [] + local + "@" + domain + [] == s;
  }
}
