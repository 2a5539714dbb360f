/** Scheme validator: a scheme URL whose scheme names a script-execution
    scheme is demoted back to plain text.  The comparison ignores ASCII case
    and looks at the scheme token exactly as the lexer delimited it. */
module SchemePolicy {
  import opened Chars
  import opened Lexer

  function ToLower(c: char): (r: char)
    ensures IsAsciiLetter(c) ==> 'a' <= r <= 'z' && (r == c || r as int == c as int + 32)
    ensures !('A' <= c <= 'Z') ==> r == c
  {
    if 'A' <= c <= 'Z' then (c as int + 32) as char else c
  }

  function Lower(s: string): (r: string)
    ensures |r| == |s|
    ensures forall k | 0 <= k < |s| :: r[k] == ToLower(s[k])
  {
    seq(|s|, k requires 0 <= k < |s| => ToLower(s[k]))
  }

  /** The schemes that are never turned into links. */
  const DeniedSchemes: set<string> := {"javascript"}

  /** `t` spells `javascript` with each letter in either case. */
  predicate SpelledJavascript(t: string) {
    |t| == 10 && forall k | 0 <= k < 10 :: t[k] == "javascript"[k] || t[k] == "JAVASCRIPT"[k]
  }

  /** Lower-casing gives `javascript` exactly when each letter is the lower
      or the upper case letter of `javascript` at that place. */
  lemma LowerIsJavascript(t: string)
    ensures Lower(t) == "javascript" <==> SpelledJavascript(t)
  {
    if |t| == 10 {
      if Lower(t) == "javascript" {
        forall k | 0 <= k < 10
          ensures t[k] == "javascript"[k] || t[k] == "JAVASCRIPT"[k]
        {
          assert ToLower(t[k]) == "javascript"[k];
        }
      }
      if SpelledJavascript(t) {
        forall k | 0 <= k < 10
          ensures Lower(t)[k] == "javascript"[k]
        {
        }
        assert Lower(t) == "javascript";
      }
    }
  }

  /** A denied scheme is exactly `javascript` written in any mix of cases. */
  predicate IsDeniedScheme(scheme: string): (r: bool)
    ensures r <==> SpelledJavascript(scheme)
  {
    LowerIsJavascript(scheme);
    Lower(scheme) in DeniedSchemes
  }

  /** A candidate survives validation unless it is a scheme URL whose scheme
      spells `javascript`. */
  predicate Admissible(c: Candidate): (r: bool)
    ensures !r <==> c.form == SchemeForm && SpelledJavascript(c.scheme)
  {
    c.form != SchemeForm || !IsDeniedScheme(c.scheme)
  }

  /** Only the whole token counts: a fragment such as `pt`, left over when line
      breaks split `javascript`, is an ordinary scheme. */
  lemma DeniedSchemeSamples()
    ensures IsDeniedScheme("javascript") && IsDeniedScheme("JavaScript") && IsDeniedScheme("JAVASCRIPT")
    ensures !IsDeniedScheme("pt") && !IsDeniedScheme("java") && !IsDeniedScheme("http")
  {
    assert Lower("javascript") == "javascript";
    assert Lower("JavaScript") == "javascript";
    assert Lower("JAVASCRIPT") == "javascript";
  }
}
