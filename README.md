# make_clickable, modelled in Dafny

phpBB's `make_clickable(text, server_url, class)` turns the URLs and e-mail
addresses in a post into HTML anchors. Each anchor is wrapped in a pair of
comment sentinels that name its kind:

- `<!-- m -->` is a full URL such as `http://…`;
- `<!-- l -->` is a URL under the board's own address;
- `<!-- w -->` is a `www.` URL without a scheme;
- `<!-- e -->` is an e-mail address.

This project models that behaviour as it is pinned down by
`tests/functions/make_clickable_test.php`. The model is a chain of small
string functions:

- **Chars** holds the character classes of schemes, domains, authorities, paths
  and mailboxes, over an abstract IDN predicate `idn: char -> bool`.
- **Lexer** finds the three candidate shapes at a position:
  - `scheme://authority[path]`;
  - `www.domain[path]`;
  - `local@domain`.

  The authority of a scheme URL and the domain of a `www.` URL must start
  with an ASCII letter or digit or an IDN character. The domain of an address
  must be ASCII, start with a letter or digit, and hold a dot before any
  trailing punctuation. So a link with its trailing punctuation trimmed off
  is still a link of the same kind.
- **SchemePolicy** drops `javascript` in any letter case.
- **Scanner** scans left to right. A link may start only at the start of the
  text or after a separator (`\n`, tab, space, `(`, `>`). It has a table-driven
  scanning loop, `ScanText`, and the function that specifies it, `ScanFrom`.
- **Trimmer** cuts trailing `.` `,` `!` `?` off a link. They are emitted after
  the closing sentinel.
- **Truncator** shortens a shown text over 55 characters to its first 39
  characters, ` ... `, and its last 10 characters.
- **LocalResolver** resolves a URL under the board address to a local link
  shown relative to that address.
- **Renderer** builds the sentinel-wrapped anchor and applies the class:
  - `postlink` by default, or the caller's class;
  - `<class>-local` on local links;
  - no class on e-mail links.
- **Linkify** composes the above into `MakeClickable`.
- **Vectors** states every data-provider row of the test file as a lemma about
  `MakeClickable`.

In the test file the non-ASCII characters have been flattened to `?`: one `?`
per UTF-8 byte. The vectors read them back as follows:

- `t??st` is `täst`;
- `??????????.????` is `домен.рф`;
- the path words are `сообщество`, `путь`, `до`, `длинной` and `ссылки`;
- the mailbox of the unsupported e-mail is `почта`;
- `???` at line 130 is one three-byte character that no IDN label admits
  (written as `╫`).

The character counts agree with the 39-character head expected at line 125.

To keep the verifier fast, the vectors spell their strings as concatenations
of pieces, e.g. `"http" + "://" + "www.phpbb.com" + "/community/"`. A piece
split this way is still the same string as the literal in the test.

## Model

| member | source | states |
|---|---|---|
| Vectors.CommunityUrl | tests/functions/make_clickable_test.php:31-34 | an `http` URL becomes an `m` link with class `postlink`; its target and shown text are the input |
| Vectors.FragmentUrl | tests/functions/make_clickable_test.php:35-38 | a URL with a path and a `#` fragment is one whole `m` link |
| Vectors.FtpUrl | tests/functions/make_clickable_test.php:39-42 | an `ftp` URL is an `m` link |
| Vectors.SipUrl | tests/functions/make_clickable_test.php:43-46 | `sip://bantu@phpbb.com` is an `m` link, not an e-mail link |
| Vectors.LazyUrl | tests/functions/make_clickable_test.php:47-50 | a `www.` URL becomes a `w` link; its target is `http://` plus the text, and its shown text is the text |
| Vectors.LocalUrl | tests/functions/make_clickable_test.php:51-54 | a URL under the default board `http://testhost` is an `l` link with class `postlink-local`, shown as `viewtopic.php?t=1` |
| Vectors.JavascriptUrl | tests/functions/make_clickable_test.php:55-58 | a `javascript://` URL comes out unchanged |
| Vectors.NewlineSplitJavascript | tests/functions/make_clickable_test.php:59-62 | with `javascript` broken by newlines, only `pt://…` after the last break is linked, and the text before it passes through |
| Vectors.EmailAddress | tests/functions/make_clickable_test.php:63-66 | an address becomes an `e` link to `mailto:` with no class attribute |
| Vectors.LocalUrlExclamation | tests/functions/make_clickable_test.php:67-71 | a trailing `!` is left out of the local link and follows its closing sentinel |
| Vectors.LazyUrlQuestion | tests/functions/make_clickable_test.php:72-75 | a trailing `?` is left out of the `w` link and follows it |
| Vectors.LongUrl | tests/functions/make_clickable_test.php:76-81 | a 64-character URL is shown as its first 39 characters, ` ... ` and its last 10 characters; the target keeps the whole URL |
| Vectors.IdnCommunityUrl | tests/functions/make_clickable_test.php:88-91 | a URL with an IDN host is an `m` link |
| Vectors.IdnFragmentUrl | tests/functions/make_clickable_test.php:92-95 | an IDN URL with a fragment is an `m` link |
| Vectors.IdnFtpUrl | tests/functions/make_clickable_test.php:96-99 | an IDN `ftp` URL is an `m` link |
| Vectors.IdnJavascriptUrl | tests/functions/make_clickable_test.php:100-103 | `javascript://` with an IDN host comes out unchanged, whatever the IDN table |
| Vectors.IdnSipUrl | tests/functions/make_clickable_test.php:104-107 | an IDN `sip://user@host` is an `m` link |
| Vectors.IdnLazyUrl | tests/functions/make_clickable_test.php:108-111 | an IDN `www.` URL is a `w` link |
| Vectors.IdnUrlExclamation | tests/functions/make_clickable_test.php:112-116 | a trailing `!` after an IDN URL follows the `m` link |
| Vectors.IdnLazyUrlQuestion | tests/functions/make_clickable_test.php:117-120 | a trailing `?` after an IDN `www.` URL with an IDN path follows the `w` link |
| Vectors.IdnLongUrl | tests/functions/make_clickable_test.php:121-126 | shortening counts characters, not bytes: 39 characters, ` ... ` and the last 10 |
| Vectors.IdnInvalidChar | tests/functions/make_clickable_test.php:128-132 | the host stops at the first character no IDN label admits, and the rest follows the link as text |
| Vectors.IdnEmailUnsupported | tests/functions/make_clickable_test.php:133-134 | an address whose domain holds IDN characters comes out unchanged |
| Vectors.IdnLocalUrl | tests/functions/make_clickable_test.php:141-144 | under an IDN board address a URL is an `l` link shown relative to it |
| Vectors.IdnLocalUrlExclamation | tests/functions/make_clickable_test.php:145-149 | a trailing `!` follows the local link |
| Vectors.IdnLocalUrlQuestion | tests/functions/make_clickable_test.php:150-153 | a trailing `?` follows the local link, shown as `сообщество/` |
| Vectors.ClassLocalUrl | tests/functions/make_clickable_test.php:160-165 | a caller's class `class1` becomes `class1-local` on a local link |
| Vectors.ClassUrlExclamation | tests/functions/make_clickable_test.php:166-171 | with no board address the default board applies, so the IDN URL is an `m` link with class `class2` |
| Vectors.ClassUrlQuestion | tests/functions/make_clickable_test.php:172-177 | class `class3` on an `m` link, followed by the trimmed `?` |
| Vectors.ClassLazyUrl | tests/functions/make_clickable_test.php:178-183 | class `class2` on a `w` link |
| Vectors.ClassLocalTesthost | tests/functions/make_clickable_test.php:184-189 | with no board address a URL under `http://testhost` is local, with class `class1-local` |
| Vectors.ClassEmail | tests/functions/make_clickable_test.php:190-195 | an e-mail link carries no class even when one is given |
| Vectors.WwwDotsUnlinked | tests/functions/make_clickable_test.php:72-75 | `www..` stays text: trimming never leaves `www.` without a domain |
| Vectors.MailDotUnlinked | tests/functions/make_clickable_test.php:63-66 | `a@.` stays text: a domain that is only punctuation makes no address |
| Vectors.SchemeDotsUnlinked | tests/functions/make_clickable_test.php:67-71 | `http://...` stays text: an authority that is only punctuation makes no URL |
| Scanner.ScanText | tests/functions/make_clickable_test.php:59-62 | the scanning loop returns exactly the spans `ScanFrom` specifies, and they spell the input again |
| Scanner.ScanFrom | tests/functions/make_clickable_test.php:59-62 | scanning from a position yields at most one span per remaining character, and no span only at the end of the text |
| Scanner.ScanFromSource | tests/functions/make_clickable_test.php:59-62 | the spans read in order give back the scanned text, so nothing is lost or duplicated |
| Scanner.ScanFromWellFormed | tests/functions/make_clickable_test.php:55-62 | every span is one literal character or a non-empty link that passed the scheme validator |
| Scanner.Scan | tests/functions/make_clickable_test.php:59-62 | the spans of the whole text spell it again and are well formed |
| Scanner.CandidateAt | tests/functions/make_clickable_test.php:59-62 | a candidate starts at the text start or after a separator, is admissible, and is a non-empty slice of the text at that position |
| Scanner.OnlyFirstPositionCounts | tests/functions/make_clickable_test.php:55-62 | in a text without separators only position 0 can start a link |
| Scanner.JavascriptNeverCandidate | tests/functions/make_clickable_test.php:55-58 | `javascript` in any case followed by `://` never yields a candidate |
| Scanner.SkipLiterals | tests/functions/make_clickable_test.php:59-62 | a stretch with no candidate becomes one literal span per character |
| Scanner.CandidateTrimmed | tests/functions/make_clickable_test.php:67-75 | the body left by trimming a candidate is again a candidate of the same form and scheme, spanning that body |
| Scanner.SchemeUrlWhole | tests/functions/make_clickable_test.php:31-46 | a text that is one admissible scheme URL, with optional punctuation after its path, is one candidate from start to end |
| Scanner.WwwUrlWhole | tests/functions/make_clickable_test.php:47-50 | a text that is one `www.` URL is one lazy candidate |
| Lexer.WwwNotSchemeUrl | tests/functions/make_clickable_test.php:47-50 | `www.domain` followed by a path or nothing is not read as a scheme URL |
| Scanner.EmailWhole | tests/functions/make_clickable_test.php:63-66 | a text that is one address is one e-mail candidate |
| Lexer.RunSpan | tests/functions/make_clickable_test.php:128-132 | a character run is all in its class and stops at the first character outside it |
| Lexer.RunIs | tests/functions/make_clickable_test.php:128-132 | a stretch all in a class and ending at a non-member is the run |
| Lexer.RunStops | tests/functions/make_clickable_test.php:128-132 | a run ends no later than the first character outside its class |
| Lexer.UrlTail | tests/functions/make_clickable_test.php:31-50 | a domain or authority run with its path holds only URL characters |
| Lexer.PathLength | tests/functions/make_clickable_test.php:31-38 | a path is present exactly when `/`, `?` or `#` follows the authority |
| Lexer.SchemeUrlAt | tests/functions/make_clickable_test.php:31-46 | a scheme URL is a slice of the text with its scheme as the leading slice |
| Lexer.SchemeUrlShape | tests/functions/make_clickable_test.php:59-62 | a scheme URL's scheme starts with a letter, is all scheme characters, and is followed by `://` |
| Lexer.SchemeUrlOf | tests/functions/make_clickable_test.php:128-132 | a scheme, `://`, an authority that starts with a letter, digit or IDN character, and a path, set in text that stops the runs, are read back as that URL |
| Lexer.WwwUrlAt | tests/functions/make_clickable_test.php:47-50 | a lazy URL starts with `www.` and is a slice of the text |
| Lexer.WwwUrlOf | tests/functions/make_clickable_test.php:108-111 | `www.`, a domain that starts with a letter, digit or IDN character, and a path, set in text that stops the runs, are read back as that URL |
| Lexer.EmailAt | tests/functions/make_clickable_test.php:63-66 | an address is a non-empty mailbox run, `@` and an ASCII domain run that holds a dot |
| Lexer.EmailShape | tests/functions/make_clickable_test.php:63-66 | an address takes the whole domain run after its `@` |
| Lexer.EmailOf | tests/functions/make_clickable_test.php:133-134 | `local@domain` set in text that stops the runs is an address exactly when the domain is ASCII, starts with a letter or digit, and holds a dot before any trailing punctuation |
| Lexer.NoSchemeUrl | tests/functions/make_clickable_test.php:133-134 | no scheme URL starts where a non-scheme character comes before any `:` |
| Lexer.NoColonNoSchemeUrl | tests/functions/make_clickable_test.php:47-50 | no scheme URL starts where no `:` follows |
| Lexer.NoEmail | tests/functions/make_clickable_test.php:59-62 | no address starts where a non-mailbox character comes before any `@` |
| Lexer.ShapeTrimmed | tests/functions/make_clickable_test.php:67-75 | trimming the punctuation off a found shape leaves a text that is itself that shape, with the same form and scheme, read from its start |
| Lexer.TrimmedSchemeUrl | tests/functions/make_clickable_test.php:67-71 | a scheme URL with its trailing punctuation cut off is still a scheme URL, with the same scheme, read whole |
| Lexer.TrimmedWwwUrl | tests/functions/make_clickable_test.php:72-75 | a `www.` URL with its trailing punctuation cut off is still a `www.` URL read whole, and not a scheme URL |
| Lexer.TrimmedEmail | tests/functions/make_clickable_test.php:63-66 | an address with its trailing punctuation cut off is still an address read whole, and neither kind of URL |
| Lexer.MailDomainRunTrimmed | tests/functions/make_clickable_test.php:63-66 | a domain run makes an address exactly when it starts with a letter or digit and, without its trailing punctuation, is an ASCII domain holding a dot |
| Lexer.DottedBodyTrimmed | tests/functions/make_clickable_test.php:63-66 | a domain run has a dot before its trailing punctuation exactly when its trimmed body holds a dot |
| Lexer.ShapeAt | tests/functions/make_clickable_test.php:43-46 | a shape found at a position is a non-empty slice of the text starting there |
| Chars.ClassMembers | tests/functions/make_clickable_test.php:128-132 | the members of each character class: ASCII letters, digits and listed punctuation, plus IDN characters outside schemes |
| Chars.ClassesNest | tests/functions/make_clickable_test.php:31-50 | a domain character is an authority character, and an authority character is a URL character |
| SchemePolicy.IsDeniedScheme | tests/functions/make_clickable_test.php:55-58 | a scheme is denied exactly when it is ten characters, each the lower- or upper-case letter of `javascript` at that place |
| SchemePolicy.LowerIsJavascript | tests/functions/make_clickable_test.php:100-103 | lower-casing a scheme gives `javascript` exactly when each of its ten characters is that letter of `javascript` in either case |
| SchemePolicy.Admissible | tests/functions/make_clickable_test.php:55-62 | a candidate is refused exactly when it is a scheme URL whose scheme spells `javascript` in any case; `www.` URLs and addresses always pass |
| SchemePolicy.DeniedSchemeSamples | tests/functions/make_clickable_test.php:55-62 | `javascript` is denied in any case; `pt`, `java` and `http` are not |
| Trimmer.TrimTrailing | tests/functions/make_clickable_test.php:67-75 | body and tail spell the link, the tail is all trailing punctuation, and the body does not end in it |
| Trimmer.TrailingStart | tests/functions/make_clickable_test.php:67-75 | the trailing run starts at a place after which every character is `.` `,` `!` or `?` and before which the character is not one of them |
| Trimmer.TrimDropsLast | tests/functions/make_clickable_test.php:67-75 | dropping a final punctuation character before trimming changes nothing in the trimmed body |
| Trimmer.TrimUnique | tests/functions/make_clickable_test.php:67-75 | the split is the only one with those properties |
| Trimmer.TrimIdempotent | tests/functions/make_clickable_test.php:67-75 | trimming a trimmed link removes nothing |
| Trimmer.TrimKeepsPrefix | tests/functions/make_clickable_test.php:145-153 | text before a non-punctuation character is never trimmed |
| Truncator.Shorten | tests/functions/make_clickable_test.php:76-81 | text of at most 55 characters is kept; longer text is its first 39 characters, ` ... ` and its last 10 characters |
| Truncator.ShortenBounds | tests/functions/make_clickable_test.php:76-81 | shown text is at most 55 characters, never longer than the input, and shortening twice changes nothing more |
| Truncator.ShortenKeepsEnds | tests/functions/make_clickable_test.php:121-126 | a shortened text starts with the input's head and ends with its tail |
| Truncator.ShortenKeepsLast | tests/functions/make_clickable_test.php:67-81 | the shown text is empty exactly when the input is, and otherwise ends in the input's last character |
| Truncator.ShortenOf | tests/functions/make_clickable_test.php:121-126 | a text seen as a 39-character head, a middle and a 10-character tail is shown as head, ` ... `, tail |
| LocalResolver.RelativePart | tests/functions/make_clickable_test.php:141-153 | a URL is local exactly when it starts with the board address and `/`, and it is that prefix plus the relative part |
| LocalResolver.ResolveCommutesWithTrim | tests/functions/make_clickable_test.php:145-153 | resolving before or after trimming agrees, and the trimmed URL's relative part is the trimmed relative part |
| LocalResolver.RelativeOf | tests/functions/make_clickable_test.php:51-54 | board address, `/` and a rest resolve to that rest |
| LocalResolver.NotUnder | tests/functions/make_clickable_test.php:166-177 | a URL that differs from the board address and its `/` is not local |
| Renderer.SentinelsWrap | tests/functions/make_clickable_test.php:16-26 | the markup of a link opens and closes with its kind's sentinel |
| Renderer.OpenTag | tests/functions/make_clickable_test.php:16-26 | the opening part of the markup starts with the sentinel of the link's kind |
| Renderer.CloseTag | tests/functions/make_clickable_test.php:16-26 | the closing part of the markup is `</a>` followed by the sentinel of the link's kind |
| Renderer.SentinelsDistinct | tests/functions/make_clickable_test.php:16-26 | the four kinds have four different sentinels |
| Renderer.EmailMarkupIgnoresClass | tests/functions/make_clickable_test.php:190-195 | an e-mail anchor is the same under any class and carries no class attribute |
| Linkify.Classify | tests/functions/make_clickable_test.php:47-54 | e-mail links target `mailto:`; `w` links target `http://` plus the text; scheme URLs are local exactly under the board, shown relative to it, else full, shown whole |
| Linkify.NoCandidatesNoChange | tests/functions/make_clickable_test.php:133-134 | a text where no candidate starts comes out unchanged |
| Linkify.PlainTextUnchanged | tests/functions/make_clickable_test.php:55-58 | a text with no `:`, no `@` and no `www.` comes out unchanged |
| Linkify.JavascriptUrlUnchanged | tests/functions/make_clickable_test.php:55-58 | `javascript://…` in any case, with no separator after it, comes out unchanged |
| Linkify.AnchorEndsClean | tests/functions/make_clickable_test.php:67-75 | an anchor built from a text not ending in punctuation has a target and shown text not ending in it |
| Linkify.TrailingPunctuationFollowsMarkup | tests/functions/make_clickable_test.php:67-75 | a link renders as its anchor followed by the trimmed punctuation, and neither target nor shown text ends in punctuation |
| Linkify.DisplayTextBounded | tests/functions/make_clickable_test.php:76-81 | the shown text of every URL link is at most 55 characters |
| Linkify.RenderSpansAppend | tests/functions/make_clickable_test.php:59-62 | rendering distributes over concatenation of spans |
| Linkify.RenderLiterals | tests/functions/make_clickable_test.php:59-62 | literal spans render as the characters they hold |
| Linkify.SkipText | tests/functions/make_clickable_test.php:59-62 | a stretch with no candidate is copied to the output |
| Linkify.TakeLink | tests/functions/make_clickable_test.php:128-132 | where a candidate starts, its rendering is output and scanning resumes after it |
| Linkify.WholeTextIsLink | tests/functions/make_clickable_test.php:31-54 | a text that is exactly one link renders as that link |
| Linkify.TextThenLink | tests/functions/make_clickable_test.php:59-62 | link-free text followed by a link renders as that text, then the link |
| Linkify.LinkThenText | tests/functions/make_clickable_test.php:128-132 | a link followed by link-free text renders as the link, then that text |
| Linkify.RenderTrimmed | tests/functions/make_clickable_test.php:67-75 | a link that is a body plus punctuation renders as the body's anchor, then the punctuation |
| Linkify.SchemeUrlRendered | tests/functions/make_clickable_test.php:31-46 | a text that is one scheme URL, plus optional punctuation, renders as its anchor, then the punctuation |
| Linkify.WwwUrlRendered | tests/functions/make_clickable_test.php:47-50 | a text that is one `www.` URL renders as a `w` anchor targeting `http://` plus the URL, then the punctuation |
| Linkify.EmailRendered | tests/functions/make_clickable_test.php:63-66 | a text that is one address renders as an `e` anchor to `mailto:` plus the address |

## Left out

- The implementation of `make_clickable` is not part of this model; only its
  test file is. Where the tests leave a choice open, the model picks the
  simplest rule the tests agree with. Examples are the character classes, the
  separator set, and trimming the whole trailing run of `.` `,` `!` `?`.
- HTML entity handling is not modelled: escaped `&amp;`, `&lt;` and `&gt;` in
  the input, and quoting in the output. No test exercises it.
- Balanced-bracket trimming and session-id stripping are not modelled. No test
  exercises them.
- The set of characters allowed in IDN labels is a parameter (`idn`). The
  vectors use a sample set: Latin-1 and Latin Extended letters, and Cyrillic.
- The user, request and symfony-request mocks set up at
  tests/functions/make_clickable_test.php:199-207 are not modelled. The board
  address is an explicit optional parameter. When absent, or `false` as at
  lines 168 and 186, it defaults to `http://testhost`, the address those mocks
  give.
- Truncation applies to `m`, `l` and `w` links only; e-mail links are shown in
  full. No test has a long address.
- The rules that an authority or domain starts with a letter, digit or IDN
  character, and that a mail domain holds a dot before its trailing
  punctuation, are the model's choice. No test exercises a link made only of
  punctuation, such as `www..`, `a@.` or `http://...`; the model keeps those
  as text.
- The model does not use a regular-expression engine. The candidate shapes are
  written as runs of character classes, and only the behaviour the tests show
  is claimed.
