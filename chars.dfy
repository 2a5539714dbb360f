/** Character classifier: pure tables that say which characters may appear in
    each part of a link.  Which non-ASCII code points are allowed in an
    internationalised domain label is not fixed here: every predicate that
    admits non-ASCII characters takes the membership test `idn` as a
    parameter, and only code points above U+007F ever consult it. */
module Chars {

  predicate IsAscii(c: char) {
    c <= '\U{7F}'
  }

  predicate IsAsciiLetter(c: char) {
    'a' <= c <= 'z' || 'A' <= c <= 'Z'
  }

  predicate IsDigit(c: char) {
    '0' <= c <= '9'
  }

  predicate IsAsciiAlnum(c: char) {
    IsAsciiLetter(c) || IsDigit(c)
  }

  /** A non-ASCII code point that the given IDN table allows in a domain label. */
  predicate IsIdnChar(idn: char -> bool, c: char) {
    !IsAscii(c) && idn(c)
  }

  /** Characters before which a link may start: a line break, a tab, a space,
      an opening parenthesis or the end of a preceding tag. */
  predicate IsSeparator(c: char) {
    c == '\n' || c == '\t' || c == ' ' || c == '(' || c == '>'
  }

  /** Punctuation that ends a sentence rather than a link. */
  predicate IsTrailingPunct(c: char) {
    c == '.' || c == ',' || c == '!' || c == '?'
  }

  /** Characters a domain label may start with: an ASCII letter or digit, or
      a character the IDN table admits. */
  predicate IsLabelStart(idn: char -> bool, c: char) {
    IsAsciiAlnum(c) || IsIdnChar(idn, c)
  }

  /** Characters that open the path, query or fragment of a link. */
  predicate IsPathStart(c: char) {
    c == '/' || c == '?' || c == '#'
  }

  datatype CharClass =
    | SchemeChars   // a scheme name: letters, digits, `+`, `-`, `.`
    | DomainChars   // a domain: letters, digits, `-`, `.` and IDN characters
    | HostChars     // an authority: a domain plus `@`, `:`, `_`, `~`
    | UrlChars      // path, query and fragment: the URI characters
    | MailboxChars  // the local part of an e-mail address

  /** The ASCII members of each class, each written as a range of code
      points minus the gaps in it (`ClassMembers` lists them one by one). */
  predicate InAsciiClass(cls: CharClass, c: char) {
    match cls
    case SchemeChars =>
      '+' <= c <= 'z' && c != ',' && c != '/' && !(':' <= c <= '@') && !('[' <= c <= '`')
    case DomainChars =>
      '-' <= c <= 'z' && c != '/' && !(':' <= c <= '@') && !('[' <= c <= '`')
    case HostChars =>
      '-' <= c <= '~' && c != '/' && !(';' <= c <= '?') && !('[' <= c <= '^') && c != '`' && !('{' <= c <= '}')
    case UrlChars =>
      '!' <= c <= '~' && c != '"' && c != '<' && c != '>' && c != '\\' && c != '^' && c != '`' && !('{' <= c <= '}')
    case MailboxChars =>
      '!' <= c <= '~' && c != '"' && c != '(' && c != ')' && c != ',' && !(':' <= c <= '<') && c != '>' && c != '@'
      && !('[' <= c <= ']')
  }

  /** Membership of `c` in a class; non-ASCII characters belong to every class
      but the scheme class exactly when the IDN table admits them. */
  predicate InClass(cls: CharClass, idn: char -> bool, c: char) {
    InAsciiClass(cls, c) || (cls != SchemeChars && IsIdnChar(idn, c))
  }

  /** Each class, character by character: ASCII letters and digits, the listed
      punctuation and, except in a scheme, the characters the IDN table
      admits. */
  lemma ClassMembers(cls: CharClass, idn: char -> bool, c: char)
    ensures cls == SchemeChars ==> (InClass(cls, idn, c) <==> IsAsciiAlnum(c) || c in "+-.")
    ensures cls == DomainChars ==> (InClass(cls, idn, c) <==> IsAsciiAlnum(c) || c in "-." || IsIdnChar(idn, c))
    ensures cls == HostChars ==> (InClass(cls, idn, c) <==> IsAsciiAlnum(c) || c in "-.@:_~" || IsIdnChar(idn, c))
    ensures cls == UrlChars ==> (InClass(cls, idn, c) <==> IsAsciiAlnum(c) || c in "-._~!$&'()*+,;=:@/?#%[]" || IsIdnChar(idn, c))
    ensures cls == MailboxChars ==> (InClass(cls, idn, c) <==> IsAsciiAlnum(c) || c in "!#$%&'*+-/=?^_`{|}~." || IsIdnChar(idn, c))
  {
  }

  /** A domain character may stand in an authority, and an authority character
      in a path. */
  lemma ClassesNest(idn: char -> bool, c: char)
    ensures InClass(DomainChars, idn, c) ==> InClass(HostChars, idn, c)
    ensures InClass(HostChars, idn, c) ==> InClass(UrlChars, idn, c)
  {
  }
}
