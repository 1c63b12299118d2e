/** The character-level notions of the Java platform that the parser relies on:
    the regex classes `\s`, `.`, `\d` and `\p{Lu}`, `String.trim()` and
    `String.equalsIgnoreCase`. */
module CharClasses {

  /** `\s` of `java.util.regex` without UNICODE_CHARACTER_CLASS: `[ \t\n\x0B\f\r]`. */
  function IsSpace(c: char): (r: bool)
    ensures r ==> c <= ' '
  {
    c == ' ' || c == '\t' || c == '\n' || c == '\U{0B}' || c == '\U{0C}' || c == '\r'
  }

  /** The line terminators that `.` does not match (UNIX_LINES and DOTALL off). */
  function IsLineTerminator(c: char): (r: bool)
    ensures r ==> (IsSpace(c) <==> c <= ' ')
  {
    c == '\n' || c == '\r' || c == '\U{85}' || c == '\U{2028}' || c == '\U{2029}'
  }

  /** `\d`: an ASCII digit. */
  predicate IsDigit(c: char) {
    '0' <= c <= '9'
  }

  /** `\p{Lu}`, narrowed to A–Z, the Latin-1 capitals and the Cyrillic
      capitals U+0400–U+042F; the other capitals of the Cyrillic block and
      of every other block are left out. */
  predicate IsUpper(c: char) {
    ('A' <= c <= 'Z') || ('\U{C0}' <= c <= '\U{DE}' && c != '\U{D7}') || ('\U{0400}' <= c <= '\U{042F}')
  }

  /** The first character class of the sector-name group: `(?:\p{Lu}|\d)`. */
  function IsUpperOrDigit(c: char): (r: bool)
    ensures r ==> !IsSpace(c) && !IsLineTerminator(c) && c > ' '
  {
    IsUpper(c) || IsDigit(c)
  }

  /** `String.trim()` drops leading characters up to U+0020 ... */
  function TrimLeading(s: string): (r: string)
    ensures |r| <= |s| && r == s[|s| - |r|..]
    ensures r == [] || r[0] > ' '
    ensures forall i :: 0 <= i < |s| - |r| ==> s[i] <= ' '
  {
    if s != [] && s[0] <= ' ' then TrimLeading(s[1..]) else s
  }

  /** ... and trailing characters up to U+0020. */
  function TrimTrailing(s: string): (r: string)
    ensures |r| <= |s| && r == s[..|r|]
    ensures r == [] || r[|r| - 1] > ' '
    ensures forall i :: |r| <= i < |s| ==> s[i] <= ' '
  {
    if s != [] && s[|s| - 1] <= ' ' then TrimTrailing(s[..|s| - 1]) else s
  }

  /** `String.trim()`: what is left starts and ends above U+0020. */
  function Trim(s: string): (r: string)
    ensures |r| <= |s|
    ensures r == [] || (r[0] > ' ' && r[|r| - 1] > ' ')
  {
    TrimTrailing(TrimLeading(s))
  }

  /** Every character is a control character or a space. */
  predicate IsBlank(s: string) {
    forall i :: 0 <= i < |s| ==> s[i] <= ' '
  }

  /** `s.trim().isEmpty()` holds exactly for blank strings. */
  lemma TrimEmptyIffBlank(s: string)
    ensures Trim(s) == [] <==> IsBlank(s)
  {
    var l := TrimLeading(s);
    if l != [] {
      // the first kept character is above U+0020, so trimming the tail keeps it
      assert l[0] > ' ' && s[|s| - |l|] == l[0];
    }
  }

  /** `Character.toUpperCase`, for Basic Latin and Cyrillic letters. */
  function ToUpper(c: char): (r: char)
    ensures ToLower(r) == ToLower(c)
    ensures !('a' <= r <= 'z') && !('\U{0430}' <= r <= '\U{045F}')
    ensures !IsUpper(c) && !('a' <= c <= 'z') && !('\U{0430}' <= c <= '\U{045F}') ==> r == c
  {
    if 'a' <= c <= 'z' then (c as int - 32) as char
    else if '\U{0430}' <= c <= '\U{044F}' then (c as int - 32) as char
    else if '\U{0450}' <= c <= '\U{045F}' then (c as int - 80) as char
    else c
  }

  /** `Character.toLowerCase`, for Basic Latin and Cyrillic letters. */
  function ToLower(c: char): (r: char)
    ensures !('A' <= r <= 'Z') && !('\U{0400}' <= r <= '\U{042F}')
    ensures !IsUpper(c) ==> r == c
  {
    if 'A' <= c <= 'Z' then (c as int + 32) as char
    else if '\U{0410}' <= c <= '\U{042F}' then (c as int + 32) as char
    else if '\U{0400}' <= c <= '\U{040F}' then (c as int + 80) as char
    else c
  }

  /** The per-character test of `String.regionMatches(true, ...)`. */
  function CharEqualsIgnoreCase(x: char, y: char): (r: bool)
    ensures r <==> ToLower(ToUpper(x)) == ToLower(ToUpper(y))
  {
    x == y || ToUpper(x) == ToUpper(y) || ToLower(ToUpper(x)) == ToLower(ToUpper(y))
  }

  /** `String.equalsIgnoreCase`: same length, and pairwise equal up to case. */
  function EqualsIgnoreCase(a: string, b: string): (r: bool)
    ensures r ==> |a| == |b|
    ensures a == b ==> r
  {
    |a| == |b| && forall i :: 0 <= i < |a| ==> CharEqualsIgnoreCase(a[i], b[i])
  }
}
