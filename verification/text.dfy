/**
 * String helpers the shift engine relies on: upper-casing, substring search
 * and the diacritic-stripping normalisation applied to store names.
 *
 * Strings are sequences of Unicode scalar values. Upper-casing covers the
 * ASCII letters and U+00E0..U+00FE other than U+00F7, the characters whose
 * capital sits 0x20 lower; "\U{00FF}" (capital U+0178), "\U{00B5}" (capital
 * U+039C) and "\U{00DF}" (upper-cased to "SS") are left as they are. The
 * normalisation covers the Latin-1 precomposed letters and the combining
 * diacritical marks block.
 */
module Text {

  import opened Wrappers

  /** ASCII 'a'..'z'. */
  predicate IsAsciiLower(c: char) {
    'a' <= c <= 'z'
  }

  /**
   * The Latin-1 lower-case letters U+00E0..U+00FE, except the division sign
   * U+00F7. The other lower-case letters of the block, U+00B5, U+00DF and
   * U+00FF, have capitals outside it and are not covered.
   */
  predicate IsLatin1Lower(c: char) {
    '\U{00E0}' <= c <= '\U{00FE}' && c != '\U{00F7}'
  }

  predicate HasUpperForm(c: char) {
    IsAsciiLower(c) || IsLatin1Lower(c)
  }

  /** Upper-case form of one character; both blocks sit 0x20 above their capitals. */
  function UpperChar(c: char): (u: char)
    ensures !HasUpperForm(u)
    ensures HasUpperForm(c) ==> u as int == c as int - 0x20
    ensures !HasUpperForm(c) ==> u == c
  {
    if HasUpperForm(c) then (c as int - 0x20) as char else c
  }

  /** `toUpperCase` on the characters this model covers. */
  function Upper(s: string): (r: string)
    ensures |r| == |s|
    ensures forall i :: 0 <= i < |s| ==> r[i] == UpperChar(s[i])
  {
    seq(|s|, i requires 0 <= i < |s| => UpperChar(s[i]))
  }

  /** `sub` occurs in `s` starting at index `i`. */
  predicate OccursAt(s: string, sub: string, i: int) {
    0 <= i && i + |sub| <= |s| && s[i..i + |sub|] == sub
  }

  /** `String.prototype.includes`: `sub` occurs somewhere in `s` (the empty string occurs everywhere). */
  predicate Contains(s: string, sub: string) {
    exists i | 0 <= i <= |s| - |sub| :: OccursAt(s, sub, i)
  }

  /** A character of the Unicode block "Combining Diacritical Marks", U+0300..U+036F. */
  predicate IsCombiningMark(c: char) {
    '\U{0300}' <= c <= '\U{036F}'
  }

  /** Base letter of a Latin-1 upper-case letter whose canonical decomposition carries a mark. */
  function BaseLetter(c: char): (b: Option<char>)
  {
    if '\U{00C0}' <= c <= '\U{00C5}' then Some('A')
    else if c == '\U{00C7}' then Some('C')
    else if '\U{00C8}' <= c <= '\U{00CB}' then Some('E')
    else if '\U{00CC}' <= c <= '\U{00CF}' then Some('I')
    else if c == '\U{00D1}' then Some('N')
    else if '\U{00D2}' <= c <= '\U{00D6}' then Some('O')
    else if '\U{00D9}' <= c <= '\U{00DC}' then Some('U')
    else if c == '\U{00DD}' then Some('Y')
    else None
  }

  /**
   * Canonical decomposition followed by removal of the combining marks:
   * a decomposable letter becomes its base letter, a mark disappears.
   */
  function StripMarks(s: string): (r: string)
    ensures |r| <= |s|
    ensures forall i :: 0 <= i < |r| ==> !IsCombiningMark(r[i]) && BaseLetter(r[i]).None?
    ensures forall i :: 0 <= i < |r| ==> r[i] in s || 'A' <= r[i] <= 'Z'
  {
    if s == [] then []
    else if IsCombiningMark(s[0]) then StripMarks(s[1..])
    else
      match BaseLetter(s[0])
      case Some(b) => [b] + StripMarks(s[1..])
      case None => [s[0]] + StripMarks(s[1..])
  }

  /** The store-name key used for dispatch: upper-cased, then stripped of diacritics. */
  function NormalizeStoreName(name: string): (key: string)
    ensures |key| <= |name|
    ensures forall i :: 0 <= i < |key| ==>
      !IsAsciiLower(key[i]) && !IsCombiningMark(key[i]) && BaseLetter(key[i]).None?
  {
    StripMarks(Upper(name))
  }
}
