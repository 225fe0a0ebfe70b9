/** The string helpers of the .NET base library that the core relies on. */
module Text {
  import opened Common

  /** Lower-casing of one character: ASCII A-Z and the Latin-1 capitals
      U+00C0..U+00DE (except the multiplication sign U+00D7) move up by 32. */
  function LowerChar(c: char): (r: char)
    ensures !IsUpper(r)
    ensures !IsUpper(c) ==> r == c
  {
    if IsUpper(c) then (c as int + 32) as char else c
  }

  predicate IsUpper(c: char) {
    'A' <= c <= 'Z' || ('\U{C0}' <= c <= '\U{DE}' && c != '\U{D7}')
  }

  /** `string.ToLower()`, character by character. */
  function ToLower(s: string): (r: string)
    ensures |r| == |s|
    ensures forall i :: 0 <= i < |s| ==> r[i] == LowerChar(s[i])
    ensures forall i :: 0 <= i < |r| ==> !IsUpper(r[i])
    ensures forall i :: 0 <= i < |s| && !IsUpper(s[i]) ==> r[i] == s[i]
    ensures forall i :: 0 <= i < |r| ==> LowerChar(r[i]) == r[i]
  {
    seq(|s|, i requires 0 <= i < |s| => LowerChar(s[i]))
  }

  /** Lower-casing a character twice is the same as once. */
  lemma LowerCharIdempotent(c: char)
    ensures LowerChar(LowerChar(c)) == LowerChar(c)
  {
  }

  /** Lower-casing a string twice is the same as once. */
  lemma ToLowerIdempotent(s: string)
    ensures ToLower(ToLower(s)) == ToLower(s)
  {
    forall i | 0 <= i < |s| {
      LowerCharIdempotent(s[i]);
    }
  }

  /** The characters `char.IsWhiteSpace` accepts. */
  predicate IsWhiteSpace(c: char) {
    || '\U{9}' <= c <= '\U{D}'        // tab, line feed, vertical tab, form feed, carriage return
    || c == ' ' || c == '\U{85}' || c == '\U{A0}'
    || c == '\U{1680}'
    || '\U{2000}' <= c <= '\U{200A}'  // the typographic spaces
    || c == '\U{2028}' || c == '\U{2029}' || c == '\U{202F}' || c == '\U{205F}' || c == '\U{3000}'
  }

  /** `string.IsNullOrEmpty`. */
  predicate IsNullOrEmpty(s: Option<string>) {
    s.None? || s.value == ""
  }

  /** `string.IsNullOrWhiteSpace`: null, or every character is white space. */
  predicate IsNullOrWhiteSpace(s: Option<string>) {
    s.None? || forall i :: 0 <= i < |s.value| ==> IsWhiteSpace(s.value[i])
  }

  /** A string that is not null-or-white-space is not null-or-empty either. */
  lemma NotWhiteSpaceIsNotEmpty(s: Option<string>)
    requires !IsNullOrWhiteSpace(s)
    ensures !IsNullOrEmpty(s)
  {
  }
}
