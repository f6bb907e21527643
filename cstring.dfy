/** Strings as C sees them: a string ends at its first NUL character. */
module CString {

  /** The text a C function such as strdup sees in s: everything before the first NUL. */
  function Text(s: string): (t: string)
    ensures |t| <= |s|
  {
    if s == [] || s[0] == '\0' then [] else [s[0]] + Text(s[1..])
  }

  /** The text holds no NUL, and the character after it, if any, is the first NUL of s. */
  lemma {:induction false} TextEndsAtNul(s: string)
    ensures '\0' !in Text(s)
    ensures |Text(s)| < |s| ==> s[|Text(s)|] == '\0'
  {
    if s != [] && s[0] != '\0' {
      TextEndsAtNul(s[1..]);
    }
  }

  /** A string without NUL is its own text. */
  lemma {:induction false} TextOfNulFree(s: string)
    requires '\0' !in s
    ensures Text(s) == s
  {
    if s != [] {
      TextOfNulFree(s[1..]);
    }
  }

  /** Copying a C string again changes nothing. */
  lemma TextIdempotent(s: string)
    ensures Text(Text(s)) == Text(s)
  {
    TextEndsAtNul(s);
    TextOfNulFree(Text(s));
  }
}
