/** Upper-casing of ticker symbols and trade types (`String.prototype.toUpperCase`). */
module Text {

  predicate IsLower(c: char) {
    'a' <= c <= 'z'
  }

  function UpperChar(c: char): char {
    if IsLower(c) then (c as int - 32) as char else c
  }

  /** No character of `s` is a lower-case letter. */
  predicate IsUpperCase(s: string) {
    forall i :: 0 <= i < |s| ==> !IsLower(s[i])
  }

  /** `s.toUpperCase()`, for the letters a to z. */
  function ToUpper(s: string): (r: string)
    ensures |r| == |s|
    ensures forall i :: 0 <= i < |s| ==> r[i] == UpperChar(s[i])
    ensures IsUpperCase(r)
    ensures IsUpperCase(s) ==> r == s
  {
    if s == [] then [] else [UpperChar(s[0])] + ToUpper(s[1..])
  }
}
