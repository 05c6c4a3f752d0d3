/**
 The text handled by the overlay: the case-insensitive test that makes a
 highlighter a person highlighter, the upper-cased label name, and the
 rounded confidence percentage. Case mapping covers the ASCII letters.
 */
module Text {

  predicate IsUpperAscii(c: char) { 'A' <= c <= 'Z' }

  predicate IsLowerAscii(c: char) { 'a' <= c <= 'z' }

  function LowerChar(c: char): (d: char)
    ensures !IsUpperAscii(d)
    ensures IsUpperAscii(c) ==> IsLowerAscii(d)
    ensures !IsUpperAscii(c) ==> d == c
  {
    if IsUpperAscii(c) then (c as int + 32) as char else c
  }

  function UpperChar(c: char): (d: char)
    ensures !IsLowerAscii(d)
    ensures IsLowerAscii(c) ==> IsUpperAscii(d)
    ensures !IsLowerAscii(c) ==> d == c
  {
    if IsLowerAscii(c) then (c as int - 32) as char else c
  }

  /** A letter and its upper-case form have the same lower-case form. */
  lemma LowerOfUpperChar(c: char)
    ensures LowerChar(UpperChar(c)) == LowerChar(c)
  {
  }

  /** String.prototype.toLowerCase on ASCII letters. */
  function ToLower(s: string): (r: string)
    ensures |r| == |s|
    ensures forall i :: 0 <= i < |s| ==> r[i] == LowerChar(s[i])
  {
    if s == [] then [] else [LowerChar(s[0])] + ToLower(s[1..])
  }

  /** String.prototype.toUpperCase on ASCII letters. */
  function ToUpper(s: string): (r: string)
    ensures |r| == |s|
    ensures forall i :: 0 <= i < |s| ==> r[i] == UpperChar(s[i])
  {
    if s == [] then [] else [UpperChar(s[0])] + ToUpper(s[1..])
  }

  /** Lower-casing an upper-cased name gives the lower-cased name. */
  lemma LowerOfUpper(s: string)
    ensures ToLower(ToUpper(s)) == ToLower(s)
  {
    var a, b := ToLower(ToUpper(s)), ToLower(s);
    forall i | 0 <= i < |s|
      ensures a[i] == b[i]
    {
      LowerOfUpperChar(s[i]);
    }
  }

  lemma LowerIdempotent(s: string)
    ensures ToLower(ToLower(s)) == ToLower(s)
  {
    var a, b := ToLower(ToLower(s)), ToLower(s);
    assert forall i :: 0 <= i < |s| ==> a[i] == b[i];
  }

  /** A name without upper-case letters is its own lower-case form. */
  lemma LowerOfLowerCase(s: string)
    requires forall i :: 0 <= i < |s| ==> !IsUpperAscii(s[i])
    ensures ToLower(s) == s
  {
    var t := ToLower(s);
    assert forall i :: 0 <= i < |s| ==> t[i] == s[i];
  }

  /** The category name makes a person highlighter. */
  predicate IsPerson(categoryName: string)
  {
    ToLower(categoryName) == "person"
  }

  /** Whether a name is a person does not depend on its case. */
  lemma PersonIgnoresCase(categoryName: string)
    ensures IsPerson(ToUpper(categoryName)) <==> IsPerson(categoryName)
    ensures IsPerson(ToLower(categoryName)) <==> IsPerson(categoryName)
  {
    LowerOfUpper(categoryName);
    LowerIdempotent(categoryName);
  }

  /**
   Math.round(score * 100): the nearest integer, halves rounded up. For a
   score in [0, 1] the percentage is in [0, 100].
   */
  function Percent(score: real): (p: int)
    ensures (p as real) - 0.5 <= score * 100.0 < (p as real) + 0.5
    ensures 0.0 <= score <= 1.0 ==> 0 <= p <= 100
  {
    (score * 100.0 + 0.5).Floor
  }
}
