/**
 * ASCII-only models of Python's `str.upper()` and `str.title()`, which the
 * analyzer applies to the size and color fields so that keys differing only
 * in letter case fall into the same group.
 */
module Casing {

  predicate IsLower(c: char) { 'a' <= c <= 'z' }

  predicate IsUpper(c: char) { 'A' <= c <= 'Z' }

  /** A cased character; in ASCII these are exactly the letters. */
  predicate IsCased(c: char) { IsLower(c) || IsUpper(c) }

  function UpperChar(c: char): char
  {
    if IsLower(c) then (c as int - 32) as char else c
  }

  function LowerChar(c: char): char
  {
    if IsUpper(c) then (c as int + 32) as char else c
  }

  /** `s.upper()`: every lower-case letter becomes upper case. */
  function Upper(s: string): string
  {
    seq(|s|, i requires 0 <= i < |s| => UpperChar(s[i]))
  }

  /** `upper()` keeps the length and leaves no lower-case letter. */
  lemma UpperShape(s: string)
    ensures |Upper(s)| == |s|
    ensures forall i :: 0 <= i < |s| ==> !IsLower(Upper(s)[i])
  {
  }

  /**
   * `s.title()`: a letter that follows another letter is lower-cased, any
   * other letter (the first of a word) is upper-cased.
   */
  function Title(s: string): string
  {
    seq(|s|, i requires 0 <= i < |s| =>
      if i > 0 && IsCased(s[i - 1]) then LowerChar(s[i]) else UpperChar(s[i]))
  }

  /**
   * `title()` keeps the length; a letter is upper case exactly when it
   * starts the string or follows a character that is not a letter.
   */
  lemma TitleShape(s: string)
    ensures |Title(s)| == |s|
    ensures forall i :: 0 <= i < |s| && IsCased(Title(s)[i]) ==>
              (IsUpper(Title(s)[i]) <==> i == 0 || !IsCased(s[i - 1]))
  {
  }

  /** The same character up to the case of a letter. */
  predicate SameIgnoringCase(c: char, d: char)
  {
    || c == d
    || (IsUpper(c) && d as int == c as int + 32)
    || (IsUpper(d) && c as int == d as int + 32)
  }

  predicate EqualIgnoringCase(a: string, b: string)
  {
    |a| == |b| && forall i :: 0 <= i < |a| ==> SameIgnoringCase(a[i], b[i])
  }

  lemma UpperCharMerges(c: char, d: char)
    ensures UpperChar(c) == UpperChar(d) <==> SameIgnoringCase(c, d)
  {
  }

  lemma LowerCharMerges(c: char, d: char)
    ensures LowerChar(c) == LowerChar(d) <==> SameIgnoringCase(c, d)
  {
  }

  /** Two sizes get the same key exactly when they differ only in letter case. */
  lemma UpperMergesCase(a: string, b: string)
    ensures Upper(a) == Upper(b) <==> EqualIgnoringCase(a, b)
  {
    if Upper(a) == Upper(b) {
      forall i | 0 <= i < |a| ensures SameIgnoringCase(a[i], b[i]) {
        assert Upper(a)[i] == Upper(b)[i];
        UpperCharMerges(a[i], b[i]);
      }
    }
    if EqualIgnoringCase(a, b) {
      forall i | 0 <= i < |a| ensures Upper(a)[i] == Upper(b)[i] {
        UpperCharMerges(a[i], b[i]);
      }
    }
  }

  /** Two colors get the same key exactly when they differ only in letter case. */
  lemma TitleMergesCase(a: string, b: string)
    ensures Title(a) == Title(b) <==> EqualIgnoringCase(a, b)
  {
    if Title(a) == Title(b) {
      forall i | 0 <= i < |a| ensures SameIgnoringCase(a[i], b[i]) {
        assert Title(a)[i] == Title(b)[i];
        UpperCharMerges(a[i], b[i]);
        LowerCharMerges(a[i], b[i]);
        if i > 0 {
          UpperCharMerges(a[i - 1], b[i - 1]);
          LowerCharMerges(a[i - 1], b[i - 1]);
        }
      }
    }
    if EqualIgnoringCase(a, b) {
      forall i | 0 <= i < |a| ensures Title(a)[i] == Title(b)[i] {
        UpperCharMerges(a[i], b[i]);
        LowerCharMerges(a[i], b[i]);
        if i > 0 {
          assert SameIgnoringCase(a[i - 1], b[i - 1]);
        }
      }
    }
  }

  /** Normalising a size key a second time changes nothing. */
  lemma UpperIdempotent(s: string)
    ensures Upper(Upper(s)) == Upper(s)
  {
    forall i | 0 <= i < |s| ensures Upper(Upper(s))[i] == Upper(s)[i] {
    }
  }

  /** Normalising a color key a second time changes nothing. */
  lemma TitleIdempotent(s: string)
    ensures Title(Title(s)) == Title(s)
  {
    var t := Title(s);
    forall i | 0 <= i < |s| ensures Title(t)[i] == t[i] {
      if i > 0 {
        assert IsCased(t[i - 1]) <==> IsCased(s[i - 1]);
      }
    }
  }

  /** The default size key "Unknown" becomes "UNKNOWN"; the default color stays "Unknown". */
  lemma DefaultKeys()
    ensures Upper("Unknown") == "UNKNOWN"
    ensures Title("Unknown") == "Unknown"
  {
    assert Upper("Unknown")[0] == 'U';
  }
}
