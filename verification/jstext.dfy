/**
 * The JavaScript string operations the item-creation handler uses:
 * `trim`, `toLowerCase`, and the capitalisation `charAt(0).toUpperCase() + slice(1)`.
 */
module JsText {

  /**
   * A code point `String.prototype.trim` removes: ECMAScript's WhiteSpace
   * (tab, vertical tab, form feed, space, no-break space, the byte-order mark
   * and the space separators) and LineTerminator (line feed, carriage return,
   * line and paragraph separators).
   */
  predicate IsSpace(c: char)
  {
    || c == '\t' || c == '\n' || c == '\U{B}' || c == '\U{C}' || c == '\r' || c == ' '
    || c == '\U{A0}' || c == '\U{1680}' || ('\U{2000}' <= c <= '\U{200A}')
    || c == '\U{2028}' || c == '\U{2029}' || c == '\U{202F}' || c == '\U{205F}'
    || c == '\U{3000}' || c == '\U{FEFF}'
  }

  /** `s` with its leading white space removed. */
  function TrimStart(s: string): (r: string)
    ensures |r| <= |s| && r == s[|s| - |r|..]
    ensures forall i :: 0 <= i < |s| - |r| ==> IsSpace(s[i])
    ensures |r| > 0 ==> !IsSpace(r[0])
  {
    if |s| > 0 && IsSpace(s[0]) then TrimStart(s[1..]) else s
  }

  /** `s` with its trailing white space removed. */
  function TrimEnd(s: string): (r: string)
    ensures |r| <= |s| && r == s[..|r|]
    ensures forall i :: |r| <= i < |s| ==> IsSpace(s[i])
    ensures |r| > 0 ==> !IsSpace(r[|r| - 1])
  {
    if |s| > 0 && IsSpace(s[|s| - 1]) then TrimEnd(s[..|s| - 1]) else s
  }

  /** How many white-space characters `s` starts with. */
  function LeadingSpaces(s: string): (n: nat)
    ensures n <= |s|
    ensures forall i :: 0 <= i < n ==> IsSpace(s[i])
    ensures n < |s| ==> !IsSpace(s[n])
  {
    |s| - |TrimStart(s)|
  }

  /** Trimming the end of a suffix of `s` cuts a slice of `s` followed by white space. */
  lemma TrimEndWithin(s: string, n: nat, u: string)
    requires n <= |s| && u == TrimEnd(s[n..])
    ensures n + |u| <= |s| && u == s[n..n + |u|]
    ensures forall i :: n + |u| <= i < |s| ==> IsSpace(s[i])
  {
    var t := s[n..];
    assert u == t[..|u|];
    forall i | n + |u| <= i < |s|
      ensures IsSpace(s[i])
    {
      assert s[i] == t[i - n];
    }
  }

  /**
   * `String.prototype.trim`: the part of `s` that starts after its leading
   * white space, with everything dropped at either end white space, and the
   * part kept neither starting nor ending with it.
   */
  function Trim(s: string): (r: string)
    ensures LeadingSpaces(s) + |r| <= |s|
    ensures r == s[LeadingSpaces(s)..LeadingSpaces(s) + |r|]
    ensures forall i :: LeadingSpaces(s) + |r| <= i < |s| ==> IsSpace(s[i])
    ensures |r| > 0 ==> !IsSpace(r[0]) && !IsSpace(r[|r| - 1])
  {
    var t := TrimStart(s);
    var u := TrimEnd(t);
    TrimEndWithin(s, |s| - |t|, u);
    u
  }

  /**
   * Trim is the only cut of that shape: whenever `s` is white space, then `r`,
   * then white space, and `r` neither starts nor ends with white space,
   * `Trim(s)` is `r`.
   */
  lemma TrimUnique(s: string, lead: nat, r: string)
    requires lead + |r| <= |s| && r == s[lead..lead + |r|]
    requires forall i :: 0 <= i < lead ==> IsSpace(s[i])
    requires forall i :: lead + |r| <= i < |s| ==> IsSpace(s[i])
    requires |r| > 0 ==> !IsSpace(r[0]) && !IsSpace(r[|r| - 1])
    ensures Trim(s) == r
  {
    var n := LeadingSpaces(s);
    var t := Trim(s);
    if |r| > 0 {
      assert !IsSpace(s[lead]) && !IsSpace(s[lead + |r| - 1]);
      assert n == lead;
      assert |t| > 0 ==> !IsSpace(s[n + |t| - 1]);
    }
  }

  /** A string with neither leading nor trailing white space is its own trim. */
  lemma TrimOfTrimmed(s: string)
    requires |s| > 0 ==> !IsSpace(s[0]) && !IsSpace(s[|s| - 1])
    ensures Trim(s) == s
  {
    TrimUnique(s, 0, s);
  }

  predicate IsUpper(c: char)
  {
    'A' <= c <= 'Z'
  }

  predicate IsLower(c: char)
  {
    'a' <= c <= 'z'
  }

  /** Lower-case of one character (the ASCII letters). */
  function LowerChar(c: char): (r: char)
    ensures !IsUpper(r)
    ensures !IsUpper(c) ==> r == c
    ensures IsUpper(c) ==> IsLower(r) && r as int - c as int == 'a' as int - 'A' as int
  {
    if IsUpper(c) then (c as int - 'A' as int + 'a' as int) as char else c
  }

  /** Upper-case of one character (the ASCII letters). */
  function UpperChar(c: char): (r: char)
    ensures !IsLower(r)
    ensures !IsLower(c) ==> r == c
    ensures IsLower(c) ==> IsUpper(r) && LowerChar(r) == c
  {
    if IsLower(c) then (c as int - 'a' as int + 'A' as int) as char else c
  }

  /** `String.prototype.toLowerCase`. */
  function ToLower(s: string): (r: string)
    ensures |r| == |s|
    ensures forall i :: 0 <= i < |s| ==> r[i] == LowerChar(s[i])
    ensures forall i :: 0 <= i < |r| ==> !IsUpper(r[i])
  {
    if |s| == 0 then [] else [LowerChar(s[0])] + ToLower(s[1..])
  }

  /** Lower-casing twice is lower-casing once. */
  lemma ToLowerIdempotent(s: string)
    ensures ToLower(ToLower(s)) == ToLower(s)
  {
  }

  /** `s.charAt(0).toUpperCase() + s.slice(1)`; the empty string stays empty. */
  function Capitalize(s: string): (r: string)
    ensures |r| == |s|
    ensures |s| > 0 ==> r[0] == UpperChar(s[0]) && r[1..] == s[1..]
  {
    if |s| == 0 then "" else [UpperChar(s[0])] + s[1..]
  }

  /** A string without surrounding white space or capitals is unchanged by trimming and lower-casing. */
  lemma NormalFixed(s: string)
    requires |s| > 0 ==> !IsSpace(s[0]) && !IsSpace(s[|s| - 1])
    requires forall i :: 0 <= i < |s| ==> !IsUpper(s[i])
    ensures ToLower(Trim(s)) == s
  {
    TrimOfTrimmed(s);
    assert ToLower(s) == s;
  }

  /** Capitalising a lower-case string and lower-casing it again gives it back. */
  lemma {:induction false} CapitalizeRoundTrip(s: string)
    requires forall i :: 0 <= i < |s| ==> !IsUpper(s[i])
    ensures ToLower(Capitalize(s)) == s
  {
    var r := ToLower(Capitalize(s));
    forall i | 0 <= i < |s|
      ensures r[i] == s[i]
    {
      if i == 0 {
        assert Capitalize(s)[0] == UpperChar(s[0]);
      } else {
        assert Capitalize(s)[i] == s[i];
      }
    }
  }
}
