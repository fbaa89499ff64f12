/** Characters and strings as the .NET runtime treats them in the chat
    engine and the two stores: character classes used by the regular
    expressions, invariant case mapping, white space, Trim and ordinal
    case-insensitive comparison.  Case mapping and the letter classes are
    modelled for ASCII and Latin-1 (plus the pair ÿ/Ÿ), which covers
    Portuguese text. */
module Text {

  /** A C# nullable reference: `Null` is C#'s null. */
  datatype Option<+T> = Null | Some(value: T)

  predicate IsAsciiDigit(c: char) { '0' <= c <= '9' }

  predicate IsAsciiLetter(c: char) { 'a' <= c <= 'z' || 'A' <= c <= 'Z' }

  /** `\p{L}`: a letter. */
  predicate IsLetter(c: char)
  {
    || IsAsciiLetter(c)
    || c == 'ª' || c == 'µ' || c == 'º'
    || ('À' <= c <= 'ɏ' && c != '×' && c != '÷')
  }

  /** `\w`: letters, decimal digits and the connector `_`. */
  predicate IsWordChar(c: char) { IsLetter(c) || IsAsciiDigit(c) || c == '_' }

  /** `\s` of the regex engine, which is also `Char.IsWhiteSpace`. */
  predicate IsWhiteSpace(c: char)
  {
    || c == ' ' || ('\t' <= c <= '\r') || c == '\U{85}' || c == '\U{A0}'
    || c == '\U{1680}' || ('\U{2000}' <= c <= '\U{200A}')
    || c == '\U{2028}' || c == '\U{2029}' || c == '\U{202F}' || c == '\U{205F}' || c == '\U{3000}'
  }

  /** `Char.ToLowerInvariant`. */
  function ToLower(c: char): (r: char)
    ensures IsLetter(r) == IsLetter(c) && IsAsciiLetter(r) == IsAsciiLetter(c)
    ensures IsAsciiDigit(r) == IsAsciiDigit(c) && IsWhiteSpace(r) == IsWhiteSpace(c)
    ensures !('A' <= r <= 'Z')
  {
    if 'A' <= c <= 'Z' || ('À' <= c <= 'Þ' && c != '×') then (c as int + 32) as char
    else if c == 'Ÿ' then 'ÿ'
    else c
  }

  /** `Char.ToUpperInvariant`. */
  function ToUpper(c: char): (r: char)
    ensures IsLetter(r) == IsLetter(c) && IsAsciiLetter(r) == IsAsciiLetter(c)
    ensures IsAsciiDigit(r) == IsAsciiDigit(c) && IsWhiteSpace(r) == IsWhiteSpace(c)
    ensures !('a' <= r <= 'z')
  {
    if 'a' <= c <= 'z' || ('à' <= c <= 'þ' && c != '÷') then (c as int - 32) as char
    else if c == 'ÿ' then 'Ÿ'
    else c
  }

  /** Upper-casing forgets whatever lower-casing did first. */
  lemma UpperOfLower(c: char)
    ensures ToUpper(ToLower(c)) == ToUpper(c)
  {
  }

  /** Upper-casing twice is upper-casing once. */
  lemma UpperOfUpper(c: char)
    ensures ToUpper(ToUpper(c)) == ToUpper(c)
  {
  }

  /** Lower-casing twice is lower-casing once. */
  lemma LowerOfLower(c: char)
    ensures ToLower(ToLower(c)) == ToLower(c)
  {
  }

  function LowerStr(s: string): (r: string)
    ensures |r| == |s| && forall k :: 0 <= k < |s| ==> r[k] == ToLower(s[k])
  {
    seq(|s|, k requires 0 <= k < |s| => ToLower(s[k]))
  }

  function UpperStr(s: string): (r: string)
    ensures |r| == |s| && forall k :: 0 <= k < |s| ==> r[k] == ToUpper(s[k])
  {
    seq(|s|, k requires 0 <= k < |s| => ToUpper(s[k]))
  }

  lemma UpperStrOfUpper(s: string)
    ensures UpperStr(UpperStr(s)) == UpperStr(s)
  {
    forall k | 0 <= k < |s| ensures UpperStr(UpperStr(s))[k] == UpperStr(s)[k] {
      UpperOfUpper(s[k]);
    }
  }

  lemma LowerStrOfLower(s: string)
    ensures LowerStr(LowerStr(s)) == LowerStr(s)
  {
    forall k | 0 <= k < |s| ensures LowerStr(LowerStr(s))[k] == LowerStr(s)[k] {
      LowerOfLower(s[k]);
    }
  }

  /** Upper-casing forgets whatever lower-casing did first. */
  lemma UpperOfLowerStr(s: string)
    ensures UpperStr(LowerStr(s)) == UpperStr(s)
  {
    forall k | 0 <= k < |s| ensures UpperStr(LowerStr(s))[k] == UpperStr(s)[k] {
      UpperOfLower(s[k]);
    }
  }

  lemma UpperStrSlice(s: string, i: nat, j: nat)
    requires i <= j <= |s|
    ensures UpperStr(s)[i..j] == UpperStr(s[i..j])
  {
  }

  /** `a.Equals(b, StringComparison.OrdinalIgnoreCase)`: equal after
      invariant upper-casing, character by character. */
  predicate EqualsIgnoreCase(a: string, b: string)
  {
    UpperStr(a) == UpperStr(b)
  }

  lemma EqualsIgnoreCaseIsEquivalence(a: string, b: string, c: string)
    ensures EqualsIgnoreCase(a, a)
    ensures EqualsIgnoreCase(a, b) ==> EqualsIgnoreCase(b, a)
    ensures EqualsIgnoreCase(a, b) && EqualsIgnoreCase(b, c) ==> EqualsIgnoreCase(a, c)
  {
  }

  /** `string.IsNullOrWhiteSpace` for a non-null string. */
  predicate IsBlank(s: string)
  {
    forall k :: 0 <= k < |s| ==> IsWhiteSpace(s[k])
  }

  /** Number of white-space characters at the front of `s`. */
  function LeadingSpaces(s: string): (n: nat)
    ensures n <= |s|
    ensures forall k :: 0 <= k < n ==> IsWhiteSpace(s[k])
    ensures n < |s| ==> !IsWhiteSpace(s[n])
  {
    if |s| > 0 && IsWhiteSpace(s[0]) then 1 + LeadingSpaces(s[1..]) else 0
  }

  /** Number of white-space characters at the back of `s`. */
  function TrailingSpaces(s: string): (n: nat)
    ensures n <= |s|
    ensures forall k :: |s| - n <= k < |s| ==> IsWhiteSpace(s[k])
    ensures n < |s| ==> !IsWhiteSpace(s[|s| - 1 - n])
  {
    if |s| > 0 && IsWhiteSpace(s[|s| - 1]) then 1 + TrailingSpaces(s[..|s| - 1]) else 0
  }

  /** `string.Trim()`: white space removed at both ends. */
  function Trim(s: string): (r: string)
    ensures |r| <= |s|
    ensures forall k :: 0 <= k < |r| ==> r[k] in s
    ensures IsBlank(r) <==> r == []
    ensures IsBlank(s) <==> r == []
  {
    var a := LeadingSpaces(s);
    if a == |s| then []
    else
      var b := TrailingSpaces(s[a..]);
      var r := s[a..][..|s| - a - b];
      assert r[0] == s[a];
      r
  }

  /** Trim leaves a string alone when neither end is white space. */
  lemma TrimOfUnpadded(s: string)
    requires |s| > 0 && !IsWhiteSpace(s[0]) && !IsWhiteSpace(s[|s| - 1])
    ensures Trim(s) == s
  {
    assert LeadingSpaces(s) == 0;
    assert TrailingSpaces(s) == 0;
    assert s[0..][..|s|] == s;
  }
}
