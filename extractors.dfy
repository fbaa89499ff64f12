/** The two text extractors of the chat engine: the flight number
    (`ExtractFlightNumber`) and the origin, destination and date of a
    search request (`ExtractFlightSearchParams`).  Each regular expression
    is written out as the condition under which the .NET backtracking
    matcher succeeds at a position, and `Regex.Match` as the search for the
    leftmost such position. */
module Extractors {
  import opened Text
  import opened Calendar

  /** `\b`: a word character on exactly one side of position `i`. */
  predicate WordBoundary(s: string, i: nat)
    requires i <= |s|
  {
    (i > 0 && IsWordChar(s[i - 1])) != (i < |s| && IsWordChar(s[i]))
  }

  /** How many characters satisfying `p` follow position `i`: what a
      greedy `p*` takes. */
  function Run(s: string, i: nat, p: char -> bool): (n: nat)
    requires i <= |s|
    ensures i + n <= |s|
    ensures forall k :: i <= k < i + n ==> p(s[k])
    ensures i + n < |s| ==> !p(s[i + n])
    decreases |s| - i
  {
    if i < |s| && p(s[i]) then 1 + Run(s, i + 1, p) else 0
  }

  /** `w` occurs at position `i`, character for character. */
  predicate StartsAt(s: string, i: nat, w: string)
  {
    i + |w| <= |s| && s[i..i + |w|] == w
  }

  /** The lower-case word `w` occurs at position `i` under
      `RegexOptions.IgnoreCase`. */
  predicate StartsAtIgnoreCase(s: string, i: nat, w: string)
  {
    i + |w| <= |s| && forall k :: 0 <= k < |w| ==> ToLower(s[i + k]) == w[k]
  }

  // ---------------------------------------------------------------------
  // Flight number: `\b([a-zA-Z]{2}\d{3,4})\b`

  /** Two upper-case ASCII letters followed by three or four digits. */
  predicate IsFlightNumber(t: string)
  {
    && (|t| == 5 || |t| == 6)
    && 'A' <= t[0] <= 'Z' && 'A' <= t[1] <= 'Z'
    && forall k :: 2 <= k < |t| ==> IsAsciiDigit(t[k])
  }

  /** The flight-number pattern tried at position `i`: the length of the
      match (the greedy `\d{3,4}` tries four digits before three), or 0. */
  function FlightCodeAt(s: string, i: nat): (n: nat)
    requires i <= |s|
    ensures n == 0 || n == 5 || n == 6
    ensures n > 0 ==> i + n <= |s| && WordBoundary(s, i) && WordBoundary(s, i + n)
    ensures n > 0 ==> IsAsciiLetter(s[i]) && IsAsciiLetter(s[i + 1])
    ensures n > 0 ==> forall k :: i + 2 <= k < i + n ==> IsAsciiDigit(s[k])
  {
    if i + 2 <= |s| && WordBoundary(s, i) && IsAsciiLetter(s[i]) && IsAsciiLetter(s[i + 1]) then
      var digits := Run(s, i + 2, IsAsciiDigit);
      if digits >= 4 && WordBoundary(s, i + 6) then 6
      else if digits >= 3 && WordBoundary(s, i + 5) then 5
      else 0
    else 0
  }

  /** The pattern matches at `i` whenever a whole word there has the
      shape of a flight number. */
  lemma FlightCodeAtComplete(s: string, i: nat, n: nat)
    requires i + n <= |s| && (n == 5 || n == 6)
    requires WordBoundary(s, i) && WordBoundary(s, i + n)
    requires IsAsciiLetter(s[i]) && IsAsciiLetter(s[i + 1])
    requires forall k :: i + 2 <= k < i + n ==> IsAsciiDigit(s[k])
    ensures FlightCodeAt(s, i) == n
  {
  }

  /** `Regex.Match`: the leftmost position from `from` on where the
      flight-number pattern matches. */
  function FindFlightCode(s: string, from: nat): (r: Option<nat>)
    requires from <= |s|
    ensures r.Some? ==> from <= r.value <= |s| && FlightCodeAt(s, r.value) > 0
    ensures r.Some? ==> forall j :: from <= j < r.value ==> FlightCodeAt(s, j) == 0
    ensures r.Null? ==> forall j :: from <= j <= |s| ==> FlightCodeAt(s, j) == 0
    decreases |s| - from
  {
    if FlightCodeAt(s, from) > 0 then Some(from)
    else if from == |s| then Null
    else FindFlightCode(s, from + 1)
  }

  /** `ExtractFlightNumber`: the first flight-number-shaped word of the
      upper-cased message, upper-cased, or null. */
  function ExtractFlightNumber(message: string): (r: Option<string>)
    ensures r.Some? ==> IsFlightNumber(r.value)
    ensures r.Null? <==> forall j :: 0 <= j <= |message| ==> FlightCodeAt(UpperStr(message), j) == 0
  {
    FirstFlightCode(UpperStr(message))
  }

  /** The first flight code of an already upper-cased text, upper-cased. */
  function FirstFlightCode(upper: string): (r: Option<string>)
    ensures r.Some? ==> IsFlightNumber(r.value)
    ensures r.Null? <==> forall j :: 0 <= j <= |upper| ==> FlightCodeAt(upper, j) == 0
  {
    match FindFlightCode(upper, 0)
    case Null => Null
    case Some(i) =>
      UpperFlightCode(upper, i);
      Some(UpperStr(upper[i..i + FlightCodeAt(upper, i)]))
  }

  /** Upper-casing a matched flight code gives a flight number. */
  lemma UpperFlightCode(s: string, i: nat)
    requires i <= |s| && FlightCodeAt(s, i) > 0
    ensures IsFlightNumber(UpperStr(s[i..i + FlightCodeAt(s, i)]))
  {
    var n := FlightCodeAt(s, i);
    var code := s[i..i + n];
    var t := UpperStr(code);
    assert IsAsciiLetter(code[0]) && IsAsciiLetter(code[1]);
    forall k | 2 <= k < n ensures IsAsciiDigit(t[k]) {
      assert code[k] == s[i + k];
    }
  }

  /** The number found is the leftmost flight-number-shaped word of the
      upper-cased message, as it is written there. */
  lemma ExtractFlightNumberIsLeftmostWord(message: string)
    requires ExtractFlightNumber(message).Some?
    ensures var upper, t := UpperStr(message), ExtractFlightNumber(message).value;
      exists i :: 0 <= i <= |upper| && FlightCodeAt(upper, i) == |t| && upper[i..i + |t|] == t
        && forall j :: 0 <= j < i ==> FlightCodeAt(upper, j) == 0
  {
    var upper := UpperStr(message);
    var i := FindFlightCode(upper, 0).value;
    var n := FlightCodeAt(upper, i);
    UpperStrSlice(message, i, i + n);
    UpperStrOfUpper(message[i..i + n]);
  }

  /** A flight number on its own is found as it is, in either case. */
  lemma ExtractFlightNumberRoundTrip(t: string)
    requires IsFlightNumber(t)
    ensures ExtractFlightNumber(t) == Some(t)
    ensures ExtractFlightNumber(LowerStr(t)) == Some(t)
  {
    FlightNumberIsUpper(t);
    WholeFlightNumberIsFound(t);
    ExtractFlightNumberIgnoresCase(t);
  }

  lemma WholeFlightNumberIsFound(t: string)
    requires IsFlightNumber(t)
    ensures FirstFlightCode(t) == Some(t)
  {
    assert forall k :: 0 <= k < |t| ==> IsWordChar(t[k]);
    FlightCodeAtComplete(t, 0, |t|);
    assert FindFlightCode(t, 0) == Some(0);
    assert t[0..|t|] == t;
    FlightNumberIsUpper(t);
  }

  lemma FlightNumberIsUpper(t: string)
    requires IsFlightNumber(t)
    ensures UpperStr(t) == t
  {
    forall k | 0 <= k < |t| ensures UpperStr(t)[k] == t[k] {
    }
  }

  /** Upper-casing does not change where a flight number stands. */
  lemma {:induction false} RunOfDigitsUpper(s: string, i: nat)
    requires i <= |s|
    ensures Run(UpperStr(s), i, IsAsciiDigit) == Run(s, i, IsAsciiDigit)
    decreases |s| - i
  {
    if i < |s| {
      RunOfDigitsUpper(s, i + 1);
    }
  }

  lemma FlightCodeAtUpper(s: string, i: nat)
    requires i <= |s|
    ensures FlightCodeAt(UpperStr(s), i) == FlightCodeAt(s, i)
  {
    if i + 2 <= |s| {
      RunOfDigitsUpper(s, i + 2);
    }
  }

  /** The extractor reads the message the same whatever its case, so
      classifying the lower-cased message agrees with handling the
      original. */
  lemma ExtractFlightNumberIgnoresCase(message: string)
    ensures ExtractFlightNumber(LowerStr(message)) == ExtractFlightNumber(message)
  {
    UpperOfLowerStr(message);
  }

  /** A flight-number-shaped word anywhere in the message is enough for
      the extractor to find one: the separate `IsMatch` test for the same
      pattern can never succeed where the extractor fails. */
  lemma FlightCodeMeansExtracted(message: string, i: nat)
    requires i <= |message| && FlightCodeAt(message, i) > 0
    ensures ExtractFlightNumber(message).Some?
  {
    FlightCodeAtUpper(message, i);
  }

  // ---------------------------------------------------------------------
  // Search parameters

  /** `[A-Za-zÀ-ÿ\s]` under `RegexOptions.IgnoreCase`, which adds the
      case partners ÿ/Ÿ, k/K (Kelvin sign) and å/Å (Ångström sign). */
  predicate IsPlaceChar(c: char)
  {
    || IsAsciiLetter(c) || ('À' <= c <= 'ÿ') || c == 'Ÿ'
    || c == '\U{212A}' || c == '\U{212B}' || IsWhiteSpace(c)
  }

  /** `$` without `RegexOptions.Multiline`: the end of the text, or just
      before a final line feed. */
  predicate EndAnchor(s: string, j: nat)
    requires j <= |s|
  {
    j == |s| || (j == |s| - 1 && s[j] == '\n')
  }

  /** `\s+w\s+` at `j`, `w` compared ignoring case.  The greedy `\s+`
      can only succeed by taking the whole run of white space. */
  predicate SpacedWordAt(s: string, j: nat, w: string)
    requires j <= |s|
  {
    var a := Run(s, j, IsWhiteSpace);
    a > 0 && StartsAtIgnoreCase(s, j + a, w) && j + a + |w| < |s| && IsWhiteSpace(s[j + a + |w|])
  }

  /** `(?:\s+w\s+|$)` at `j`. */
  predicate StopAt(s: string, j: nat, w: string)
    requires j <= |s|
  {
    SpacedWordAt(s, j, w) || EndAnchor(s, j)
  }

  /** The lazy group `([A-Za-zÀ-ÿ\s]+?)` holding `s[g..e]`: it grows one
      character at a time until the stop matches after it. */
  function LazyGroupEnd(s: string, g: nat, e: nat, stop: string): (r: Option<nat>)
    requires g < e <= |s|
    ensures r.Some? ==> e <= r.value <= |s| && StopAt(s, r.value, stop)
    ensures r.Some? ==> forall k :: e - 1 <= k < r.value ==> IsPlaceChar(s[k])
    decreases |s| - e
  {
    if !IsPlaceChar(s[e - 1]) then Null
    else if StopAt(s, e, stop) then Some(e)
    else if e == |s| then Null
    else LazyGroupEnd(s, g, e + 1, stop)
  }

  /** `\s+([A-Za-zÀ-ÿ\s]+?)(?:\s+stop\s+|$)` after position `p`, the
      greedy `\s+` holding `w` characters and giving them back one at a
      time when the rest fails: the bounds of the group. */
  function GroupAfterSpaces(s: string, p: nat, w: nat, stop: string): (r: Option<(nat, nat)>)
    requires p + w <= |s|
    ensures r.Some? ==> p < r.value.0 < r.value.1 <= |s| && StopAt(s, r.value.1, stop)
    ensures r.Some? ==> forall k :: r.value.0 <= k < r.value.1 ==> IsPlaceChar(s[k])
    decreases w
  {
    if w == 0 then Null
    else if p + w < |s| then
      match LazyGroupEnd(s, p + w, p + w + 1, stop)
      case Some(e) => Some((p + w, e))
      case Null => GroupAfterSpaces(s, p, w - 1, stop)
    else GroupAfterSpaces(s, p, w - 1, stop)
  }

  /** `Regex.Match(s, key + @"\s+([A-Za-zÀ-ÿ\s]+?)(?:\s+" + stop + @"\s+|$)",
      RegexOptions.IgnoreCase)` tried from position `i` on: the captured
      group of the leftmost match. */
  function CaptureFrom(s: string, i: nat, key: string, stop: string): (r: Option<string>)
    requires i <= |s|
    ensures r.Some? ==> |r.value| > 0 && forall k :: 0 <= k < |r.value| ==> IsPlaceChar(r.value[k])
    decreases |s| - i
  {
    var m :=
      if StartsAtIgnoreCase(s, i, key) then GroupAfterSpaces(s, i + |key|, Run(s, i + |key|, IsWhiteSpace), stop)
      else Null;
    if m.Some? then Some(s[m.value.0..m.value.1])
    else if i == |s| then Null
    else CaptureFrom(s, i + 1, key, stop)
  }

  /** `\d{1,2}/` at `q`: the position after the slash.  The greedy
      `\d{1,2}` succeeds only when the run of digits is one or two long. */
  function ShortNumberSlash(s: string, q: nat): (r: Option<nat>)
    requires q <= |s|
    ensures r.Some? ==> q + 2 <= r.value <= q + 3 && r.value <= |s| && s[r.value - 1] == '/'
    ensures r.Some? ==> forall k :: q <= k < r.value - 1 ==> IsAsciiDigit(s[k])
  {
    var d := Run(s, q, IsAsciiDigit);
    if 1 <= d <= 2 && q + d < |s| && s[q + d] == '/' then Some(q + d + 1) else Null
  }

  /** The first alternative of the date pattern, `em\s+(\d{1,2}/\d{1,2}/\d{4})`,
      at `i`: the text of group 1. */
  function NumericDateAt(s: string, i: nat): (r: Option<string>)
    requires i <= |s|
    ensures r.Some? ==> 8 <= |r.value| <= 10
  {
    if StartsAt(s, i, "em") then
      var a := Run(s, i + 2, IsWhiteSpace);
      var q := i + 2 + a;
      if a == 0 then Null
      else match ShortNumberSlash(s, q)
        case Null => Null
        case Some(q2) =>
          match ShortNumberSlash(s, q2)
          case Null => Null
          case Some(q3) => if Run(s, q3, IsAsciiDigit) >= 4 then Some(s[q..q3 + 4]) else Null
    else Null
  }

  /** `\s+de\s+` at `j`: the position after it. */
  function SpacedDe(s: string, j: nat): (r: Option<nat>)
    requires j <= |s|
    ensures r.Some? ==> j + 4 <= r.value <= |s|
  {
    var a := Run(s, j, IsWhiteSpace);
    if a > 0 && StartsAt(s, j + a, "de") then
      var b := Run(s, j + a + 2, IsWhiteSpace);
      if b > 0 then Some(j + a + 2 + b) else Null
    else Null
  }

  /** The second alternative, `(\d{1,2}\s+de\s+[\p{L}]+\s+de\s+\d{4})`,
      matches at `i`. */
  predicate LongDateAt(s: string, i: nat)
    requires i <= |s|
  {
    var d := Run(s, i, IsAsciiDigit);
    1 <= d <= 2 &&
    match SpacedDe(s, i + d)
    case Null => false
    case Some(q) =>
      var l := Run(s, q, IsLetter);
      l > 0 &&
      match SpacedDe(s, q + l)
      case Null => false
      case Some(y) => Run(s, y, IsAsciiDigit) >= 4
  }

  /** `Regex.Match` for the date pattern from `i` on: `Groups[1].Value` of
      the leftmost match, which is empty when the second alternative is
      the one that matched. */
  function DateGroupFrom(s: string, i: nat): (r: Option<string>)
    requires i <= |s|
    ensures r.Some? && r.value != [] ==> exists j :: i <= j <= |s| && NumericDateAt(s, j) == r
    decreases |s| - i
  {
    var n := NumericDateAt(s, i);
    if n.Some? then n
    else if LongDateAt(s, i) then Some([])
    else if i == |s| then Null
    else DateGroupFrom(s, i + 1)
  }

  /** `DateTime.TryParseExact` applied to the date group, when there was a match. */
  function DateOf(group: Option<string>): (r: Option<Date>)
    ensures r.Some? ==> group.Some? && ValidDate(r.value) && FormatDdMmYyyy(r.value) == group.value
  {
    match group
    case Null => Null
    case Some(g) =>
      FormatOfParse(g);
      ParseDdMmYyyy(g)
  }

  /** The tuple `(IsValid, Origin, Destination, Date)`. */
  datatype SearchParams = SearchParams(isValid: bool, origin: Option<string>, destination: Option<string>, date: Option<Date>)

  predicate Filled(s: Option<string>)
  {
    s.Some? && !IsBlank(s.value)
  }

  /** `ExtractFlightSearchParams`: origin after "de", destination after
      "para", and a date "em dd/mm/yyyy"; valid only with all three. */
  function ExtractFlightSearchParams(message: string): (r: SearchParams)
    ensures r.isValid <==> Filled(r.origin) && Filled(r.destination) && r.date.Some?
    ensures r.origin.Some? ==> forall k :: 0 <= k < |r.origin.value| ==> IsPlaceChar(r.origin.value[k])
    ensures r.destination.Some? ==> forall k :: 0 <= k < |r.destination.value| ==> IsPlaceChar(r.destination.value[k])
    ensures r.date.Some? ==> ValidDate(r.date.value)
    ensures r.date.Some? ==> exists i :: 0 <= i <= |message| && NumericDateAt(message, i) == Some(FormatDdMmYyyy(r.date.value))
  {
    var origin := match CaptureFrom(message, 0, "de", "para")
      case Null => Null
      case Some(g) => Some(Trim(g));
    var destination := match CaptureFrom(message, 0, "para", "em")
      case Null => Null
      case Some(g) => Some(Trim(g));
    var date := DateOf(DateGroupFrom(message, 0));
    SearchParams(Filled(origin) && Filled(destination) && date.Some?, origin, destination, date)
  }
}
