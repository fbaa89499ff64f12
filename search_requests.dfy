/** What the search extractor makes of whole messages: a request written
    as "de <origin> para <destination> em dd/mm/yyyy" is read back exactly,
    a date written out in words never gives a date, and the examples the
    engine itself suggests carry no origin. */
module SearchRequests {
  import opened Text
  import opened Calendar
  import opened Extractors

  /** A one-word place name: characters of the place class, none of them
      white space. */
  predicate PlaceWord(w: string)
  {
    |w| > 0 && forall k :: 0 <= k < |w| ==> IsPlaceChar(w[k]) && !IsWhiteSpace(w[k])
  }

  /** "para" does not occur in `w`, whatever its case. */
  predicate FreeOfPara(w: string)
  {
    forall k :: 0 <= k && k + 4 <= |w| ==> !StartsAtIgnoreCase(w, k, "para")
  }

  // ---------------------------------------------------------------------
  // How the matchers move past text that cannot match

  /** `s[lo..hi]` holds place characters other than white space. */
  predicate Plain(s: string, lo: nat, hi: nat)
    requires lo <= hi <= |s|
    decreases hi - lo
  {
    lo == hi || (IsPlaceChar(s[lo]) && !IsWhiteSpace(s[lo]) && Plain(s, lo + 1, hi))
  }

  lemma {:induction false} PlainOfChars(s: string, lo: nat, hi: nat)
    requires lo <= hi <= |s|
    requires forall k :: lo <= k < hi ==> IsPlaceChar(s[k]) && !IsWhiteSpace(s[k])
    ensures Plain(s, lo, hi)
    decreases hi - lo
  {
    if lo < hi {
      PlainOfChars(s, lo + 1, hi);
    }
  }

  /** A lazy group over text without white space grows until it reaches
      the end of that text, when the group stops there. */
  lemma {:induction false} LazyGroupEndReaches(s: string, g: nat, e: nat, stop: string, end: nat)
    requires g < e <= end <= |s| && Plain(s, e - 1, end)
    requires LazyGroupEnd(s, g, end, stop) == Some(end)
    ensures LazyGroupEnd(s, g, e, stop) == Some(end)
    decreases end - e
  {
    if e < end {
      LazyGroupEndReaches(s, g, e + 1, stop, end);
      LazyGroupEndGrows(s, g, e, stop, end);
    }
  }

  lemma LazyGroupEndGrows(s: string, g: nat, e: nat, stop: string, end: nat)
    requires g < e < |s| && IsPlaceChar(s[e - 1]) && !IsWhiteSpace(s[e])
    requires LazyGroupEnd(s, g, e + 1, stop) == Some(end)
    ensures LazyGroupEnd(s, g, e, stop) == Some(end)
  {
    assert Run(s, e, IsWhiteSpace) == 0;
  }

  lemma LazyGroupEndStops(s: string, g: nat, e: nat, stop: string)
    requires g < e <= |s| && IsPlaceChar(s[e - 1]) && StopAt(s, e, stop)
    ensures LazyGroupEnd(s, g, e, stop) == Some(e)
  {
  }

  lemma {:induction false} CaptureFromSkips(s: string, from: nat, upto: nat, key: string, stop: string)
    requires from <= upto <= |s|
    requires forall i :: from <= i < upto ==> !StartsAtIgnoreCase(s, i, key)
    ensures CaptureFrom(s, from, key, stop) == CaptureFrom(s, upto, key, stop)
    decreases upto - from
  {
    if from < upto {
      CaptureFromStep(s, from, key, stop);
      CaptureFromSkips(s, from + 1, upto, key, stop);
    }
  }

  lemma CaptureFromStep(s: string, i: nat, key: string, stop: string)
    requires i < |s| && !StartsAtIgnoreCase(s, i, key)
    ensures CaptureFrom(s, i, key, stop) == CaptureFrom(s, i + 1, key, stop)
  {
  }

  lemma {:induction false} DateGroupFromSkips(s: string, from: nat, upto: nat)
    requires from <= upto <= |s|
    requires forall j :: from <= j < upto ==> NumericDateAt(s, j).Null? && !LongDateAt(s, j)
    ensures DateGroupFrom(s, from) == DateGroupFrom(s, upto)
    decreases upto - from
  {
    if from < upto {
      DateGroupFromStep(s, from);
      DateGroupFromSkips(s, from + 1, upto);
    }
  }

  lemma DateGroupFromStep(s: string, i: nat)
    requires i < |s| && NumericDateAt(s, i).Null? && !LongDateAt(s, i)
    ensures DateGroupFrom(s, i) == DateGroupFrom(s, i + 1)
  {
  }

  /** The group comes from the leftmost position `j` at or after `i`
      where either alternative matches: the numeric text there, or empty
      when only the long form matches there. */
  lemma DateGroupFromIsLeftmost(s: string, i: nat, j: nat)
    requires i <= j <= |s| && (NumericDateAt(s, j).Some? || LongDateAt(s, j))
    requires forall k :: i <= k < j ==> NumericDateAt(s, k).Null? && !LongDateAt(s, k)
    ensures DateGroupFrom(s, i) == (if NumericDateAt(s, j).Some? then NumericDateAt(s, j) else Some([]))
  {
    DateGroupFromSkips(s, i, j);
    DateGroupAtMatch(s, j);
  }

  lemma DateGroupAtMatch(s: string, i: nat)
    requires i <= |s| && (NumericDateAt(s, i).Some? || LongDateAt(s, i))
    ensures DateGroupFrom(s, i) == (if NumericDateAt(s, i).Some? then NumericDateAt(s, i) else Some([]))
  {
  }

  /** There is no date group exactly when neither alternative matches at
      any position from `i` on. */
  lemma {:induction false} DateGroupFromNone(s: string, i: nat)
    requires i <= |s|
    ensures DateGroupFrom(s, i).Null? <==> forall j :: i <= j <= |s| ==> NumericDateAt(s, j).Null? && !LongDateAt(s, j)
    decreases |s| - i
  {
    if NumericDateAt(s, i).Some? || LongDateAt(s, i) {
      DateGroupAtMatch(s, i);
    } else if i < |s| {
      DateGroupFromStep(s, i);
      DateGroupFromNone(s, i + 1);
    }
  }

  /** Before a letter preceded by no digit at all, neither date
      alternative can match. */
  lemma NoDateBefore(s: string, p: nat)
    requires p < |s| && !IsWhiteSpace(s[p]) && s[p] != 'm'
    requires forall k :: 0 <= k <= p ==> !IsAsciiDigit(s[k])
    ensures forall j :: 0 <= j < p ==> NumericDateAt(s, j).Null? && !LongDateAt(s, j)
  {
    forall j | 0 <= j < p ensures NumericDateAt(s, j).Null? && !LongDateAt(s, j) {
      assert Run(s, j, IsAsciiDigit) == 0;
      if StartsAt(s, j, "em") {
        assert s[j + 1] == "em"[1];
        var a := Run(s, j + 2, IsWhiteSpace);
        var q := j + 2 + a;
        assert q <= p;
        assert Run(s, q, IsAsciiDigit) == 0;
      }
    }
  }

  // ---------------------------------------------------------------------
  // A request in the documented form

  /** `s` is "de o para d em f", told position by position. */
  predicate Request(s: string, o: string, d: string, f: string)
  {
    var e := 9 + |o| + |d|;
    && |s| == e + 4 + |f|
    && s[0] == 'd' && s[1] == 'e' && s[2] == ' '
    && (forall k :: 0 <= k < |o| ==> s[3 + k] == o[k])
    && s[3 + |o|] == ' ' && s[4 + |o|] == 'p' && s[5 + |o|] == 'a' && s[6 + |o|] == 'r' && s[7 + |o|] == 'a'
    && s[8 + |o|] == ' '
    && (forall k :: 0 <= k < |d| ==> s[9 + |o| + k] == d[k])
    && s[e] == ' ' && s[e + 1] == 'e' && s[e + 2] == 'm' && s[e + 3] == ' '
    && (forall k :: 0 <= k < |f| ==> s[e + 4 + k] == f[k])
  }

  lemma RequestLayout(s: string, o: string, d: string, f: string)
    requires s == "de " + o + " para " + d + " em " + f
    ensures Request(s, o, d, f)
  {
    var b := "de " + o + " para ";
    var c := b + d + " em ";
    assert s == c + f;
    assert s[..|c|] == c;
    assert c[..|b|] == b;
  }

  lemma OneSpace(s: string, p: nat)
    requires p + 1 < |s| && IsWhiteSpace(s[p]) && !IsWhiteSpace(s[p + 1])
    ensures Run(s, p, IsWhiteSpace) == 1
  {
    assert Run(s, p + 1, IsWhiteSpace) == 0;
  }

  /** ` stop ` at `end`, one space before the word. */
  lemma StopAfterWord(s: string, end: nat, stop: string)
    requires |stop| > 0 && !IsWhiteSpace(stop[0]) && end + 1 + |stop| < |s|
    requires IsWhiteSpace(s[end]) && StartsAtIgnoreCase(s, end + 1, stop) && IsWhiteSpace(s[end + 1 + |stop|])
    ensures StopAt(s, end, stop)
  {
    assert ToLower(s[end + 1]) == stop[0];
    OneSpace(s, end);
  }

  lemma GroupAfterOneSpace(s: string, p: nat, stop: string, end: nat)
    requires p + 1 < |s| && LazyGroupEnd(s, p + 1, p + 2, stop) == Some(end)
    ensures GroupAfterSpaces(s, p, 1, stop) == Some((p + 1, end))
  {
  }

  /** A word after one space, then ` stop `: the lazy group after the
      space is the word. */
  lemma GroupOfWord(s: string, p: nat, w: string, stop: string)
    requires PlaceWord(w) && |stop| > 0 && !IsWhiteSpace(stop[0])
    requires p + 1 + |w| + 1 + |stop| < |s|
    requires forall k :: 0 <= k < |w| ==> s[p + 1 + k] == w[k]
    requires var end := p + 1 + |w|;
      IsWhiteSpace(s[end]) && StartsAtIgnoreCase(s, end + 1, stop) && IsWhiteSpace(s[end + 1 + |stop|])
    ensures GroupAfterSpaces(s, p, 1, stop) == Some((p + 1, p + 1 + |w|))
  {
    var g := p + 1;
    var end := g + |w|;
    forall k | g <= k < end ensures IsPlaceChar(s[k]) && !IsWhiteSpace(s[k]) {
      assert s[k] == w[k - g];
    }
    PlainOfChars(s, g, end);
    StopAfterWord(s, end, stop);
    LazyGroupEndStops(s, g, end, stop);
    LazyGroupEndReaches(s, g, g + 1, stop, end);
    GroupAfterOneSpace(s, p, stop, end);
  }

  lemma CaptureAt(s: string, i: nat, key: string, stop: string, g: nat, end: nat)
    requires i + |key| <= |s| && StartsAtIgnoreCase(s, i, key)
    requires GroupAfterSpaces(s, i + |key|, Run(s, i + |key|, IsWhiteSpace), stop) == Some((g, end))
    ensures CaptureFrom(s, i, key, stop) == Some(s[g..end])
  {
  }

  /** `key word stop ` at `i`, one space on each side of the word: the
      capture is the word. */
  lemma CaptureOfWord(s: string, i: nat, key: string, w: string, stop: string)
    requires PlaceWord(w) && |stop| > 0 && !IsWhiteSpace(stop[0])
    requires i + |key| + 1 + |w| + 1 + |stop| < |s|
    requires StartsAtIgnoreCase(s, i, key) && IsWhiteSpace(s[i + |key|])
    requires forall k :: 0 <= k < |w| ==> s[i + |key| + 1 + k] == w[k]
    requires var end := i + |key| + 1 + |w|;
      IsWhiteSpace(s[end]) && StartsAtIgnoreCase(s, end + 1, stop) && IsWhiteSpace(s[end + 1 + |stop|])
    ensures CaptureFrom(s, i, key, stop) == Some(w)
  {
    var p := i + |key|;
    assert s[p + 1] == w[0];
    OneSpace(s, p);
    GroupOfWord(s, p, w, stop);
    CaptureAt(s, i, key, stop, p + 1, p + 1 + |w|);
    assert s[p + 1..p + 1 + |w|] == w;
  }

  /** The origin of a request in the documented form. */
  lemma OriginOfRequest(s: string, o: string, d: string, f: string)
    requires PlaceWord(o) && Request(s, o, d, f)
    ensures CaptureFrom(s, 0, "de", "para") == Some(o)
  {
    assert StartsAtIgnoreCase(s, 0, "de");
    assert StartsAtIgnoreCase(s, 4 + |o|, "para");
    CaptureOfWord(s, 0, "de", o, "para");
  }

  /** "para" starts nowhere before the one that follows the origin. */
  lemma NoParaBeforeDestination(s: string, o: string, d: string, f: string)
    requires PlaceWord(o) && FreeOfPara(o) && Request(s, o, d, f)
    ensures forall i :: 0 <= i < 4 + |o| ==> !StartsAtIgnoreCase(s, i, "para")
  {
    forall i | 0 <= i < 4 + |o| ensures !StartsAtIgnoreCase(s, i, "para") {
      if i < 3 {
        assert ToLower(s[i]) != "para"[0];
      } else if i + 4 <= 3 + |o| {
        if StartsAtIgnoreCase(s, i, "para") {
          assert StartsAtIgnoreCase(o, i - 3, "para") by {
            forall k | 0 <= k < 4 ensures ToLower(o[i - 3 + k]) == "para"[k] {
              assert s[i + k] == o[i - 3 + k];
            }
          }
          assert false;
        }
      } else {
        assert ToLower(s[3 + |o|]) != "para"[3 + |o| - i];
      }
    }
  }

  /** The destination of a request in the documented form. */
  lemma DestinationOfRequest(s: string, o: string, d: string, f: string)
    requires PlaceWord(o) && PlaceWord(d) && FreeOfPara(o) && |f| > 0 && Request(s, o, d, f)
    ensures CaptureFrom(s, 0, "para", "em") == Some(d)
  {
    NoParaBeforeDestination(s, o, d, f);
    CaptureFromSkips(s, 0, 4 + |o|, "para", "em");
    DestinationCapture(s, o, d, f);
  }

  lemma DestinationCapture(s: string, o: string, d: string, f: string)
    requires PlaceWord(d) && |f| > 0 && Request(s, o, d, f)
    ensures CaptureFrom(s, 4 + |o|, "para", "em") == Some(d)
  {
    var p := 4 + |o|;
    var end := p + 5 + |d|;
    assert StartsAtIgnoreCase(s, p, "para");
    assert StartsAtIgnoreCase(s, end + 1, "em");
    assert IsWhiteSpace(s[end + 3]);
    CaptureOfWord(s, p, "para", d, "em");
  }

  /** `dd/` at `q`. */
  lemma TwoDigitsSlash(s: string, q: nat)
    requires q + 2 < |s| && IsAsciiDigit(s[q]) && IsAsciiDigit(s[q + 1]) && s[q + 2] == '/'
    ensures ShortNumberSlash(s, q) == Some(q + 3)
  {
    assert Run(s, q + 2, IsAsciiDigit) == 0;
  }

  /** `dddd` closing the message. */
  lemma FourDigitsAtEnd(s: string, q: nat)
    requires |s| == q + 4 && forall k :: q <= k < q + 4 ==> IsAsciiDigit(s[k])
    ensures Run(s, q, IsAsciiDigit) == 4
  {
    assert Run(s, q + 4, IsAsciiDigit) == 0;
    assert Run(s, q + 3, IsAsciiDigit) == 1;
    assert Run(s, q + 2, IsAsciiDigit) == 2;
  }

  /** "em dd/mm/yyyy" at the end of a message is the numeric date
      alternative, and its group is the date as written. */
  lemma NumericDateAtEnd(s: string, i: nat, date: Date)
    requires ValidDate(date) && |s| == i + 13
    requires s[i] == 'e' && s[i + 1] == 'm' && s[i + 2] == ' '
    requires forall k :: 0 <= k < 10 ==> s[i + 3 + k] == FormatDdMmYyyy(date)[k]
    ensures NumericDateAt(s, i) == Some(FormatDdMmYyyy(date))
  {
    var f := FormatDdMmYyyy(date);
    FormatShape(date);
    var q := i + 3;
    assert s[q] == f[0] && s[q + 1] == f[1] && s[q + 2] == f[2];
    TwoDigitsSlash(s, q);
    assert s[q + 3] == f[3] && s[q + 4] == f[4] && s[q + 5] == f[5];
    TwoDigitsSlash(s, q + 3);
    assert s[q + 9] == f[9] && s[q + 8] == f[8] && s[q + 7] == f[7] && s[q + 6] == f[6];
    FourDigitsAtEnd(s, q + 6);
    NumericDateOfParts(s, i);
    assert s[q..q + 10] == f;
  }

  /** `em`, one space, `dd/`, `dd/` and four digits at `i`. */
  lemma NumericDateOfParts(s: string, i: nat)
    requires i + 13 <= |s| && s[i] == 'e' && s[i + 1] == 'm' && s[i + 2] == ' ' && !IsWhiteSpace(s[i + 3])
    requires ShortNumberSlash(s, i + 3) == Some(i + 6) && ShortNumberSlash(s, i + 6) == Some(i + 9)
    requires Run(s, i + 9, IsAsciiDigit) >= 4
    ensures NumericDateAt(s, i) == Some(s[i + 3..i + 13])
  {
    assert StartsAt(s, i, "em");
    assert Run(s, i + 2, IsWhiteSpace) == 1;
  }

  /** No digit occurs in "de o para d em". */
  lemma NoDigitBeforeDate(s: string, o: string, d: string, f: string)
    requires PlaceWord(o) && PlaceWord(d) && Request(s, o, d, f)
    ensures forall k :: 0 <= k <= 10 + |o| + |d| ==> !IsAsciiDigit(s[k])
  {
    forall k | 0 <= k <= 10 + |o| + |d| ensures !IsAsciiDigit(s[k]) {
      if 3 <= k < 3 + |o| {
        assert s[k] == o[k - 3];
      } else if 9 + |o| <= k < 9 + |o| + |d| {
        assert s[k] == d[k - 9 - |o|];
      }
    }
  }

  /** The date group of a request in the documented form is its date
      as written. */
  lemma DateGroupOfRequest(s: string, o: string, d: string, date: Date)
    requires PlaceWord(o) && PlaceWord(d) && ValidDate(date)
    requires Request(s, o, d, FormatDdMmYyyy(date))
    ensures DateGroupFrom(s, 0) == Some(FormatDdMmYyyy(date))
  {
    var f := FormatDdMmYyyy(date);
    var e := 10 + |o| + |d|;
    NoDigitBeforeDate(s, o, d, f);
    NoDateBefore(s, e);
    DateGroupFromSkips(s, 0, e);
    assert forall k :: 0 <= k < 10 ==> s[e + 3 + k] == f[k] by {
      forall k | 0 <= k < 10 ensures s[e + 3 + k] == f[k] {
        assert e + 3 + k == 9 + |o| + |d| + 4 + k;
      }
    }
    NumericDateAtEnd(s, e, date);
    NumericDateHit(s, e);
  }

  lemma NumericDateHit(s: string, i: nat)
    requires i <= |s| && NumericDateAt(s, i).Some?
    ensures DateGroupFrom(s, i) == NumericDateAt(s, i)
  {
  }

  /** The date of a request in the documented form. */
  lemma DateOfRequest(s: string, o: string, d: string, date: Date)
    requires PlaceWord(o) && PlaceWord(d) && ValidDate(date)
    requires Request(s, o, d, FormatDdMmYyyy(date))
    ensures DateOf(DateGroupFrom(s, 0)) == Some(date)
  {
    DateGroupOfRequest(s, o, d, date);
    ParseFormatRoundTrip(date);
  }

  /** What the extractor makes of a request laid out as "de o para d
      em dd/mm/yyyy". */
  lemma LaidOutRequestUnderstood(s: string, o: string, d: string, date: Date)
    requires PlaceWord(o) && PlaceWord(d) && FreeOfPara(o) && ValidDate(date)
    requires Request(s, o, d, FormatDdMmYyyy(date))
    ensures ExtractFlightSearchParams(s) == SearchParams(true, Some(o), Some(d), Some(date))
  {
    OriginOfRequest(s, o, d, FormatDdMmYyyy(date));
    DestinationOfRequest(s, o, d, FormatDdMmYyyy(date));
    DateOfRequest(s, o, d, date);
    TrimOfUnpadded(o);
    TrimOfUnpadded(d);
  }

  /** A request written "de <origin> para <destination> em dd/mm/yyyy",
      with one-word place names and an origin in which "para" does not
      occur, is valid and gives back exactly its origin, destination and
      date. */
  lemma SearchRequestRoundTrip(s: string, o: string, d: string, date: Date)
    requires PlaceWord(o) && PlaceWord(d) && FreeOfPara(o) && ValidDate(date)
    requires s == "de " + o + " para " + d + " em " + FormatDdMmYyyy(date)
    ensures ExtractFlightSearchParams(s) == SearchParams(true, Some(o), Some(d), Some(date))
  {
    RequestLayout(s, o, d, FormatDdMmYyyy(date));
    LaidOutRequestUnderstood(s, o, d, date);
  }

  // ---------------------------------------------------------------------
  // Dates written out in words

  lemma {:induction false} DateGroupOfLongDate(s: string, from: nat, i: nat)
    requires from <= i <= |s| && LongDateAt(s, i)
    requires forall j :: from <= j <= i ==> NumericDateAt(s, j).Null?
    ensures DateGroupFrom(s, from) == Some([])
    decreases i - from
  {
    if from < i && !LongDateAt(s, from) {
      DateGroupFromStep(s, from);
      DateGroupOfLongDate(s, from + 1, i);
    } else {
      LongDateHit(s, from);
    }
  }

  lemma LongDateHit(s: string, i: nat)
    requires i <= |s| && NumericDateAt(s, i).Null? && LongDateAt(s, i)
    ensures DateGroupFrom(s, i) == Some([])
  {
  }

  /** A date written out in words, such as "10 de julho de 2025", matches
      the second alternative of the date pattern, whose text is not the
      group that is parsed: when it comes first, the message has no date
      and is not a valid search. */
  lemma LongDateGivesNoDate(message: string, i: nat)
    requires i <= |message| && LongDateAt(message, i)
    requires forall j :: 0 <= j <= i ==> NumericDateAt(message, j).Null?
    ensures ExtractFlightSearchParams(message).date.Null?
    ensures !ExtractFlightSearchParams(message).isValid
  {
    DateGroupOfLongDate(message, 0, i);
  }

  // ---------------------------------------------------------------------
  // The engine's own examples

  /** The example the engine gives when it asks for search details
      names no origin, so it is not a valid search. */
  lemma AskedExampleHasNoOrigin(asked: string)
    requires asked == "voo para Lisboa em 15/07/2025"
    ensures !ExtractFlightSearchParams(asked).isValid
  {
    NoLetterDNoDe(asked);
    NoOriginNoSearch(asked);
  }

  /** Nor is the example of the help text. */
  lemma HelpExampleHasNoOrigin(help: string)
    requires help == "buscar voo para Paris em 10/08/2025"
    ensures !ExtractFlightSearchParams(help).isValid
  {
    NoLetterDNoDe(help);
    NoOriginNoSearch(help);
  }

  /** A message in which "de" occurs nowhere, in any case, names no
      origin, and so is never a valid search. */
  lemma NoOriginNoSearch(s: string)
    requires forall i :: 0 <= i <= |s| ==> !StartsAtIgnoreCase(s, i, "de")
    ensures ExtractFlightSearchParams(s).origin.Null?
    ensures !ExtractFlightSearchParams(s).isValid
  {
    CaptureFromSkips(s, 0, |s|, "de", "para");
  }

  /** Without a "d" in either case there is no "de" to find. */
  lemma NoLetterDNoDe(s: string)
    requires 'd' !in s && 'D' !in s
    ensures forall i :: 0 <= i <= |s| ==> !StartsAtIgnoreCase(s, i, "de")
  {
    forall i | 0 <= i <= |s| ensures !StartsAtIgnoreCase(s, i, "de") {
      if i < |s| {
        assert s[i] in s;
        assert ToLower(s[i]) != "de"[0];
      }
    }
  }
}
