/** Intent detection of the chat engine (`DetectIntent`): keyword
    patterns tried on the lower-cased message in a fixed order, with the
    intent stored in the session deciding the contextual rules. */
module IntentDetection {
  import opened Text
  import opened Extractors

  /** The private `Intent` enumeration of the chat service. */
  datatype Intent =
    | None | Greeting | Help | SearchFlights | BookFlight
    | WaitingForFlightDetails | WaitingForFlightSelection | ConfirmFlightBooking

  /** `\bw\b` at position `i`. */
  predicate WordAt(s: string, i: nat, w: string)
  {
    i + |w| <= |s| && WordBoundary(s, i) && StartsAt(s, i, w) && WordBoundary(s, i + |w|)
  }

  /** `\b(w1|w2|…)\b` matches somewhere in `s`. */
  predicate ContainsWord(s: string, words: seq<string>)
  {
    exists i, k :: 0 <= i <= |s| && 0 <= k < |words| && WordAt(s, i, words[k])
  }

  const Greetings: seq<string> := ["olá", "oi", "bom dia", "boa tarde", "boa noite"]

  const HelpWords: seq<string> := ["ajuda", "socorro", "help", "help me"]

  /** One alternative of a verb or noun group: a fixed prefix, followed by
      `\w*` when `takesRun` holds. */
  datatype Stem = Stem(prefix: string, takesRun: bool)

  /** Where the alternative `stem` ends when it starts at `i`.  A greedy
      `\w*` followed by `\s` or `\b` only succeeds after the whole run of
      word characters, so the run is taken whole. */
  function StemEnd(s: string, i: nat, stem: Stem): (e: nat)
    requires i + |stem.prefix| <= |s|
    ensures i + |stem.prefix| <= e <= |s|
  {
    var p := i + |stem.prefix|;
    if stem.takesRun then p + Run(s, p, IsWordChar) else p
  }

  /** `\b(verb)\s+(noun)\b` matches at position `i`.  The greedy `\s+` is
      followed by a letter, so it too succeeds only as the whole run. */
  predicate PhraseAt(s: string, i: nat, verb: Stem, noun: Stem)
    requires i <= |s|
  {
    && WordBoundary(s, i) && StartsAt(s, i, verb.prefix)
    && var e := StemEnd(s, i, verb);
       var spaces := Run(s, e, IsWhiteSpace);
       && spaces > 0
       && StartsAt(s, e + spaces, noun.prefix)
       && WordBoundary(s, StemEnd(s, e + spaces, noun))
  }

  /** `\b(v1|v2|…)\s+(n1|n2|…)\b` matches somewhere in `s`. */
  predicate ContainsPhrase(s: string, verbs: seq<Stem>, nouns: seq<Stem>)
  {
    exists i, v, n :: 0 <= i <= |s| && 0 <= v < |verbs| && 0 <= n < |nouns| && PhraseAt(s, i, verbs[v], nouns[n])
  }

  /** `busca\w*|pesquis\w*|procur\w*|achar|acha|encontra\w*` */
  const SearchVerbs: seq<Stem> :=
    [Stem("busca", true), Stem("pesquis", true), Stem("procur", true),
     Stem("achar", false), Stem("acha", false), Stem("encontra", true)]

  /** `voo|passagem` */
  const SearchNouns: seq<Stem> := [Stem("voo", false), Stem("passagem", false)]

  /** `reserv\w*|compr\w*` */
  const BookingVerbs: seq<Stem> := [Stem("reserv", true), Stem("compr", true)]

  /** `voo\w*|passage\w*` */
  const BookingNouns: seq<Stem> := [Stem("voo", true), Stem("passage", true)]

  /** The answers that settle a pending booking confirmation. */
  predicate IsConfirmAnswer(m: string)
  {
    m == "sim" || m == "não" || m == "nao"
  }

  /** `Regex.IsMatch` with the flight-number pattern. */
  predicate ContainsFlightCode(s: string)
  {
    FindFlightCode(s, 0).Some?
  }

  /** The confirmation rule: a pending confirmation answered. */
  predicate ConfirmRule(m: string, current: Intent)
  {
    current == ConfirmFlightBooking && IsConfirmAnswer(m)
  }

  /** The search rule: a search phrase, or valid parameters while the
      session waits for them. */
  predicate SearchRule(m: string, current: Intent)
  {
    ContainsPhrase(m, SearchVerbs, SearchNouns)
    || (current == WaitingForFlightDetails && ExtractFlightSearchParams(m).isValid)
  }

  /** The booking rule: a booking phrase, or a flight number while the
      session waits for a selection. */
  predicate BookRule(m: string, current: Intent)
  {
    ContainsPhrase(m, BookingVerbs, BookingNouns)
    || (current == WaitingForFlightSelection && ExtractFlightNumber(m).Some?)
  }

  /** `DetectIntent`: the rules in the order the service tries them, the
      first that applies deciding.  Each intent is answered exactly when
      its rule applies and no earlier rule does; the waiting intents,
      which only the handlers store, are never answered, and `None` is
      answered exactly when no rule applies. */
  function DetectIntent(message: string, current: Intent): (r: Intent)
    ensures r != WaitingForFlightDetails && r != WaitingForFlightSelection
    ensures var m := LowerStr(message);
      r == ConfirmFlightBooking <==> ConfirmRule(m, current)
    ensures var m := LowerStr(message);
      r == Greeting <==> !ConfirmRule(m, current) && ContainsWord(m, Greetings)
    ensures var m := LowerStr(message);
      r == Help <==>
        && !ConfirmRule(m, current) && !ContainsWord(m, Greetings)
        && ContainsWord(m, HelpWords)
    ensures var m := LowerStr(message);
      r == SearchFlights <==>
        && !ConfirmRule(m, current) && !ContainsWord(m, Greetings) && !ContainsWord(m, HelpWords)
        && SearchRule(m, current)
    ensures var m := LowerStr(message);
      r == BookFlight <==>
        && !ConfirmRule(m, current) && !ContainsWord(m, Greetings) && !ContainsWord(m, HelpWords)
        && !SearchRule(m, current) && BookRule(m, current)
    ensures var m := LowerStr(message);
      r == None <==>
        && !ConfirmRule(m, current) && !ContainsWord(m, Greetings) && !ContainsWord(m, HelpWords)
        && !SearchRule(m, current) && !BookRule(m, current)
  {
    var m := LowerStr(message);
    if current == ConfirmFlightBooking && IsConfirmAnswer(m) then ConfirmFlightBooking
    else if ContainsWord(m, Greetings) then Greeting
    else if ContainsWord(m, HelpWords) then Help
    else if ContainsPhrase(m, SearchVerbs, SearchNouns)
         || (current == WaitingForFlightDetails && ExtractFlightSearchParams(m).isValid) then SearchFlights
    else if ContainsPhrase(m, BookingVerbs, BookingNouns)
         || (current == WaitingForFlightSelection && ExtractFlightNumber(m).Some?) then BookFlight
    else if current == WaitingForFlightSelection && ContainsFlightCode(m) then
      FlightCodeCaught(m);
      BookFlight
    else if current == WaitingForFlightDetails && ExtractFlightSearchParams(m).isValid then SearchFlights
    else None
  }

  /** A flight code found by `Regex.IsMatch` is also found by the
      extractor. */
  lemma FlightCodeCaught(m: string)
    requires ContainsFlightCode(m)
    ensures ExtractFlightNumber(m).Some?
  {
    FlightCodeMeansExtracted(m, FindFlightCode(m, 0).value);
  }

  /** The same classification with only the first five rules: the two
      contextual fallbacks at the end are never reached. */
  function FirstFiveRules(message: string, current: Intent): Intent
  {
    var m := LowerStr(message);
    if ConfirmRule(m, current) then ConfirmFlightBooking
    else if ContainsWord(m, Greetings) then Greeting
    else if ContainsWord(m, HelpWords) then Help
    else if SearchRule(m, current) then SearchFlights
    else if BookRule(m, current) then BookFlight
    else None
  }

  /** The rule "waiting for a selection and the message looks like a
      flight number" is already covered by the extractor test of the
      booking rule, and the rule "waiting for details and the parameters
      are valid" repeats the search rule: neither ever decides. */
  lemma LastTwoRulesAreDead(message: string, current: Intent)
    ensures DetectIntent(message, current) == FirstFiveRules(message, current)
  {
    var m := LowerStr(message);
    if current == WaitingForFlightSelection && ContainsFlightCode(m) {
      FlightCodeCaught(m);
    }
  }

  /** The classification reads the message only through its lower-case
      form: changing the case of the message never changes the intent. */
  lemma DetectIntentIgnoresCase(message: string, current: Intent)
    ensures DetectIntent(LowerStr(message), current) == DetectIntent(message, current)
  {
    LowerStrOfLower(message);
  }

  /** Outside the three waiting states the stored intent plays no part. */
  lemma DetectIntentOutsideWaitingStates(message: string, current: Intent)
    requires current !in {WaitingForFlightDetails, WaitingForFlightSelection, ConfirmFlightBooking}
    ensures DetectIntent(message, current) == FirstFiveRules(message, None)
  {
    LastTwoRulesAreDead(message, current);
  }

  /** Keyword rules come before the contextual ones: a greeting in the
      message wins over the search request beside it, even while a
      selection is pending. */
  lemma SampleGreetingWins(greeting: string)
    requires greeting == "Boa noite, buscar voo"
    ensures DetectIntent(greeting, WaitingForFlightSelection) == Greeting
  {
    var g := LowerStr(greeting);
    assert g[..9] == "boa noite";
    assert WordAt(g, 0, Greetings[4]);
    assert ContainsWord(g, Greetings);
  }

  /** "sim" settles a pending confirmation whatever its case. */
  lemma SampleConfirmation(answer: string)
    requires answer == "SIM"
    ensures DetectIntent(answer, ConfirmFlightBooking) == ConfirmFlightBooking
  {
    assert LowerStr(answer) == "sim";
  }
}
