/** The dialogue engine of the chat service (`ProcessMessageAsync`): one
    turn reads the session's state, classifies the message, runs the
    handler of the intent found and writes the new state back to the
    session store.  The ticket and AI services are the answers they give
    during the turn, passed in as parameters; the JSON of `ContextData` is
    a tagged union of the two context shapes the engine writes. */
module ChatEngine {
  import opened Text
  import opened Calendar
  import opened Extractors
  import opened IntentDetection

  /** `Flight`; the `decimal` price is a real number. */
  datatype Flight = Flight(
    flightNumber: string, origin: string, destination: string,
    departureTime: DateTime, arrivalTime: DateTime, price: real, airline: string)

  /** `ContextData`: null, a serialized `FlightSearchContext` or a
      serialized `BookingContext`. */
  datatype Context =
    | Empty
    | Search(flights: seq<Flight>, searchParams: SearchParams)
    | Booking(flightNumber: string, flightDetails: Flight)

  /** `SessionState`. */
  datatype SessionState = SessionState(currentIntent: Intent, contextData: Context)

  /** The state of a session the store does not hold yet. */
  const InitialState := SessionState(None, Empty)

  /** `Flights` of the context read back as a `FlightSearchContext`: a
      booking context has no such property, so the list keeps its empty
      initial value. */
  function SearchContextFlights(c: Context): seq<Flight>
  {
    match c
    case Search(flights, _) => flights
    case _ => []
  }

  /** `FlightNumber` of the context read back as a `BookingContext`: a
      search context has no such property, so it keeps its empty initial
      value. */
  function BookingContextNumber(c: Context): string
  {
    match c
    case Booking(n, _) => n
    case _ => ""
  }

  /** What the ticket and AI services answer during one turn:
      `SearchFlightsAsync`, `SearchAllFlightsAsync`, `BookFlightAsync`
      (flight number, user id) and `GetResponseAsync` (message, state
      description). */
  datatype Services = Services(
    searchFlights: (string, string, Date) -> seq<Flight>,
    allFlights: seq<Flight>,
    bookFlight: (string, string) -> bool,
    aiResponse: (string, string) -> string)

  /** The text of the answer, one constructor per message the engine
      composes, with the values it puts into it. */
  datatype Reply =
    | NoReply
    | FoundFlights(count: nat, destination: string, date: Date)
    | NoFlightsFound(origin: string, destination: string, date: Date)
    | AskForSearchDetails
    | BookingConfirmed(flightNumber: string)
    | BookingNotCompleted
    | BookingCancelled
    | AskYesOrNo
    | ConfirmFlight(flightNumber: string, origin: string, destination: string)
    | FlightBooked(flightNumber: string)
    | BookingProblem(flightNumber: string)
    | FlightNotFound(flightNumber: string)
    | AskForFlightNumber
    | HelpMessage
    | GreetingMessage
    | AiReply(text: string)

  /** `ActionData`: nothing, the flights found, or the flight selected. */
  datatype ActionData = NoData | FlightList(flights: seq<Flight>) | SelectedFlight(flight: Flight)

  /** What one turn produces: the reply, the action data, the flight
      number handed to `BookFlightAsync` (if the turn booked), and the
      session's new state. */
  datatype Outcome = Outcome(reply: Reply, actionData: ActionData, bookingRequest: Option<string>, state: SessionState)

  /** `ChatMessageRequest`. */
  datatype ChatMessageRequest = ChatMessageRequest(userId: string, message: string, sessionId: Option<string>)

  /** `ChatMessageResponse`. */
  datatype ChatMessageResponse = ChatMessageResponse(response: Reply, sessionId: string, actionData: ActionData)

  function OrEmpty(s: Option<string>): string
  {
    if s.Some? then s.value else ""
  }

  /** The name C# gives an `Intent` value. */
  function IntentName(i: Intent): string
  {
    match i
    case None => "None"
    case Greeting => "Greeting"
    case Help => "Help"
    case SearchFlights => "SearchFlights"
    case BookFlight => "BookFlight"
    case WaitingForFlightDetails => "WaitingForFlightDetails"
    case WaitingForFlightSelection => "WaitingForFlightSelection"
    case ConfirmFlightBooking => "ConfirmFlightBooking"
  }

  /** `SessionState.ToString()`, the context handed to the AI service.  A
      serialized context is never the empty string. */
  function Describe(s: SessionState): string
  {
    "Intent: " + IntentName(s.currentIntent) + ", Context: " + (if s.contextData.Empty? then "Empty" else "Present")
  }

  /** `FirstOrDefault` over flights by number, compared ignoring case: the
      first listed flight with that number. */
  function FindFlight(flights: seq<Flight>, number: string): (r: Option<Flight>)
    ensures r.Some? ==> r.value in flights && EqualsIgnoreCase(r.value.flightNumber, number)
    ensures r.Some? ==>
      exists k :: 0 <= k < |flights| && flights[k] == r.value &&
        (forall j :: 0 <= j < k ==> !EqualsIgnoreCase(flights[j].flightNumber, number))
    ensures r.Null? <==> forall f :: f in flights ==> !EqualsIgnoreCase(f.flightNumber, number)
  {
    if flights == [] then Null
    else if EqualsIgnoreCase(flights[0].flightNumber, number) then Some(flights[0])
    else
      assert forall f :: f in flights ==> f == flights[0] || f in flights[1..];
      FindFlight(flights[1..], number)
  }

  // -----------------------------------------------------------------------
  // The turn, as a function of the state before it

  /** The `SearchFlights` case. */
  function SearchTurn(state: SessionState, p: SearchParams, services: Services): Outcome
    requires p.isValid ==> p.destination.Some? && p.date.Some?
  {
    if !p.isValid then
      Outcome(AskForSearchDetails, NoData, Null, SessionState(WaitingForFlightDetails, state.contextData))
    else
      var origin, destination, date := OrEmpty(p.origin), p.destination.value, p.date.value;
      var flights := services.searchFlights(origin, destination, date);
      if |flights| > 0 then
        Outcome(FoundFlights(|flights|, destination, date), FlightList(flights), Null,
                SessionState(WaitingForFlightSelection, Search(flights, p)))
      else
        Outcome(NoFlightsFound(origin, destination, date), NoData, Null, InitialState)
  }

  /** The `ConfirmFlightBooking` case.  The answer is compared ignoring
      case; a missing context books nothing and leaves the reply empty. */
  function ConfirmTurn(state: SessionState, userId: string, message: string, services: Services): Outcome
  {
    if EqualsIgnoreCase(message, "sim") then
      if state.contextData.Empty? then Outcome(NoReply, NoData, Null, InitialState)
      else
        var n := BookingContextNumber(state.contextData);
        var reply := if services.bookFlight(n, userId) then BookingConfirmed(n) else BookingNotCompleted;
        Outcome(reply, NoData, Some(n), InitialState)
    else if EqualsIgnoreCase(message, "não") || EqualsIgnoreCase(message, "nao") then
      Outcome(BookingCancelled, NoData, Null, InitialState)
    else
      Outcome(AskYesOrNo, NoData, Null, state)
  }

  /** The `BookFlight` case: the flight is looked for in the context of
      the last search and then among all flights; one found in the context
      is booked at once, one found only among all flights is offered for
      confirmation. */
  function BookTurn(state: SessionState, userId: string, flightNumber: Option<string>, services: Services): Outcome
  {
    match flightNumber
    case Null => Outcome(AskForFlightNumber, NoData, Null, state)
    case Some(n) =>
      var inContext := if state.contextData.Empty? then Null else FindFlight(SearchContextFlights(state.contextData), n);
      if inContext.Some? then
        if services.bookFlight(n, userId) then Outcome(FlightBooked(n), NoData, Some(n), InitialState)
        else Outcome(BookingProblem(n), NoData, Some(n), state)
      else
        match FindFlight(services.allFlights, n)
        case Some(f) =>
          Outcome(ConfirmFlight(n, f.origin, f.destination), SelectedFlight(f), Null,
                  SessionState(ConfirmFlightBooking, Booking(n, f)))
        case Null => Outcome(FlightNotFound(n), NoData, Null, InitialState)
  }

  /** One turn of `ProcessMessageAsync` on the session's state. */
  function Turn(state: SessionState, userId: string, message: string, services: Services): Outcome
  {
    Dispatch(state, DetectIntent(message, state.currentIntent), userId, message, services)
  }

  /** The `switch` on the intent detected. */
  function Dispatch(state: SessionState, intent: Intent, userId: string, message: string, services: Services): Outcome
  {
    match intent
    case SearchFlights => SearchTurn(state, ExtractFlightSearchParams(message), services)
    case ConfirmFlightBooking => ConfirmTurn(state, userId, message, services)
    case BookFlight => BookTurn(state, userId, ExtractFlightNumber(message), services)
    case Help => Outcome(HelpMessage, NoData, Null, InitialState)
    case Greeting => Outcome(GreetingMessage, NoData, Null, InitialState)
    case _ => Outcome(AiReply(services.aiResponse(message, Describe(state))), NoData, Null, state)
  }

  /** `GetValueOrDefault`: the stored state, or the initial one. */
  function StateOf(store: map<string, SessionState>, sessionId: string): SessionState
  {
    if sessionId in store then store[sessionId] else InitialState
  }

  /** `request.SessionId ?? Guid.NewGuid().ToString()`, the fresh id being
      a parameter. */
  function SessionIdOf(request: ChatMessageRequest, freshId: string): string
  {
    if request.sessionId.Some? then request.sessionId.value else freshId
  }

  /** The states the engine can store: a waiting intent or `None`, and a
      context of the shape that intent relies on. */
  predicate WellFormed(s: SessionState)
  {
    && s.currentIntent in {None, WaitingForFlightDetails, WaitingForFlightSelection, ConfirmFlightBooking}
    && (s.currentIntent == None ==> s.contextData == Empty)
    && (s.currentIntent == WaitingForFlightSelection ==> s.contextData.Search?)
    && (s.currentIntent == ConfirmFlightBooking ==> s.contextData.Booking?)
    && (s.contextData.Search? ==> |s.contextData.flights| > 0 && s.contextData.searchParams.isValid)
    && (s.contextData.Booking? ==>
          IsFlightNumber(s.contextData.flightNumber)
          && EqualsIgnoreCase(s.contextData.flightDetails.flightNumber, s.contextData.flightNumber))
  }

  // ---------------------------------------------------------------------
  // The handlers as the service runs them.  `ProcessMessageAsync` works
  // by assigning its locals (`responseMessage`, `actionData`, the new
  // state) branch by branch; the three methods below keep that form and
  // are what `ChatService.ProcessMessage` executes.  Lemmas cannot call
  // methods, so each method is proved equal to its turn function above,
  // and the properties of a turn are proved about those functions.

  /** The `SearchFlights` case of `ProcessMessageAsync`, step by step. */
  method SearchCase(state: SessionState, message: string, services: Services) returns (o: Outcome)
    ensures o == SearchTurn(state, ExtractFlightSearchParams(message), services)
  {
    var responseMessage := NoReply;
    var actionData := NoData;
    var intent, contextData := state.currentIntent, state.contextData;
    var searchParams := ExtractFlightSearchParams(message);
    if searchParams.isValid {
      var origin := OrEmpty(searchParams.origin);
      var flights := services.searchFlights(origin, searchParams.destination.value, searchParams.date.value);
      if |flights| > 0 {
        responseMessage := FoundFlights(|flights|, searchParams.destination.value, searchParams.date.value);
        actionData := FlightList(flights);
        intent := WaitingForFlightSelection;
        contextData := Search(flights, searchParams);
      } else {
        responseMessage := NoFlightsFound(origin, searchParams.destination.value, searchParams.date.value);
        intent := None;
        contextData := Empty;
      }
    } else {
      responseMessage := AskForSearchDetails;
      intent := WaitingForFlightDetails;
    }
    return Outcome(responseMessage, actionData, Null, SessionState(intent, contextData));
  }

  /** The `ConfirmFlightBooking` case of `ProcessMessageAsync`, step by
      step. */
  method ConfirmCase(state: SessionState, userId: string, message: string, services: Services) returns (o: Outcome)
    ensures o == ConfirmTurn(state, userId, message, services)
  {
    var responseMessage := NoReply;
    var bookingRequest: Option<string> := Null;
    var intent, contextData := state.currentIntent, state.contextData;
    if EqualsIgnoreCase(message, "sim") {
      if !contextData.Empty? {
        var number := BookingContextNumber(contextData);
        var booked := services.bookFlight(number, userId);
        bookingRequest := Some(number);
        if booked {
          responseMessage := BookingConfirmed(number);
        } else {
          responseMessage := BookingNotCompleted;
        }
      }
      intent := None;
      contextData := Empty;
    } else if EqualsIgnoreCase(message, "não") || EqualsIgnoreCase(message, "nao") {
      responseMessage := BookingCancelled;
      intent := None;
      contextData := Empty;
    } else {
      responseMessage := AskYesOrNo;
    }
    return Outcome(responseMessage, NoData, bookingRequest, SessionState(intent, contextData));
  }

  /** The `BookFlight` case of `ProcessMessageAsync`, step by step; the
      early `break` after offering a flight is the flag `offered`. */
  method BookCase(state: SessionState, userId: string, message: string, services: Services) returns (o: Outcome)
    ensures o == BookTurn(state, userId, ExtractFlightNumber(message), services)
  {
    var responseMessage := NoReply;
    var actionData := NoData;
    var bookingRequest: Option<string> := Null;
    var intent, contextData := state.currentIntent, state.contextData;
    var flightNumberToBook := ExtractFlightNumber(message);
    if flightNumberToBook.Some? {
      var number := flightNumberToBook.value;
      var flightToBook: Option<Flight> := Null;
      if !contextData.Empty? {
        flightToBook := FindFlight(SearchContextFlights(contextData), number);
      }
      var offered := false;
      if flightToBook.Null? {
        flightToBook := FindFlight(services.allFlights, number);
        if flightToBook.Some? {
          var f := flightToBook.value;
          responseMessage := ConfirmFlight(number, f.origin, f.destination);
          intent := ConfirmFlightBooking;
          contextData := Booking(number, f);
          actionData := SelectedFlight(f);
          offered := true;
        }
      }
      if !offered {
        if flightToBook.Some? {
          var booked := services.bookFlight(number, userId);
          bookingRequest := Some(number);
          if booked {
            responseMessage := FlightBooked(number);
            intent := None;
            contextData := Empty;
          } else {
            responseMessage := BookingProblem(number);
          }
        } else {
          responseMessage := FlightNotFound(number);
          intent := None;
          contextData := Empty;
        }
      }
    } else {
      responseMessage := AskForFlightNumber;
    }
    return Outcome(responseMessage, actionData, bookingRequest, SessionState(intent, contextData));
  }

  /** Writing a well-formed state keeps every state of the store well
      formed. */
  lemma StoreKeepsWellFormed(store: map<string, SessionState>, sessionId: string, s: SessionState,
                              updated: map<string, SessionState>)
    requires forall sid :: sid in store ==> WellFormed(store[sid])
    requires WellFormed(s) && updated == store[sessionId := s]
    ensures forall sid :: sid in updated ==> WellFormed(updated[sid])
  {
  }

  class ChatService {
    /** `_sessionContext`. */
    var sessionContext: map<string, SessionState>

    ghost predicate Valid()
      reads this
    {
      forall sid :: sid in sessionContext ==> WellFormed(sessionContext[sid])
    }

    constructor ()
      ensures Valid() && sessionContext == map[]
    {
      sessionContext := map[];
    }

    /** `ProcessMessageAsync`: the session's state is read (or the initial
        one), the intent detected, the case for it run, and the new state
        written back under the session id, which is the request's or, when
        it has none, `freshId`. */
    method ProcessMessage(request: ChatMessageRequest, freshId: string, services: Services)
      returns (response: ChatMessageResponse)
      requires Valid()
      modifies this
      ensures Valid()
      ensures var sid := SessionIdOf(request, freshId);
        var o := Turn(StateOf(old(sessionContext), sid), request.userId, request.message, services);
        && sessionContext == old(sessionContext)[sid := o.state]
        && response == ChatMessageResponse(o.reply, sid, o.actionData)
    {
      var sessionId := if request.sessionId.Some? then request.sessionId.value else freshId;
      var currentState := if sessionId in sessionContext then sessionContext[sessionId] else InitialState;
      ghost var next := Turn(currentState, request.userId, request.message, services);
      TurnKeepsWellFormed(currentState, request.userId, request.message, services);

      var outcome: Outcome;
      var detectedIntent := DetectIntent(request.message, currentState.currentIntent);
      assert next == Dispatch(currentState, detectedIntent, request.userId, request.message, services);
      match detectedIntent {
        case SearchFlights =>
          outcome := SearchCase(currentState, request.message, services);
        case ConfirmFlightBooking =>
          outcome := ConfirmCase(currentState, request.userId, request.message, services);
        case BookFlight =>
          outcome := BookCase(currentState, request.userId, request.message, services);
        case Help =>
          outcome := Outcome(HelpMessage, NoData, Null, InitialState);
        case Greeting =>
          outcome := Outcome(GreetingMessage, NoData, Null, InitialState);
        case _ =>
          var answer := services.aiResponse(request.message, Describe(currentState));
          outcome := Outcome(AiReply(answer), NoData, Null, currentState);
      }

      assert outcome == next;
      StoreKeepsWellFormed(sessionContext, sessionId, outcome.state, sessionContext[sessionId := outcome.state]);
      sessionContext := sessionContext[sessionId := outcome.state];
      response := ChatMessageResponse(outcome.reply, sessionId, outcome.actionData);
    }
  }

  // -----------------------------------------------------------------------
  // Properties of a turn

  /** A lower-cased answer "sim", "não" or "nao" also passes the
      case-insensitive comparison of the handler. */
  lemma AnswerIgnoringCase(message: string, answer: string)
    requires LowerStr(message) == answer
    ensures EqualsIgnoreCase(message, answer)
  {
    UpperOfLowerStr(message);
    LowerStrOfLower(message);
    UpperOfLowerStr(answer);
  }

  lemma SearchTurnKeepsWellFormed(state: SessionState, p: SearchParams, services: Services)
    requires WellFormed(state)
    requires p.isValid ==> p.destination.Some? && p.date.Some?
    ensures WellFormed(SearchTurn(state, p, services).state)
  {
  }

  lemma ConfirmTurnKeepsWellFormed(state: SessionState, userId: string, message: string, services: Services)
    requires WellFormed(state) && state.currentIntent == ConfirmFlightBooking
    ensures WellFormed(ConfirmTurn(state, userId, message, services).state)
  {
  }

  lemma BookTurnKeepsWellFormed(state: SessionState, userId: string, flightNumber: Option<string>, services: Services)
    requires WellFormed(state)
    requires flightNumber.Some? ==> IsFlightNumber(flightNumber.value)
    ensures WellFormed(BookTurn(state, userId, flightNumber, services).state)
  {
    if flightNumber.Some? {
      var n := flightNumber.value;
      var found := FindFlight(services.allFlights, n);
      if found.Some? {
        EqualsIgnoreCaseIsEquivalence(found.value.flightNumber, n, n);
      }
    }
  }

  /** Every turn keeps the session's state well formed. */
  lemma TurnKeepsWellFormed(state: SessionState, userId: string, message: string, services: Services)
    requires WellFormed(state)
    ensures WellFormed(Turn(state, userId, message, services).state)
  {
    match DetectIntent(message, state.currentIntent)
    case SearchFlights => SearchTurnKeepsWellFormed(state, ExtractFlightSearchParams(message), services);
    case ConfirmFlightBooking => ConfirmTurnKeepsWellFormed(state, userId, message, services);
    case BookFlight => BookTurnKeepsWellFormed(state, userId, ExtractFlightNumber(message), services);
    case _ =>
  }

  /** A pending confirmation answered with "sim", "não" or "nao", in any
      case, always ends the booking dialogue: the session returns to its
      initial state, and the request to answer yes or no is never given. */
  lemma ConfirmationEndsTheDialogue(state: SessionState, userId: string, message: string, services: Services)
    requires state.currentIntent == ConfirmFlightBooking && IsConfirmAnswer(LowerStr(message))
    ensures var o := Turn(state, userId, message, services);
      o.state == InitialState && o.reply != AskYesOrNo
  {
    AnswerIgnoringCase(message, LowerStr(message));
  }

  /** "sim" books the flight of the stored booking context, for the user
      of the request, and reports the service's answer; "não" or "nao"
      cancel without booking. */
  lemma ConfirmationBooksStoredFlight(state: SessionState, userId: string, message: string, services: Services)
    requires WellFormed(state) && state.currentIntent == ConfirmFlightBooking
    requires IsConfirmAnswer(LowerStr(message))
    ensures var o := Turn(state, userId, message, services);
      var n := state.contextData.flightNumber;
      && (LowerStr(message) == "sim" ==>
            o.bookingRequest == Some(n)
            && o.reply == (if services.bookFlight(n, userId) then BookingConfirmed(n) else BookingNotCompleted))
      && (LowerStr(message) != "sim" ==> o.bookingRequest == Null && o.reply == BookingCancelled)
  {
    var m := LowerStr(message);
    AnswerIgnoringCase(message, m);
    if m != "sim" {
      assert !EqualsIgnoreCase(message, "sim") by {
        UpperOfLowerStr(message);
        assert UpperStr(message)[0] == 'N';
      }
    }
  }

  /** A booking from the booking case is for a flight listed by the last
      search. */
  lemma BookTurnBooksListedFlight(state: SessionState, userId: string, flightNumber: Option<string>, services: Services)
    ensures var o := BookTurn(state, userId, flightNumber, services);
      o.bookingRequest.Some? ==>
        && o.bookingRequest == flightNumber
        && exists f :: f in SearchContextFlights(state.contextData) && EqualsIgnoreCase(f.flightNumber, flightNumber.value)
  {
    if flightNumber.Some? && !state.contextData.Empty? {
      var found := FindFlight(SearchContextFlights(state.contextData), flightNumber.value);
      if found.Some? {
        assert found.value in SearchContextFlights(state.contextData);
      }
    }
  }

  /** Every flight number the engine hands to the booking service was
      confirmed by the user or taken from the flights listed by the last
      search, and has the shape of a flight number. */
  lemma BookingsAreForShownFlights(state: SessionState, userId: string, message: string, services: Services)
    requires WellFormed(state)
    ensures var o := Turn(state, userId, message, services);
      o.bookingRequest.Some? ==>
        && IsFlightNumber(o.bookingRequest.value)
        && (|| (state.currentIntent == ConfirmFlightBooking && o.bookingRequest.value == state.contextData.flightNumber)
            || (exists f :: f in SearchContextFlights(state.contextData)
                  && EqualsIgnoreCase(f.flightNumber, o.bookingRequest.value)))
  {
    match DetectIntent(message, state.currentIntent)
    case BookFlight => BookTurnBooksListedFlight(state, userId, ExtractFlightNumber(message), services);
    case ConfirmFlightBooking => ConfirmTurnBooksStoredFlight(state, userId, message, services);
    case SearchFlights => assert Turn(state, userId, message, services).bookingRequest == Null;
    case _ =>
  }

  /** A booking from the confirmation case is for the flight of the stored
      booking context. */
  lemma ConfirmTurnBooksStoredFlight(state: SessionState, userId: string, message: string, services: Services)
    requires WellFormed(state) && state.currentIntent == ConfirmFlightBooking
    ensures var o := ConfirmTurn(state, userId, message, services);
      o.bookingRequest.Some? ==> o.bookingRequest == Some(state.contextData.flightNumber)
  {
  }

  /** The search case: parameters that do not validate ask for details
      and keep the context; a valid search without flights resets the
      session; one with flights lists them and waits for a selection. */
  lemma SearchOutcomes(state: SessionState, userId: string, message: string, services: Services)
    requires DetectIntent(message, state.currentIntent) == SearchFlights
    ensures var o := Turn(state, userId, message, services);
      var p := ExtractFlightSearchParams(message);
      && (!p.isValid ==> o.state == SessionState(WaitingForFlightDetails, state.contextData) && o.reply == AskForSearchDetails)
      && (p.isValid ==>
            var flights := services.searchFlights(p.origin.value, p.destination.value, p.date.value);
            && (flights == [] ==> o.state == InitialState && o.actionData == NoData)
            && (flights != [] ==>
                  o.state.currentIntent == WaitingForFlightSelection
                  && o.state.contextData.flights == flights && o.actionData == FlightList(flights)))
      && o.bookingRequest == Null
  {
    assert Turn(state, userId, message, services) == SearchTurn(state, ExtractFlightSearchParams(message), services);
  }

  /** Greeting and help reset the session; a booking request without a
      flight number and a message nothing recognises leave it as it was. */
  lemma KeywordOutcomes(state: SessionState, userId: string, message: string, services: Services)
    ensures var i, o := DetectIntent(message, state.currentIntent), Turn(state, userId, message, services);
      && (i == Greeting || i == Help ==> o.state == InitialState)
      && (i == BookFlight && ExtractFlightNumber(message).Null? ==> o.state == state && o.reply == AskForFlightNumber)
      && (i == None ==> o.state == state && o.reply == AiReply(services.aiResponse(message, Describe(state))))
  {
  }
}
