# ChatbotBilhete core, modelled in Dafny

ChatbotBilhete is an ASP.NET service: a flight-ticket chatbot that speaks
Portuguese. This project models its core and proves properties of the model. The
core has four parts:

* **The dialogue engine** (`ChatService`).
  - A static dictionary maps a session id to the session's state: the current
    intent and a context.
  - `DetectIntent` classifies each message by keyword and context rules.
  - Two regex extractors read a flight number, or the origin, destination and
    date of a search.
  - `ProcessMessageAsync` runs one turn: it reads the session's state, runs the
    handler for the detected intent, and writes the new state back.
* **The passenger document checks** (`Passenger`): the CPF mod-11 check digits,
  the RG length and the minimum age from the birth date.
* **The refresh-token store** (`JwtService`): a list of
  (user, token, expiry) entries. The service saves (one entry per user), validates
  (an expired entry is dropped) and removes entries.
* **The user store** (`LocalAuthService`). `LoginAsync` *creates* an account.
  `RegisterAsync` *checks* a name and password. The code is modelled as written,
  with the names swapped against their meaning.

Files and modules:

| file | module | what it holds |
|---|---|---|
| `text.dfy` | `Text` | `Option`, `\s`/`\w`/letter classes, invariant case mapping, ignore-case equality, `Trim` |
| `calendar.dfy` | `Calendar` | dates, `AddYears`, `dd/MM/yyyy` parsing and formatting |
| `passenger.dfy` | `Passengers` | `Passenger` with `ValidateCPF` (a method with loops), `ValidateRG`, `ValidateBirthDate` |
| `extractors.dfy` | `Extractors` | `ExtractFlightNumber`, `ExtractFlightSearchParams` and the regex matchers behind them |
| `intent.dfy` | `IntentDetection` | `Intent`, `DetectIntent` |
| `chat_service.dfy` | `ChatEngine` | contexts, session state, the turn as a function, class `ChatService` with the session map and `ProcessMessage` |
| `search_requests.dfy` | `SearchRequests` | what the search extractor makes of whole messages |
| `refresh_tokens.dfy` | `RefreshTokens` | class `JwtService` over `refreshTokens: seq<UserRefreshToken>` |
| `local_auth.dfy` | `LocalAuth` | class `LocalAuthService` over `users: seq<User>` |

Modelling choices:

* **The turn.** `ChatEngine.Turn` is a function from the session state and the
  message to an `Outcome`. The outcome holds:
  - the reply;
  - the action data;
  - the flight number handed to the booking service, if any;
  - the new state.

  `ChatService.ProcessMessage` is the imperative method. It reads the session map
  field and runs the handler code. It writes the map back, and is proved equal
  to `Turn` on every input.
* **Services as parameters.** The ticket and AI services become a `Services`
  value holding their answers for the turn. The new session id (`Guid.NewGuid`)
  and the current time are parameters too.
* **Contexts.** The JSON in `ContextData` is a tagged union:
  - `Empty`, for null;
  - `Search(flights, params)`, for a serialized `FlightSearchContext`;
  - `Booking(number, flight)`, for a serialized `BookingContext`.

  Reading one shape as the other gives the default values, as the JSON reader
  does. A booking context read as a search context has no flights. A search
  context read as a booking context has the flight number `""`.
* **Regexes.** The regexes are hand-written matchers over `seq<char>`. They
  follow .NET's backtracking order:
  - the leftmost match wins;
  - a greedy `\s+` gives back one character at a time;
  - a lazy group grows one character at a time;
  - `$` also matches before a final line feed.
* **The extractors read different forms of the message.** `DetectIntent`
  classifies the lower-cased message, but the handlers pass the original message
  to the extractors. The date pattern's `em` is case-sensitive, so one message can
  behave differently in the two places. `ChatService.cs:36,41` passes the
  original; `ChatService.cs:248` lowers it. The model does the same.
* **The engine's suggested examples never succeed.** The examples the engine
  suggests, "voo para Lisboa em 15/07/2025" and "buscar voo para Paris em
  10/08/2025", name no origin. The validity check still demands one
  (`ChatService.cs:303-305`), so neither example is ever a valid search. The model
  keeps the check as written.

## Model

| member | source | states |
|---|---|---|
| Passengers.Passenger.ValidateCPF | home/ubuntu/ChatbotApiNet9/Models/Passenger.cs:22-66 | the three loops compute exactly `CpfValid`: eleven digits after punctuation is dropped, not one repeated digit, both mod-11 check digits right |
| Passengers.CpfIgnoresPunctuation | home/ubuntu/ChatbotApiNet9/Models/Passenger.cs:25 | validity depends only on the digits: a CPF and its digits alone agree |
| Passengers.CpfNeedsElevenDigits | home/ubuntu/ChatbotApiNet9/Models/Passenger.cs:28-29 | fewer or more than eleven digits is invalid |
| Passengers.CpfRejectsRepeatedDigits | home/ubuntu/ChatbotApiNet9/Models/Passenger.cs:32-42 | eleven copies of one digit satisfy both check digits and are still rejected |
| Passengers.CpfValidIffCheckDigits | home/ubuntu/ChatbotApiNet9/Models/Passenger.cs:44-65 | valid exactly when the digits are not all equal and the last two are the check digits of the first nine (weights 10..2, then 11..2) |
| Passengers.CompletedCpfIsValid | home/ubuntu/ChatbotApiNet9/Models/Passenger.cs:44-65 | any nine-digit base that is not one repeated digit, completed with its check digits, is valid |
| Passengers.CheckDigit | home/ubuntu/ChatbotApiNet9/Models/Passenger.cs:49-50 | the check digit is 0..9 and makes the sum a multiple of 11, except remainder 1, which gives 0 |
| Passengers.SampleCpfIsValid | home/ubuntu/ChatbotApiNet9/Models/Passenger.cs:22-66 | "52998224725" is valid |
| Passengers.SampleFormattedCpfIsValid | home/ubuntu/ChatbotApiNet9/Models/Passenger.cs:22-66 | "529.982.247-25" is valid |
| Passengers.DigitsOnlyIdempotent | home/ubuntu/ChatbotApiNet9/Models/Passenger.cs:25 | dropping non-digits twice is dropping them once |
| Passengers.SampleRgs | home/ubuntu/ChatbotApiNet9/Models/Passenger.cs:68-75 | "12.345.678-9" passes the RG check and "123456" fails it |
| Passengers.Passenger.ValidateRG | home/ubuntu/ChatbotApiNet9/Models/Passenger.cs:68-75 | a valid RG has at least eight characters; with the two lemmas below, the check is settled for every input |
| Passengers.RgIgnoresPunctuation | home/ubuntu/ChatbotApiNet9/Models/Passenger.cs:71 | removing any character other than `[0-9A-Za-z]`, anywhere in the RG, never changes the answer |
| Passengers.RgOfAlphanumerics | home/ubuntu/ChatbotApiNet9/Models/Passenger.cs:74 | an RG made only of ASCII letters and digits is valid exactly when it has at least eight characters |
| Passengers.AlphanumericOnlyIdempotent | home/ubuntu/ChatbotApiNet9/Models/Passenger.cs:71 | stripping to `[0-9A-Za-z]` is idempotent |
| Passengers.Passenger.ValidateBirthDate | home/ubuntu/ChatbotApiNet9/Models/Passenger.cs:77-81 | true only when the birth date is not after today; Null, the `AddYears` overflow, exactly when the birth date is not after today but lies in year 9998 or later |
| Passengers.BirthDateNeedsTwoYears | home/ubuntu/ChatbotApiNet9/Models/Passenger.cs:80 | the first comparison is implied: valid exactly when the second birthday is not after today |
| Passengers.SampleBirthDates | home/ubuntu/ChatbotApiNet9/Models/Passenger.cs:77-81 | a birth time later today, a later birth date and one a year back are rejected; 1990-01-01 is accepted from 1992 on |
| Calendar.AddYears | home/ubuntu/ChatbotApiNet9/Models/Passenger.cs:80 | defined exactly when the target year is 1..9999; keeps month and time of day, and the day except 29 February, which becomes the 28th in a common year |
| Calendar.AddYearsIsLater | home/ubuntu/ChatbotApiNet9/Models/Passenger.cs:80 | adding a positive number of years gives a strictly later moment |
| Extractors.ExtractFlightNumber | home/ubuntu/ChatbotApiNet9/Services/ChatService.cs:310-315 | a result is two letters then three or four digits, in upper case; null exactly when no word-bounded code occurs |
| Extractors.ExtractFlightNumberIsLeftmostWord | home/ubuntu/ChatbotApiNet9/Services/ChatService.cs:313-314 | the result is the upper-cased leftmost word-bounded code of the message |
| Extractors.ExtractFlightNumberRoundTrip | home/ubuntu/ChatbotApiNet9/Services/ChatService.cs:310-315 | a flight number alone, in upper or lower case, extracts to itself |
| Extractors.ExtractFlightNumberIgnoresCase | home/ubuntu/ChatbotApiNet9/Services/ChatService.cs:313 | lower-casing the message first changes nothing |
| Extractors.FlightCodeMeansExtracted | home/ubuntu/ChatbotApiNet9/Services/ChatService.cs:310-315 | a code that the intent rule's `IsMatch` finds is found by the extractor too |
| Extractors.FindFlightCode | home/ubuntu/ChatbotApiNet9/Services/ChatService.cs:313 | leftmost match: the position found has a code and none before it does; Null when none anywhere |
| Extractors.FlightCodeAt | home/ubuntu/ChatbotApiNet9/Services/ChatService.cs:313 | a match of `\b([a-zA-Z]{2}\d{3,4})\b` is 5 or 6 characters, word-bounded at both ends: two letters, then digits |
| Extractors.WholeFlightNumberIsFound | home/ubuntu/ChatbotApiNet9/Services/ChatService.cs:313 | a flight number on its own is matched whole |
| Extractors.FlightNumberIsUpper | home/ubuntu/ChatbotApiNet9/Services/ChatService.cs:314 | upper-casing a flight number again changes nothing |
| Extractors.ExtractFlightSearchParams | home/ubuntu/ChatbotApiNet9/Services/ChatService.cs:277-308 | valid iff origin and destination are non-blank and a date parsed; captured places are of the `[A-Za-zÀ-ÿ\s]` class; a date is the `em dd/mm/yyyy` group somewhere in the message |
| Extractors.DateOf | home/ubuntu/ChatbotApiNet9/Services/ChatService.cs:292-300 | a parsed date is valid and formats back to the group text |
| Extractors.CaptureFrom | home/ubuntu/ChatbotApiNet9/Services/ChatService.cs:280-289 | a captured place group is non-empty and made only of `[A-Za-zÀ-ÿ\s]` characters |
| Extractors.LazyGroupEnd | home/ubuntu/ChatbotApiNet9/Services/ChatService.cs:280 | the lazy group ends only where the stop word or the end anchor follows, and all of it is of the place class |
| Extractors.DateGroupFrom | home/ubuntu/ChatbotApiNet9/Services/ChatService.cs:286 | a non-empty date group is the `dd/mm/yyyy` text found by the numeric alternative at or after the start |
| SearchRequests.DateGroupFromIsLeftmost | home/ubuntu/ChatbotApiNet9/Services/ChatService.cs:286 | for the leftmost position where either alternative matches, the group is the numeric text there, or empty when only the long form matches |
| SearchRequests.DateGroupFromNone | home/ubuntu/ChatbotApiNet9/Services/ChatService.cs:286 | there is no date group exactly when neither alternative matches at any position |
| Calendar.ParseDdMmYyyy | home/ubuntu/ChatbotApiNet9/Services/ChatService.cs:294-296 | accepts only ten characters with `/` at positions 2 and 5 and ASCII digits in the other eight, naming a valid calendar date |
| Text.Trim | home/ubuntu/ChatbotApiNet9/Services/ChatService.cs:288-289 | the trimmed text is blank exactly when it is empty, and exactly when the input was blank |
| Text.TrimOfUnpadded | home/ubuntu/ChatbotApiNet9/Services/ChatService.cs:288-289 | text with no white space at either end is left as it is |
| Calendar.ParseFormatRoundTrip | home/ubuntu/ChatbotApiNet9/Services/ChatService.cs:294-296 | `TryParseExact(..., "dd/MM/yyyy")` reads back every formatted valid date |
| Calendar.FormatOfParse | home/ubuntu/ChatbotApiNet9/Services/ChatService.cs:294-296 | a parsed date formats back to exactly the text parsed |
| SearchRequests.SearchRequestRoundTrip | home/ubuntu/ChatbotApiNet9/Services/ChatService.cs:277-308 | "de O para D em dd/mm/yyyy" with one-word places is valid and returns exactly O, D and the date |
| SearchRequests.LaidOutRequestUnderstood | home/ubuntu/ChatbotApiNet9/Services/ChatService.cs:277-308 | the same result, stated per position of the request's layout |
| SearchRequests.DateGroupOfLongDate | home/ubuntu/ChatbotApiNet9/Services/ChatService.cs:286 | when the long-form alternative is the leftmost match, group 1 is empty |
| SearchRequests.LongDateGivesNoDate | home/ubuntu/ChatbotApiNet9/Services/ChatService.cs:286-300 | when a long-form date ("10 de julho de 2025") matches first, group 1 is empty: no date, never valid |
| SearchRequests.NoOriginNoSearch | home/ubuntu/ChatbotApiNet9/Services/ChatService.cs:277-308 | a message in which "de" occurs nowhere, in any case, has no origin and is never a valid search |
| SearchRequests.AskedExampleHasNoOrigin | home/ubuntu/ChatbotApiNet9/Services/ChatService.cs:65 | the example the engine asks with is not a valid search |
| SearchRequests.HelpExampleHasNoOrigin | home/ubuntu/ChatbotApiNet9/Services/ChatService.cs:190 | the example of the help text is not a valid search |
| IntentDetection.DetectIntent | home/ubuntu/ChatbotApiNet9/Services/ChatService.cs:245-275 | first match wins: each intent is answered exactly when its rule applies and none of the earlier rules (confirmation, greeting, help, search, booking, in that order) does; never a waiting intent; None exactly when no rule applies |
| IntentDetection.LastTwoRulesAreDead | home/ubuntu/ChatbotApiNet9/Services/ChatService.cs:266-272 | the two trailing contextual rules never decide: the first five rules, in order, give the same answer |
| IntentDetection.DetectIntentOutsideWaitingStates | home/ubuntu/ChatbotApiNet9/Services/ChatService.cs:251-264 | outside the three waiting states the stored intent plays no part |
| IntentDetection.DetectIntentIgnoresCase | home/ubuntu/ChatbotApiNet9/Services/ChatService.cs:248 | the intent of a message and of its lower-case form agree |
| IntentDetection.FlightCodeCaught | home/ubuntu/ChatbotApiNet9/Services/ChatService.cs:266-267 | a flight code that the contextual rule's `IsMatch` sees is also found by the extractor, so the earlier BookFlight rule has already fired |
| Text.EqualsIgnoreCaseIsEquivalence | home/ubuntu/ChatbotApiNet9/Services/ChatService.cs:131-132 | ordinal ignore-case equality is reflexive, symmetric and transitive |
| IntentDetection.SampleGreetingWins | home/ubuntu/ChatbotApiNet9/Services/ChatService.cs:257-264 | the greeting rule is tried before search, even while a selection is pending |
| IntentDetection.SampleConfirmation | home/ubuntu/ChatbotApiNet9/Services/ChatService.cs:251-255 | "SIM" settles a pending confirmation |
| ChatEngine.FindFlight | home/ubuntu/ChatbotApiNet9/Services/ChatService.cs:131-132 | the first listed flight whose number equals the one asked ignoring case, none before it matching; Null exactly when none does |
| ChatEngine.SearchCase | home/ubuntu/ChatbotApiNet9/Services/ChatService.cs:40-68 | the search handler as statements equals `SearchTurn` on the extracted parameters |
| ChatEngine.ConfirmCase | home/ubuntu/ChatbotApiNet9/Services/ChatService.cs:70-111 | the confirmation handler as statements equals `ConfirmTurn` |
| ChatEngine.BookCase | home/ubuntu/ChatbotApiNet9/Services/ChatService.cs:113-187 | the booking handler as statements equals `BookTurn` on the extracted number |
| ChatEngine.ChatService.constructor | home/ubuntu/ChatbotApiNet9/Services/ChatService.cs:16 | the session store starts empty |
| ChatEngine.ChatService.ProcessMessage | home/ubuntu/ChatbotApiNet9/Services/ChatService.cs:25-220 | the request's id or the fresh one; an absent session reads as (None, null); the store maps that id to the turn's new state and no other entry changes; the response carries the reply, id and action data; every stored state stays well formed |
| ChatEngine.StoreKeepsWellFormed | home/ubuntu/ChatbotApiNet9/Services/ChatService.cs:208 | writing one well-formed state keeps the whole store well formed |
| ChatEngine.TurnKeepsWellFormed | home/ubuntu/ChatbotApiNet9/Services/ChatService.cs:38-206 | from a well-formed state a turn reaches a well-formed state: a stored search has flights, a stored booking a valid flight number |
| ChatEngine.SearchTurnKeepsWellFormed | home/ubuntu/ChatbotApiNet9/Services/ChatService.cs:40-68 | the search handler keeps states well formed |
| ChatEngine.ConfirmTurnKeepsWellFormed | home/ubuntu/ChatbotApiNet9/Services/ChatService.cs:70-111 | the confirmation handler keeps states well formed |
| ChatEngine.BookTurnKeepsWellFormed | home/ubuntu/ChatbotApiNet9/Services/ChatService.cs:113-187 | the booking handler keeps states well formed |
| ChatEngine.SearchOutcomes | home/ubuntu/ChatbotApiNet9/Services/ChatService.cs:40-68 | invalid parameters: WaitingForFlightDetails, context kept; valid with no flights: reset to (None, null); otherwise WaitingForFlightSelection holding the flights |
| ChatEngine.ConfirmationEndsTheDialogue | home/ubuntu/ChatbotApiNet9/Services/ChatService.cs:70-106 | "sim", "não" or "nao" always reset the session to (None, null), whatever the booking gives |
| ChatEngine.ConfirmationBooksStoredFlight | home/ubuntu/ChatbotApiNet9/Services/ChatService.cs:71-106 | "sim" books the stored flight number and reports the service's answer; "não"/"nao" cancel without booking |
| ChatEngine.ConfirmTurnBooksStoredFlight | home/ubuntu/ChatbotApiNet9/Services/ChatService.cs:77-80 | the confirmation handler books only the flight number its context holds |
| ChatEngine.BookTurnBooksListedFlight | home/ubuntu/ChatbotApiNet9/Services/ChatService.cs:126-175 | the booking handler books at once only a flight from the stored search list |
| ChatEngine.BookingsAreForShownFlights | home/ubuntu/ChatbotApiNet9/Services/ChatService.cs:70-187 | every booking a turn makes is of a valid flight number, either the one confirmed or one from the shown list |
| ChatEngine.KeywordOutcomes | home/ubuntu/ChatbotApiNet9/Services/ChatService.cs:183-205 | Greeting and Help reset to (None, null); BookFlight without a number and None keep the state; None answers with the AI reply to the message and state description |
| ChatEngine.AnswerIgnoringCase | home/ubuntu/ChatbotApiNet9/Services/ChatService.cs:71 | the handler's ignore-case comparison agrees with the classifier's lower-cased one |
| RefreshTokens.JwtService.constructor | home/ubuntu/ChatbotApiNet9/Services/JwtService.cs:22-27 | the store starts from the loaded entries |
| RefreshTokens.JwtService.FirstMatch | home/ubuntu/ChatbotApiNet9/Services/JwtService.cs:149-151 | the loop finds the first entry of the user (ignoring case) with the token, as `FindToken` |
| RefreshTokens.FindToken | home/ubuntu/ChatbotApiNet9/Services/JwtService.cs:149-151 | the index found matches and none before it does; Null exactly when no entry matches |
| RefreshTokens.JwtService.SaveRefreshToken | home/ubuntu/ChatbotApiNet9/Services/JwtService.cs:132-145 | the user's entries are removed and the new entry with expiry now + days appended |
| RefreshTokens.SavedHoldsOneEntryForUser | home/ubuntu/ChatbotApiNet9/Services/JwtService.cs:134-142 | after saving, the user's entries are exactly the new one |
| RefreshTokens.SavedKeepsOtherUsers | home/ubuntu/ChatbotApiNet9/Services/JwtService.cs:134 | other users' entries are unchanged, in order |
| RefreshTokens.SavedKeepsOnePerUser | home/ubuntu/ChatbotApiNet9/Services/JwtService.cs:134-142 | saving keeps at most one entry per user, case-insensitively |
| RefreshTokens.WithoutUserKeepsOnePerUser | home/ubuntu/ChatbotApiNet9/Services/JwtService.cs:134 | removing a user's entries keeps at most one entry per user |
| RefreshTokens.SaveThenValidate | home/ubuntu/ChatbotApiNet9/Services/JwtService.cs:132-171 | a saved token validates for the user in any case spelling until its expiry, leaving the store |
| RefreshTokens.JwtService.ValidateRefreshToken | home/ubuntu/ChatbotApiNet9/Services/JwtService.cs:147-171 | the answer and new store are `Validated`: unknown refused, expired refused and dropped, live accepted |
| RefreshTokens.UnknownTokenIsRefused | home/ubuntu/ChatbotApiNet9/Services/JwtService.cs:149-157 | no matching entry: validation is false and neither validation nor removal changes the store |
| RefreshTokens.LiveTokenIsAccepted | home/ubuntu/ChatbotApiNet9/Services/JwtService.cs:159-170 | the first match not yet expired validates and the store is kept |
| RefreshTokens.ExpiredTokenIsDropped | home/ubuntu/ChatbotApiNet9/Services/JwtService.cs:159-167 | an expired first match is refused and exactly that entry removed |
| RefreshTokens.ValidatedKeepsOnePerUser | home/ubuntu/ChatbotApiNet9/Services/JwtService.cs:147-171 | validation keeps at most one entry per user |
| RefreshTokens.JwtService.RemoveRefreshToken | home/ubuntu/ChatbotApiNet9/Services/JwtService.cs:173-189 | the first matching entry, if any, is removed |
| RefreshTokens.RemovedKeepsOnePerUser | home/ubuntu/ChatbotApiNet9/Services/JwtService.cs:173-189 | removal keeps at most one entry per user |
| RefreshTokens.RemoveIsFinal | home/ubuntu/ChatbotApiNet9/Services/JwtService.cs:173-189 | with one entry per user, a removed token is gone: it no longer validates and removing again is a no-op |
| LocalAuth.LocalAuthService.constructor | home/ubuntu/ChatbotApiNet9/Services/LocalAuthService.cs:14-18 | the store starts from the loaded users |
| LocalAuth.LocalAuthService.Login | home/ubuntu/ChatbotApiNet9/Services/LocalAuthService.cs:19-33 | a name taken in any case is refused with the list unchanged; otherwise (name, hash(password)) is appended and true returned |
| LocalAuth.LocalAuthService.Register | home/ubuntu/ChatbotApiNet9/Services/LocalAuthService.cs:35-53 | reads only: true iff the first user with the name (ignoring case) exists and its hash verifies the password |
| LocalAuth.FindUser | home/ubuntu/ChatbotApiNet9/Services/LocalAuthService.cs:37 | the first user whose name equals ignoring case; Null exactly when the name is not taken |
| LocalAuth.Authenticated | home/ubuntu/ChatbotApiNet9/Services/LocalAuthService.cs:37-52 | true iff the name is taken and the first such user's stored hash verifies the password |
| LocalAuth.VerifyPasswordAcceptsOwnHash | home/ubuntu/ChatbotApiNet9/Services/LocalAuthService.cs:104-108 | a password verifies against its own hash |
| LocalAuth.CreatedKeepsUnique | home/ubuntu/ChatbotApiNet9/Services/LocalAuthService.cs:19-33 | names stay unique up to case |
| LocalAuth.CreatedTwiceIsRefused | home/ubuntu/ChatbotApiNet9/Services/LocalAuthService.cs:21-25 | a second account under the same name in any case is refused and changes nothing |
| LocalAuth.CreatedThenAuthenticated | home/ubuntu/ChatbotApiNet9/Services/LocalAuthService.cs:19-53 | an account just created authenticates with its password under any case spelling of its name |
| LocalAuth.CreatedKeepsOtherAccounts | home/ubuntu/ChatbotApiNet9/Services/LocalAuthService.cs:27-29 | creating an account does not change how any other name authenticates |

## Left out

- **HTTP controllers and startup.** The controllers and `Program.cs` map service results to status codes and are not part of this model.
- **JWT creation and validation.** Access tokens, principals from expired tokens and random refresh tokens call crypto and random-number libraries.
- **Password hashing.** SHA-256 and its hex rendering are an uninterpreted function `hash` given to the service.
- **File persistence.** Loading and saving the JSON files is file I/O. Each service starts from the entries "loaded", a parameter, and the saves after each change are not modelled.
- **Logging, `async`/`await` and concurrency.** Requests are modelled one at a time. The static shared session dictionary is an instance field of `ChatService`.
- **The ticket and AI services.** They are not part of this model; their answers during a turn are parameters. `SimulatedTicketService`'s data, dates and booking are out of scope.
- **Reply texts.** They are a `Reply` datatype carrying the values interpolated into them. The strings are not rendered, including `{Date:dd/MM/yyyy}` formatting.
- **The `SearchParams` tuple inside a stored search context.** It is stored but never read back, and is not checked against JSON round-tripping.
- **The `JsonException` branches** (`ChatService.cs:91-95`, `134-137`). The store only ever holds the two context shapes the engine writes, and reading one shape as the other is modelled. The exception is unreachable, so the branches are left out.
- **`DateTime` arithmetic.** `DateTime.UtcNow.AddDays` overflow past year 9999 is not modelled: the expiry is `now + days * TicksPerDay` on unbounded integers. Time of day is kept only for the birth date; `decimal` prices are `real`.
- **Characters beyond Latin-1.** Letters, white space, `\w`, `\p{L}` and case mapping are modelled for ASCII and Latin-1 (plus the pair `ÿ`/`Ÿ`). The place class `[A-Za-zÀ-ÿ\s]` under `IgnoreCase` also admits `Ÿ` and the Kelvin and Ångström signs. Other scripts are treated as non-letters, and culture-specific casing is not modelled.
- **Non-ASCII digits.** .NET `\d` (`ChatService.cs:286`, `ChatService.cs:313`) matches every Unicode decimal digit, but the model's `\d` is `0`-`9` only. Two consequences are not captured:
  - In "de Rio para Lima em ١٢/٠٥/٢٠٢٥ ou em 12/05/2025" the service's leftmost date match is the Arabic-Indic one. `TryParseExact` rejects it, so the search has no date. The model skips to the ASCII date instead.
  - "AB١٢٣" is a flight number to the service and not to the model.
- **The Kelvin sign in flight codes.** Under `IgnoreCase`, `[a-zA-Z]` at `ChatService.cs:313` also matches the Kelvin sign U+212A. `Extractors.FlightCodeAt` accepts ASCII letters only.
- **Case mapping that leaves Latin-1.** The model's `ToUpper` keeps `µ` (U+00B5), which .NET upper-cases to Greek `Μ` (U+039C). Mappings into or out of other scripts are likewise absent. So `OrdinalIgnoreCase` in `RegisterAsync`, in `LoginAsync` and in the refresh-token lookups treats "µ" and "Μ" as one name, and the model treats them as two.
- **Passenger data annotations** (`Passenger.cs:12,16`). The `[RegularExpression]` format attributes are checked by model binding, not by the validators, and are not modelled.
- **Passenger-count flow and `Reservation` creation.** These appear only in the repository's tests; the engine modelled here does not have them.
- SearchRequests.SearchRequestRoundTrip: covers one-word places and an origin in which "para" does not occur. Multi-word places such as "Rio de Janeiro", where the lazy group and the "de" in the name interact, are not covered.
- RefreshTokens.RemoveIsFinal: assumes at most one entry per user. A file loaded with duplicates can hold a second matching entry, and then a second removal does remove something.
