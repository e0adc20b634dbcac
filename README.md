# VoiceRoute core in Dafny

VoiceRoute is a voice-driven train and bus route finder for India. An Express server
takes a spoken or typed command, works out what the user wants, searches a MySQL route
table and sends a reply to be read aloud. Three browser scripts sit beside it:

- a search page with autocomplete, form checks and a spoken query;
- a voice chat with its own command dispatch and answer texts;
- a stand-alone chat assistant that keeps and saves the conversation.

This project models the logic of those pieces and proves what it promises.

Modules and files:

- `Text` (`text.dfy`): the string operations the JavaScript relies on.
  - `trim` over the ECMAScript white-space set;
  - ASCII lower- and upper-casing;
  - `includes`, `indexOf`, `split`/`join`;
  - decimal rendering of numbers;
  - the title-casing `formatLocation`.
- `Optional` (`text.dfy`): an option type.
- `Patterns` (`patterns.dfy`): hand-written matchers for each shape of regular expression the sources use. Each one is proved sound and complete against a declarative description of a match.
  - `lead gap (class+?) suffix` with the leftmost match and the lazy group;
  - alternations of words, anywhere or as whole words (`\b`);
  - `.*`-separated keyword groups.
- `Database` (`database.dfy`): the statements the `DatabaseHelper` class builds, with their parameter lists, and the `{success, data | error}` shape of `query`.
- `Durations` (`durations.dfy`): a reader for the duration texts the pages print. It is the inverse against which both `formatDuration` functions are proved.
- `Messages` (`history.dfy`): the chat message record and the "last n" slice both chat pages persist.
- `VoiceServer` (`voiceserver.dfy`): `processVoiceCommand`, `generateVoiceResponse` and the `/api/voice/process` handler of `server.js`.
- `SearchPage` (`searchpage.dfy`): `search.js`.
- `VoiceChat` (`voicechat.dfy`): the voice-chat part of `script.js`, with the page state as the class `VoiceChatPanel`.
- `ChatAssistant` (`chatassistant.dfy`): `chat.js`, with the page globals as the class `Assistant`.

Facts about the code as written that the proofs bring out:

- In `script.js` the route patterns are regular-expression literals written with `\\s`. That means a backslash followed by `s`, not white space. So the voice chat recognises a route query only in a command that holds a backslash (`VoiceChat.RouteNeedsBackslash`).
- The example the voice chat's own help text suggests, "Find trains from Delhi to Mumbai", is answered with a greeting, because "hi" occurs inside "delhi" (`VoiceChat.SuggestedExampleGreets`).
- The voice chat searches "railway" as trains but describes it with the fallback text "buses". "flight" and "plane" are searched as both kinds but also described as "buses" (`VoiceChat.FallbackVersusRequest`).
- The server's destination pattern has no word boundary, so "into goa" has the destination "goa" (`VoiceServer.DestinationInsideWord`).
- The server's transport word must stand alone, so "trains" and "buses" leave "both" (`VoiceServer.TransportWholeWord`).

Behaviour of the code that the model keeps, though a reader might expect otherwise:

- The server does not title-case the places it extracts. They stay lower-case in the search and in the reply.
- The server picks the transport type by the whole-word pattern. So "Find trains from Delhi to Mumbai" gets "both", not "train".
- When a route search finds nothing, or a place is missing, the server keeps the route-search template. It does not switch to the clarification text (`VoiceServer.HandleReplies`).
- A failed route search is not turned into an apology. `DatabaseHelper.query` reports the failure as a value, and the handler then just omits the data.

## Model

| member | source | states |
|---|---|---|
| Text.Trim | search.js:275 | the result is the input without its leading and trailing ECMAScript white space, and does not itself start or end with white space |
| Text.JoinSplit | script.js:1357-1362 | joining the pieces of a split on the same separator gives the text back |
| Text.SplitJoin | script.js:1357-1362 | splitting a join of separator-free pieces gives the pieces back |
| Text.FormatLocationIsTitleCase | script.js:1357-1362 | `formatLocation` upper-cases exactly the characters at the start of the text or after a space and leaves every other character as it is |
| Text.FormatLocationSpaces | script.js:1357-1362 | `formatLocation` keeps the length and puts spaces exactly where the input has them |
| Text.FormatLocationWordCount | script.js:1357-1362 | `formatLocation` keeps the number of space-separated words |
| Text.FormatLocationIdempotent | script.js:1357-1362 | formatting a formatted place again changes nothing |
| Text.NatToStringDigits | search.js:820-831 | a number is printed as a non-empty run of decimal digits whose value is that number |
| Patterns.SearchFrom | server.js:683 | the scan finds the leftmost start index at which the pattern matches, or reports that there is none |
| Patterns.CaptureNone | server.js:683 | `match` gives `null` exactly when the pattern matches at no position |
| Patterns.CaptureSome | server.js:683 | a found group is the group of a match that starts no later than any other match; from that start the earliest lead alternative that leads to a match is taken, then the longest text that alternative can cover, then the longest white space after it (greedy `\s+`), and the group ends at the first place where a suffix alternative fits (lazy `+?`) |
| Patterns.MatchAtPreferred | server.js:683 | a match found at a start goes through the earliest workable lead alternative, its longest workable end and its longest workable gap |
| Patterns.CaptureSomeWord | server.js:683-684 | with a single keyword as lead, the group starts after the longest white space that lets the pattern match at the leftmost start, and stops at the first suffix |
| Patterns.CaptureInClass | server.js:683 | every character of a found group belongs to the pattern's character class |
| Patterns.CaptureOfLeftmost | server.js:684 | the group of the leftmost match is what `match` returns |
| Patterns.GapBounds | server.js:683 | the gap matcher accepts exactly the widths the gap allows (`\s+`, or a backslash and one or more `s`) |
| Patterns.FirstWordAtSound | server.js:686 | at one position the alternation picks the first listed word that fits there, and fails only when none fits |
| Patterns.FirstWordPos | server.js:686 | the scan stops at the first position where some listed word fits, and fails only when no position has one |
| Patterns.FirstWordSound | server.js:686 | the alternation returns a listed word occurring in the text, and nothing exactly when no listed word occurs |
| Patterns.FirstWordLeftmost | server.js:686 | the returned word sits at the leftmost position where any listed word fits, and no earlier alternative fits at that position |
| Patterns.StagesIncludeLast | server.js:668 | a `.*`-separated keyword sequence that matches contains a word of its last group |
| Patterns.TwoStagesWitness | server.js:668 | two keywords on one line, in order, make the two-group sequence match |
| Database.JsonOf | database/config.js:83 | `JSON.stringify` gives `undefined` exactly for `undefined`, and otherwise the text of the value |
| Database.RunQuery | database/config.js:37-45 | `query` never raises: rows become `success` with those rows, a raised error becomes `success: false` with its message |
| Database.BalancedText | database/config.js:37-39 | in a balanced statement the SQL text holds exactly as many `?` as there are parameters |
| Database.InsertMarks | database/config.js:73-76 | an INSERT with a group of n placeholders has n placeholders in all |
| Database.Like | database/config.js:115 | the LIKE pattern is the text between two `%` |
| Database.SearchStatement | database/config.js:98-130 | balanced; 3 parameters for "both" and 4 otherwise; first the two LIKE patterns, then the type when it is not "both", and the limit last; the defaults are "both" and 10, also for a limit passed as `undefined` |
| Database.SearchRoutes | database/config.js:104-129 | building the text and the parameters step by step gives the statement above |
| Database.SearchTransportClause | database/config.js:117-120 | the statement for a type other than "both" is the one for "both" with ` AND r.transport_type = ?` inserted before the grouping |
| Database.GetPersonalizedRoutes | database/config.js:132-142 | balanced, with exactly user, source, destination and type as parameters; a type left out or passed as `undefined` is bound as "both" |
| Database.CreateUser | database/config.js:70-85 | balanced with 6 parameters; the preferences are serialised |
| Database.LogSearch | database/config.js:145-164 | balanced with 10 parameters; the results are serialised |
| Database.LogVoiceAnalytics | database/config.js:167-185 | balanced with 9 parameters, command, intent and success in their columns |
| Database.AddFavorite | database/config.js:200-207 | balanced with 3 parameters; an alias left out or passed as `undefined` is bound as `null` |
| Database.UndefinedArgumentsDefault | database/config.js:98-103 | an argument passed as `undefined` gets the default, as one left out does: `null` alias, type "both", limit 10 |
| Database.AddFeedback | database/config.js:215-229 | balanced with 6 parameters |
| Database.LogApiUsage | database/config.js:247-265 | balanced with 9 parameters |
| Messages.Last | chat.js:713 | `slice(-n)`: the last min(n, length) elements, in order |
| Messages.LastAppend | chat.js:712-715 | the copy saved after one more message is the previous saved copy with that message added and cut again, and it ends with that message |
| Messages.LastIdempotent | chat.js:713 | cutting twice is cutting once |
| VoiceServer.IntentNamed | server.js:727 | a key that names an intent names that intent |
| VoiceServer.IntentNameRoundTrip | server.js:666-672 | every intent's key reads back as that intent |
| VoiceServer.TableEntries | server.js:666-672 | the pattern table holds route search, greeting, help and goodbye in this order, each testing its keywords |
| VoiceServer.FirstTableHit | server.js:674-680 | the first table entry whose pattern tests true carries the intent of the precedence route search, greeting, help, goodbye |
| VoiceServer.NoTableHit | server.js:674-680 | when no entry tests true the intent is general |
| VoiceServer.ProcessVoiceCommand | server.js:662-695 | the loop over the table gives the intent by precedence, with the slots and the transport word taken from the lower-cased command |
| VoiceServer.RouteSearchMentionsFromOrTo | server.js:667-668 | a route search always contains "from" or "to" |
| VoiceServer.GreetingAtStart | server.js:669 | a greeting word at the very start makes a greeting unless the command is a route search |
| VoiceServer.GreetingOnlyAsPrefix | server.js:669 | a command not starting with a greeting word is never a greeting |
| VoiceServer.SourceSlot | server.js:683 | the source is `null` exactly when the from-pattern matches nowhere, and holds only letters and white space |
| VoiceServer.SourceIsLeftmostLazy | server.js:683 | the source is the trimmed group of the leftmost match, begins after the longest white space following "from" there, and stops at the first " to" or the end |
| VoiceServer.DestinationIsLeftmostLazy | server.js:684 | the destination is the trimmed group of the leftmost match, begins after the longest white space following "to" there, and stops at the first white space or the end |
| VoiceServer.DestinationSlot | server.js:684 | the destination is `null` exactly when the to-pattern matches nowhere, and holds only letters and white space |
| VoiceServer.DestinationInsideWord | server.js:684 | "into goa" has destination "goa": the "to" inside "into" starts the match |
| VoiceServer.TransportOf | server.js:686 | the transport type is one of train, bus and both |
| VoiceServer.TransportWholeWord | server.js:686 | train or bus is chosen only when that word stands alone at a position before which no listed word stands alone; the result is "both" when neither stands alone anywhere |
| VoiceServer.BusOrTrain | server.js:686 | "bus or train" gives "bus": the leftmost listed word wins |
| VoiceServer.GenerateVoiceResponse | server.js:698-728 | the template of the named intent, the general template for a key that is none of the five intent names (inherited `Object.prototype` keys aside, see Left out); always spoken, never with data |
| VoiceServer.ReplyOfIntent | server.js:727 | every intent gets its own template |
| VoiceServer.HandleRejects | server.js:413-422 | a request fails with status 400 exactly when a validator rejects it, and then nothing is logged |
| VoiceServer.HandleAnswers | server.js:475-481 | a valid request is answered with the intent of its trimmed command, the score it sent or 0.8, the elapsed time, and a spoken reply |
| VoiceServer.HandleIssues | server.js:439-467 | the analytics entry, with command, intent and success, is written first; the route search with limit 5 follows exactly for a route search with both places known |
| VoiceServer.HandleReplies | server.js:469-472 | data is attached, and the message is "I found n routes from s to d. " before the template, exactly when that search found at least one route; otherwise the template is unchanged |
| VoiceServer.SearchAndRespond | server.js:452-472 | the template reply, then for a route search with both places the limit-5 search, and the count-and-places message with the routes when it found some, give the reply and statements of the reference definition |
| VoiceServer.HandleVoiceProcess | server.js:423-481 | the handler's steps, with its in-place changes to the reply, give the reply and the statements above |
| SearchPage.Matching | search.js:282-283 | keeps exactly the locations that contain the query |
| SearchPage.MatchingInOrder | search.js:282-283 | the kept locations are in list order |
| SearchPage.Suggestions | search.js:274-287 | nothing for a query shorter than 2; otherwise the first eight of the locations containing the query, in list order (all of them when there are fewer), each from the list and containing the query |
| SearchPage.SuggestionsInOrder | search.js:282-284 | suggestions keep the order of the location list |
| SearchPage.ValidateLocation | search.js:407-422 | no error exactly when the trimmed value has 2 or more characters; "is required" exactly when it is empty; "at least 2 characters" exactly when it has one |
| SearchPage.ValidateSearchForm | search.js:483-507 | valid exactly when both places pass, the date is not past and the places differ after trimming and lower-casing; the same-place error replaces the destination's |
| SearchPage.ProcessVoiceCommand | search.js:973-1032 | nothing is filled unless both patterns match; then the title-cased places are filled in, and the transport is train or bus exactly when only that word occurs, both otherwise |
| SearchPage.PlacesFilled | search.js:994-1007 | the places exist exactly when both patterns match somewhere, and each is its trimmed group title-cased word by word |
| SearchPage.PlacesLeftmostLazy | search.js:980-983 | each filled place comes from the leftmost match of its pattern, after the longest white space following the keyword, up to the first suffix |
| SearchPage.CompareFlip | search.js:1136-1150 | the comparator is antisymmetric |
| SearchPage.CompareTransitive | search.js:1136-1150 | the comparator is transitive |
| SearchPage.SortResultsPermutes | search.js:1136 | the sorted copy holds the same routes |
| SearchPage.SortResultsSorted | search.js:1136-1150 | the sorted copy is in comparator order: duration and price rising, price_desc and rating falling, a missing fare or rating counting as 0 |
| SearchPage.SortResultsStable | search.js:1136 | routes the comparator ties keep their order |
| SearchPage.GenerateDemoResults | search.js:612-692 | ids [1,2] for train, [3,4] for bus, [1,2,3,4] for both, none otherwise; every record carries the searched places |
| SearchPage.FormatDuration | search.js:820-831 | ends in h or m; contains h exactly from one hour on; contains a space exactly for hours with leftover minutes |
| SearchPage.FormatDurationRoundTrip | search.js:820-831 | reading the text back gives the number of minutes (hours times 60 plus minutes) |
| SearchPage.ClassVisibilityWidens | search.js:229-255 | buses show every class trains show, plus premium only; any other type shows everything |
| VoiceChat.ValidateEmail | script.js:134-137 | an accepted address has at least five characters |
| VoiceChat.ValidateEmailIsPattern | script.js:134-137 | accepted exactly when the address is a non-empty run of characters that are neither white space nor '@', then '@', then two such runs joined by '.' |
| VoiceChat.ValidateEmailShape | script.js:134-137 | accepted exactly when there is no white space, exactly one '@' not at the start, and a '.' after it that is neither first nor last |
| VoiceChat.ValidatePassword | script.js:140-142 | an accepted password is not empty |
| VoiceChat.RegistrationAccepted | script.js:261-334 | the form is sent exactly when name, user name of 3 or more, email, password of 6 or more, matching confirmation and ticked terms all pass |
| VoiceChat.RegistrationComplaints | script.js:287-321 | "too short" for a user name or password only when one was given; "invalid" only for a given address; a mismatch whenever the password fields differ |
| VoiceChat.RegistrationParts | script.js:282-332 | each complaint of the combined check comes from its own field's check |
| VoiceChat.FirstTransportNotPlural | script.js:1281 | the transport alternation never yields trains, buses or flights, since each singular is tried first at the same place |
| VoiceChat.TransportWordRange | script.js:1297 | the transport word is train, railway, bus, flight, plane or both |
| VoiceChat.TransportWordLeftmost | script.js:1281 | a transport word other than both occurs at a position before which no alternative occurs; the word is both exactly when no alternative occurs anywhere |
| VoiceChat.NoPluralAt | script.js:1281 | at a position where the alternation fits, it never picks trains, buses or flights |
| VoiceChat.NormalizeTransport | script.js:1381-1388 | the type sent is train exactly for train/trains/railway, bus exactly for bus/buses, both otherwise |
| VoiceChat.NormalizeTransportIdempotent | script.js:1381-1388 | normalising a normalised type changes nothing |
| VoiceChat.FallbackVersusRequest | script.js:1464-1469 | train, bus and both are described as trains, buses, trains and buses; railway is searched as train but described as buses; flight and plane as both but described as buses |
| VoiceChat.DispatchOrder | script.js:1293-1342 | a route answer exactly when both places are found, then help, greeting, thanks, farewell and the general query in this order |
| VoiceChat.GeneralTopic | script.js:1490-1539 | the general query answers popular places first, then budget travel, else asks again |
| VoiceChat.RouteNeedsBackslash | script.js:1279 | a route answer needs a backslash in the command |
| VoiceChat.RoutePlacesInClass | script.js:1279-1280 | the places of a route answer hold only letters and backslashes |
| VoiceChat.SuggestedExampleGreets | script.js:1310-1322 | "Find trains from Delhi to Mumbai" is answered with a greeting |
| VoiceChat.FormatDuration | script.js:1944-1957 | "Duration varies" exactly for 0; contains h exactly from one hour on |
| VoiceChat.FormatDurationRoundTrip | script.js:1944-1957 | reading the text back gives the minutes, and nothing for "Duration varies" |
| VoiceChat.FormatRouteSearchResults | script.js:1417-1460 | the text built with `+=` is the header, the blocks of the first three routes, the optional more-options line and the closing line |
| VoiceChat.FormatRouteBlock | script.js:1436-1448 | one block: name, type, times, duration (300 minutes when missing), price ("Price varies" when missing), seats when known |
| VoiceChat.ResultsFound | script.js:1418-1430 | the text starts with "Great! I found" exactly when there are routes, and is the fixed "couldn't find" text for none |
| VoiceChat.ResultsListTopThree | script.js:1433-1449 | the block of each of the first three routes, numbered from 1, appears in the text |
| VoiceChat.ResultsMoreOptions | script.js:1451-1457 | the "N more options" line with N = length − 3 appears for more than three routes; otherwise the blocks run straight into the closing line |
| VoiceChat.ResultsUseTopThree | script.js:1433 | routes after the third change nothing but the count |
| VoiceChat.RouteSearchRequest | script.js:1378-1391 | the API request's type is train, bus or both, and it is marked as a voice query |
| VoiceChat.RouteSearchRequestStable | script.js:1357-1365 | places are sent already formatted, so formatting them again changes nothing |
| VoiceChat.VoiceChatPanel.AddChatMessage | script.js:1543-1561 | exactly one message is appended, and the saved copy is the last 100 |
| VoiceChat.VoiceChatPanel.ProcessVoiceCommand | script.js:1274-1348 | the answer is the text of the dispatched branch, and it is kept for replay |
| ChatAssistant.GetSenderInfo | chat.js:379-390 | the label is "Unknown" exactly for a sender other than user, assistant and system |
| ChatAssistant.SenderInfoDistinct | chat.js:379-390 | the three known senders get distinct labels and distinct icons |
| ChatAssistant.Breaks | chat.js:397 | no line break is left after `<br>` replacement |
| ChatAssistant.FormatMessageText | chat.js:392-400 | the result starts with `<p>`, ends with `</p>` and holds no line break |
| ChatAssistant.BoldStarFree | chat.js:394 | text without '*' is left alone by the bold replacement |
| ChatAssistant.ItalicStarFree | chat.js:395 | text without '*' is left alone by the emphasis replacement |
| ChatAssistant.ParagraphsNewlineFree | chat.js:396 | text without line breaks is left alone by the paragraph replacement |
| ChatAssistant.FormatPlainText | chat.js:392-400 | text with no '*' and no line break comes back only wrapped in `<p>…</p>` |
| ChatAssistant.BoldWord | chat.js:394 | a word between double stars becomes a strong element |
| ChatAssistant.FormatBoldText | chat.js:392-400 | `**w**` is shown as `<p><strong>w</strong></p>` |
| ChatAssistant.StripMarkup | chat.js:461 | no '*', '_', '#' or line break is left |
| ChatAssistant.SpeechTextStrips | chat.js:461 | the second replacement finds nothing: the speech text only has the markup characters removed |
| ChatAssistant.StripMarkupAppend | chat.js:461 | stripping works part by part |
| ChatAssistant.StripMarkupChar | chat.js:461 | one character stays exactly when it is not markup |
| ChatAssistant.StripMarkupFree | chat.js:461 | text without markup is read as written |
| ChatAssistant.Assistant.SaveChatHistory | chat.js:712-715 | the stored copy is the last 50 messages in order; nothing else changes |
| ChatAssistant.Assistant.AddMessage | chat.js:296-321 | exactly one message with the given sender and text is appended, earlier ones untouched, and the last 50 are saved |
| ChatAssistant.Assistant.LoadChatHistory | chat.js:717-741 | saved messages are appended one by one after those in memory; nothing stored changes nothing; an unreadable copy empties the conversation |
| ChatAssistant.Assistant.ClearChatHistory | chat.js:743-795 | once confirmed, the conversation is exactly the one system notice, and that is what is saved; unconfirmed, nothing changes |
| ChatAssistant.Assistant.SpeakResponse | chat.js:454-461 | nothing is spoken without speech synthesis or for empty text; otherwise the text without markup |
| ChatAssistant.Assistant.Respond | chat.js:239-270 | the generated reply, or the apology when generation failed, is appended and spoken; only a generated reply is kept for replay |
| ChatAssistant.Assistant.ProcessUserInput | chat.js:223-277 | blank input changes nothing; otherwise the user's message and then the reply or apology are appended, the last 50 saved, and the processing flag ends cleared |

## Left out

- DOM work, animation, sounds, the clipboard, `navigator.share` and timers (`setTimeout` auto-listen, scrolling) are outside the model. The model has no screen.
- Clocks and random numbers become parameters: message ids and times, the elapsed processing time, whether the travel date is past, and the random greeting (`pick`).
- Browser speech recognition and synthesis become parameters. Whether synthesis exists is a flag, and what is spoken is a recorded list of texts.
- Every `fetch` becomes an input listing what came back. This covers the route search of the voice chat (`RouteLookup`) and `generateResponse` of the chat assistant, which is not defined in its file (`Option`, where `None` is a throw). `RouteLookup` merges a network failure, an error status and an unreadable body into `NoAnswer`, since all three lead to the fallback text.
- VoiceChat.FormatRouteBlock: every listed route is assumed to carry a transport type. A route among the first three whose `transport_type` is missing or null makes `toUpperCase` throw (script.js:1436). The `catch` of `handleRouteSearchQuery` then gives the fallback text, so such an answer is to be passed as `NoAnswer`. `RouteRow` has no way to hold a missing type.
- The time pattern of the voice chat is left out. Its match enters as the `timeText` parameter, because it is only echoed in the fallback text.
- The markdown regular expressions at script.js:1645-1650 that render voice-chat messages are not modelled, because they are display only.
- `localStorage` and JSON are not modelled. Persistence is a stored sequence of messages, or the `Stored` value of the chat assistant. A `Date` timestamp becoming a string in the JSON round trip is not modelled.
- `conversationId` is `null` at page load in both chat scripts. The model takes it as a string parameter.
- The registration form's preferences (`parseInt` of the budget and the rest) and the phone field are carried but not checked, because the source does not check them.
- Case mapping is ASCII only. `toLowerCase` and `toUpperCase` on other letters, and UTF-16 lengths (`|s|` counts code points), are not modelled.
- The search page sorts departure times by code-point order. `localeCompare` can order such texts differently, but not for the `HH:MM` times it is given. The sort is modelled as a stable insertion sort, as `Array.prototype.sort` is stable.
- Durations are natural numbers. Negative, fractional, `NaN` and `undefined` minutes are not modelled, apart from the 0 that `!minutes` catches.
- The SQL text is written with single spaces where the source indents it over several lines. The execution of statements, LIKE collation, rating order, `transaction`, the pool and the `fields` member of a query result are not modelled.
- The handler's `catch` branch of `/api/voice/process` is left out. Nothing inside its `try` throws in the model, because `DatabaseHelper.query` reports errors as values.
- Express middleware, rate limiting, authentication and the other endpoints are outside the model. The signed-in user and the session are the `Caller` input.
- VoiceServer.GenerateVoiceResponse: `responses[key] || responses.general` also finds inherited properties of `Object.prototype`, so keys such as "constructor", "toString" or "__proto__" return those properties rather than the general template. The model looks up only the five own keys. The only caller (server.js:454) passes one of the five intent names, and `VoiceServer.ReplyOfIntent` covers exactly those.
- Route fields of the voice-chat answer that are missing without a fallback (both names, or a time) are printed as the empty text. JavaScript prints them as "undefined" or "null".
- VoiceChat.ValidatePassword: its contract only says an accepted password is not empty. The full rule (six characters or more) is stated by `RegistrationAccepted`, because the function's own body is that rule.
