/** The voice-command pipeline of the VoiceRoute server: intent classification and
    slot extraction on the lower-cased utterance, the canned spoken reply for each
    intent, and the `/api/voice/process` request handler that logs the command,
    searches for routes when both places are known, and composes the reply. The
    route-search result is an input of the handler, as is the elapsed time. */
module VoiceServer {
  import opened Optional
  import opened Text
  import opened Patterns
  import opened Database

  // -------------------------------------------------------------- intents

  datatype Intent = RouteSearch | Greeting | Help | Goodbye | General

  /** The key of the intent in the pattern and reply tables. */
  function IntentName(i: Intent): string {
    match i
    case RouteSearch => "route_search"
    case Greeting => "greeting"
    case Help => "help"
    case Goodbye => "goodbye"
    case General => "general"
  }

  /** The intent a table key names, if it names one. */
  function IntentNamed(key: string): (r: Option<Intent>)
    ensures r.Some? ==> IntentName(r.value) == key
  {
    if key == "route_search" then Some(RouteSearch)
    else if key == "greeting" then Some(Greeting)
    else if key == "help" then Some(Help)
    else if key == "goodbye" then Some(Goodbye)
    else if key == "general" then Some(General)
    else None
  }

  /** Every intent's key reads back as that intent, so distinct intents have
      distinct keys. */
  lemma IntentNameRoundTrip(i: Intent)
    ensures IntentNamed(IntentName(i)) == Some(i)
  {
  }

  const FindWords: seq<string> := ["find", "show", "search", "get", "look for"]
  const ThingWords: seq<string> := ["train", "bus", "route", "travel", "way"]
  const FromOrTo: seq<string> := ["from", "to"]
  const TrainOrBus: seq<string> := ["train", "bus"]

  /** The two alternatives of the route-search pattern:
      `(find|show|search|get|look for).*(train|bus|route|travel|way).*(from|to)` and
      `(train|bus).*(from|to)`. */
  const RouteShapes: seq<seq<seq<string>>> := [[FindWords, ThingWords, FromOrTo], [TrainOrBus, FromOrTo]]

  const Greetings: seq<string> := ["hello", "hi", "hey", "good morning", "good afternoon", "good evening"]
  const HelpWords: seq<string> := ["help", "assist", "support", "what can you do", "how to use"]
  const GoodbyeWords: seq<string> := ["bye", "goodbye", "see you", "thanks", "thank you"]

  /** The three shapes of intent pattern: alternatives of `.*`-separated keyword
      groups, keywords anchored at the start (`^(...)`), keywords anywhere. */
  datatype IntentPattern = AnyStages(alts: seq<seq<seq<string>>>) | Prefix(ws: seq<string>) | Contains(ws: seq<string>)

  /** `pattern.test(s)`. */
  predicate Tests(p: IntentPattern, s: string) {
    match p
    case AnyStages(alts) => exists k | 0 <= k < |alts| :: StagesAnywhere(alts[k], s)
    case Prefix(ws) => StartsWithAny(s, ws)
    case Contains(ws) => IncludesAny(s, ws)
  }

  /** The pattern table, in the order its entries are tried. */
  const IntentTable: seq<(Intent, IntentPattern)> := [
    (RouteSearch, AnyStages(RouteShapes)),
    (Greeting, Prefix(Greetings)),
    (Help, Contains(HelpWords)),
    (Goodbye, Contains(GoodbyeWords))]

  predicate IsRouteRequest(s: string) {
    StagesAnywhere(RouteShapes[0], s) || StagesAnywhere(RouteShapes[1], s)
  }

  /** Reference definition of the classification, written as the precedence chain
      route search, greeting, help, goodbye, and general otherwise. */
  function Classify(s: string): Intent {
    if IsRouteRequest(s) then RouteSearch
    else if StartsWithAny(s, Greetings) then Greeting
    else if IncludesAny(s, HelpWords) then Help
    else if IncludesAny(s, GoodbyeWords) then Goodbye
    else General
  }

  /** A route search always mentions "from" or "to" somewhere. */
  lemma RouteSearchMentionsFromOrTo(s: string)
    requires Classify(s) == RouteSearch
    ensures Includes(s, "from") || Includes(s, "to")
  {
    var k := if StagesAnywhere(RouteShapes[0], s) then 0 else 1;
    var groups := RouteShapes[k];
    var p: nat :| p <= |s| && StagesAt(groups, s, p);
    StagesIncludeLast(groups, s, p);
    assert groups[|groups| - 1] == FromOrTo;
    var j :| 0 <= j < |FromOrTo| && Includes(s, FromOrTo[j]);
  }

  /** A greeting word at the very start makes a greeting whatever follows, unless
      the utterance is a route search. */
  lemma GreetingAtStart(g: nat, rest: string)
    requires g < |Greetings| && !IsRouteRequest(Greetings[g] + rest)
    ensures Classify(Greetings[g] + rest) == Greeting
  {
    var s := Greetings[g] + rest;
    assert s[0..|Greetings[g]|] == Greetings[g];
    assert StartsAt(s, 0, Greetings[g]);
  }

  /** A greeting is only recognised at the start: an utterance that does not begin
      with a greeting word is never a greeting. */
  lemma GreetingOnlyAsPrefix(s: string)
    requires forall k | 0 <= k < |Greetings| :: !StartsAt(s, 0, Greetings[k])
    ensures Classify(s) != Greeting
  {
  }

  // ---------------------------------------------------------------- slots

  /** `from\s+([a-zA-Z\s]+?)(?:\s+to|$)`. */
  const FromPattern := CapturePattern([Word("from")], Spaces, LettersSpaces, [GapThen("to"), AtEnd])

  /** `to\s+([a-zA-Z\s]+?)(?:\s|$)`. */
  const ToPattern := CapturePattern([Word("to")], Spaces, LettersSpaces, [OneSpace, AtEnd])

  /** `\b(train|bus|both)\b`. */
  const TransportWords: seq<string> := ["train", "bus", "both"]

  /** The trimmed first group of the leftmost match of a pattern, or `null`. */
  function Slot(P: CapturePattern, s: string): Option<string> {
    match Capture(P, s)
    case Some(c) => Some(Trim(c))
    case None => None
  }

  function TransportOf(s: string): (t: string)
    ensures t in TransportWords
  {
    match FirstWord(WholeWord, s, 0, TransportWords)
    case Some(w) => w
    case None => "both"
  }

  /** The source is `null` exactly when the from-pattern matches nowhere; otherwise
      it is the trimmed lazy group of the leftmost match, and holds only letters and
      white space. */
  lemma SourceSlot(s: string)
    ensures Slot(FromPattern, s).None? <==> forall p: nat, c: nat, e: nat :: !MatchesAt(FromPattern, s, p, c, e)
    ensures Slot(FromPattern, s).Some? ==>
      forall i | 0 <= i < |Slot(FromPattern, s).value| :: IsAsciiLetter(Slot(FromPattern, s).value[i]) || IsSpace(Slot(FromPattern, s).value[i])
  {
    CaptureNone(FromPattern, s);
    if Capture(FromPattern, s).Some? {
      CaptureInClass(FromPattern, s);
      SlotChars(FromPattern, s);
    }
  }

  lemma SlotChars(P: CapturePattern, s: string)
    requires Capture(P, s).Some?
    requires forall i | 0 <= i < |Capture(P, s).value| :: InClass(P.cls, Capture(P, s).value[i])
    ensures forall i | 0 <= i < |Slot(P, s).value| :: InClass(P.cls, Slot(P, s).value[i])
  {
    var c := Capture(P, s).value;
    forall i | 0 <= i < |Slot(P, s).value| ensures InClass(P.cls, Slot(P, s).value[i]) {
      assert Slot(P, s).value[i] == c[TrimStartIndex(c) + i];
    }
  }

  /** The source is the group of a match that starts no later than any other match;
      from that start the white space after "from" is as long as a match allows, and
      the group stops at the first place where " to" or the end follows. */
  lemma SourceIsLeftmostLazy(s: string) returns (p: nat, c: nat, e: nat)
    requires Slot(FromPattern, s).Some?
    ensures MatchesAt(FromPattern, s, p, c, e) && Slot(FromPattern, s) == Some(Trim(s[c..e]))
    ensures forall q: nat, c': nat, e': nat :: MatchesAt(FromPattern, s, q, c', e') ==> p <= q
    ensures forall c': nat, e': nat | c < c' :: !MatchesAt(FromPattern, s, p, c', e')
    ensures forall x | c < x < e :: !AnySuffixAt(FromPattern, s, x)
  {
    p, c, e := CaptureSomeWord(FromPattern, s);
  }

  /** The destination likewise: the leftmost match, the longest white space after
      "to" from that start, and the group up to the first white space or the end. */
  lemma DestinationIsLeftmostLazy(s: string) returns (p: nat, c: nat, e: nat)
    requires Slot(ToPattern, s).Some?
    ensures MatchesAt(ToPattern, s, p, c, e) && Slot(ToPattern, s) == Some(Trim(s[c..e]))
    ensures forall q: nat, c': nat, e': nat :: MatchesAt(ToPattern, s, q, c', e') ==> p <= q
    ensures forall c': nat, e': nat | c < c' :: !MatchesAt(ToPattern, s, p, c', e')
    ensures forall x | c < x < e :: !AnySuffixAt(ToPattern, s, x)
  {
    p, c, e := CaptureSomeWord(ToPattern, s);
  }

  /** The destination is `null` exactly when the to-pattern matches nowhere, and
      otherwise holds only letters and white space. */
  lemma DestinationSlot(s: string)
    ensures Slot(ToPattern, s).None? <==> forall p: nat, c: nat, e: nat :: !MatchesAt(ToPattern, s, p, c, e)
    ensures Slot(ToPattern, s).Some? ==>
      forall i | 0 <= i < |Slot(ToPattern, s).value| :: IsAsciiLetter(Slot(ToPattern, s).value[i]) || IsSpace(Slot(ToPattern, s).value[i])
  {
    CaptureNone(ToPattern, s);
    if Capture(ToPattern, s).Some? {
      CaptureInClass(ToPattern, s);
      SlotChars(ToPattern, s);
    }
  }

  /** A command in which "into" is followed by a place. */
  const IntoGoa := "into goa"

  lemma IntoGoaSuffixes()
    ensures AnySuffixAt(ToPattern, IntoGoa, 8)
    ensures !AnySuffixAt(ToPattern, IntoGoa, 6) && !AnySuffixAt(ToPattern, IntoGoa, 7)
  {
    assert SuffixAt(Spaces, ToPattern.suffixes[1], IntoGoa, 8);
  }

  lemma IntoGoaCapture()
    ensures CaptureFrom(ToPattern, IntoGoa, 5) == Some(8)
  {
    var s := IntoGoa;
    IntoGoaSuffixes();
    assert LazyEnd(ToPattern, s, 5, 8) == Some(8);
    assert LazyEnd(ToPattern, s, 5, 7) == Some(8);
    assert LazyEnd(ToPattern, s, 5, 6) == Some(8);
  }

  lemma IntoGoaMatch()
    ensures MatchAt(ToPattern, IntoGoa, 0).None? && MatchAt(ToPattern, IntoGoa, 1).None?
    ensures MatchAt(ToPattern, IntoGoa, 2) == Some((5, 8))
  {
    var s := IntoGoa;
    assert !StartsAt(s, 0, "to") by { assert s[0..2][0] == 'i'; }
    assert !StartsAt(s, 1, "to") by { assert s[1..3][0] == 'n'; }
    assert StartsAt(s, 2, "to");
    assert GapMax(Spaces, s, 4) == 1 by {
      assert SkipSpaces(s, 4) == 5 by { assert IsSpace(s[4]) && !IsSpace(s[5]); }
    }
    IntoGoaCapture();
    assert TryGaps(ToPattern, s, 4, 1) == Some((5, 8));
  }

  /** The to-pattern has no word boundary: the "to" at the end of "into" starts a
      match, so "into goa" has destination "goa". */
  lemma DestinationInsideWord()
    ensures Slot(ToPattern, IntoGoa) == Some("goa")
  {
    var s := IntoGoa;
    IntoGoaMatch();
    IntoGoaCapture();
    assert MatchesAt(ToPattern, s, 2, 5, 8) by {
      assert LeadMatch(Spaces, ToPattern.leads[0], s, 2, 4);
      assert GapSpec(Spaces, s, 4, 1);
      assert 0 <= 0 < |ToPattern.leads| && 2 <= 4 <= 5;
    }
    CaptureOfLeftmost(ToPattern, s, 2, 5, 8);
    assert s[5..8] == "goa";
    TrimNoSpaces("goa");
  }

  /** No whole word train, bus or both starts before `q`. */
  ghost predicate NoTransportBefore(s: string, q: nat) {
    forall q', k | 0 <= q' < q && 0 <= k < |TransportWords| :: !WordAt(WholeWord, s, q', TransportWords[k])
  }

  /** The transport word is always one of train, bus and both. Train or bus is
      chosen only when that word stands on its own somewhere with no whole word
      train, bus or both before it, so plurals such as "trains" and "buses" leave the
      default "both", and in "bus or train" the bus comes first. */
  lemma TransportWholeWord(s: string)
    ensures TransportOf(s) in TransportWords
    ensures TransportOf(s) == "train" ==> exists q | 0 <= q <= |s| :: WordAt(WholeWord, s, q, "train") && NoTransportBefore(s, q)
    ensures TransportOf(s) == "bus" ==> exists q | 0 <= q <= |s| :: WordAt(WholeWord, s, q, "bus") && NoTransportBefore(s, q)
    ensures TransportOf(s) == "both" <==>
      (forall q | 0 <= q <= |s| :: !WordAt(WholeWord, s, q, "train") && !WordAt(WholeWord, s, q, "bus")) ||
      FirstWord(WholeWord, s, 0, TransportWords) == Some("both")
  {
    FirstWordSound(WholeWord, s, 0, TransportWords);
    match FirstWord(WholeWord, s, 0, TransportWords)
    case Some(w) =>
      FirstWordLeftmost(WholeWord, s, 0, TransportWords);
      var q := FirstWordPos(WholeWord, s, 0, TransportWords).value;
      assert WordAt(WholeWord, s, q, w) && NoTransportBefore(s, q);
    case None =>
      forall q | 0 <= q <= |s| ensures !WordAt(WholeWord, s, q, "train") && !WordAt(WholeWord, s, q, "bus") {
        assert TransportWords[0] == "train" && TransportWords[1] == "bus";
      }
  }

  /** "bus or train" asks for the bus: the leftmost whole word wins, not the first
      alternative of the group. */
  lemma BusOrTrain()
    ensures TransportOf("bus or train") == "bus"
  {
    var s := "bus or train";
    assert WordAt(WholeWord, s, 0, "bus") by { assert s[0..3] == "bus"; }
    assert !WordAt(WholeWord, s, 0, "train") by { assert s[0..5][0] == 'b'; }
    assert FirstWordAt(WholeWord, s, 0, TransportWords) == Some(1);
  }

  /** What `processVoiceCommand` returns. */
  datatype Processed = Processed(
    intent: Intent,
    source: Option<string>,
    destination: Option<string>,
    transportType: string,
    originalCommand: string)

  /** Reference result of `processVoiceCommand`: the intent by precedence, the
      slots from the lower-cased text. */
  function ProcessedOf(command: string): Processed {
    var lower := Lower(command);
    Processed(Classify(lower), Slot(FromPattern, lower), Slot(ToPattern, lower), TransportOf(lower), command)
  }

  /** The first entry of the table whose pattern tests true carries the intent that
      `Classify` gives. */
  lemma FirstTableHit(s: string, i: nat)
    requires i < |IntentTable| && Tests(IntentTable[i].1, s)
    requires forall j | 0 <= j < i :: !Tests(IntentTable[j].1, s)
    ensures IntentTable[i].0 == Classify(s)
  {
    TableEntries(s);
  }

  /** When no entry tests true the intent is general. */
  lemma NoTableHit(s: string)
    requires forall j | 0 <= j < |IntentTable| :: !Tests(IntentTable[j].1, s)
    ensures Classify(s) == General
  {
    TableEntries(s);
  }

  lemma TableEntries(s: string)
    ensures |IntentTable| == 4
    ensures IntentTable[0].0 == RouteSearch && (Tests(IntentTable[0].1, s) <==> IsRouteRequest(s))
    ensures IntentTable[1].0 == Greeting && (Tests(IntentTable[1].1, s) <==> StartsWithAny(s, Greetings))
    ensures IntentTable[2].0 == Help && (Tests(IntentTable[2].1, s) <==> IncludesAny(s, HelpWords))
    ensures IntentTable[3].0 == Goodbye && (Tests(IntentTable[3].1, s) <==> IncludesAny(s, GoodbyeWords))
  {
    assert IntentTable[0].1 == AnyStages(RouteShapes);
    assert |RouteShapes| == 2;
  }

  /** `processVoiceCommand`: the table is tried in order and the first pattern that
      tests true decides the intent, which therefore follows the precedence chain
      of `Classify`; the slots come from the lower-cased text. */
  method ProcessVoiceCommand(command: string) returns (r: Processed)
    ensures r == ProcessedOf(command)
  {
    var lower := Lower(command);
    var intent := General;
    var i := 0;
    while i < |IntentTable|
      invariant 0 <= i <= |IntentTable|
      invariant intent == General
      invariant forall j | 0 <= j < i :: !Tests(IntentTable[j].1, lower)
    {
      if Tests(IntentTable[i].1, lower) {
        FirstTableHit(lower, i);
        intent := IntentTable[i].0;
        break;
      }
      i := i + 1;
    }
    if i == |IntentTable| {
      NoTableHit(lower);
    }
    r := Processed(intent, Slot(FromPattern, lower), Slot(ToPattern, lower), TransportOf(lower), command);
  }

  // ---------------------------------------------------------------- replies

  /** The spoken reply of a voice request: a message, the speak flag, and the found
      routes when there are any. */
  datatype VoiceResponse = VoiceResponse(message: string, speak: bool, data: Option<seq<Route>>)

  function Template(i: Intent): string {
    match i
    case RouteSearch =>
      "Let me search for the best routes for you. I'll check both trains and buses to find the most suitable options."
    case Greeting =>
      "Hello! I'm VoiceRoute assistant. I can help you find train and bus routes across India. Just tell me where you want to go!"
    case Help =>
      "I can help you find transportation routes. Try saying things like 'Find trains from Delhi to Mumbai' or 'Show bus routes to Pune'. You can also ask for the fastest or cheapest options."
    case Goodbye =>
      "Thank you for using VoiceRoute! Have a safe journey and feel free to ask for help anytime."
    case General =>
      "I understand you're looking for travel information. Could you please specify your source and destination? For example, say 'Find routes from Delhi to Mumbai'."
  }

  /** `generateVoiceResponse`: the template of the intent the key names, the general
      one for any other key; always spoken, never with data. The lookup reads only
      the five own keys of the response table: a key naming an inherited property of
      `Object.prototype` is not modelled, and the handler never passes one. */
  function GenerateVoiceResponse(key: string): (r: VoiceResponse)
    ensures r.speak && r.data.None?
    ensures IntentNamed(key).Some? ==> r.message == Template(IntentNamed(key).value)
    ensures IntentNamed(key).None? ==> r.message == Template(General)
  {
    var i := IntentNamed(key);
    VoiceResponse(if i.Some? then Template(i.value) else Template(General), true, None)
  }

  /** The reply of every intent is its own template. */
  lemma ReplyOfIntent(i: Intent)
    ensures GenerateVoiceResponse(IntentName(i)) == VoiceResponse(Template(i), true, None)
  {
    IntentNameRoundTrip(i);
  }

  // ---------------------------------------------------------------- handler

  /** The body fields the handler reads; `None` is a field the client left out. */
  datatype VoiceRequest = VoiceRequest(voiceCommand: Option<string>, confidenceScore: Option<real>, language: Option<string>)

  /** Who is asking: the signed-in user's id and the session id, when present. */
  datatype Caller = Caller(userId: Option<int>, sessionId: Option<string>)

  datatype HandlerReply =
    | ValidationFailed                                    // status 400
    | Answered(intent: string, response: VoiceResponse, processingTimeMs: int, confidenceScore: real)

  /** The request validators: a command of 1 to 1000 characters (checked before it
      is trimmed), an optional score in [0, 1], an optional language of 2 to 10
      characters. */
  predicate ValidRequest(req: VoiceRequest) {
    && req.voiceCommand.Some? && 1 <= |req.voiceCommand.value| <= 1000
    && (req.confidenceScore.Some? ==> 0.0 <= req.confidenceScore.value <= 1.0)
    && (req.language.Some? ==> 2 <= |req.language.value| <= 10)
  }

  /** A slot counts only when it is present and not empty. */
  predicate Known(slot: Option<string>) {
    slot.Some? && slot.value != ""
  }

  /** The search is issued only for a route search with both places known. */
  predicate ShouldSearch(p: Processed) {
    p.intent == RouteSearch && Known(p.source) && Known(p.destination)
  }

  /** The analytics record of a handled command. */
  function AnalyticsOf(caller: Caller, command: string, intent: Intent, score: real, elapsed: int, language: string): VoiceLog {
    VoiceLog(
      if caller.userId.Some? then Int(caller.userId.value) else Undefined,
      if caller.sessionId.Some? && caller.sessionId.value != "" then Str(caller.sessionId.value) else Null,
      Str(command), Str(IntentName(intent)), Num(score), Int(elapsed), Str(language), Bool(true), Null)
  }

  /** The message when the search found routes. */
  function FoundMessage(n: nat, source: string, destination: string, template: string): string {
    "I found " + NatToString(n) + " routes from " + source + " to " + destination + ". " + template
  }

  /** The trimmed command of a request that has one. */
  function CommandOf(req: VoiceRequest): string
    requires req.voiceCommand.Some?
  {
    Trim(req.voiceCommand.value)
  }

  /** The score the client sent, 0.8 when it sent none. */
  function ScoreOf(req: VoiceRequest): real {
    if req.confidenceScore.Some? then req.confidenceScore.value else 0.8
  }

  /** The language the client sent, `en-US` when it sent none. */
  function LanguageOf(req: VoiceRequest): string {
    if req.language.Some? then req.language.value else "en-US"
  }

  /** The search was issued and returned at least one row. */
  predicate Found(p: Processed, searchResult: QueryResult<seq<Route>>) {
    ShouldSearch(p) && searchResult.Success? && |searchResult.data| > 0
  }

  /** What the `/api/voice/process` handler answers and which statements it issues,
      in order. A request that fails validation gets status 400 and nothing is
      logged. A valid one is answered with the intent of its trimmed command, the
      score it sent or 0.8, the elapsed time and a reply to be spoken; the analytics
      entry is written first, and the route search with limit 5 follows exactly when
      the command is a route search with both places known. The reply carries the
      routes, and its message names their number and the two places, exactly when
      that search found at least one route; otherwise the message is the intent's
      template alone. */
  function Handle(req: VoiceRequest, caller: Caller, elapsed: int, searchResult: QueryResult<seq<Route>>): (HandlerReply, seq<Query>)
  {
    if !ValidRequest(req) then (ValidationFailed, [])
    else
      var p := ProcessedOf(CommandOf(req));
      var log := LogVoiceAnalytics(AnalyticsOf(caller, CommandOf(req), p.intent, ScoreOf(req), elapsed, LanguageOf(req)));
      (Answered(IntentName(p.intent), ResponseOf(p, searchResult), elapsed, ScoreOf(req)), IssuedOf(p, log))
  }

  /** The reply of a valid request: the intent's template, prefixed by the count and
      the places and carrying the routes when the search found some. */
  function ResponseOf(p: Processed, searchResult: QueryResult<seq<Route>>): VoiceResponse {
    var template := Template(p.intent);
    if Found(p, searchResult) then
      VoiceResponse(FoundMessage(|searchResult.data|, p.source.value, p.destination.value, template), true, Some(searchResult.data))
    else VoiceResponse(template, true, None)
  }

  /** The statements a valid request issues: the analytics entry, then the route
      search when there is one to make. */
  function IssuedOf(p: Processed, log: Query): seq<Query> {
    if ShouldSearch(p) then [log, SearchStatement(p.source.value, p.destination.value, Some(p.transportType), Some(Int(5)))]
    else [log]
  }

  /** A request that fails validation, and only such a request, gets status 400;
      nothing is logged for it. */
  lemma HandleRejects(req: VoiceRequest, caller: Caller, elapsed: int, searchResult: QueryResult<seq<Route>>)
    ensures !ValidRequest(req) <==> Handle(req, caller, elapsed, searchResult).0 == ValidationFailed
    ensures !ValidRequest(req) ==> Handle(req, caller, elapsed, searchResult).1 == []
  {
  }

  /** A valid request is answered with the intent of its trimmed command, the score
      it sent or 0.8, the elapsed time, and a reply to be spoken. */
  lemma HandleAnswers(req: VoiceRequest, caller: Caller, elapsed: int, searchResult: QueryResult<seq<Route>>)
    requires ValidRequest(req)
    ensures var reply := Handle(req, caller, elapsed, searchResult).0;
      && reply.Answered?
      && reply.intent == IntentName(ProcessedOf(CommandOf(req)).intent)
      && reply.confidenceScore == ScoreOf(req)
      && reply.processingTimeMs == elapsed
      && reply.response.speak
  {
  }

  /** The analytics entry, which records the command, its intent and success, is
      always written first, and the route search with limit 5 follows exactly when
      the command is a route search with both places known. */
  lemma HandleIssues(req: VoiceRequest, caller: Caller, elapsed: int, searchResult: QueryResult<seq<Route>>)
    requires ValidRequest(req)
    ensures var p := ProcessedOf(CommandOf(req));
      var issued := Handle(req, caller, elapsed, searchResult).1;
      && |issued| == (if ShouldSearch(p) then 2 else 1)
      && Balanced(issued[0])
      && issued[0].params[2] == Str(CommandOf(req))
      && issued[0].params[3] == Str(IntentName(p.intent))
      && issued[0].params[7] == Bool(true)
      && (ShouldSearch(p) ==>
            && Balanced(issued[1])
            && issued[1].params[0] == Str(Like(p.source.value))
            && issued[1].params[1] == Str(Like(p.destination.value))
            && issued[1].params[|issued[1].params| - 1] == Int(5))
  {
    var p := ProcessedOf(CommandOf(req));
    var d := AnalyticsOf(caller, CommandOf(req), p.intent, ScoreOf(req), elapsed, LanguageOf(req));
    assert d.voiceCommand == Str(CommandOf(req)) && d.recognizedIntent == Str(IntentName(p.intent)) && d.success == Bool(true);
    var log := LogVoiceAnalytics(d);
    assert Handle(req, caller, elapsed, searchResult).1[0] == log;
    if ShouldSearch(p) {
      var q := SearchStatement(p.source.value, p.destination.value, Some(p.transportType), Some(Int(5)));
      SearchOfFive(p.source.value, p.destination.value, p.transportType);
      assert Handle(req, caller, elapsed, searchResult).1 == [log, q];
    } else {
      assert Handle(req, caller, elapsed, searchResult).1 == [log];
    }
  }

  /** The handler's route search: the two LIKE patterns first and the limit 5 last. */
  lemma SearchOfFive(source: string, destination: string, t: string)
    ensures var q := SearchStatement(source, destination, Some(t), Some(Int(5)));
      && Balanced(q)
      && q.params[0] == Str(Like(source)) && q.params[1] == Str(Like(destination))
      && q.params[|q.params| - 1] == Int(5)
  {
  }

  /** The reply carries the routes, and the message names their number and the two
      places, exactly when the search was issued and found at least one route;
      otherwise the message is the intent's template alone. */
  lemma HandleReplies(req: VoiceRequest, caller: Caller, elapsed: int, searchResult: QueryResult<seq<Route>>)
    requires ValidRequest(req)
    ensures var p := ProcessedOf(CommandOf(req));
      var reply := Handle(req, caller, elapsed, searchResult).0;
      && reply.Answered?
      && (reply.response.data.Some? <==> Found(p, searchResult))
      && (Found(p, searchResult) ==>
            && reply.response.data == Some(searchResult.data)
            && reply.response.message
               == FoundMessage(|searchResult.data|, p.source.value, p.destination.value, Template(p.intent)))
      && (!Found(p, searchResult) ==> reply.response.message == Template(p.intent))
  {
  }

  /** The handler's steps after the analytics entry: the route search when there is
      one to make, and the reply, which carries the routes when the search found some. */
  method SearchAndRespond(p: Processed, log: Query, searchResult: QueryResult<seq<Route>>)
      returns (response: VoiceResponse, issued: seq<Query>)
    ensures issued == IssuedOf(p, log) && response == ResponseOf(p, searchResult)
  {
    response := GenerateVoiceResponse(IntentName(p.intent));
    ReplyOfIntent(p.intent);
    if ShouldSearch(p) {
      var q := SearchRoutes(p.source.value, p.destination.value, Some(p.transportType), Some(Int(5)));
      issued := [log, q];
      if searchResult.Success? && |searchResult.data| > 0 {
        response := response.(data := Some(searchResult.data),
          message := FoundMessage(|searchResult.data|, p.source.value, p.destination.value, response.message));
      }
    } else {
      issued := [log];
    }
  }

  /** The `/api/voice/process` handler: validation, processing, the analytics entry,
      the optional route search, the reply. */
  method HandleVoiceProcess(req: VoiceRequest, caller: Caller, elapsed: int, searchResult: QueryResult<seq<Route>>)
      returns (reply: HandlerReply, issued: seq<Query>)
    ensures (reply, issued) == Handle(req, caller, elapsed, searchResult)
  {
    if !ValidRequest(req) {
      return ValidationFailed, [];
    }
    var command := CommandOf(req);
    var score := ScoreOf(req);
    var language := LanguageOf(req);
    var p := ProcessVoiceCommand(command);
    var log := LogVoiceAnalytics(AnalyticsOf(caller, command, p.intent, score, elapsed, language));
    var response;
    response, issued := SearchAndRespond(p, log, searchResult);
    reply := Answered(IntentName(p.intent), response, elapsed, score);
  }
}
