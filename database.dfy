/** The SQL statements that the `DatabaseHelper` class of the VoiceRoute back end
    sends to MySQL, and the shape of what its `query` wrapper returns. Only the text
    of each statement and its parameter list are modelled, never their execution.
    Statement text is written with single spaces where the source indents it over
    several lines. */
module Database {
  import opened Optional
  import opened Text

  // ------------------------------------------------------------ values

  /** The JavaScript values that end up in a parameter list. */
  datatype Value =
    | Undefined                            // a property the caller did not set
    | Null
    | Int(i: int)
    | Num(x: real)
    | Bool(b: bool)
    | Str(s: string)
    | Record(fields: seq<(string, Value)>)
    | Array(items: seq<Value>)
    | JsonText(of: Value)                  // the text `JSON.stringify` makes of a value

  /** `JSON.stringify(v)`: a text for every value except `undefined`, for which
      `JSON.stringify` itself returns `undefined`. */
  function JsonOf(v: Value): (r: Value)
    ensures r.Undefined? <==> v.Undefined?
    ensures r.JsonText? ==> r.of == v
  {
    if v.Undefined? then Undefined else JsonText(v)
  }

  /** A JavaScript default parameter: the default applies when the argument is left
      out (`None`) and equally when it is passed as `undefined`. */
  function ArgOr(arg: Option<Value>, default: Value): (r: Value)
    ensures arg.None? || arg.value.Undefined? ==> r == default
    ensures arg.Some? && !arg.value.Undefined? ==> r == arg.value
  {
    if arg.Some? && !arg.value.Undefined? then arg.value else default
  }

  // ------------------------------------------------------- statement text

  /** A piece of statement text in which no placeholder occurs. */
  type Fragment = s: string | '?' !in s

  /** SQL text is a sequence of fixed texts (each a run of fragments), single `?`
      placeholders and parenthesised placeholder groups `(?, ?, ..., ?)`. */
  datatype Piece = Text(ts: seq<Fragment>) | Mark | Group(n: nat)

  /** Fragments joined by `Text.Concat` hold no placeholder. */
  lemma {:induction false} ConcatCount(ts: seq<Fragment>)
    ensures CountChar(Concat(ts), '?') == 0
  {
    if ts != [] {
      var init, last := ts[..|ts| - 1], ts[|ts| - 1];
      ConcatCount(init);
      CountCharLacking(last, '?');
      CountCharAppend(Concat(init), last, '?');
    }
  }

  /** `?, ?, ..., ?` with `n` placeholders. */
  function MarkList(n: nat): string {
    if n == 0 then "" else if n == 1 then "?" else "?, " + MarkList(n - 1)
  }

  function RenderPiece(p: Piece): string {
    match p
    case Text(ts) => Concat(ts)
    case Mark => "?"
    case Group(n) => "(" + MarkList(n) + ")"
  }

  function Render(ps: seq<Piece>): string {
    if ps == [] then "" else RenderPiece(ps[0]) + Render(ps[1..])
  }

  /** The number of placeholders the pieces contribute. */
  function Marks(ps: seq<Piece>): nat {
    if ps == [] then 0 else PieceMarks(ps[0]) + Marks(ps[1..])
  }

  function PieceMarks(p: Piece): nat {
    match p
    case Text(_) => 0
    case Mark => 1
    case Group(n) => n
  }

  lemma MarksCons(p: Piece, ps: seq<Piece>)
    ensures Marks([p] + ps) == PieceMarks(p) + Marks(ps)
  {
    assert ([p] + ps)[1..] == ps;
  }

  lemma {:induction false} MarkListCount(n: nat)
    ensures CountChar(MarkList(n), '?') == n
  {
    if n == 1 {
      assert MarkList(1) == ['?'];
    } else if n > 1 {
      MarkListCount(n - 1);
      CountCharAppend("?, ", MarkList(n - 1), '?');
    }
  }

  lemma RenderPieceCount(p: Piece)
    ensures CountChar(RenderPiece(p), '?') == PieceMarks(p)
  {
    match p
    case Text(ts) =>
      ConcatCount(ts);
    case Mark =>
      assert RenderPiece(p) == ['?'];
    case Group(n) =>
      MarkListCount(n);
      CountCharAppend("(", MarkList(n), '?');
      CountCharAppend("(" + MarkList(n), ")", '?');
  }

  /** The rendered text holds exactly as many `?` characters as the pieces have
      placeholders. */
  lemma {:induction false} RenderCount(ps: seq<Piece>)
    ensures CountChar(Render(ps), '?') == Marks(ps)
  {
    if ps != [] {
      RenderPieceCount(ps[0]);
      RenderCount(ps[1..]);
      CountCharAppend(RenderPiece(ps[0]), Render(ps[1..]), '?');
    }
  }

  lemma {:induction false} RenderAppend(a: seq<Piece>, b: seq<Piece>)
    ensures Render(a + b) == Render(a) + Render(b)
  {
    if a == [] {
      assert a + b == b;
    } else {
      assert (a + b)[1..] == a[1..] + b;
      RenderAppend(a[1..], b);
    }
  }

  /** A statement and its parameter list, as handed to `pool.execute`. */
  datatype Query = Query(pieces: seq<Piece>, params: seq<Value>)

  /** The text of the statement. */
  function Sql(q: Query): string {
    Render(q.pieces)
  }

  /** The statement has one parameter per placeholder. */
  predicate Balanced(q: Query) {
    Marks(q.pieces) == |q.params|
  }

  /** In a balanced statement every `?` of the text has exactly one parameter. */
  lemma BalancedText(q: Query)
    requires Balanced(q)
    ensures CountChar(Sql(q), '?') == |q.params|
  {
    RenderCount(q.pieces);
  }

  // ------------------------------------------------------------ results

  /** What `pool.execute` did: returned rows, or raised an error with a message. */
  datatype Execution<R> = Returned(rows: R) | Raised(message: string)

  /** `{ success: true, data }` or `{ success: false, error }`. */
  datatype QueryResult<R> = Success(data: R) | Failure(error: string)

  /** `DatabaseHelper.query` never raises: it reports a raised error as a failure
      carrying the error's message. */
  function RunQuery<R>(e: Execution<R>): (r: QueryResult<R>)
    ensures r.Success? <==> e.Returned?
    ensures r.Success? ==> r.data == e.rows
    ensures r.Failure? ==> r.error == e.message
  {
    match e
    case Returned(rows) => Success(rows)
    case Raised(m) => Failure(m)
  }

  /** A row of the `routes` table, with the aggregate columns `searchRoutes` adds. A
      column that may be `NULL` is an `Option`; fares are whole rupees. */
  datatype Route = Route(
    routeId: int,
    transportType: string,
    operatorName: string,
    routeName: Option<string>,
    routeNumber: Option<string>,
    source: string,
    destination: string,
    departureTime: string,
    arrivalTime: string,
    journeyDuration: int,
    fareBase: Option<nat>,
    fareSleeper: Option<nat>,
    fareAc: Option<nat>,
    availableSeats: Option<nat>,
    avgRating: Option<real>)

  // --------------------------------------------------------- route search

  const SelectAll: seq<Fragment> := ["SELECT r.*, ", "AVG(f.rating) as avg_rating, "]
  const ReviewCount: seq<Fragment> := ["COUNT(f.feedback_id) ", "as review_count "]
  const SelectList: seq<Fragment> := SelectAll + ReviewCount
  const FromJoin: seq<Fragment> := ["FROM routes r ", "LEFT JOIN user_feedback f ", "ON r.route_id = ", "f.route_id "]
  const WhereSource: seq<Fragment> := ["WHERE r.source LIKE "]
  const AndDestination: seq<Fragment> := [" AND r.destination LIKE "]
  const AndActive: seq<Fragment> := [" AND r.status = 'active'"]

  const SearchHead: seq<Piece> := [Text(SelectList + FromJoin + WhereSource), Mark, Text(AndDestination), Mark, Text(AndActive)]

  const TransportClause: seq<Piece> := [Text([" AND r.transport_type = "]), Mark]

  const GroupOrder: seq<Fragment> := [" GROUP BY r.route_id", " ORDER BY r.departure_time ASC, "]
  const RatingLimit: seq<Fragment> := ["avg_rating DESC", " LIMIT "]

  const SearchTail: seq<Piece> := [Text(GroupOrder + RatingLimit), Mark]

  lemma SearchPieceMarks()
    ensures Marks(SearchHead) == 2 && Marks(TransportClause) == 1 && Marks(SearchTail) == 1
  {
    var h := SearchHead;
    MarksCons(h[4], []);
    MarksCons(h[3], h[4..]);
    MarksCons(h[2], h[3..]);
    MarksCons(h[1], h[2..]);
    MarksCons(h[0], h[1..]);
    assert h == [h[0]] + h[1..] && h[1..] == [h[1]] + h[2..] && h[2..] == [h[2]] + h[3..];
    assert h[3..] == [h[3]] + h[4..] && h[4..] == [h[4]] + [];
  }

  /** `%text%`: the `LIKE` pattern that matches any value containing `text`. */
  function Like(text: string): (r: string)
    ensures |r| == |text| + 2 && r[0] == '%' && r[|r| - 1] == '%' && r[1..|r| - 1] == text
  {
    "%" + text + "%"
  }

  /** The statement `searchRoutes(source, destination, transportType = "both",
      limit = 10)` issues: the transport clause only when the type is not "both",
      the limit always bound last. A type of `None` is one left out or passed as
      `undefined`; a limit takes its default both when it is left out (`None`) and
      when it is passed as `undefined`. */
  function SearchStatement(source: string, destination: string, transportType: Option<string>, limit: Option<Value>): (q: Query)
    ensures Balanced(q)
    ensures var t := if transportType.Some? then transportType.value else "both";
      && |q.params| == (if t == "both" then 3 else 4)
      && q.params[0] == Str(Like(source)) && q.params[1] == Str(Like(destination))
      && (t != "both" ==> q.params[2] == Str(t))
      && q.params[|q.params| - 1] == ArgOr(limit, Int(10))
  {
    var t := if transportType.Some? then transportType.value else "both";
    var n := ArgOr(limit, Int(10));
    SearchPieceMarks();
    MarksAppend(SearchHead, TransportClause);
    MarksAppend(SearchHead, SearchTail);
    MarksAppend(SearchHead + TransportClause, SearchTail);
    if t == "both" then
      Query(SearchHead + SearchTail, [Str(Like(source)), Str(Like(destination)), n])
    else
      Query(SearchHead + TransportClause + SearchTail, [Str(Like(source)), Str(Like(destination)), Str(t), n])
  }

  /** `searchRoutes`: the text and the parameter list grow step by step. */
  method SearchRoutes(source: string, destination: string, transportType: Option<string>, limit: Option<Value>)
      returns (q: Query)
    ensures q == SearchStatement(source, destination, transportType, limit)
  {
    var t := if transportType.Some? then transportType.value else "both";
    var n := ArgOr(limit, Int(10));
    var pieces := SearchHead;
    var params := [Str(Like(source)), Str(Like(destination))];
    if t != "both" {
      pieces := pieces + TransportClause;
      params := params + [Str(t)];
    }
    pieces := pieces + SearchTail;
    params := params + [n];
    q := Query(pieces, params);
  }

  lemma {:induction false} MarksAppend(a: seq<Piece>, b: seq<Piece>)
    ensures Marks(a + b) == Marks(a) + Marks(b)
  {
    if a == [] {
      assert a + b == b;
    } else {
      assert (a + b)[1..] == a[1..] + b;
      MarksAppend(a[1..], b);
    }
  }

  /** The statement for a transport type is the one for "both" with the clause
      ` AND r.transport_type = ?` inserted before the grouping. */
  lemma SearchTransportClause(source: string, destination: string, t: string, limit: Option<Value>)
    requires t != "both"
    ensures Sql(SearchStatement(source, destination, None, limit)) == Render(SearchHead) + Render(SearchTail)
    ensures Sql(SearchStatement(source, destination, Some(t), limit))
         == Render(SearchHead) + " AND r.transport_type = ?" + Render(SearchTail)
  {
    RenderAppend(SearchHead, SearchTail);
    RenderAppend(SearchHead + TransportClause, SearchTail);
    RenderAppend(SearchHead, TransportClause);
    TransportClauseText();
  }

  lemma TransportClauseText()
    ensures Render(TransportClause) == " AND r.transport_type = ?"
  {
    assert Render(TransportClause) == " AND r.transport_type = " + "?" + "";
  }

  /** `getPersonalizedRoutes(userId, source, destination, transportType = "both")`: a
      call of the stored procedure with the limit fixed at 10 in the text; a type
      left out or passed as `undefined` is bound as "both". */
  function GetPersonalizedRoutes(userId: Value, source: Value, destination: Value, transportType: Option<Value>): (q: Query)
    ensures Balanced(q) && |q.params| == 4
    ensures q.params == [userId, source, destination,
      if transportType.Some? && !transportType.value.Undefined? then transportType.value else Str("both")]
  {
    var head, next, tail := [Text(["CALL GetRouteRecommendations("]), Mark], [Text([", "]), Mark], [Text([", 10)"])];
    assert Marks(head) == 1 && Marks(next) == 1 && Marks(tail) == 0;
    MarksAppend(head, next);
    MarksAppend(head + next, next);
    MarksAppend(head + next + next, next);
    MarksAppend(head + next + next + next, tail);
    Query(head + next + next + next + tail, [userId, source, destination, ArgOr(transportType, Str("both"))])
  }

  // ------------------------------------------------------- insert builders

  /** `INSERT INTO <table> (<columns>) VALUES (?, ..., ?)`. */
  function Insert(table: seq<Piece>, columns: seq<Piece>, n: nat): seq<Piece> {
    [Text(["INSERT INTO "])] + table + [Text([" ("])] + columns + [Text([") VALUES "]), Group(n)]
  }

  lemma {:induction false} InsertMarks(table: seq<Piece>, columns: seq<Piece>, n: nat)
    requires Marks(table) == 0 && Marks(columns) == 0
    ensures Marks(Insert(table, columns, n)) == n
  {
    var a := [Text(["INSERT INTO "])];
    var b := [Text([" ("])];
    var c := [Text([") VALUES "]), Group(n)];
    MarksAppend(a, table);
    MarksAppend(a + table, b);
    MarksAppend(a + table + b, columns);
    MarksAppend(a + table + b + columns, c);
    MarksCons(Text([") VALUES "]), [Group(n)]);
    MarksCons(Group(n), []);
    MarksCons(Text(["INSERT INTO "]), []);
    MarksCons(Text([" ("]), []);
  }

  /** The user record a registration stores. */
  datatype NewUser = NewUser(username: Value, email: Value, passwordHash: Value, phone: Value, fullName: Value, preferences: Value)

  const UserColumns: seq<Piece> := [Text(["username, email, ", "password_hash, phone, ", "full_name, preferences"])]

  /** `createUser`: six columns, six parameters, the preferences serialised. */
  function CreateUser(u: NewUser): (q: Query)
    ensures Balanced(q) && |q.params| == 6
    ensures q.params[0] == u.username && q.params[1] == u.email && q.params[5] == JsonOf(u.preferences)
  {
    InsertMarks([Text(["users"])], UserColumns, 6);
    Query(Insert([Text(["users"])], UserColumns, 6),
      [u.username, u.email, u.passwordHash, u.phone, u.fullName, JsonOf(u.preferences)])
  }

  datatype SearchLog = SearchLog(
    userId: Value, sessionId: Value, queryText: Value, sourceLocation: Value, destination: Value,
    transportType: Value, searchResults: Value, responseTimeMs: Value, userAgent: Value, ipAddress: Value)

  const SearchLogFirst: seq<Fragment> := ["user_id, session_id, ", "query_text, ", "source_location, "]
  const SearchLogMiddle: seq<Fragment> := ["destination, ", "transport_type, ", "search_results, "]
  const SearchLogLast: seq<Fragment> := ["response_time_ms, ", "user_agent, ip_address"]

  const SearchLogColumns: seq<Piece> := [Text(SearchLogFirst + SearchLogMiddle + SearchLogLast)]

  /** `logSearch`: ten columns, ten parameters, the results serialised. */
  function LogSearch(d: SearchLog): (q: Query)
    ensures Balanced(q) && |q.params| == 10
    ensures q.params[2] == d.queryText && q.params[6] == JsonOf(d.searchResults)
  {
    InsertMarks([Text(["search_history"])], SearchLogColumns, 10);
    Query(Insert([Text(["search_history"])], SearchLogColumns, 10),
      [d.userId, d.sessionId, d.queryText, d.sourceLocation, d.destination, d.transportType,
       JsonOf(d.searchResults), d.responseTimeMs, d.userAgent, d.ipAddress])
  }

  datatype VoiceLog = VoiceLog(
    userId: Value, sessionId: Value, voiceCommand: Value, recognizedIntent: Value, confidenceScore: Value,
    processingTimeMs: Value, languageDetected: Value, success: Value, errorMessage: Value)

  const VoiceLogFirst: seq<Fragment> := ["user_id, session_id, ", "voice_command, ", "recognized_intent, "]
  const VoiceLogMiddle: seq<Fragment> := ["confidence_score, ", "processing_time_ms, "]
  const VoiceLogLast: seq<Fragment> := ["language_detected, ", "success, error_message"]

  const VoiceLogColumns: seq<Piece> := [Text(VoiceLogFirst + VoiceLogMiddle + VoiceLogLast)]

  /** `logVoiceAnalytics`: nine columns, nine parameters in column order. */
  function LogVoiceAnalytics(d: VoiceLog): (q: Query)
    ensures Balanced(q) && |q.params| == 9
    ensures q.params[2] == d.voiceCommand && q.params[3] == d.recognizedIntent && q.params[7] == d.success
  {
    InsertMarks([Text(["voice_analytics"])], VoiceLogColumns, 9);
    Query(Insert([Text(["voice_analytics"])], VoiceLogColumns, 9),
      [d.userId, d.sessionId, d.voiceCommand, d.recognizedIntent, d.confidenceScore,
       d.processingTimeMs, d.languageDetected, d.success, d.errorMessage])
  }

  datatype Feedback = Feedback(userId: Value, routeId: Value, rating: Value, feedbackType: Value, comments: Value, isAnonymous: Value)

  const FeedbackColumns: seq<Piece> := [
    Text(["user_id, route_id, ", "rating, feedback_type, ", "comments, is_anonymous"])]

  /** `addFeedback`: six columns, six parameters. */
  function AddFeedback(d: Feedback): (q: Query)
    ensures Balanced(q) && |q.params| == 6
    ensures q.params[1] == d.routeId && q.params[2] == d.rating
  {
    InsertMarks([Text(["user_feedback"])], FeedbackColumns, 6);
    Query(Insert([Text(["user_feedback"])], FeedbackColumns, 6),
      [d.userId, d.routeId, d.rating, d.feedbackType, d.comments, d.isAnonymous])
  }

  datatype ApiUsage = ApiUsage(
    userId: Value, ipAddress: Value, endpoint: Value, httpMethod: Value, statusCode: Value,
    responseTimeMs: Value, requestSizeBytes: Value, responseSizeBytes: Value, userAgent: Value)

  const ApiUsageFirst: seq<Fragment> := ["user_id, ip_address, ", "endpoint, method, ", "status_code, "]
  const ApiUsageLast: seq<Fragment> := ["response_time_ms, ", "request_size_bytes, ", "response_size_bytes, ", "user_agent"]

  const ApiUsageColumns: seq<Piece> := [Text(ApiUsageFirst + ApiUsageLast)]

  /** `logAPIUsage`: nine columns, nine parameters. */
  function LogApiUsage(d: ApiUsage): (q: Query)
    ensures Balanced(q) && |q.params| == 9
    ensures q.params[2] == d.endpoint && q.params[4] == d.statusCode
  {
    InsertMarks([Text(["api_usage"])], ApiUsageColumns, 9);
    Query(Insert([Text(["api_usage"])], ApiUsageColumns, 9),
      [d.userId, d.ipAddress, d.endpoint, d.httpMethod, d.statusCode, d.responseTimeMs,
       d.requestSizeBytes, d.responseSizeBytes, d.userAgent])
  }

  const FavoriteInsert: seq<Fragment> := ["INSERT INTO ", "user_favorites ", "(user_id, route_id, "]
  const FavoriteColumns: seq<Fragment> := ["alias, ", "notification_enabled) ", "VALUES ("]
  const FavoriteUpdate: seq<Fragment> := [", FALSE) ", "ON DUPLICATE KEY "]
  const FavoriteAlias: seq<Fragment> := ["UPDATE alias = ", "VALUES(alias)"]
  const ParamComma: seq<Fragment> := [", "]

  const FavoritePieces: seq<Piece> := [
    Text(FavoriteInsert + FavoriteColumns), Mark, Text(ParamComma), Mark, Text(ParamComma), Mark,
    Text(FavoriteUpdate + FavoriteAlias)]

  /** Three placeholders separated by texts: three marks. */
  lemma ThreeMarks(t1: Piece, c: Piece, t2: Piece)
    requires PieceMarks(t1) == 0 && PieceMarks(c) == 0 && PieceMarks(t2) == 0
    ensures Marks([t1, Mark, c, Mark, c, Mark, t2]) == 3
  {
    MarksCons(t2, []);
    assert [t2] + [] == [t2];
    MarksCons(Mark, [t2]);
    MarksCons(c, [Mark, t2]);
    MarksCons(Mark, [c, Mark, t2]);
    MarksCons(c, [Mark, c, Mark, t2]);
    MarksCons(Mark, [c, Mark, c, Mark, t2]);
    MarksCons(t1, [Mark, c, Mark, c, Mark, t2]);
  }

  lemma FavoriteMarks()
    ensures Marks(FavoritePieces) == 3
  {
    ThreeMarks(Text(FavoriteInsert + FavoriteColumns), Text(ParamComma), Text(FavoriteUpdate + FavoriteAlias));
  }

  /** `addFavorite(userId, routeId, alias = null)`: four columns, of which the last is
      the constant `FALSE`, so three parameters. An alias left out or passed as
      `undefined` (an omitted body field) is bound as `null`. */
  function AddFavorite(userId: Value, routeId: Value, alias: Option<Value>): (q: Query)
    ensures Balanced(q) && |q.params| == 3
    ensures q.params == [userId, routeId, if alias.Some? && !alias.value.Undefined? then alias.value else Null]
  {
    FavoriteMarks();
    Query(FavoritePieces, [userId, routeId, ArgOr(alias, Null)])
  }

  /** An argument passed as `undefined` gets the default, as one left out does. */
  lemma UndefinedArgumentsDefault(userId: Value, routeId: Value, source: string, destination: string)
    ensures AddFavorite(userId, routeId, Some(Undefined)).params[2] == Null
    ensures GetPersonalizedRoutes(userId, Str(source), Str(destination), Some(Undefined)).params[3] == Str("both")
    ensures SearchStatement(source, destination, None, Some(Undefined)).params[2] == Int(10)
  {
  }
}
