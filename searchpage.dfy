/** The search page of the VoiceRoute client: location autocomplete, form
    validation, filling the form from a spoken query, sorting the results, the demo
    results shown without a server, duration display and which fare classes are
    offered for a transport type. */
module SearchPage {
  import opened Optional
  import opened Text
  import opened Patterns
  import opened Database
  import opened Durations

  // -------------------------------------------------------- autocomplete

  /** Cities, stations, bus terminals and tourist places offered as suggestions. */
  const CommonLocations: seq<string> := [
    "Mumbai", "Delhi", "Bangalore", "Chennai", "Kolkata", "Hyderabad", "Pune", "Ahmedabad",
    "Jaipur", "Surat", "Kanpur", "Nagpur", "Lucknow", "Indore", "Thane", "Bhopal",
    "Visakhapatnam", "Pimpri-Chinchwad", "Patna", "Vadodara", "Ghaziabad", "Ludhiana",
    "New Delhi", "Mumbai Central", "Mumbai CST", "Bangalore City", "Chennai Central",
    "Howrah Junction", "Secunderabad", "Pune Junction", "Jaipur Junction", "Ahmedabad Junction",
    "Kanpur Central", "Nagpur Junction", "Lucknow Junction",
    "Delhi ISBT", "Mumbai Central Bus Terminal", "Bangalore Majestic", "Chennai CMBT",
    "Pune Bus Terminal", "Jaipur Bus Terminal", "Ahmedabad Bus Terminal",
    "Goa", "Manali", "Shimla", "Darjeeling", "Ooty", "Kodaikanal", "Mount Abu", "Udaipur",
    "Jodhpur", "Agra", "Varanasi", "Rishikesh", "Haridwar", "Amritsar"]

  /** The most suggestions shown at once. */
  const MaxSuggestions := 8

  /** The lower-cased location contains the (already lower-cased) query. */
  predicate Suggests(query: string, location: string) {
    Includes(Lower(location), query)
  }

  /** `a` is `b` with some elements left out, the rest in their order. */
  predicate SubsequenceOf<T(==)>(a: seq<T>, b: seq<T>)
    decreases |b|
  {
    if a == [] then true
    else if b == [] then false
    else if a[0] == b[0] then SubsequenceOf(a[1..], b[1..])
    else SubsequenceOf(a, b[1..])
  }

  /** `Array.prototype.filter` with `Suggests`. */
  function Matching(query: string, ls: seq<string>): (r: seq<string>)
    ensures forall k | 0 <= k < |r| :: r[k] in ls && Suggests(query, r[k])
    ensures forall l | l in ls && Suggests(query, l) :: l in r
  {
    if ls == [] then []
    else (if Suggests(query, ls[0]) then [ls[0]] else []) + Matching(query, ls[1..])
  }

  lemma {:induction false} MatchingInOrder(query: string, ls: seq<string>)
    ensures SubsequenceOf(Matching(query, ls), ls)
  {
    if ls != [] {
      MatchingInOrder(query, ls[1..]);
      var rest := Matching(query, ls[1..]);
      if Suggests(query, ls[0]) {
        assert ([ls[0]] + rest)[1..] == rest;
      } else {
        assert [] + rest == rest;
        SubsequenceSkip(rest, ls);
      }
    }
  }

  lemma {:induction false} SubsequenceSkip<T>(a: seq<T>, b: seq<T>)
    requires b != [] && SubsequenceOf(a, b[1..])
    ensures SubsequenceOf(a, b)
    decreases |b|, 0
  {
    if a != [] && a[0] == b[0] {
      SubsequenceTail(a, b[1..]);
    }
  }

  /** Dropping the first element keeps a subsequence. */
  lemma {:induction false} SubsequenceTail<T>(a: seq<T>, b: seq<T>)
    requires a != [] && SubsequenceOf(a, b)
    ensures SubsequenceOf(a[1..], b)
    decreases |b|, 1
  {
    if a[0] == b[0] {
      SubsequenceSkip(a[1..], b);
    } else {
      SubsequenceTail(a, b[1..]);
      SubsequenceSkip(a[1..], b);
    }
  }

  /** A prefix of a subsequence is a subsequence. */
  lemma {:induction false} SubsequencePrefix<T>(a: seq<T>, n: nat, b: seq<T>)
    requires n <= |a| && SubsequenceOf(a, b)
    ensures SubsequenceOf(a[..n], b)
    decreases |b|
  {
    if n > 0 {
      if a[0] == b[0] {
        SubsequencePrefix(a[1..], n - 1, b[1..]);
        assert a[..n][1..] == a[1..][..n - 1];
      } else {
        SubsequencePrefix(a, n, b[1..]);
      }
    }
  }

  /** The suggestions for what the user typed: none when the lower-cased, trimmed
      query is shorter than two characters, otherwise the first eight locations
      that contain it. */
  function Suggestions(input: string): (r: seq<string>)
    ensures |Trim(Lower(input))| < 2 ==> r == []
    ensures |r| <= MaxSuggestions
    ensures forall k | 0 <= k < |r| :: r[k] in CommonLocations && Suggests(Trim(Lower(input)), r[k])
    ensures |Trim(Lower(input))| >= 2 && |r| < MaxSuggestions ==>
      forall l | l in CommonLocations && Suggests(Trim(Lower(input)), l) :: l in r
    ensures |Trim(Lower(input))| >= 2 ==>
      var m := Matching(Trim(Lower(input)), CommonLocations);
      |r| <= |m| && r == m[..|r|] && (|r| == MaxSuggestions || |r| == |m|)
  {
    var query := Trim(Lower(input));
    if |query| < 2 then []
    else
      var m := Matching(query, CommonLocations);
      var r := Take(m, MaxSuggestions);
      assert forall k | 0 <= k < |r| :: r[k] == m[k];
      r
  }

  /** `Array.prototype.slice(0, n)`: the first `n` elements, or all when there are fewer. */
  function Take<T>(m: seq<T>, n: nat): (r: seq<T>)
    ensures |r| <= n && |r| <= |m| && r == m[..|r|]
    ensures |r| == n || r == m
  {
    if |m| <= n then m else m[..n]
  }

  /** Suggestions keep the order of the location list. */
  lemma SuggestionsInOrder(input: string)
    ensures SubsequenceOf(Suggestions(input), CommonLocations)
  {
    var query := Trim(Lower(input));
    if |query| >= 2 {
      var m := Matching(query, CommonLocations);
      MatchingInOrder(query, CommonLocations);
      SubsequencePrefix(m, |Take(m, MaxSuggestions)|, CommonLocations);
    }
  }

  // ---------------------------------------------------------- validation

  /** The error `validateLocation` shows for a field, if any. */
  function ValidateLocation(value: string, fieldName: string): (r: Option<string>)
    ensures r.None? <==> |Trim(value)| >= 2
    ensures r == Some(fieldName + " is required") <==> Trim(value) == ""
    ensures r == Some(fieldName + " must be at least 2 characters") <==> |Trim(value)| == 1
  {
    var v := Trim(value);
    assert |fieldName + " is required"| < |fieldName + " must be at least 2 characters"|;
    if v == "" then Some(fieldName + " is required")
    else if |v| < 2 then Some(fieldName + " must be at least 2 characters")
    else None
  }

  const SameLocationError := "Destination must be different from departure location"
  const PastDateError := "Travel date cannot be in the past"

  /** The verdict of the form check and the error left on each field. */
  datatype FormCheck = FormCheck(valid: bool, fromError: Option<string>, toError: Option<string>, dateError: Option<string>)

  /** `validateSearchForm`; whether the date lies in the past is an input. The
      same-location error replaces any earlier error on the destination field. */
  function ValidateSearchForm(from: string, to: string, dateInPast: bool): (r: FormCheck)
    ensures r.valid <==>
      |Trim(from)| >= 2 && |Trim(to)| >= 2 && !dateInPast && Lower(Trim(from)) != Lower(Trim(to))
    ensures r.fromError == ValidateLocation(from, "From location")
    ensures Lower(Trim(from)) == Lower(Trim(to)) ==> r.toError == Some(SameLocationError)
    ensures Lower(Trim(from)) != Lower(Trim(to)) ==> r.toError == ValidateLocation(to, "Destination")
    ensures r.dateError.Some? <==> dateInPast
    ensures r.valid <==> r.fromError.None? && r.toError.None? && r.dateError.None?
  {
    var fromError := ValidateLocation(from, "From location");
    var toError := ValidateLocation(to, "Destination");
    var dateError := if dateInPast then Some(PastDateError) else None;
    var same := Lower(Trim(from)) == Lower(Trim(to));
    FormCheck(fromError.None? && toError.None? && !dateInPast && !same,
      fromError, if same then Some(SameLocationError) else toError, dateError)
  }

  // -------------------------------------------------------- voice search

  /** `from\s+([a-zA-Z\s]+?)(?:\s+to|\s+and|$)`. */
  const FromPattern := CapturePattern([Word("from")], Spaces, LettersSpaces, [GapThen("to"), GapThen("and"), AtEnd])

  /** `to\s+([a-zA-Z\s]+?)(?:\s|$)`. */
  const ToPattern := CapturePattern([Word("to")], Spaces, LettersSpaces, [OneSpace, AtEnd])

  /** The places filled into the form, title-cased, when both patterns match the
      lower-cased command. */
  function PlacesOf(lower: string): Option<(string, string)> {
    var from := Capture(FromPattern, lower);
    var to := Capture(ToPattern, lower);
    if from.Some? && to.Some? then Some((FormatLocation(Trim(from.value)), FormatLocation(Trim(to.value))))
    else None
  }

  /** What a spoken query fills into the form: the two places and the transport
      option to select. */
  datatype VoiceFill = VoiceFill(from: string, to: string, transportType: string)

  /** `processVoiceCommand` of the search page. Nothing is filled unless both
      patterns match; then the places are filled in and the transport option is
      selected, which is "both" unless exactly one of the words "train" and "bus"
      occurs, even inside a longer word. */
  method ProcessVoiceCommand(command: string) returns (fill: Option<VoiceFill>)
    ensures fill.None? <==> PlacesOf(Lower(command)).None?
    ensures fill.Some? ==> (fill.value.from, fill.value.to) == PlacesOf(Lower(command)).value
    ensures fill.Some? ==> var lower := Lower(command);
      && (fill.value.transportType == "train" <==> Includes(lower, "train") && !Includes(lower, "bus"))
      && (fill.value.transportType == "bus" <==> Includes(lower, "bus") && !Includes(lower, "train"))
      && (fill.value.transportType == "both" <==> Includes(lower, "train") == Includes(lower, "bus"))
  {
    var lower := Lower(command);
    var transportType := "both";
    if Includes(lower, "train") && !Includes(lower, "bus") {
      transportType := "train";
    } else if Includes(lower, "bus") && !Includes(lower, "train") {
      transportType := "bus";
    }
    var places := PlacesOf(lower);
    if places.Some? {
      fill := Some(VoiceFill(places.value.0, places.value.1, transportType));
    } else {
      fill := None;
    }
  }

  /** The form is filled exactly when both patterns match somewhere; each place is
      then the trimmed group with the first letter of every space-separated word
      upper-cased and nothing else changed. */
  lemma PlacesFilled(lower: string)
    ensures PlacesOf(lower).Some? <==>
      (exists p: nat, c: nat, e: nat :: MatchesAt(FromPattern, lower, p, c, e)) &&
      (exists p: nat, c: nat, e: nat :: MatchesAt(ToPattern, lower, p, c, e))
    ensures PlacesOf(lower).Some? ==>
      && PlacesOf(lower).value.0 == TitleCaseRef(Trim(Capture(FromPattern, lower).value))
      && PlacesOf(lower).value.1 == TitleCaseRef(Trim(Capture(ToPattern, lower).value))
  {
    CaptureNone(FromPattern, lower);
    CaptureNone(ToPattern, lower);
    if PlacesOf(lower).Some? {
      FormatLocationIsTitleCase(Trim(Capture(FromPattern, lower).value));
      FormatLocationIsTitleCase(Trim(Capture(ToPattern, lower).value));
    }
  }

  /** Each filled place comes from the leftmost match of its pattern, after the
      longest white space that follows the keyword there, and its group stops at
      the first place where a suffix alternative fits. */
  lemma PlacesLeftmostLazy(lower: string) returns (p: nat, c: nat, e: nat, p': nat, c': nat, e': nat)
    requires PlacesOf(lower).Some?
    ensures MatchesAt(FromPattern, lower, p, c, e) && PlacesOf(lower).value.0 == TitleCaseRef(Trim(lower[c..e]))
    ensures forall q: nat, cq: nat, eq: nat :: MatchesAt(FromPattern, lower, q, cq, eq) ==> p <= q
    ensures forall cq: nat, eq: nat | c < cq :: !MatchesAt(FromPattern, lower, p, cq, eq)
    ensures forall x | c < x < e :: !AnySuffixAt(FromPattern, lower, x)
    ensures MatchesAt(ToPattern, lower, p', c', e') && PlacesOf(lower).value.1 == TitleCaseRef(Trim(lower[c'..e']))
    ensures forall q: nat, cq: nat, eq: nat :: MatchesAt(ToPattern, lower, q, cq, eq) ==> p' <= q
    ensures forall cq: nat, eq: nat | c' < cq :: !MatchesAt(ToPattern, lower, p', cq, eq)
    ensures forall x | c' < x < e' :: !AnySuffixAt(ToPattern, lower, x)
  {
    PlacesFilled(lower);
    p, c, e := CaptureSomeWord(FromPattern, lower);
    p', c', e' := CaptureSomeWord(ToPattern, lower);
  }

  // ------------------------------------------------------------- sorting

  /** The choices of the sort menu; any other value sorts by departure time. */
  datatype SortBy = ByDuration | ByPrice | ByPriceDesc | ByRating | ByDeparture

  function SortByOf(value: string): SortBy {
    if value == "duration" then ByDuration
    else if value == "price" then ByPrice
    else if value == "price_desc" then ByPriceDesc
    else if value == "rating" then ByRating
    else ByDeparture
  }

  /** `fare_base || 0`. */
  function Fare(r: Route): real {
    if r.fareBase.Some? then r.fareBase.value as real else 0.0
  }

  /** `avg_rating || 0`. */
  function Rating(r: Route): real {
    if r.avgRating.Some? then r.avgRating.value else 0.0
  }

  /** Three-way comparison of two texts by character code, the first difference
      deciding and a proper prefix coming first. */
  function LexCompare(a: string, b: string): int {
    if a == [] && b == [] then 0
    else if a == [] then -1
    else if b == [] then 1
    else if a[0] < b[0] then -1
    else if a[0] > b[0] then 1
    else LexCompare(a[1..], b[1..])
  }

  lemma {:induction false} LexCompareFlip(a: string, b: string)
    ensures LexCompare(b, a) == -LexCompare(a, b)
  {
    if a != [] && b != [] && a[0] == b[0] {
      LexCompareFlip(a[1..], b[1..]);
    }
  }

  lemma {:induction false} LexCompareTransitive(a: string, b: string, c: string)
    requires LexCompare(a, b) <= 0 && LexCompare(b, c) <= 0
    ensures LexCompare(a, c) <= 0
  {
    if a != [] && b != [] && c != [] && a[0] == b[0] && b[0] == c[0] {
      LexCompareTransitive(a[1..], b[1..], c[1..]);
    }
  }

  /** The comparator of `handleSortChange`: positive when `a` belongs after `b`. */
  function Compare(order: SortBy, a: Route, b: Route): real {
    match order
    case ByDuration => (a.journeyDuration - b.journeyDuration) as real
    case ByPrice => Fare(a) - Fare(b)
    case ByPriceDesc => Fare(b) - Fare(a)
    case ByRating => Rating(b) - Rating(a)
    case ByDeparture => LexCompare(a.departureTime, b.departureTime) as real
  }

  /** The comparator is antisymmetric and transitive, so it orders routes. */
  lemma CompareFlip(order: SortBy, a: Route, b: Route)
    ensures Compare(order, b, a) == -Compare(order, a, b)
  {
    if order == ByDeparture {
      LexCompareFlip(a.departureTime, b.departureTime);
    }
  }

  lemma CompareTransitive(order: SortBy, a: Route, b: Route, c: Route)
    requires Compare(order, a, b) <= 0.0 && Compare(order, b, c) <= 0.0
    ensures Compare(order, a, c) <= 0.0
  {
    if order == ByDeparture {
      LexCompareTransitive(a.departureTime, b.departureTime, c.departureTime);
    }
  }

  /** Two routes the comparator does not tell apart. */
  predicate Tied(order: SortBy, a: Route, b: Route) {
    Compare(order, a, b) == 0.0
  }

  predicate Sorted(order: SortBy, rs: seq<Route>) {
    forall i, j | 0 <= i < j < |rs| :: Compare(order, rs[i], rs[j]) <= 0.0
  }

  /** `x` placed after every route of `rs` that does not belong after it. */
  function InsertSorted(order: SortBy, rs: seq<Route>, x: Route): seq<Route> {
    if rs == [] then [x]
    else if Compare(order, rs[|rs| - 1], x) > 0.0 then InsertSorted(order, rs[..|rs| - 1], x) + [rs[|rs| - 1]]
    else rs + [x]
  }

  /** The sorted copy `[...searchResults].sort(comparator)`: a stable sort, as
      `Array.prototype.sort` is. */
  function SortResults(order: SortBy, rs: seq<Route>): seq<Route> {
    if rs == [] then [] else InsertSorted(order, SortResults(order, rs[..|rs| - 1]), rs[|rs| - 1])
  }

  /** The routes of `rs` tied with `k`, in their order. */
  function TiedWith(order: SortBy, k: Route, rs: seq<Route>): seq<Route> {
    if rs == [] then []
    else TiedWith(order, k, rs[..|rs| - 1]) + (if Tied(order, k, rs[|rs| - 1]) then [rs[|rs| - 1]] else [])
  }

  lemma {:induction false} InsertSortedPermutes(order: SortBy, rs: seq<Route>, x: Route)
    ensures multiset(InsertSorted(order, rs, x)) == multiset(rs) + multiset{x}
  {
    if rs != [] {
      var init, last := rs[..|rs| - 1], rs[|rs| - 1];
      assert rs == init + [last];
      if Compare(order, last, x) > 0.0 {
        var t := InsertSorted(order, init, x);
        InsertSortedPermutes(order, init, x);
        assert multiset(t + [last]) == multiset(t) + multiset{last};
        assert multiset(rs) == multiset(init) + multiset{last};
      } else {
        assert multiset(rs + [x]) == multiset(rs) + multiset{x};
      }
    }
  }

  /** Every route of the result is `x` or one of `rs`. */
  lemma {:induction false} InsertSortedMembers(order: SortBy, rs: seq<Route>, x: Route)
    ensures forall i | 0 <= i < |InsertSorted(order, rs, x)| ::
      InsertSorted(order, rs, x)[i] == x || InsertSorted(order, rs, x)[i] in rs
  {
    if rs != [] && Compare(order, rs[|rs| - 1], x) > 0.0 {
      InsertSortedMembers(order, rs[..|rs| - 1], x);
    }
  }

  lemma SortedSnoc(order: SortBy, rs: seq<Route>, y: Route)
    requires Sorted(order, rs)
    requires forall i | 0 <= i < |rs| :: Compare(order, rs[i], y) <= 0.0
    ensures Sorted(order, rs + [y])
  {
  }

  lemma {:induction false} InsertSortedSorted(order: SortBy, rs: seq<Route>, x: Route)
    requires Sorted(order, rs)
    ensures Sorted(order, InsertSorted(order, rs, x))
  {
    if rs != [] {
      var init, last := rs[..|rs| - 1], rs[|rs| - 1];
      assert Sorted(order, init);
      if Compare(order, last, x) > 0.0 {
        InsertSortedSorted(order, init, x);
        InsertSortedMembers(order, init, x);
        var t := InsertSorted(order, init, x);
        CompareFlip(order, last, x);
        forall i | 0 <= i < |t| ensures Compare(order, t[i], last) <= 0.0 {
          if t[i] != x {
            var m :| 0 <= m < |init| && init[m] == t[i];
            assert rs[m] == t[i];
          }
        }
        SortedSnoc(order, t, last);
      } else {
        forall i | 0 <= i < |rs| ensures Compare(order, rs[i], x) <= 0.0 {
          if i < |rs| - 1 {
            CompareTransitive(order, rs[i], last, x);
          }
        }
        SortedSnoc(order, rs, x);
      }
    }
  }

  lemma TiedShared(order: SortBy, k: Route, a: Route, b: Route)
    requires Tied(order, k, a) && Tied(order, k, b)
    ensures Tied(order, a, b)
  {
    CompareFlip(order, k, a);
    CompareTransitive(order, a, k, b);
    CompareFlip(order, k, b);
    CompareTransitive(order, b, k, a);
    CompareFlip(order, a, b);
  }

  /** A route that belongs after `x` is not tied with `x`, so not both are tied with `k`. */
  lemma NotBothTied(order: SortBy, k: Route, last: Route, x: Route)
    requires Compare(order, last, x) > 0.0
    ensures !Tied(order, k, x) || !Tied(order, k, last)
  {
    if Tied(order, k, x) && Tied(order, k, last) {
      TiedShared(order, k, last, x);
    }
  }

  lemma AtMostOneCommutes<T>(h: seq<T>, a: seq<T>, b: seq<T>)
    requires a == [] || b == []
    ensures h + a + b == h + b + a
  {
    if a == [] {
      assert h + a == h;
    } else {
      assert h + b == h;
    }
  }

  lemma TiedWithSnoc(order: SortBy, k: Route, rs: seq<Route>, y: Route)
    ensures TiedWith(order, k, rs + [y]) == TiedWith(order, k, rs) + (if Tied(order, k, y) then [y] else [])
  {
    assert (rs + [y])[..|rs|] == rs;
  }

  lemma {:induction false} InsertSortedStable(order: SortBy, k: Route, rs: seq<Route>, x: Route)
    ensures TiedWith(order, k, InsertSorted(order, rs, x)) == TiedWith(order, k, rs) + (if Tied(order, k, x) then [x] else [])
  {
    if rs == [] {
      TiedWithSnoc(order, k, [], x);
    } else {
      var init, last := rs[..|rs| - 1], rs[|rs| - 1];
      assert rs == init + [last];
      if Compare(order, last, x) > 0.0 {
        var t := InsertSorted(order, init, x);
        InsertSortedStable(order, k, init, x);
        TiedWithSnoc(order, k, t, last);
        TiedWithSnoc(order, k, init, last);
        NotBothTied(order, k, last, x);
        AtMostOneCommutes(TiedWith(order, k, init), if Tied(order, k, x) then [x] else [], if Tied(order, k, last) then [last] else []);
      } else {
        TiedWithSnoc(order, k, rs, x);
      }
    }
  }

  /** The sorted copy holds the same routes. */
  lemma {:induction false} SortResultsPermutes(order: SortBy, rs: seq<Route>)
    ensures multiset(SortResults(order, rs)) == multiset(rs)
  {
    if rs != [] {
      var init, last := rs[..|rs| - 1], rs[|rs| - 1];
      assert rs == init + [last];
      assert multiset(rs) == multiset(init) + multiset{last};
      SortResultsPermutes(order, init);
      InsertSortedPermutes(order, SortResults(order, init), last);
    }
  }

  /** The sorted copy is in comparator order. */
  lemma {:induction false} SortResultsSorted(order: SortBy, rs: seq<Route>)
    ensures Sorted(order, SortResults(order, rs))
  {
    if rs != [] {
      SortResultsSorted(order, rs[..|rs| - 1]);
      InsertSortedSorted(order, SortResults(order, rs[..|rs| - 1]), rs[|rs| - 1]);
    }
  }

  /** Routes the comparator ties keep their order. */
  lemma {:induction false} SortResultsStable(order: SortBy, k: Route, rs: seq<Route>)
    ensures TiedWith(order, k, SortResults(order, rs)) == TiedWith(order, k, rs)
  {
    if rs != [] {
      SortResultsStable(order, k, rs[..|rs| - 1]);
      InsertSortedStable(order, k, SortResults(order, rs[..|rs| - 1]), rs[|rs| - 1]);
    }
  }

  // -------------------------------------------------------- demo results

  function Rajdhani(from: string, to: string): Route {
    Route(1, "train", "Indian Railways", Some("Rajdhani Express"), Some("12951"), from, to,
      "16:55", "08:35", 945, Some(1200), Some(2500), Some(4500), Some(45), Some(4.2))
  }

  /** The Shatabdi has no sleeper fare. */
  function Shatabdi(from: string, to: string): Route {
    Route(2, "train", "Indian Railways", Some("Shatabdi Express"), Some("12007"), from, to,
      "06:00", "11:00", 300, Some(450), None, Some(850), Some(23), Some(4.5))
  }

  function SleeperCoach(from: string, to: string): Route {
    Route(3, "bus", "VRL Travels", Some("AC Sleeper Coach"), Some("VRL-301"), from, to,
      "21:30", "09:15", 705, Some(850), Some(1300), Some(1600), Some(15), Some(4.0))
  }

  /** The Shivneri has no sleeper fare. */
  function Shivneri(from: string, to: string): Route {
    Route(4, "bus", "MSRTC", Some("Shivneri Bus"), Some("MSRTC-201"), from, to,
      "08:00", "11:30", 210, Some(200), None, Some(300), Some(28), Some(3.8))
  }

  function RouteIds(rs: seq<Route>): seq<int> {
    seq(|rs|, k requires 0 <= k < |rs| => rs[k].routeId)
  }

  /** `generateDemoResults`: the two trains for "train", the two buses for "bus",
      all four for "both", nothing for any other type; every record carries the
      places searched for. */
  method GenerateDemoResults(from: string, to: string, transportType: string) returns (results: seq<Route>)
    ensures RouteIds(results) ==
      (if transportType == "train" then [1, 2]
       else if transportType == "bus" then [3, 4]
       else if transportType == "both" then [1, 2, 3, 4]
       else [])
    ensures forall k | 0 <= k < |results| :: results[k].source == from && results[k].destination == to
    ensures forall k | 0 <= k < |results| :: results[k].transportType == (if results[k].routeId <= 2 then "train" else "bus")
    ensures forall k | 0 <= k < |results| ::
      results[k] in [Rajdhani(from, to), Shatabdi(from, to), SleeperCoach(from, to), Shivneri(from, to)]
  {
    var trains := transportType == "train" || transportType == "both";
    results := [];
    if trains {
      results := results + [Rajdhani(from, to)];
      results := results + [Shatabdi(from, to)];
    }
    assert results == if trains then [Rajdhani(from, to), Shatabdi(from, to)] else [];
    if transportType == "bus" || transportType == "both" {
      results := results + [SleeperCoach(from, to)];
      results := results + [Shivneri(from, to)];
    }
  }

  // ------------------------------------------------------------ duration

  /** `formatDuration` of the search page: "Mm" under an hour, "Hh" on the hour,
      "Hh Mm" otherwise. */
  function FormatDuration(minutes: nat): (r: string)
    ensures r != [] && r[|r| - 1] in "hm"
    ensures 'h' in r <==> minutes >= 60
    ensures ' ' in r <==> minutes >= 60 && minutes % 60 != 0
  {
    var hours := minutes / 60;
    var mins := minutes % 60;
    NatToStringDigits(hours);
    NatToStringDigits(mins);
    if hours == 0 then NatToString(mins) + "m"
    else if mins == 0 then NatToString(hours) + "h"
    else NatToString(hours) + "h " + NatToString(mins) + "m"
  }

  /** Hours times sixty plus minutes gives back the duration. */
  lemma FormatDurationRoundTrip(minutes: nat)
    ensures ReadDuration(FormatDuration(minutes)) == Some(minutes)
  {
    var hours, mins := minutes / 60, minutes % 60;
    NatToStringDigits(hours);
    NatToStringDigits(mins);
    if hours == 0 {
      ParseMinutes(NatToString(mins));
    } else if mins == 0 {
      ParseHours(NatToString(hours));
    } else {
      var hs, ms := NatToString(hours), NatToString(mins);
      var body := hs + "h " + ms;
      HoursSpaceAt(hs, ms);
      HoursMinutesParts(hs, ms);
      assert body[|hs|] == 'h';
      MinutesSplit(body, |hs| + 1);
      MinutesUnit(body);
    }
  }

  // ------------------------------------------------------- class options

  /** Whether the fare class `value` is shown for `transportType`: trains offer
      general, sleeper and AC, buses also premium, any other type everything. */
  function ClassVisible(transportType: string, value: string): bool {
    if transportType == "train" then value in ["general", "sleeper", "ac"]
    else if transportType == "bus" then value in ["general", "sleeper", "ac", "premium"]
    else true
  }

  /** Each transport type shows at least the classes of the one before it, and the
      bus adds premium only. */
  lemma ClassVisibilityWidens(value: string)
    ensures ClassVisible("train", value) ==> ClassVisible("bus", value)
    ensures ClassVisible("bus", value) && !ClassVisible("train", value) <==> value == "premium"
    ensures forall t | t != "train" && t != "bus" :: ClassVisible(t, value)
  {
  }
}
