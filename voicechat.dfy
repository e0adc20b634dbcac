/** The voice-chat panel of the main page: the sign-up form checks, the way a spoken
    or typed command is dispatched to a route search or a canned reply, the text of
    the route answers, and the panel's message history. */
module VoiceChat {
  import opened Optional
  import opened Text
  import opened Patterns
  import opened Durations
  import opened Messages

  // ------------------------------------------------------------------ email

  /** The character class `[^\s@]`, for every character of `s`. */
  predicate Plain(s: string) {
    forall i | 0 <= i < |s| :: !IsSpace(s[i]) && s[i] != '@'
  }

  /** `d` holds a '.' that is neither its first nor its last character. */
  predicate InnerDot(d: string) {
    exists k | 0 < k < |d| - 1 :: d[k] == '.'
  }

  /** What `/^[^\s@]+@[^\s@]+\.[^\s@]+$/` accepts: the whole text is a non-empty
      plain part, '@', a non-empty plain part, '.', and a non-empty plain part. */
  ghost predicate EmailPattern(s: string) {
    exists i, j | 0 < i && i + 1 < j && j + 1 < |s| ::
      s[i] == '@' && s[j] == '.' && Plain(s[..i]) && Plain(s[i + 1..j]) && Plain(s[j + 1..])
  }

  /** `validateEmail`, read off at the first '@'. */
  function ValidateEmail(email: string): (ok: bool)
    ensures ok ==> |email| >= 5
  {
    var at := IndexOfChar(email, '@');
    0 < at < |email| && Plain(email[..at]) && Plain(email[at + 1..]) && InnerDot(email[at + 1..])
  }

  /** `validateEmail` accepts exactly the texts the regular expression matches. */
  lemma ValidateEmailIsPattern(email: string)
    ensures ValidateEmail(email) <==> EmailPattern(email)
  {
    if ValidateEmail(email) {
      ValidEmailMatches(email);
    }
    if EmailPattern(email) {
      MatchingEmailValid(email);
    }
  }

  lemma {:induction false} ValidEmailMatches(email: string)
    requires ValidateEmail(email)
    ensures EmailPattern(email)
  {
    var at := IndexOfChar(email, '@');
    {
      var d := email[at + 1..];
      var k :| 0 < k < |d| - 1 && d[k] == '.';
      var j := at + 1 + k;
      assert email[at + 1..j] == d[..k];
      assert email[j + 1..] == d[k + 1..];
      assert email[j] == d[k];
      assert Plain(email[at + 1..j]) && Plain(email[j + 1..]);
    }
  }

  lemma {:induction false} MatchingEmailValid(email: string)
    requires EmailPattern(email)
    ensures ValidateEmail(email)
  {
    {
      var i, j :| 0 < i && i + 1 < j && j + 1 < |email| && email[i] == '@' && email[j] == '.'
        && Plain(email[..i]) && Plain(email[i + 1..j]) && Plain(email[j + 1..]);
      assert '@' !in email[..i] by {
        forall m | 0 <= m < i ensures email[..i][m] != '@' { }
      }
      IndexOfCharAt(email, '@', i);
      var d := email[i + 1..];
      forall m | 0 <= m < |d| ensures !IsSpace(d[m]) && d[m] != '@' {
        if m < j - i - 1 {
          assert d[m] == email[i + 1..j][m];
        } else if m > j - i - 1 {
          assert d[m] == email[j + 1..][m - (j - i)];
        }
      }
      assert d[j - i - 1] == '.';
    }
  }

  /** The same check read as counts: no whitespace anywhere, exactly one '@', with
      something before it, and a '.' inside the part after it. */
  lemma ValidateEmailShape(email: string)
    ensures ValidateEmail(email) <==>
      (forall i | 0 <= i < |email| :: !IsSpace(email[i])) && CountChar(email, '@') == 1
      && (var at := IndexOfChar(email, '@'); 0 < at < |email| && InnerDot(email[at + 1..]))
  {
    var at := IndexOfChar(email, '@');
    if at < |email| {
      AtCount(email);
      if ValidateEmail(email) {
        ValidEmailShaped(email);
      }
      if (forall i | 0 <= i < |email| :: !IsSpace(email[i])) && CountChar(email, '@') == 1 {
        ShapedEmailPlain(email);
      }
    } else {
      CountCharLacking(email, '@');
    }
  }

  /** The '@' first found counts once, then come those after it. */
  lemma AtCount(email: string)
    requires IndexOfChar(email, '@') < |email|
    ensures CountChar(email, '@') == 1 + CountChar(email[IndexOfChar(email, '@') + 1..], '@')
  {
    CountCharFirst(email, '@', IndexOfChar(email, '@'));
  }

  lemma ValidEmailShaped(email: string)
    requires ValidateEmail(email)
    ensures forall i | 0 <= i < |email| :: !IsSpace(email[i])
    ensures CountChar(email[IndexOfChar(email, '@') + 1..], '@') == 0
  {
    var at := IndexOfChar(email, '@');
    var d := email[at + 1..];
    CountCharLacking(d, '@');
    forall i | 0 <= i < |email| ensures !IsSpace(email[i]) {
      if i < at { assert email[i] == email[..at][i]; }
      else if i > at { assert email[i] == d[i - at - 1]; }
    }
  }

  lemma ShapedEmailPlain(email: string)
    requires IndexOfChar(email, '@') < |email|
    requires forall i | 0 <= i < |email| :: !IsSpace(email[i])
    requires CountChar(email[IndexOfChar(email, '@') + 1..], '@') == 0
    ensures Plain(email[..IndexOfChar(email, '@')]) && Plain(email[IndexOfChar(email, '@') + 1..])
  {
    var at := IndexOfChar(email, '@');
    var d := email[at + 1..];
    CountCharZero(d, '@');
    forall m | 0 <= m < at ensures !IsSpace(email[..at][m]) && email[..at][m] != '@' {
      assert email[..at][m] == email[m];
    }
    forall m | 0 <= m < |d| ensures !IsSpace(d[m]) && d[m] != '@' {
      assert d[m] == email[at + 1 + m];
    }
  }

  // ---------------------------------------------------------- registration

  /** `validatePassword`: six characters at least. Lengths count characters here
      (the browser counts UTF-16 code units). */
  function ValidatePassword(password: string): (ok: bool)
    ensures ok ==> password != ""
  {
    |password| >= 6
  }

  /** The sign-up form as submitted; `agreeTerms` is whether the terms box is ticked. */
  datatype RegisterForm = RegisterForm(fullName: string, username: string, email: string, password: string,
                                       phone: string, confirmPassword: string, agreeTerms: bool)

  /** One complaint of the sign-up check. Each but the last is shown under its field;
      an unticked terms box is flagged by colouring the box instead. */
  datatype RegisterError =
    | FullNameRequired | UsernameRequired | UsernameTooShort | EmailRequired | EmailInvalid
    | PasswordRequired | PasswordTooShort | PasswordsDiffer | TermsNotAccepted

  /** The text shown under the field, if any. */
  function ErrorMessage(e: RegisterError): Option<string> {
    match e
    case FullNameRequired => Some("Full name is required")
    case UsernameRequired => Some("Username is required")
    case UsernameTooShort => Some("Username must be at least 3 characters")
    case EmailRequired => Some("Email is required")
    case EmailInvalid => Some("Please enter a valid email address")
    case PasswordRequired => Some("Password is required")
    case PasswordTooShort => Some("Password must be at least 6 characters")
    case PasswordsDiffer => Some("Passwords do not match")
    case TermsNotAccepted => None
  }

  /** The checks of `handleRegistration`, in their order: name, user name and email
      are trimmed first; password and confirmation are compared as typed. */
  function RegistrationErrors(form: RegisterForm): seq<RegisterError> {
    NameErrors(Trim(form.fullName)) + UsernameErrors(Trim(form.username)) + EmailErrors(Trim(form.email))
    + PasswordErrors(form.password) + ConfirmErrors(form.password, form.confirmPassword) + TermsErrors(form.agreeTerms)
  }

  function NameErrors(name: string): seq<RegisterError> {
    if name == "" then [FullNameRequired] else []
  }

  function UsernameErrors(user: string): seq<RegisterError> {
    if user == "" then [UsernameRequired] else if |user| < 3 then [UsernameTooShort] else []
  }

  function EmailErrors(email: string): seq<RegisterError> {
    if email == "" then [EmailRequired] else if !ValidateEmail(email) then [EmailInvalid] else []
  }

  function PasswordErrors(password: string): seq<RegisterError> {
    if password == "" then [PasswordRequired] else if !ValidatePassword(password) then [PasswordTooShort] else []
  }

  function ConfirmErrors(password: string, confirmPassword: string): seq<RegisterError> {
    if password != confirmPassword then [PasswordsDiffer] else []
  }

  function TermsErrors(agreeTerms: bool): seq<RegisterError> {
    if !agreeTerms then [TermsNotAccepted] else []
  }

  /** The form is sent if and only if every field passes. */
  lemma RegistrationAccepted(form: RegisterForm)
    ensures RegistrationErrors(form) == [] <==>
      Trim(form.fullName) != "" && |Trim(form.username)| >= 3 && ValidateEmail(Trim(form.email))
      && |form.password| >= 6 && form.password == form.confirmPassword && form.agreeTerms
  {
  }

  /** Which complaints are raised: a short user name only when one was given, an
      invalid address only when one was given, a mismatch whenever the two password
      fields differ. */
  lemma RegistrationComplaints(form: RegisterForm)
    ensures UsernameTooShort in RegistrationErrors(form) <==> 0 < |Trim(form.username)| < 3
    ensures EmailInvalid in RegistrationErrors(form) <==> Trim(form.email) != "" && !ValidateEmail(Trim(form.email))
    ensures PasswordTooShort in RegistrationErrors(form) <==> 0 < |form.password| < 6
    ensures PasswordsDiffer in RegistrationErrors(form) <==> form.password != form.confirmPassword
  {
    RegistrationParts(form);
  }

  /** The complaints of the sign-up check, field by field. */
  lemma RegistrationParts(form: RegisterForm)
    ensures var errs, user, email := RegistrationErrors(form), Trim(form.username), Trim(form.email);
      && (UsernameTooShort in errs <==> user != "" && |user| < 3)
      && (EmailInvalid in errs <==> email != "" && !ValidateEmail(email))
      && (PasswordTooShort in errs <==> form.password != "" && !ValidatePassword(form.password))
      && (PasswordsDiffer in errs <==> form.password != form.confirmPassword)
  {
    ErrorsOfFields(Trim(form.fullName), Trim(form.username), Trim(form.email), form.password, form.confirmPassword, form.agreeTerms);
  }

  /** The same, for the already trimmed field values. */
  lemma ErrorsOfFields(name: string, user: string, email: string, password: string, confirm: string, agree: bool)
    ensures var errs := NameErrors(name) + UsernameErrors(user) + EmailErrors(email)
        + PasswordErrors(password) + ConfirmErrors(password, confirm) + TermsErrors(agree);
      && (UsernameTooShort in errs <==> user != "" && |user| < 3)
      && (EmailInvalid in errs <==> email != "" && !ValidateEmail(email))
      && (PasswordTooShort in errs <==> password != "" && !ValidatePassword(password))
      && (PasswordsDiffer in errs <==> password != confirm)
  {
    var n, u, m := NameErrors(name), UsernameErrors(user), EmailErrors(email);
    var p, c, t := PasswordErrors(password), ConfirmErrors(password, confirm), TermsErrors(agree);
    assert forall e :: e in n + u + m + p + c + t <==> e in n || e in u || e in m || e in p || e in c || e in t;
    assert UsernameTooShort in u <==> user != "" && |user| < 3;
    assert EmailInvalid in m <==> email != "" && !ValidateEmail(email);
    assert PasswordTooShort in p <==> password != "" && !ValidatePassword(password);
    assert PasswordsDiffer in c <==> password != confirm;
    assert UsernameTooShort !in n + m + p + c + t;
    assert EmailInvalid !in n + u + p + c + t;
    assert PasswordTooShort !in n + u + m + c + t;
    assert PasswordsDiffer !in n + u + m + p + t;
  }

  // ------------------------------------------------------------- transport

  /** The alternatives of the transport pattern, in order. */
  const TransportAlternatives: seq<string> := ["train", "trains", "railway", "bus", "buses", "flight", "flights", "plane"]

  /** `transportMatch ? transportMatch[1] : "both"`. */
  function TransportWord(lower: string): string {
    match FirstWord(Anywhere, lower, 0, TransportAlternatives)
    case Some(w) => w
    case None => "both"
  }

  lemma WordPrefixStarts(s: string, p: nat, w: string, n: nat)
    requires n <= |w| && StartsAt(s, p, w)
    ensures StartsAt(s, p, w[..n])
  {
    assert s[p..p + n] == s[p..p + |w|][..n];
  }

  /** A plural never wins: where "trains", "buses" or "flights" starts, the singular
      alternative before it in the list matches as well. */
  lemma NoPluralAt(s: string, q: nat)
    requires FirstWordAt(Anywhere, s, q, TransportAlternatives).Some?
    ensures FirstWordAt(Anywhere, s, q, TransportAlternatives).value !in {1, 4, 6}
  {
    var ws := TransportAlternatives;
    FirstWordAtSound(Anywhere, s, q, ws);
    if StartsAt(s, q, "trains") {
      WordPrefixStarts(s, q, "trains", 5);
      assert "trains"[..5] == ws[0];
    }
    if StartsAt(s, q, "buses") {
      WordPrefixStarts(s, q, "buses", 3);
      assert "buses"[..3] == ws[3];
    }
    if StartsAt(s, q, "flights") {
      WordPrefixStarts(s, q, "flights", 6);
      assert "flights"[..6] == ws[5];
    }
  }

  /** The transport alternation never yields a plural. */
  lemma FirstTransportNotPlural(s: string, p: nat)
    requires p <= |s|
    ensures FirstWord(Anywhere, s, p, TransportAlternatives) !in {Some("trains"), Some("buses"), Some("flights")}
  {
    var r := FirstWordPos(Anywhere, s, p, TransportAlternatives);
    if r.Some? {
      NoPluralAt(s, r.value);
    }
  }

  /** The transport word of a command is a singular alternative or "both". */
  lemma TransportWordRange(lower: string)
    ensures TransportWord(lower) in {"train", "railway", "bus", "flight", "plane", "both"}
  {
    FirstTransportNotPlural(lower, 0);
  }

  /** No transport alternative starts before `q`. */
  ghost predicate NoAlternativeBefore(s: string, q: nat) {
    forall q', k | 0 <= q' < q && 0 <= k < |TransportAlternatives| :: !StartsAt(s, q', TransportAlternatives[k])
  }

  /** The transport word is the alternative that starts leftmost in the command;
      "both" is the answer exactly when no alternative occurs. */
  lemma TransportWordLeftmost(lower: string)
    ensures TransportWord(lower) != "both" ==>
      exists q | 0 <= q <= |lower| :: StartsAt(lower, q, TransportWord(lower)) && NoAlternativeBefore(lower, q)
    ensures TransportWord(lower) == "both" <==> forall q: nat, k | q <= |lower| && 0 <= k < |TransportAlternatives| :: !StartsAt(lower, q, TransportAlternatives[k])
  {
    var ws := TransportAlternatives;
    FirstWordSound(Anywhere, lower, 0, ws);
    assert "both" !in ws;
    if FirstWord(Anywhere, lower, 0, ws).Some? {
      FirstWordLeftmost(Anywhere, lower, 0, ws);
      var q := FirstWordPos(Anywhere, lower, 0, ws).value;
      forall q', k | 0 <= q' < q && 0 <= k < |ws| ensures !StartsAt(lower, q', ws[k]) {
        assert !WordAt(Anywhere, lower, q', ws[k]);
      }
      assert StartsAt(lower, q, TransportWord(lower));
      var q0, k0 :| 0 <= q0 <= |lower| && 0 <= k0 < |ws| && WordAt(Anywhere, lower, q0, ws[k0]);
      assert StartsAt(lower, q0, ws[k0]);
    } else {
      forall q: nat, k | q <= |lower| && 0 <= k < |ws| ensures !StartsAt(lower, q, ws[k]) {
        assert !WordAt(Anywhere, lower, q, ws[k]);
      }
    }
  }

  /** The `transport_type` sent to the route search: train, trains and railway mean
      "train", bus and buses "bus", anything else "both". */
  function NormalizeTransport(t: string): (r: string)
    ensures r in {"train", "bus", "both"}
    ensures r == "train" <==> t in {"train", "trains", "railway"}
    ensures r == "bus" <==> t in {"bus", "buses"}
  {
    if t == "train" || t == "trains" || t == "railway" then "train"
    else if t == "bus" || t == "buses" then "bus"
    else "both"
  }

  /** A normalised transport type normalises to itself, and it is one of the three
      values the search endpoint accepts. */
  lemma NormalizeTransportIdempotent(t: string)
    ensures NormalizeTransport(NormalizeTransport(t)) == NormalizeTransport(t)
  {
  }

  /** The transport words of the fallback reply: "trains and buses" for "both",
      "trains" for a word containing "train", "buses" for anything else. */
  function FallbackTransportText(t: string): string {
    if t == "both" then "trains and buses"
    else if Includes(t, "train") then "trains"
    else "buses"
  }

  lemma MissingCharNotIncluded(s: string, w: string, k: nat)
    requires k < |w| && w[k] !in s
    ensures !Includes(s, w)
  {
    forall i: nat | i + |w| <= |s| ensures !StartsAt(s, i, w) {
      assert s[i + k] in s;
      assert s[i..i + |w|][k] == s[i + k];
    }
  }

  /** Set against the search request, the fallback wording agrees for the train and
      bus words but not for the others: "railway" is searched as a train and
      described as buses, a flight or a plane is searched as both and described as
      buses. */
  lemma FallbackVersusRequest(t: string)
    requires t in {"train", "railway", "bus", "flight", "plane", "both"}
    ensures t == "train" ==> NormalizeTransport(t) == "train" && FallbackTransportText(t) == "trains"
    ensures t == "bus" ==> NormalizeTransport(t) == "bus" && FallbackTransportText(t) == "buses"
    ensures t == "both" ==> NormalizeTransport(t) == "both" && FallbackTransportText(t) == "trains and buses"
    ensures t == "railway" ==> NormalizeTransport(t) == "train" && FallbackTransportText(t) == "buses"
    ensures t in {"flight", "plane"} ==> NormalizeTransport(t) == "both" && FallbackTransportText(t) == "buses"
  {
    if t == "train" {
      assert StartsAt(t, 0, "train");
    } else if t == "flight" {
      MissingCharNotIncluded(t, "train", 1);
    } else if t != "both" {
      MissingCharNotIncluded(t, "train", 0);
    }
  }

  // --------------------------------------------------------------- dispatch

  /** The route patterns of the voice chat. Inside these regular-expression
      literals `\\s` stands for a backslash and the letter s, so every gap needs a
      backslash in the command and the captures may hold backslashes. */
  const ChatFromPattern := CapturePattern(
    [Word("from"), Phrase("leaving", "from"), Phrase("starting", "from"), Phrase("departing", "from"), Phrase("depart", "from")],
    BackslashEss, LettersBackslash, [GapThen("to"), GapThen("and"), GapThen("destination"), AtEnd])

  const ChatToPattern := CapturePattern(
    [Word("to"), Phrase("going", "to"), Phrase("heading", "to"), Word("destination"), Phrase("arrive", "at"), Phrase("arriving", "at")],
    BackslashEss, LettersBackslash, [Literal("\\s"), BackslashAny, AtEnd])

  const HelpPhrases: seq<string> := ["help", "what can you do"]
  const HelloWords: seq<string> := ["hello", "hi", "hey"]
  const ThanksWords: seq<string> := ["thank"]
  const ByeWords: seq<string> := ["bye", "goodbye"]
  const PopularWords: seq<string> := ["popular", "famous", "tourist"]
  const BudgetWords: seq<string> := ["cheap", "budget", "affordable"]

  /** The three answers of `handleGeneralTravelQuery`. */
  datatype Topic = Popular | Budget | Unclear

  /** `handleGeneralTravelQuery`: popular places first, then budget travel. */
  function TravelTopic(command: string): Topic {
    var lower := Lower(command);
    if IncludesAny(lower, PopularWords) then Popular
    else if IncludesAny(lower, BudgetWords) then Budget
    else Unclear
  }

  /** What `processVoiceCommand` answers with. */
  datatype Reply =
    | RouteQuery(from: string, to: string, transportType: string)
    | HelpReply
    | GreetingReply
    | ThanksReply
    | FarewellReply
    | GeneralReply(topic: Topic)

  /** The branch `processVoiceCommand` takes: a route search when both places are
      found, else help, a greeting, thanks, farewell and the general query, in this
      order, each by a substring test on the lower-cased command. */
  function Dispatch(command: string): Reply {
    var lower := Lower(command);
    var from, to := Capture(ChatFromPattern, lower), Capture(ChatToPattern, lower);
    if from.Some? && to.Some? then RouteQuery(Trim(from.value), Trim(to.value), TransportWord(lower))
    else if IncludesAny(lower, HelpPhrases) then HelpReply
    else if IncludesAny(lower, HelloWords) then GreetingReply
    else if IncludesAny(lower, ThanksWords) then ThanksReply
    else if IncludesAny(lower, ByeWords) then FarewellReply
    else GeneralReply(TravelTopic(command))
  }

  /** The precedence of the branches. */
  lemma DispatchOrder(command: string)
    ensures var lower := Lower(command);
      var route := Capture(ChatFromPattern, lower).Some? && Capture(ChatToPattern, lower).Some?;
      && (Dispatch(command).RouteQuery? <==> route)
      && (Dispatch(command) == HelpReply <==> !route && IncludesAny(lower, HelpPhrases))
      && (Dispatch(command) == GreetingReply <==> !route && !IncludesAny(lower, HelpPhrases) && IncludesAny(lower, HelloWords))
      && (Dispatch(command) == ThanksReply <==>
            !route && !IncludesAny(lower, HelpPhrases) && !IncludesAny(lower, HelloWords) && IncludesAny(lower, ThanksWords))
      && (Dispatch(command).GeneralReply? <==>
            !route && !IncludesAny(lower, HelpPhrases + HelloWords + ThanksWords + ByeWords))
  {
    var lower := Lower(command);
    var all := HelpPhrases + HelloWords + ThanksWords + ByeWords;
    if IncludesAny(lower, all) {
      var k :| 0 <= k < |all| && Includes(lower, all[k]);
      if k < 2 { assert all[k] == HelpPhrases[k]; }
      else if k < 5 { assert all[k] == HelloWords[k - 2]; }
      else if k < 6 { assert all[k] == ThanksWords[k - 5]; }
      else { assert all[k] == ByeWords[k - 6]; }
    }
    if IncludesAny(lower, HelpPhrases) {
      var k :| 0 <= k < |HelpPhrases| && Includes(lower, HelpPhrases[k]);
      assert all[k] == HelpPhrases[k];
    }
    if IncludesAny(lower, HelloWords) {
      var k :| 0 <= k < |HelloWords| && Includes(lower, HelloWords[k]);
      assert all[k + 2] == HelloWords[k];
    }
    if IncludesAny(lower, ThanksWords) {
      assert all[5] == ThanksWords[0];
    }
    if IncludesAny(lower, ByeWords) {
      var k :| 0 <= k < |ByeWords| && Includes(lower, ByeWords[k]);
      assert all[k + 6] == ByeWords[k];
    }
  }

  /** The general answer is the popular-routes answer when the command names
      popular, famous or tourist places, the budget answer when it asks for cheap,
      budget or affordable travel and names none of those, and the prompt to ask
      again otherwise. */
  lemma GeneralTopic(command: string)
    ensures var lower := Lower(command);
      && (TravelTopic(command) == Popular <==> IncludesAny(lower, PopularWords))
      && (TravelTopic(command) == Budget <==> !IncludesAny(lower, PopularWords) && IncludesAny(lower, BudgetWords))
      && (TravelTopic(command) == Unclear <==> !IncludesAny(lower, PopularWords + BudgetWords))
  {
    IncludesAnyAppend(Lower(command), PopularWords, BudgetWords);
  }

  /** Lower-casing keeps backslashes where they are. */
  lemma LowerKeepsBackslash(s: string, i: nat)
    requires i < |s|
    ensures Lower(s)[i] == '\\' <==> s[i] == '\\'
  {
  }

  /** A route search is recognised only in a command holding a backslash: the gap
      after "from" must start with one. */
  lemma RouteNeedsBackslash(command: string)
    requires Dispatch(command).RouteQuery?
    ensures '\\' in command
  {
    var lower := Lower(command);
    var p, li, j, c, e := CaptureSome(ChatFromPattern, lower);
    assert GapSpec(ChatFromPattern.gap, lower, j, c - j);
    assert lower[j] == '\\';
    LowerKeepsBackslash(command, j);
  }

  /** The trimmed group of a capture holds only characters of the pattern's class. */
  lemma TrimmedCaptureInClass(P: CapturePattern, s: string)
    requires Capture(P, s).Some?
    ensures forall i | 0 <= i < |Trim(Capture(P, s).value)| :: InClass(P.cls, Trim(Capture(P, s).value)[i])
  {
    var v := Capture(P, s).value;
    CaptureInClass(P, s);
    assert forall i | 0 <= i < |Trim(v)| :: Trim(v)[i] == v[TrimStartIndex(v) + i];
  }

  /** The places of a route search hold only letters and backslashes. */
  lemma RoutePlacesInClass(command: string)
    requires Dispatch(command).RouteQuery?
    ensures forall i | 0 <= i < |Dispatch(command).from| :: IsAsciiLetter(Dispatch(command).from[i]) || Dispatch(command).from[i] == '\\'
    ensures forall i | 0 <= i < |Dispatch(command).to| :: IsAsciiLetter(Dispatch(command).to[i]) || Dispatch(command).to[i] == '\\'
  {
    var lower := Lower(command);
    var f, t := Capture(ChatFromPattern, lower), Capture(ChatToPattern, lower);
    assert f.Some? && t.Some?;
    assert Dispatch(command).from == Trim(f.value) && Dispatch(command).to == Trim(t.value);
    TrimmedCaptureInClass(ChatFromPattern, lower);
    TrimmedCaptureInClass(ChatToPattern, lower);
  }

  /** The example the help text itself suggests is answered with a greeting: it
      holds no backslash, and "hi" occurs inside "delhi". */
  lemma SuggestedExampleGreets()
    ensures Dispatch(SuggestedExample) == GreetingReply
  {
    ExampleLowered();
    ExampleHasNoBackslash();
    if Dispatch(SuggestedExample).RouteQuery? {
      RouteNeedsBackslash(SuggestedExample);
    }
    ExampleKeywords();
  }

  const SuggestedExample := "Find trains from Delhi to Mumbai"

  lemma ExampleLowered()
    ensures Lower(SuggestedExample) == "find trains from delhi to mumbai"
  {
  }

  lemma ExampleHasNoBackslash()
    ensures '\\' !in SuggestedExample
  {
  }

  lemma ExampleKeywords()
    ensures !IncludesAny("find trains from delhi to mumbai", HelpPhrases)
    ensures IncludesAny("find trains from delhi to mumbai", HelloWords)
  {
    var lower := "find trains from delhi to mumbai";
    MissingCharNotIncluded(lower, HelpPhrases[0], 3);
    MissingCharNotIncluded(lower, HelpPhrases[1], 0);
    assert StartsAt(lower, 20, HelloWords[1]);
  }

  // ------------------------------------------------------------ durations

  /** `formatDuration` of the voice chat: "Duration varies" for no duration, "M min"
      under an hour, "Hh" on the hour, "Hh Mm" otherwise. */
  function FormatDuration(minutes: nat): (r: string)
    ensures r == "Duration varies" <==> minutes == 0
    ensures minutes > 0 ==> ('h' in r <==> minutes >= 60)
  {
    if minutes == 0 then "Duration varies"
    else
      var hours, mins := minutes / 60, minutes % 60;
      NatToStringDigits(hours);
      NatToStringDigits(mins);
      assert "Duration varies"[14] == 's';
      if hours == 0 then NatToString(mins) + " min"
      else if mins == 0 then NatToString(hours) + "h"
      else NatToString(hours) + "h " + NatToString(mins) + "m"
  }

  /** Every shown duration reads back as the minutes it was made from. */
  lemma FormatDurationRoundTrip(minutes: nat)
    ensures ReadDuration(FormatDuration(minutes)) == if minutes == 0 then None else Some(minutes)
  {
    if minutes == 0 {
      assert "Duration varies"[11..] == "ries";
    } else if minutes < 60 {
      MinutesRoundTrip(minutes);
    } else if minutes % 60 == 0 {
      HoursRoundTrip(minutes);
    } else {
      HoursMinutesRoundTrip(minutes);
    }
  }

  lemma MinutesRoundTrip(minutes: nat)
    requires 0 < minutes < 60
    ensures ReadDuration(FormatDuration(minutes)) == Some(minutes)
  {
    NatToStringDigits(minutes);
    ParseLongMinutes(NatToString(minutes));
  }

  lemma HoursRoundTrip(minutes: nat)
    requires minutes >= 60 && minutes % 60 == 0
    ensures ReadDuration(FormatDuration(minutes)) == Some(minutes)
  {
    NatToStringDigits(minutes / 60);
    ParseHours(NatToString(minutes / 60));
  }

  lemma HoursMinutesRoundTrip(minutes: nat)
    requires minutes >= 60 && minutes % 60 != 0
    ensures ReadDuration(FormatDuration(minutes)) == Some(minutes)
  {
    var hours, mins := minutes / 60, minutes % 60;
    NatToStringDigits(hours);
    NatToStringDigits(mins);
    var hs, ms := NatToString(hours), NatToString(mins);
    var body := hs + "h " + ms;
    HoursSpaceAt(hs, ms);
    HoursMinutesParts(hs, ms);
    assert body[|hs|] == 'h';
    MinutesSplit(body, |hs| + 1);
    MinutesUnit(body);
  }

  // --------------------------------------------------------- route answers

  /** A route of the search endpoint's answer, as the chat reads it. In every field
      but the transport type, an empty text or a zero stands for a value JavaScript
      treats as false (missing, null, empty or zero). The transport type is taken to
      be present: a route without one makes `toUpperCase` throw, which is outside
      this datatype (an answer with such a route among the first three is passed as
      `NoAnswer`). Four fields have a fallback in the answer: the duration becomes 300
      minutes, the fare "Price varies", the seats line is dropped, and a missing
      route name is replaced by the operator name. The other fields are printed as
      they are, so an empty operator name (with no route name) or an empty time
      prints as the empty text. */
  datatype RouteRow = RouteRow(routeName: string, operatorName: string, transportType: string,
                               departureTime: string, arrivalTime: string, journeyDuration: nat,
                               fareBase: string, availableSeats: nat)

  function RouteName(r: RouteRow): string {
    if r.routeName != "" then r.routeName else r.operatorName
  }

  /** The lines of the listed route numbered `number`. The source writes `\\n`, so
      each line ends in a backslash and an `n`, not in a line break. */
  function RouteBlock(number: nat, r: RouteRow): string {
    "**" + NatToString(number) + ". " + RouteName(r) + "** (" + Upper(r.transportType) + ")\\n"
    + "   ⏰ " + r.departureTime + " → " + r.arrivalTime + " ("
    + FormatDuration(if r.journeyDuration != 0 then r.journeyDuration else 300) + ")\\n"
    + "   💰 Starting from ₹" + (if r.fareBase != "" then r.fareBase else "Price varies") + "\\n"
    + (if r.availableSeats != 0 then "   🎫 " + NatToString(r.availableSeats) + " seats available\\n" else "")
    + "\\n"
  }

  /** The block of each route of `rs`, numbered 1, 2, ... in order. */
  function BlockTexts(rs: seq<RouteRow>): (bs: seq<string>)
    ensures |bs| == |rs|
  {
    seq(|rs|, i requires 0 <= i < |rs| => RouteBlock(i + 1, rs[i]))
  }

  function Blocks(rs: seq<RouteRow>): string {
    Concat(BlockTexts(rs))
  }

  const NoRoutesOpening := "I couldn't find any specific routes from "

  function NoRoutesText(from: string, to: string): string {
    NoRoutesOpening + (from + " to " + to + NoRoutesTail)
  }

  const NoRoutesTail := " right now. This might be because:\n\n🔍 The route database is still loading\n📍 The location names might need to be more specific\n🕐 Routes might not be available for today\n\n**Suggestion**: Try using the Dashboard to search with filters, or ask me about popular routes like \"Delhi to Mumbai\" or \"Bangalore to Chennai\"."

  const ResultsOpening := "Great! I found "

  function ResultsHeader(count: nat, from: string, to: string, transportType: string): string {
    ResultsOpening + (NatToString(count) + " " + (if transportType == "both" then "" else transportType)
    + " routes from **" + from + "** to **" + to + "**:\\n\\n")
  }

  function MoreOptionsLine(extra: nat): string {
    "📋 **" + NatToString(extra) + " more options** available in the Dashboard.\\n\\n"
  }

  const ResultsClosing := "🔍 **Want more details?** Open the Dashboard to see all options, apply filters, and book your tickets!"

  /** How many routes an answer lists: the first three at most. */
  function ListedCount(n: nat): nat {
    if n < 3 then n else 3
  }

  /** The answer `formatRouteSearchResults` builds. */
  function RouteResultsText(routes: seq<RouteRow>, from: string, to: string, transportType: string): string {
    if routes == [] then NoRoutesText(from, to)
    else
      ResultsHeader(|routes|, from, to, transportType) + Blocks(routes[..ListedCount(|routes|)])
      + (MoreOptions(|routes|) + ResultsClosing)
  }

  /** The line on the routes not listed, when there are any. */
  function MoreOptions(count: nat): string {
    if count > 3 then MoreOptionsLine(count - 3) else ""
  }

  /** `formatRouteSearchResults`: the header, then one block per route of the first
      three, then the count of the others, then the closing line. */
  method FormatRouteSearchResults(routes: seq<RouteRow>, from: string, to: string, transportType: string)
    returns (response: string)
    ensures response == RouteResultsText(routes, from, to, transportType)
  {
    if |routes| == 0 {
      return NoRoutesText(from, to);
    }
    var header := ResultsHeader(|routes|, from, to, transportType);
    response := header;
    var topRoutes := routes[..ListedCount(|routes|)];
    ghost var texts := BlockTexts(topRoutes);
    var index := 0;
    while index < |topRoutes|
      invariant 0 <= index <= |topRoutes|
      invariant response == header + Concat(texts[..index])
    {
      var block := FormatRouteBlock(index + 1, topRoutes[index]);
      assert block == texts[index];
      ConcatStep(texts, index);
      AppendAssociates(header, Concat(texts[..index]), block);
      response := response + block;
      index := index + 1;
    }
    assert texts[..index] == texts;
    var listed := response;
    if |routes| > 3 {
      response := response + MoreOptionsLine(|routes| - 3);
    } else {
      assert listed + "" == listed;
    }
    AppendAssociates(listed, MoreOptions(|routes|), ResultsClosing);
    response := response + ResultsClosing;
  }

  /** The lines one route adds to the answer, built as the loop body does. */
  method FormatRouteBlock(number: nat, route: RouteRow) returns (block: string)
    ensures block == RouteBlock(number, route)
  {
    var duration := FormatDuration(if route.journeyDuration != 0 then route.journeyDuration else 300);
    var price := if route.fareBase != "" then route.fareBase else "Price varies";
    block := "**" + NatToString(number) + ". " + RouteName(route) + "** (" + Upper(route.transportType) + ")\\n";
    block := block + "   ⏰ " + route.departureTime + " → " + route.arrivalTime + " (" + duration + ")\\n";
    block := block + "   💰 Starting from ₹" + price + "\\n";
    if route.availableSeats != 0 {
      block := block + "   🎫 " + NatToString(route.availableSeats) + " seats available\\n";
    }
    block := block + "\\n";
  }

  /** An answer lists routes exactly when there are some: it then opens with the
      count, and otherwise it is the "couldn't find" text. */
  lemma ResultsFound(routes: seq<RouteRow>, from: string, to: string, transportType: string)
    ensures routes != [] <==> StartsAt(RouteResultsText(routes, from, to, transportType), 0, ResultsOpening)
    ensures routes == [] ==> RouteResultsText(routes, from, to, transportType) == NoRoutesText(from, to)
  {
    var text := RouteResultsText(routes, from, to, transportType);
    if routes == [] {
      PrefixStarts(NoRoutesOpening, from + " to " + to + NoRoutesTail);
      assert text[0] == NoRoutesOpening[0] != ResultsOpening[0];
    } else {
      var header := ResultsHeader(|routes|, from, to, transportType);
      var rest := Blocks(routes[..ListedCount(|routes|)]) + (MoreOptions(|routes|) + ResultsClosing);
      AppendAssociates(header, Blocks(routes[..ListedCount(|routes|)]), MoreOptions(|routes|) + ResultsClosing);
      var headerRest := NatToString(|routes|) + " " + (if transportType == "both" then "" else transportType)
        + " routes from **" + from + "** to **" + to + "**:\\n\\n";
      AppendAssociates(ResultsOpening, headerRest, rest);
      PrefixStarts(ResultsOpening, headerRest + rest);
    }
  }

  /** Each of the first three routes appears as its numbered block. */
  lemma ResultsListTopThree(routes: seq<RouteRow>, from: string, to: string, transportType: string, k: nat)
    requires k < ListedCount(|routes|)
    ensures Includes(RouteResultsText(routes, from, to, transportType), RouteBlock(k + 1, routes[k]))
  {
    var top := routes[..ListedCount(|routes|)];
    var bs := BlockTexts(top);
    assert bs[k] == RouteBlock(k + 1, routes[k]);
    ConcatIncludes(bs, k);
    var header, rest := ResultsHeader(|routes|, from, to, transportType), MoreOptions(|routes|) + ResultsClosing;
    IncludesWithin(header, Blocks(top), rest, bs[k]);
    assert RouteResultsText(routes, from, to, transportType) == header + Blocks(top) + rest;
  }

  /** The line counting the routes left out appears when there are more than three;
      otherwise the blocks are followed directly by the closing line. */
  lemma ResultsMoreOptions(routes: seq<RouteRow>, from: string, to: string, transportType: string)
    requires routes != []
    ensures |routes| > 3 ==> Includes(RouteResultsText(routes, from, to, transportType), MoreOptionsLine(|routes| - 3))
    ensures |routes| <= 3 ==>
      RouteResultsText(routes, from, to, transportType) == ResultsHeader(|routes|, from, to, transportType) + Blocks(routes) + ResultsClosing
  {
    var head := ResultsHeader(|routes|, from, to, transportType) + Blocks(routes[..ListedCount(|routes|)]);
    AppendAssociates(head, MoreOptions(|routes|), ResultsClosing);
    if |routes| > 3 {
      var w := MoreOptionsLine(|routes| - 3);
      PrefixStarts(w, "");
      assert w + "" == w;
      IncludesWithin(head, w, ResultsClosing, w);
    } else {
      assert routes[..|routes|] == routes;
      assert head + "" == head;
    }
  }

  /** Routes after the third change nothing but the count. */
  lemma ResultsUseTopThree(r1: seq<RouteRow>, r2: seq<RouteRow>, from: string, to: string, transportType: string)
    requires |r1| == |r2| && r1[..ListedCount(|r1|)] == r2[..ListedCount(|r2|)]
    ensures RouteResultsText(r1, from, to, transportType) == RouteResultsText(r2, from, to, transportType)
  {
  }

  // ------------------------------------------------------------ route search

  /** What the route search endpoint said: the routes of a successful answer (an
      answer without data counts as none), or no usable answer (a network failure, an
      error status, an unreadable body, or listed routes of which one of the first
      three has no transport type, so that formatting them throws). */
  datatype RouteLookup = Answered(data: seq<RouteRow>) | NoAnswer

  /** The body `handleRouteSearchQuery` posts to the route search. */
  datatype SearchRequest = SearchRequest(source: string, destination: string, transportType: string,
                                         queryText: string, voiceQuery: bool)

  function RouteSearchRequest(from: string, to: string, transportType: string): (q: SearchRequest)
    ensures q.transportType in {"train", "bus", "both"}
    ensures q.voiceQuery
  {
    var formattedFrom, formattedTo := FormatLocation(from), FormatLocation(to);
    SearchRequest(formattedFrom, formattedTo, NormalizeTransport(transportType),
                  "Find " + transportType + " from " + formattedFrom + " to " + formattedTo, true)
  }

  /** The places of the request are already formatted: formatting them again, as a
      second search from them would, changes nothing. */
  lemma RouteSearchRequestStable(from: string, to: string, transportType: string)
    ensures var q := RouteSearchRequest(from, to, transportType);
      RouteSearchRequest(q.source, q.destination, transportType) == q
  {
    FormatLocationIdempotent(from);
    FormatLocationIdempotent(to);
  }

  const FallbackBody := "! \n\n🚂 **For Trains**: Major routes typically run multiple times daily with options from general class to AC coaches.\n\n🚌 **For Buses**: State and private operators provide regular services with various comfort levels.\n\n⏰ **Typical Journey Time**: Varies from 3-15 hours depending on distance and transport type.\n\n💰 **Price Range**: Usually ₹200-₹2000 based on class and distance.\n\n🎯 **Recommendation**: Use the Dashboard to:\n   ✅ See real-time availability\n   ✅ Compare prices and timings  \n   ✅ Apply filters for your preferences\n   ✅ Book tickets directly\n\nWould you like me to help you with anything else about this route or plan a different journey?"

  /** `generateFallbackRouteResponse`; `timeText` is the time phrase the command
      named, if any. */
  function FallbackText(from: string, to: string, transportType: string, timeText: Option<string>): string {
    "I'll help you find " + FallbackTransportText(transportType) + " from **" + from + "** to **" + to + "**"
    + (if timeText.Some? then " " + timeText.value else "") + FallbackBody
  }

  /** `handleRouteSearchQuery`: the places are formatted, then the answer lists the
      routes found, or the general fallback text when the search gave no answer. */
  function RouteSearchReply(from: string, to: string, transportType: string, timeText: Option<string>,
                            lookup: RouteLookup): string
  {
    var formattedFrom, formattedTo := FormatLocation(from), FormatLocation(to);
    match lookup
    case Answered(data) => RouteResultsText(data, formattedFrom, formattedTo, transportType)
    case NoAnswer => FallbackText(formattedFrom, formattedTo, transportType, timeText)
  }

  // ------------------------------------------------------------ canned replies

  const HelpText := "I'm VoiceRoute Assistant! I can help you with:\n        \n🚂 **Finding Trains & Buses**: Say \"Find trains from Delhi to Mumbai\" or \"Show buses to Bangalore\"\n🕐 **Time-specific searches**: \"Morning trains to Chennai\" or \"Evening buses tomorrow\"\n💰 **Budget options**: \"Cheapest way to Pune\" or \"AC buses under 1000 rupees\"\n📍 **Route information**: \"How long does it take to reach Goa?\" or \"Best route to Kerala\"\n⭐ **Recommendations**: \"Popular destinations from Mumbai\" or \"Weekend trips from Delhi\"\n\nJust speak naturally - I'll understand your travel needs! Try saying something like \"Find tomorrow's trains from your city to any destination you want to visit.\""

  const GreetingTexts: seq<string> := [
    "Hello! I'm your VoiceRoute Assistant. How can I help you plan your journey today?",
    "Hi there! Ready to find the perfect route for your travel? Just tell me where you want to go!",
    "Hey! I'm here to help you discover trains and buses across India. What's your destination?"
  ]

  const ThanksText := "You're welcome! I'm always here to help you find the best routes. Have a great journey! 🚀"

  const FarewellText := "Goodbye! Safe travels, and feel free to ask me anytime you need help planning your journey! 👋"

  const PopularText := "Here are some **popular travel routes** in India:\n\n🏔️ **Hill Stations**: Delhi→Manali, Mumbai→Lonavala, Bangalore→Ooty\n🏖️ **Beaches**: Mumbai→Goa, Chennai→Pondicherry, Bangalore→Gokarna  \n🏛️ **Heritage**: Delhi→Agra→Jaipur (Golden Triangle), Mumbai→Aurangabad\n🌴 **South India**: Bangalore→Chennai→Kochi, Hyderabad→Tirupati\n\nWhich type of destination interests you? I can help find the best routes!"

  const BudgetText := "💰 **Budget Travel Tips**:\n\n🚂 **Trains**: General/Sleeper class for longer distances\n🚌 **Buses**: State transport buses are usually cheapest\n🕐 **Timing**: Off-peak hours often have lower prices\n📅 **Booking**: Advance booking can save 10-30%\n\n**Example Budget Routes**:\n• Delhi→Agra: ₹50-₹200 (train)\n• Mumbai→Pune: ₹100-₹300 (bus)\n• Bangalore→Chennai: ₹150-₹400 (both)\n\nTell me your route, and I'll find the most affordable options!"

  const UnclearText := "I'd love to help you with your travel plans! \n\nTo give you the best suggestions, try asking me:\n\n🗺️ **Route searches**: \"Find trains from [your city] to [destination]\"\n⏰ **Time-specific**: \"Morning buses to Pune tomorrow\"  \n💰 **Budget options**: \"Cheapest way to reach Goa\"\n🎯 **Recommendations**: \"Popular weekend trips from Mumbai\"\n\nYou can also say things like \"Help\" for more options, or just tell me where you want to go and I'll guide you!\n\nWhat journey are you planning?"

  function TopicText(t: Topic): string {
    match t
    case Popular => PopularText
    case Budget => BudgetText
    case Unclear => UnclearText
  }

  /** The text of a reply. `pick` is the greeting the random choice selects. */
  function ReplyText(r: Reply, pick: nat, timeText: Option<string>, lookup: RouteLookup): string
    requires pick < |GreetingTexts|
  {
    match r
    case RouteQuery(from, to, transportType) => RouteSearchReply(from, to, transportType, timeText, lookup)
    case HelpReply => HelpText
    case GreetingReply => GreetingTexts[pick]
    case ThanksReply => ThanksText
    case FarewellReply => FarewellText
    case GeneralReply(topic) => TopicText(topic)
  }

  // ---------------------------------------------------------------- the panel

  /** The page state the voice chat keeps: the conversation, the copy saved to
      local storage, and the last answer (for replay). */
  class VoiceChatPanel {
    var history: seq<ChatMessage>
    var stored: seq<ChatMessage>
    var lastResponse: string
    var conversationId: string

    constructor(conversationId: string)
      ensures history == [] && stored == [] && lastResponse == "" && this.conversationId == conversationId
    {
      history := [];
      stored := [];
      lastResponse := "";
      this.conversationId := conversationId;
    }

    /** `addChatMessage`: one message is appended, and the last hundred are saved. */
    method AddChatMessage(sender: string, text: string, id: real, timestamp: int)
      modifies this
      ensures history == old(history) + [ChatMessage(id, sender, text, timestamp, conversationId)]
      ensures stored == Last(history, 100)
      ensures lastResponse == old(lastResponse) && conversationId == old(conversationId)
    {
      history := history + [ChatMessage(id, sender, text, timestamp, conversationId)];
      stored := Last(history, 100);
    }

    /** `processVoiceCommand`: the reply of the branch the command falls in, which
      is also kept as the last response. */
    method ProcessVoiceCommand(command: string, pick: nat, timeText: Option<string>, lookup: RouteLookup)
      returns (response: string)
      requires pick < |GreetingTexts|
      modifies this
      ensures response == ReplyText(Dispatch(command), pick, timeText, lookup)
      ensures lastResponse == response
      ensures history == old(history) && stored == old(stored) && conversationId == old(conversationId)
    {
      var reply := Dispatch(command);
      match reply {
        case RouteQuery(from, to, transportType) =>
          var formattedFrom, formattedTo := FormatLocation(from), FormatLocation(to);
          if lookup.Answered? {
            response := FormatRouteSearchResults(lookup.data, formattedFrom, formattedTo, transportType);
          } else {
            response := FallbackText(formattedFrom, formattedTo, transportType, timeText);
          }
        case HelpReply => response := HelpText;
        case GreetingReply => response := GreetingTexts[pick];
        case ThanksReply => response := ThanksText;
        case FarewellReply => response := FarewellText;
        case GeneralReply(topic) => response := TopicText(topic);
      }
      lastResponse := response;
    }
  }
}
