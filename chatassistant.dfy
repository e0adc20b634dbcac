/** The stand-alone chat assistant page: how a message is shown (sender label,
    light markdown), what is read aloud, and the conversation it keeps and saves. */
module ChatAssistant {
  import opened Optional
  import opened Text
  import opened Messages

  // ------------------------------------------------------------ senders

  /** The icon markup and the label a message is shown with. */
  datatype SenderInfo = SenderInfo(icon: string, name: string)

  const KnownSenders: set<string> := {"user", "assistant", "system"}

  /** `getSenderInfo`. */
  function GetSenderInfo(sender: string): (r: SenderInfo)
    ensures r.name == "Unknown" <==> sender !in KnownSenders
  {
    match sender
    case "user" => SenderInfo("<i class=\"fas fa-user\"></i>", "You")
    case "assistant" => SenderInfo("<i class=\"fas fa-robot\"></i>", "VoiceRoute Assistant")
    case "system" => SenderInfo("<i class=\"fas fa-info-circle\"></i>", "System")
    case _ => SenderInfo("<i class=\"fas fa-question\"></i>", "Unknown")
  }

  /** The three known senders are told apart, by label and by icon. */
  lemma SenderInfoDistinct(a: string, b: string)
    requires a in KnownSenders && b in KnownSenders && a != b
    ensures GetSenderInfo(a).name != GetSenderInfo(b).name
    ensures GetSenderInfo(a).icon != GetSenderInfo(b).icon
  {
    assert GetSenderInfo("user").icon[17] == 'u';
    assert GetSenderInfo("assistant").icon[17] == 'r';
    assert GetSenderInfo("system").icon[17] == 'i';
  }

  // ---------------------------------------------------- message formatting

  /** The first replacement, which marks up bold text: from left to right, two
      stars, a non-empty run without stars and two stars become a strong element. */
  function Bold(s: string): string
    decreases |s|
  {
    if s == [] then []
    else
      var e := 2 + (if |s| >= 2 then IndexOfChar(s[2..], '*') else 0);
      if |s| >= 2 && s[0] == '*' && s[1] == '*' && e > 2 && e + 1 < |s| && s[e + 1] == '*' then
        "<strong>" + s[2..e] + "</strong>" + Bold(s[e + 2..])
      else [s[0]] + Bold(s[1..])
  }

  /** The second replacement, which marks up emphasis: a star, a non-empty run
      without stars and a star become an emphasis element. */
  function Italic(s: string): string
    decreases |s|
  {
    if s == [] then []
    else
      var e := 1 + IndexOfChar(s[1..], '*');
      if s[0] == '*' && e > 1 && e < |s| then "<em>" + s[1..e] + "</em>" + Italic(s[e + 1..])
      else [s[0]] + Italic(s[1..])
  }

  /** `replace(/\n\n/g, '</p><p>')`, pairs taken from the left. */
  function Paragraphs(s: string): string
    decreases |s|
  {
    if s == [] then []
    else if |s| >= 2 && s[0] == '\n' && s[1] == '\n' then "</p><p>" + Paragraphs(s[2..])
    else [s[0]] + Paragraphs(s[1..])
  }

  /** `replace(/\n/g, '<br>')`. */
  function Breaks(s: string): (r: string)
    ensures '\n' !in r
    decreases |s|
  {
    if s == [] then [] else (if s[0] == '\n' then "<br>" else [s[0]]) + Breaks(s[1..])
  }

  /** `formatMessageText`: bold, then emphasis, then paragraphs and line breaks, the
      whole wrapped in one paragraph. */
  function FormatMessageText(text: string): (r: string)
    ensures |r| >= 7 && r[..3] == "<p>" && r[|r| - 4..] == "</p>"
    ensures '\n' !in r
  {
    "<p>" + Breaks(Paragraphs(Italic(Bold(text)))) + "</p>"
  }

  lemma {:induction false} BoldStarFree(s: string)
    requires '*' !in s
    ensures Bold(s) == s
    decreases |s|
  {
    if s != [] {
      assert '*' !in s[1..];
      BoldStarFree(s[1..]);
    }
  }

  lemma {:induction false} ItalicStarFree(s: string)
    requires '*' !in s
    ensures Italic(s) == s
    decreases |s|
  {
    if s != [] {
      assert '*' !in s[1..];
      ItalicStarFree(s[1..]);
    }
  }

  lemma {:induction false} ParagraphsNewlineFree(s: string)
    requires '\n' !in s
    ensures Paragraphs(s) == s
    decreases |s|
  {
    if s != [] {
      assert '\n' !in s[1..];
      ParagraphsNewlineFree(s[1..]);
    }
  }

  lemma {:induction false} BreaksNewlineFree(s: string)
    requires '\n' !in s
    ensures Breaks(s) == s
    decreases |s|
  {
    if s != [] {
      assert '\n' !in s[1..];
      BreaksNewlineFree(s[1..]);
    }
  }

  /** A text with no star and no line break comes back only wrapped in a paragraph. */
  lemma FormatPlainText(text: string)
    requires '*' !in text && '\n' !in text
    ensures FormatMessageText(text) == "<p>" + text + "</p>"
  {
    BoldStarFree(text);
    ItalicStarFree(text);
    ParagraphsNewlineFree(text);
    BreaksNewlineFree(text);
  }

  /** The bold replacement on one starred word. */
  lemma BoldWord(w: string)
    requires w != [] && '*' !in w
    ensures Bold("**" + w + "**") == "<strong>" + w + "</strong>"
  {
    var s := "**" + w + "**";
    assert s[0] == '*' && s[1] == '*';
    assert s[2..] == w + "**";
    IndexOfCharAt(s[2..], '*', |w|) by {
      assert s[2..][..|w|] == w;
    }
    assert s[2 + |w| + 1] == '*';
    assert s[2..2 + |w|] == w;
    assert s[2 + |w| + 2..] == [];
  }

  /** A word between double stars becomes a strong element. */
  lemma FormatBoldText(w: string)
    requires w != [] && '*' !in w && '\n' !in w
    ensures FormatMessageText("**" + w + "**") == "<p><strong>" + w + "</strong></p>"
  {
    BoldWord(w);
    var open, close := "<strong>", "</strong>";
    assert '*' !in open && '\n' !in open && '*' !in close && '\n' !in close;
    var b := open + w + close;
    ItalicStarFree(b);
    ParagraphsNewlineFree(b);
    BreaksNewlineFree(b);
    assert "<p>" + b + "</p>" == "<p><strong>" + w + "</strong></p>";
  }

  // -------------------------------------------------------------- speech

  /** The characters dropped before a reply is read aloud. */
  predicate Markup(c: char) {
    c == '*' || c == '_' || c == '#' || c == '\n'
  }

  /** `replace(/[*_#\n]/g, '')`. */
  function StripMarkup(s: string): (r: string)
    ensures forall i | 0 <= i < |r| :: !Markup(r[i])
    decreases |s|
  {
    if s == [] then [] else (if Markup(s[0]) then [] else [s[0]]) + StripMarkup(s[1..])
  }

  /** `replace(/\n/g, ' ')`. */
  function NewlinesToSpaces(s: string): string {
    seq(|s|, i requires 0 <= i < |s| => if s[i] == '\n' then ' ' else s[i])
  }

  /** The text `speakResponse` hands to speech synthesis. */
  function SpeechText(text: string): string {
    NewlinesToSpaces(StripMarkup(text))
  }

  /** The second replacement finds nothing left to replace: only the markup
      characters are removed, each on its own. */
  lemma SpeechTextStrips(text: string)
    ensures SpeechText(text) == StripMarkup(text)
  {
    var r := StripMarkup(text);
    assert forall i | 0 <= i < |r| :: r[i] != '\n';
  }

  /** Stripping works character by character: the text of two parts is the two
      stripped parts, a single character stays unless it is markup. */
  lemma {:induction false} StripMarkupAppend(a: string, b: string)
    ensures StripMarkup(a + b) == StripMarkup(a) + StripMarkup(b)
    decreases |a|
  {
    if a != [] {
      assert (a + b)[1..] == a[1..] + b;
      StripMarkupAppend(a[1..], b);
    } else {
      assert a + b == b;
    }
  }

  lemma StripMarkupChar(c: char)
    ensures StripMarkup([c]) == if Markup(c) then [] else [c]
  {
  }

  /** A text without markup is read as written. */
  lemma {:induction false} StripMarkupFree(s: string)
    requires forall i | 0 <= i < |s| :: !Markup(s[i])
    ensures StripMarkup(s) == s
    decreases |s|
  {
    if s != [] {
      StripMarkupFree(s[1..]);
    }
  }

  // ---------------------------------------------------------- the assistant

  /** What local storage holds under the chat-history key: nothing, the saved
      messages, or a text that does not read back as a list of messages. */
  datatype Stored = Missing | Saved(messages: seq<ChatMessage>) | Unreadable

  const SavedMessages: nat := 50

  const ClearedText := "✨ Chat history cleared! Ready for a fresh conversation."

  const ErrorReply := "I'm sorry, I encountered an error processing your request. Please try again or rephrase your question."

  /** The assistant message a request ends with: the generated reply, or the
      apology when generating it failed (`None`). */
  function AssistantText(outcome: Option<string>): string {
    if outcome.Some? then outcome.value else ErrorReply
  }

  /** The page's globals: the conversation, the stored copy, the processing flag,
      the reply kept for replay, and the texts handed to speech synthesis so far. */
  class Assistant {
    var history: seq<ChatMessage>
    var stored: Stored
    var isVoiceProcessing: bool
    var lastResponse: string
    var spoken: seq<string>
    var conversationId: string

    constructor(conversationId: string, stored: Stored)
      ensures history == [] && this.stored == stored && !isVoiceProcessing
      ensures lastResponse == "" && spoken == [] && this.conversationId == conversationId
    {
      history := [];
      this.stored := stored;
      isVoiceProcessing := false;
      lastResponse := "";
      spoken := [];
      this.conversationId := conversationId;
    }

    /** `saveChatHistory`: the last fifty messages, in order. */
    method SaveChatHistory()
      modifies this
      ensures stored == Saved(Last(history, SavedMessages))
      ensures history == old(history) && isVoiceProcessing == old(isVoiceProcessing)
      ensures lastResponse == old(lastResponse) && spoken == old(spoken) && conversationId == old(conversationId)
    {
      stored := Saved(Last(history, SavedMessages));
    }

    /** `addMessage`: one message at the end, earlier ones untouched, then saved. */
    method AddMessage(sender: string, text: string, id: real, timestamp: int)
      modifies this
      ensures history == old(history) + [ChatMessage(id, sender, text, timestamp, conversationId)]
      ensures stored == Saved(Last(history, SavedMessages))
      ensures isVoiceProcessing == old(isVoiceProcessing) && lastResponse == old(lastResponse)
      ensures spoken == old(spoken) && conversationId == old(conversationId)
    {
      history := history + [ChatMessage(id, sender, text, timestamp, conversationId)];
      SaveChatHistory();
    }

    /** `loadChatHistory`: saved messages are added after the ones in memory; an
        unreadable copy empties the conversation instead. */
    method LoadChatHistory()
      modifies this
      ensures old(stored).Missing? ==> history == old(history)
      ensures old(stored).Saved? ==> history == old(history) + old(stored).messages
      ensures old(stored).Unreadable? ==> history == []
      ensures stored == old(stored) && isVoiceProcessing == old(isVoiceProcessing)
      ensures lastResponse == old(lastResponse) && spoken == old(spoken) && conversationId == old(conversationId)
    {
      match stored {
        case Missing =>
        case Saved(messages) =>
          var i := 0;
          while i < |messages|
            invariant 0 <= i <= |messages|
            invariant history == old(history) + messages[..i]
            invariant stored == old(stored) && isVoiceProcessing == old(isVoiceProcessing)
            invariant lastResponse == old(lastResponse) && spoken == old(spoken) && conversationId == old(conversationId)
          {
            history := history + [messages[i]];
            assert messages[..i + 1] == messages[..i] + [messages[i]];
            i := i + 1;
          }
          assert messages[..i] == messages;
        case Unreadable =>
          history := [];
      }
    }

    /** `clearChatHistory`: once confirmed, the conversation is emptied, the stored
        copy removed, and the notice added is then the only message. */
    method ClearChatHistory(confirmed: bool, id: real, timestamp: int)
      modifies this
      ensures confirmed ==> history == [ChatMessage(id, "system", ClearedText, timestamp, conversationId)]
      ensures confirmed ==> stored == Saved(history)
      ensures !confirmed ==> history == old(history) && stored == old(stored)
      ensures isVoiceProcessing == old(isVoiceProcessing) && lastResponse == old(lastResponse)
      ensures spoken == old(spoken) && conversationId == old(conversationId)
    {
      if confirmed {
        history := [];
        stored := Missing;
        AddMessage("system", ClearedText, id, timestamp);
      }
    }

    /** `speakResponse`: nothing is read without speech synthesis or for an empty
        text; otherwise the text without its markup. */
    method SpeakResponse(text: string, speechAvailable: bool)
      modifies this
      ensures spoken == if speechAvailable && text != "" then old(spoken) + [SpeechText(text)] else old(spoken)
      ensures history == old(history) && stored == old(stored) && isVoiceProcessing == old(isVoiceProcessing)
      ensures lastResponse == old(lastResponse) && conversationId == old(conversationId)
    {
      if speechAvailable && text != "" {
        spoken := spoken + [SpeechText(text)];
      }
    }

    /** The part of `processUserInput` after the user's message: the reply or the
        apology is added and spoken, and a generated reply is kept for replay. */
    method Respond(outcome: Option<string>, speechAvailable: bool, replyId: real, replyTime: int)
      modifies this
      ensures history == old(history) + [ChatMessage(replyId, "assistant", AssistantText(outcome), replyTime, conversationId)]
      ensures stored == Saved(Last(history, SavedMessages))
      ensures spoken == old(spoken) + (if speechAvailable && AssistantText(outcome) != "" then [SpeechText(AssistantText(outcome))] else [])
      ensures lastResponse == if outcome.Some? then outcome.value else old(lastResponse)
      ensures isVoiceProcessing == old(isVoiceProcessing) && conversationId == old(conversationId)
    {
      match outcome {
        case Some(response) =>
          AddMessage("assistant", response, replyId, replyTime);
          SpeakResponse(response, speechAvailable);
          lastResponse := response;
        case None =>
          AddMessage("assistant", ErrorReply, replyId, replyTime);
          SpeakResponse(ErrorReply, speechAvailable);
      }
    }

    /** `processUserInput`. Blank input changes nothing. Otherwise the user's message
        is added first, then the reply (`outcome`, where `None` is a failure of the
        response generator) or the apology; the reply is spoken; a generated reply is
        kept for replay; and the processing flag ends cleared. */
    method ProcessUserInput(input: string, outcome: Option<string>, speechAvailable: bool,
                            userId: real, userTime: int, replyId: real, replyTime: int)
      modifies this
      ensures Trim(input) == "" ==>
        history == old(history) && stored == old(stored) && isVoiceProcessing == old(isVoiceProcessing)
        && lastResponse == old(lastResponse) && spoken == old(spoken)
      ensures Trim(input) != "" ==>
        history == old(history) + [ChatMessage(userId, "user", input, userTime, conversationId),
                                   ChatMessage(replyId, "assistant", AssistantText(outcome), replyTime, conversationId)]
      ensures Trim(input) != "" ==> stored == Saved(Last(history, SavedMessages)) && !isVoiceProcessing
      ensures Trim(input) != "" ==>
        spoken == old(spoken) + (if speechAvailable && AssistantText(outcome) != "" then [SpeechText(AssistantText(outcome))] else [])
      ensures lastResponse == if Trim(input) != "" && outcome.Some? then outcome.value else old(lastResponse)
      ensures conversationId == old(conversationId)
    {
      if Trim(input) == "" {
        return;
      }
      AddMessage("user", input, userId, userTime);
      isVoiceProcessing := true;
      Respond(outcome, speechAvailable, replyId, replyTime);
      isVoiceProcessing := false;
    }
  }
}
