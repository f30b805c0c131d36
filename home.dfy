/** The chat component itself: its state variables become fields and its handlers
    methods that update them step by step, each proved to perform the matching step
    of the functional model in sessions.dfy and to keep the synchronisation
    invariant. Each await splits a handler into a Begin step and a Complete step. */
module HomeComponent {
  import opened Text
  import opened Services
  import opened Messages
  import opened Sessions

  class Home {
    var userInput: string
    var messages: seq<Message>
    var conversations: seq<Conversation>
    var activeChat: Option<nat>

    /** The state the handlers act on, as a value. */
    function State(): Session
      reads this
    {
      Session(messages, conversations, activeChat)
    }

    predicate Valid()
      reads this
    {
      Synced(State())
    }

    /** Mounting: an empty input, nothing displayed, no active chat, and the
        conversations read back from storage. */
    constructor (saved: seq<Conversation>)
      ensures Valid() && userInput == ""
      ensures State() == Session([], saved, None)
    {
      userInput := "";
      messages := [];
      conversations := saved;
      activeChat := None;
    }

    /** The input box's change handler. */
    method EditInput(text: string)
      modifies this`userInput
      ensures userInput == text
    {
      userInput := text;
    }

    /** `handleSubmit`: blank input returns early, leaving even the input box as it
        was; otherwise the message is added and the input box cleared. */
    method HandleSubmit(detect: Detector)
      requires Valid()
      modifies this
      ensures Valid()
      ensures State() == Submitted(old(State()), old(userInput), detect)
      ensures userInput == if Trim(old(userInput)) == "" then old(userInput) else ""
    {
      if Trim(userInput) == "" {
        return;
      }
      var detectedLang := DetectLanguage(detect(userInput));
      var newMessage := NewMessage(userInput, detectedLang);
      var updatedMessages := messages + [newMessage];
      var updatedConversations := conversations;
      match activeChat {
        case Some(k) =>
          updatedConversations := updatedConversations[k := updatedConversations[k].(messages := updatedMessages)];
        case None =>
          updatedConversations := updatedConversations
            + [Conversation(ChatTitle(|updatedConversations| + 1), updatedMessages)];
          activeChat := Some(|updatedConversations| - 1);
      }
      conversations := updatedConversations;
      messages := updatedMessages;
      userInput := "";
    }

    /** `updateMessageInConversation`: replace message `index` and copy the new list
        into the active conversation. */
    method UpdateMessageInConversation(index: nat, updatedMessage: Message)
      requires Valid() && index < |messages|
      modifies this`messages, this`conversations
      ensures Valid()
      ensures State() == Updated(old(State()), index, updatedMessage)
    {
      var updatedMessages := messages[index := updatedMessage];
      var updatedConversations := conversations;
      if activeChat.Some? {
        var k := activeChat.value;
        updatedConversations := updatedConversations[k := updatedConversations[k].(messages := updatedMessages)];
      }
      conversations := updatedConversations;
      messages := updatedMessages;
    }

    /** `handleLanguageChange` up to its await: the message is marked as loading with
        its new target; the snapshot is returned for the second step. */
    method BeginLanguageChange(index: nat, newLang: string) returns (pending: Message)
      requires Valid() && index < |messages|
      modifies this`messages, this`conversations
      ensures Valid()
      ensures pending == AwaitingTranslation(old(messages[index]), newLang)
      ensures State() == Updated(old(State()), index, pending)
    {
      pending := messages[index].(selectedLanguage := newLang, loading := true);
      UpdateMessageInConversation(index, pending);
    }

    /** `handleLanguageChange` after its await: the snapshot gets the translation, or
        has it cleared when the target is the detected language. */
    method CompleteLanguageChange(index: nat, newLang: string, pending: Message, translate: Translator)
      requires Valid() && index < |messages|
      modifies this`messages, this`conversations
      ensures Valid()
      ensures State() == Updated(old(State()), index, Translated(pending, newLang, translate))
    {
      if newLang != pending.language {
        var langCode := LanguageCode(newLang);
        var translatedText := translate(pending.text, langCode);
        UpdateMessageInConversation(index,
          pending.(response := translatedText, responseLanguage := newLang, loading := false));
      } else {
        UpdateMessageInConversation(index,
          pending.(response := "", responseLanguage := "", loading := false));
      }
    }

    /** The whole language change with nothing run in between its two steps. */
    method HandleLanguageChange(index: nat, newLang: string, translate: Translator)
      requires Valid() && index < |messages|
      modifies this`messages, this`conversations
      ensures Valid()
      ensures State() == Updated(old(State()), index, LanguageChanged(old(messages[index]), newLang, translate))
    {
      var pending := BeginLanguageChange(index, newLang);
      CompleteLanguageChange(index, newLang, pending, translate);
      UpdateLastWins(old(State()), index, pending, Translated(pending, newLang, translate));
    }

    /** `handleSummarize` up to its await: the message is marked as loading. */
    method BeginSummarize(index: nat) returns (pending: Message)
      requires Valid() && index < |messages|
      modifies this`messages, this`conversations
      ensures Valid()
      ensures pending == AwaitingSummary(old(messages[index]))
      ensures State() == Updated(old(State()), index, pending)
    {
      pending := messages[index].(loading := true);
      UpdateMessageInConversation(index, pending);
    }

    /** `handleSummarize` after its await: the snapshot gets the summary. */
    method CompleteSummarize(index: nat, pending: Message, summarize: Summarizer)
      requires Valid() && index < |messages|
      modifies this`messages, this`conversations
      ensures Valid()
      ensures State() == Updated(old(State()), index, Summarized(pending, summarize))
    {
      var summary := summarize(pending.text);
      UpdateMessageInConversation(index,
        pending.(summary := summary, summaryLanguage := "English", loading := false));
    }

    /** The whole summary request with nothing run in between its two steps. */
    method HandleSummarize(index: nat, summarize: Summarizer)
      requires Valid() && index < |messages|
      modifies this`messages, this`conversations
      ensures Valid()
      ensures State() == Updated(old(State()), index, SummaryAdded(old(messages[index]), summarize))
    {
      var pending := BeginSummarize(index);
      CompleteSummarize(index, pending, summarize);
      UpdateLastWins(old(State()), index, pending, Summarized(pending, summarize));
    }

    /** `startNewChat`. */
    method StartNewChat()
      modifies this`messages, this`activeChat
      ensures Valid()
      ensures State() == NewChat(old(State()))
    {
      messages := [];
      activeChat := None;
    }

    /** `loadConversation`. */
    method LoadConversation(index: nat)
      requires index < |conversations|
      modifies this`messages, this`activeChat
      ensures Valid()
      ensures State() == Loaded(old(State()), index)
    {
      activeChat := Some(index);
      messages := conversations[index].messages;
    }

    /** `deleteConversation`. */
    method DeleteConversation(index: nat)
      requires Valid()
      modifies this`messages, this`conversations, this`activeChat
      ensures Valid()
      ensures State() == Deleted(old(State()), index)
    {
      var updatedConversations := Without(conversations, index);
      WithoutRemovesIndex(conversations, index);
      if activeChat == Some(index) {
        messages := [];
        activeChat := None;
      } else if activeChat.Some? && index < activeChat.value {
        activeChat := Some(activeChat.value - 1);
      }
      conversations := updatedConversations;
    }
  }
}
