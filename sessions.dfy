/** The chat component's state as a value, and each handler step as a function from
    the state before to the state after. The class in home.dfy runs these steps
    imperatively; the lemmas here state what the steps promise. */
module Sessions {
  import opened Text
  import opened Services
  import opened Messages

  datatype Option<T> = None | Some(value: T)

  /** A saved chat: its title and its messages. */
  datatype Conversation = Conversation(title: string, messages: seq<Message>)

  /** The three pieces of component state the handlers act on. */
  datatype Session = Session(
    messages: seq<Message>,
    conversations: seq<Conversation>,
    activeChat: Option<nat>)

  /** The synchronisation invariant: an active chat indexes a saved conversation, and
      that conversation holds exactly the displayed messages. */
  predicate Synced(s: Session) {
    match s.activeChat
    case None => true
    case Some(k) => k < |s.conversations| && s.conversations[k].messages == s.messages
  }

  /** The title given to the conversation created when there are `n - 1` already. */
  function ChatTitle(n: nat): string {
    "Chat " + NatToString(n)
  }

  /** Two titles coincide only when the conversation counts they were made from do. */
  lemma ChatTitleInjective(a: nat, b: nat)
    ensures ChatTitle(a) == ChatTitle(b) ==> a == b
  {
    if ChatTitle(a) == ChatTitle(b) {
      assert NatToString(a) == ChatTitle(a)[5..];
      assert NatToString(b) == ChatTitle(b)[5..];
      NatToStringInjective(a, b);
    }
  }

  /** `s.filter((_, j) => j !== i)`: keep every element whose index is not `i`. */
  function Without<T>(s: seq<T>, i: nat): seq<T> {
    if s == [] then []
    else Without(s[..|s| - 1], i) + (if |s| - 1 == i then [] else [s[|s| - 1]])
  }

  /** Filtering out index `i` removes exactly that element, keeping the others in
      order, and removes nothing when `i` is past the end. */
  lemma {:induction false} WithoutRemovesIndex<T>(s: seq<T>, i: nat)
    ensures Without(s, i) == if i < |s| then s[..i] + s[i + 1..] else s
  {
    if s != [] {
      var n := |s| - 1;
      WithoutRemovesIndex(s[..n], i);
      if i < n {
        calc {
          Without(s, i);
          s[..n][..i] + s[..n][i + 1..] + [s[n]];
          { assert s[..n][..i] == s[..i]; assert s[..n][i + 1..] + [s[n]] == s[i + 1..]; }
          s[..i] + s[i + 1..];
        }
      } else if i > n {
        assert s[..n] + [s[n]] == s;
      }
    }
  }

  /** `handleSubmit` for the current input: blank input changes nothing; otherwise a
      new message is appended and either stored into the active conversation or saved
      as a new conversation that becomes active. */
  function Submitted(s: Session, input: string, detect: Detector): (t: Session)
    requires Synced(s)
    ensures Synced(t)
  {
    if Trim(input) == "" then s
    else
      var msgs := s.messages + [NewMessage(input, DetectLanguage(detect(input)))];
      match s.activeChat
      case Some(k) =>
        Session(msgs, s.conversations[k := s.conversations[k].(messages := msgs)], s.activeChat)
      case None =>
        Session(msgs, s.conversations + [Conversation(ChatTitle(|s.conversations| + 1), msgs)],
                Some(|s.conversations|))
  }

  /** `updateMessageInConversation`: message `index` is replaced and the new list is
      copied into the active conversation. */
  function Updated(s: Session, index: nat, m: Message): (t: Session)
    requires Synced(s) && index < |s.messages|
    ensures Synced(t)
  {
    var msgs := s.messages[index := m];
    match s.activeChat
    case Some(k) => Session(msgs, s.conversations[k := s.conversations[k].(messages := msgs)], s.activeChat)
    case None => Session(msgs, s.conversations, s.activeChat)
  }

  /** `startNewChat`: nothing is displayed and no chat is active; the saved
      conversations stay as they are. */
  function NewChat(s: Session): (t: Session)
    ensures Synced(t) && t.messages == [] && t.activeChat == None
    ensures t.conversations == s.conversations
  {
    Session([], s.conversations, None)
  }

  /** `loadConversation`: conversation `i` becomes active and its messages displayed. */
  function Loaded(s: Session, i: nat): (t: Session)
    requires i < |s.conversations|
    ensures Synced(t) && t.activeChat == Some(i)
    ensures t.messages == s.conversations[i].messages && t.conversations == s.conversations
  {
    Session(s.conversations[i].messages, s.conversations, Some(i))
  }

  /** `deleteConversation`: conversation `i` is filtered out; deleting the active one
      starts a new chat, deleting one before it shifts the active index down. */
  function Deleted(s: Session, i: nat): (t: Session)
    requires Synced(s)
    ensures Synced(t)
  {
    WithoutRemovesIndex(s.conversations, i);
    var convs := Without(s.conversations, i);
    match s.activeChat
    case Some(k) =>
      if k == i then Session([], convs, None)
      else if i < k then Session(s.messages, convs, Some(k - 1))
      else Session(s.messages, convs, s.activeChat)
    case None => Session(s.messages, convs, None)
  }

  /** Blank input (only whitespace) changes no part of the state. */
  lemma SubmitBlankIsNoop(s: Session, input: string, detect: Detector)
    requires Synced(s)
    requires forall i :: 0 <= i < |input| ==> IsWhitespace(input[i])
    ensures Submitted(s, input, detect) == s
  {
    BlankIffAllWhitespace(input);
  }

  /** Any other input appends exactly one message, built from the untrimmed input and
      the detector's verdict, after the unchanged earlier ones. */
  lemma SubmitAppendsMessage(s: Session, input: string, detect: Detector)
    requires Synced(s)
    requires exists i :: 0 <= i < |input| && !IsWhitespace(input[i])
    ensures var t := Submitted(s, input, detect);
            |t.messages| == |s.messages| + 1
            && t.messages[..|s.messages|] == s.messages
            && t.messages[|s.messages|] == NewMessage(input, DetectLanguage(detect(input)))
  {
    BlankIffAllWhitespace(input);
    var t := Submitted(s, input, detect);
    assert t.messages == s.messages + [NewMessage(input, DetectLanguage(detect(input)))];
  }

  /** With no active chat, a submit saves one new conversation at the end, titled
      "Chat <old count + 1>" and holding the new messages, and makes it active. */
  lemma SubmitCreatesConversation(s: Session, input: string, detect: Detector)
    requires Synced(s) && s.activeChat == None
    requires exists i :: 0 <= i < |input| && !IsWhitespace(input[i])
    ensures var t := Submitted(s, input, detect);
            t.conversations == s.conversations + [Conversation(ChatTitle(|s.conversations| + 1), t.messages)]
            && t.activeChat == Some(|s.conversations|)
  {
    BlankIffAllWhitespace(input);
    assert Trim(input) != "";
  }

  /** With chat `k` active, a submit keeps the same chat active and the same number of
      conversations; chat `k` keeps its title and takes the new messages, and every
      other conversation is unchanged. */
  lemma SubmitStoresIntoActive(s: Session, input: string, detect: Detector, k: nat)
    requires Synced(s) && s.activeChat == Some(k)
    requires exists i :: 0 <= i < |input| && !IsWhitespace(input[i])
    ensures var t := Submitted(s, input, detect);
            t.conversations == s.conversations[k := Conversation(s.conversations[k].title, t.messages)]
            && t.activeChat == Some(k)
  {
    BlankIffAllWhitespace(input);
    assert Trim(input) != "";
  }

  /** An update puts `m` at `index` and nothing else changes in the displayed list;
      only the active conversation's messages follow, and with no active chat no
      conversation changes. */
  lemma UpdateReplacesOne(s: Session, index: nat, m: Message)
    requires Synced(s) && index < |s.messages|
    ensures var t := Updated(s, index, m);
            |t.messages| == |s.messages| && t.messages[index] == m
            && (forall j :: 0 <= j < |s.messages| && j != index ==> t.messages[j] == s.messages[j])
            && t.activeChat == s.activeChat
            && |t.conversations| == |s.conversations|
            && (forall j :: 0 <= j < |s.conversations| && Some(j) != s.activeChat ==>
                  t.conversations[j] == s.conversations[j])
            && (forall j :: 0 <= j < |s.conversations| ==>
                  t.conversations[j].title == s.conversations[j].title)
  {
  }

  /** The second of two updates to the same message wins: the intermediate value
      leaves no trace. */
  lemma UpdateLastWins(s: Session, index: nat, first: Message, second: Message)
    requires Synced(s) && index < |s.messages|
    ensures Updated(Updated(s, index, first), index, second) == Updated(s, index, second)
  {
    var msgs := s.messages[index := second];
    assert s.messages[index := first][index := second] == msgs;
  }

  /** Deleting the active conversation starts a new chat; deleting one before it
      shifts the active index down by one and keeps the displayed messages; any other
      deletion, including with no active chat, keeps the active index. In every case
      exactly conversation `i` is removed and the rest keep their order. */
  lemma DeleteShiftsActive(s: Session, i: nat)
    requires Synced(s)
    ensures var t := Deleted(s, i);
            t.conversations == (if i < |s.conversations|
                                then s.conversations[..i] + s.conversations[i + 1..]
                                else s.conversations)
            && (s.activeChat == Some(i) ==> t.activeChat == None && t.messages == [])
            && (s.activeChat.Some? && i < s.activeChat.value ==>
                  t.activeChat == Some(s.activeChat.value - 1) && t.messages == s.messages)
            && (s.activeChat.None? || i > s.activeChat.value ==>
                  t.activeChat == s.activeChat && t.messages == s.messages)
  {
    WithoutRemovesIndex(s.conversations, i);
  }

  /** Deleting any conversation but the active one keeps the same conversation
      active, at its index in the shortened list. */
  lemma DeleteKeepsActiveConversation(s: Session, i: nat)
    requires Synced(s) && s.activeChat.Some? && s.activeChat.value != i
    ensures var t := Deleted(s, i);
            t.activeChat.Some?
            && t.conversations[t.activeChat.value] == s.conversations[s.activeChat.value]
  {
    WithoutRemovesIndex(s.conversations, i);
  }

  /** Titles count conversations, not creations. With no chat active, delete any
      saved chat but the last and submit: the new chat takes the title "Chat <old
      count>", right after the old last chat; when that one was itself titled by the
      old count, the two titles coincide. */
  lemma TitleReusedAfterDelete(s: Session, i: nat, input: string, detect: Detector)
    requires Synced(s) && s.activeChat == None && i + 1 < |s.conversations|
    requires exists j :: 0 <= j < |input| && !IsWhitespace(input[j])
    ensures var t := Submitted(Deleted(s, i), input, detect);
            var n := |s.conversations|;
            |t.conversations| == n
            && t.conversations[n - 1].title == ChatTitle(n)
            && t.conversations[n - 2] == s.conversations[n - 1]
            && (s.conversations[n - 1].title == ChatTitle(n) ==>
                  t.conversations[n - 1].title == t.conversations[n - 2].title)
  {
    var n := |s.conversations|;
    var d := Deleted(s, i);
    WithoutRemovesIndex(s.conversations, i);
    assert d.activeChat == None && |d.conversations| == n - 1;
    assert d.conversations[n - 2] == s.conversations[n - 1];
    SubmitCreatesConversation(d, input, detect);
  }

  /** The first submit of a session saves "Chat 1" holding the one new message and
      makes it active. */
  lemma FirstSubmitStartsChatOne(input: string, detect: Detector)
    requires exists i :: 0 <= i < |input| && !IsWhitespace(input[i])
    ensures var m := NewMessage(input, DetectLanguage(detect(input)));
            Submitted(Session([], [], None), input, detect)
            == Session([m], [Conversation("Chat 1", [m])], Some(0))
  {
    var s := Session([], [], None);
    var m := NewMessage(input, DetectLanguage(detect(input)));
    SubmitAppendsMessage(s, input, detect);
    SubmitCreatesConversation(s, input, detect);
    assert Submitted(s, input, detect).messages == [m];
    assert DigitChar(1) == '1';
    assert ChatTitle(1) == "Chat 1";
  }

  /** Submit text detected as English, translate it to French, then pick English: the
      French translation is the translator's output for the text and code "fr", and
      picking the detected language again clears it. The saved conversation follows
      each step. */
  lemma TranslateThenRevertScenario(text: string, detect: Detector, translate: Translator)
    requires exists i :: 0 <= i < |text| && !IsWhitespace(text[i])
    requires detect(text) != [] && detect(text)[0].language == "English"
    ensures var s1 := Submitted(Session([], [], None), text, detect);
            |s1.messages| == 1 && s1.messages[0].language == "English"
            && var s2 := Updated(s1, 0, LanguageChanged(s1.messages[0], "French", translate));
               s2.messages[0].response == translate(text, "fr")
               && s2.messages[0].responseLanguage == "French"
               && var s3 := Updated(s2, 0, LanguageChanged(s2.messages[0], "English", translate));
                  s3.messages[0].response == "" && s3.messages[0].responseLanguage == ""
                  && s3.conversations == [Conversation("Chat 1", s3.messages)]
  {
    var m1 := NewMessage(text, "English");
    FirstSubmitStartsChatOne(text, detect);
    var s1 := Session([m1], [Conversation("Chat 1", [m1])], Some(0));
    assert Submitted(Session([], [], None), text, detect) == s1;
    var m2 := LanguageChanged(m1, "French", translate);
    assert LanguageCode("French") == "fr";
    assert m2.response == translate(text, "fr") && m2.language == "English";
    UpdateOnlyMessage("Chat 1", m1, m2);
    var s2 := Session([m2], [Conversation("Chat 1", [m2])], Some(0));
    assert Updated(s1, 0, m2) == s2;
    var m3 := LanguageChanged(m2, "English", translate);
    UpdateOnlyMessage("Chat 1", m2, m3);
    assert Updated(s2, 0, m3) == Session([m3], [Conversation("Chat 1", [m3])], Some(0));
  }

  /** In a chat of one message, an update rewrites that message in both places. */
  lemma UpdateOnlyMessage(title: string, m: Message, m': Message)
    ensures Updated(Session([m], [Conversation(title, [m])], Some(0)), 0, m')
            == Session([m'], [Conversation(title, [m'])], Some(0))
  {
    assert [m][0 := m'] == [m'];
    assert [Conversation(title, [m])][0 := Conversation(title, [m'])] == [Conversation(title, [m'])];
  }
}
