# LangGPT chat session, modelled in Dafny

LangGPT is a browser chat page: the user types text, the page detects its language, and
each message can be translated into one of six languages or summarised by two web
services. Saved chats are listed in a sidebar. This project models the state machine
behind that page, the handlers of the `Home` component in `src/Home.jsx`. The handlers
act on three pieces of state:

- `messages`: the messages on display;
- `conversations`: the saved chats, each a title and a list of messages;
- `activeChat`: no chat, or the index of the saved chat on display.

The synchronisation invariant (`Sessions.Synced`) ties them together. When a chat is
active, its index is in range and that conversation holds exactly the displayed messages.
Every handler step of the model keeps it. The model runs each step on the current
state. The running page does not always do so. A language change or summary can be
waiting for its service while `loadConversation` or `startNewChat` runs. It then writes
its result with the `activeChat` of an earlier render (src/Home.jsx:120-121). That puts
the message list into the previously active conversation and breaks the invariant.

Files:

- `text.dfy` (module `Text`): JavaScript's `trim`, used to reject blank input, and the
  decimal rendering used in the title `Chat N`.
- `services.dfy` (module `Services`): the external collaborators as function types
  (`Detector`, `Translator`, `Summarizer`). Also the "Unknown" fallback of
  `detectLanguage`, the `languageCodes` table and its `"en"` fallback.
- `messages.dfy` (module `Messages`): the message record, with every key always present,
  and the messages each handler builds.
- `sessions.dfy` (module `Sessions`): the state as a value. Each handler step is a
  function from the old state to the new one, with the lemmas stating what each step
  promises.
- `home.dfy` (module `HomeComponent`): the class `Home`. Its fields are the component's
  state and its methods are the handlers. They update the fields step by step, and each
  is proved to perform the matching `Sessions` step and to keep `Valid()`.

`handleLanguageChange` and `handleSummarize` await a service between their two state
updates. Each is split into a `Begin` step, which marks the message as loading and
returns the snapshot the source keeps in `updatedMessage`, and a `Complete` step, which
builds the final message from that snapshot. `HandleLanguageChange` and
`HandleSummarize` run both steps with nothing in between.

The model follows the code in these details:

- Conversation titles are `Chat <current count + 1>`, not a running creation counter.
  After a deletion a title can repeat (`Sessions.TitleReusedAfterDelete`).
- A blank submit returns before the input box is cleared, so the whitespace stays in the
  box (`HomeComponent.Home.HandleSubmit`).
- Reading saved chats does not survive malformed stored data. `JSON.parse` throws, and
  the `|| []` fallback only covers a missing key. Storage is not modelled (see below).

## Model

| member | source | states |
|---|---|---|
| `Text.Trim` | src/Home.jsx:79 | the trimmed input is the slice of the input left between leading and trailing whitespace; it neither starts nor ends with whitespace |
| `Text.BlankIffAllWhitespace` | src/Home.jsx:79 | input trims to "" exactly when every character of it is whitespace (both directions) |
| `Text.NatToString` | src/Home.jsx:100 | the count in a title prints as a non-empty string of decimal digits without a leading zero |
| `Text.DecimalRoundTrip` | src/Home.jsx:100 | reading the printed count back as a decimal number gives the count again |
| `Sessions.ChatTitleInjective` | src/Home.jsx:100 | titles made from different conversation counts differ |
| `Services.DetectLanguage` | src/Home.jsx:30-33 | the detected language is the best guess's name, or "Unknown" when the detector returns no guess |
| `Services.LanguageCode` | src/Home.jsx:135 | a target listed in `languageCodes` is sent with its code; any other target is sent as "en"; the code is always one of the table's codes |
| `Services.CodesAreTwoLetters` | src/Home.jsx:12-19 | every code sent to the translator is two lower-case letters |
| `Services.EnglishCodeIff` | src/Home.jsx:135 | the code is "en" exactly for English and for names outside the table |
| `Services.CodesDistinct` | src/Home.jsx:12-19 | different supported languages have different codes |
| `Messages.NewMessageIsBlank` | src/Home.jsx:82-89 | a new message holds the untrimmed text and the detected language, the "default" target, no translation, no summary, and is not loading |
| `Messages.LanguageChangeOutcome` | src/Home.jsx:130-147 | between the steps the message is loading with the new target and otherwise unchanged; afterwards it has the new target and is not loading; picking the detected language clears the translation and its language; any other pick stores the translator's output for the text and the target's code, labelled with the target; text, detected language and summary are unchanged |
| `Messages.LanguageChangeIdempotent` | src/Home.jsx:130-147 | choosing the same target twice ends in the same message as choosing it once |
| `Messages.SummaryOutcome` | src/Home.jsx:149-161 | between the steps the message is loading and otherwise unchanged; afterwards the summary is the summariser's output for the text, labelled "English", not loading; text, detected language and translation are unchanged |
| `Sessions.Submitted` | src/Home.jsx:77-111 | a submit keeps the synchronisation invariant |
| `Sessions.SubmitBlankIsNoop` | src/Home.jsx:79 | input made only of whitespace leaves messages, conversations and the active chat all unchanged |
| `Sessions.SubmitAppendsMessage` | src/Home.jsx:81-92 | other input appends exactly one message at the end, built from the input and the detector's verdict; earlier messages are unchanged |
| `Sessions.SubmitCreatesConversation` | src/Home.jsx:99-102 | with no active chat, exactly one conversation is added at the end, titled "Chat <old count + 1>" and holding the new messages; its index (the old count) becomes active; the earlier conversations are unchanged |
| `Sessions.SubmitStoresIntoActive` | src/Home.jsx:97-98 | with chat `k` active, the same chat stays active; the conversation list equals the old one with only chat `k` replaced, keeping its title and taking the new messages |
| `Sessions.Updated` | src/Home.jsx:113-128 | a message update keeps the synchronisation invariant |
| `Sessions.UpdateReplacesOne` | src/Home.jsx:113-128 | the list keeps its length, position `index` holds the new message and every other position is unchanged; the active index stays; only the active conversation changes, and only its messages; with no active chat no conversation changes |
| `Sessions.UpdateLastWins` | src/Home.jsx:130-147 | two updates of the same message leave the state the second alone would, so the loading step leaves no trace once its handler completes |
| `Sessions.NewChat` | src/Home.jsx:163-166 | after a new chat nothing is displayed, no chat is active, and the saved conversations are unchanged |
| `Sessions.Loaded` | src/Home.jsx:168-171 | after loading conversation `i`, chat `i` is active, the displayed messages are that conversation's messages, the saved conversations are unchanged, and the invariant holds |
| `Sessions.Deleted` | src/Home.jsx:173-186 | a deletion keeps the synchronisation invariant |
| `Sessions.WithoutRemovesIndex` | src/Home.jsx:175 | filtering out index `i` removes exactly the element at `i` and keeps the rest in order; it removes nothing when `i` is past the end |
| `Sessions.DeleteShiftsActive` | src/Home.jsx:173-186 | exactly conversation `i` is removed; deleting the active chat leaves no active chat and no messages; deleting one before it lowers the active index by exactly one and keeps the messages; otherwise, including with no active chat, the active index and the messages are unchanged |
| `Sessions.DeleteKeepsActiveConversation` | src/Home.jsx:180-182 | deleting any other conversation leaves the same conversation active, at its new index |
| `Sessions.TitleReusedAfterDelete` | src/Home.jsx:100 | with no chat active, deleting any saved chat but the last and then submitting gives a new last chat titled "Chat <old count>", right after the old last chat; when that chat was itself titled by the old count, the two titles coincide |
| `Sessions.FirstSubmitStartsChatOne` | src/Home.jsx:97-101 | the first submit of a fresh session saves "Chat 1" holding the one new message and makes it active |
| `Sessions.TranslateThenRevertScenario` | src/Home.jsx:77-147 | submitting text detected as English and picking French gives the translator's output for the text and code "fr", labelled French; picking English afterwards clears it; the saved "Chat 1" follows each step |
| `HomeComponent.Home.constructor` | src/Home.jsx:22-27 | the component starts with an empty input, no messages, no active chat and the saved conversations |
| `HomeComponent.Home.EditInput` | src/Home.jsx:294 | the input box holds what was typed |
| `HomeComponent.Home.HandleSubmit` | src/Home.jsx:77-111 | performs `Submitted` on the fields and keeps the invariant; the input box is cleared only when the input was not blank |
| `HomeComponent.Home.UpdateMessageInConversation` | src/Home.jsx:113-128 | performs `Updated` on the fields and keeps the invariant |
| `HomeComponent.Home.BeginLanguageChange` | src/Home.jsx:130-132 | stores the loading message with its new target and returns it as the snapshot |
| `HomeComponent.Home.CompleteLanguageChange` | src/Home.jsx:134-146 | stores the snapshot completed with the translation, or with the translation cleared |
| `HomeComponent.Home.HandleLanguageChange` | src/Home.jsx:130-147 | the whole change leaves exactly the completed message at `index` and keeps the invariant |
| `HomeComponent.Home.BeginSummarize` | src/Home.jsx:149-151 | stores the loading message and returns it as the snapshot |
| `HomeComponent.Home.CompleteSummarize` | src/Home.jsx:153-160 | stores the snapshot completed with the summary |
| `HomeComponent.Home.HandleSummarize` | src/Home.jsx:149-161 | the whole request leaves exactly the summarised message at `index` and keeps the invariant |
| `HomeComponent.Home.StartNewChat` | src/Home.jsx:163-166 | performs `NewChat` and establishes the invariant |
| `HomeComponent.Home.LoadConversation` | src/Home.jsx:168-171 | performs `Loaded` and establishes the invariant |
| `HomeComponent.Home.DeleteConversation` | src/Home.jsx:173-186 | performs `Deleted` and keeps the invariant |

## Left out

- Rendering: the JSX, the sidebar and message views, and the summarise button's visibility rule (longer than 150 characters and detected as English). The handler does not check that rule, so neither does the model.
- The delete button sits inside the element whose click loads the same conversation (src/Home.jsx:197-201), and nothing stops the click from reaching it. On the page, a delete click also runs `loadConversation(index)` against the list as it was before the deletion; the resulting state depends on how React orders the queued updates. What `Sessions.DeleteShiftsActive` promises then holds for `deleteConversation` alone, not for the whole click.
- Auto-scrolling the output pane: DOM manipulation.
- Storage: reading the saved chats with `JSON.parse` and writing them with `JSON.stringify` on every change. The constructor takes the saved list as a parameter. The persistence round trip and the exception on malformed data are not modelled.
- The translation and summarisation requests, with their fallbacks (the original text; "Summarization failed." / "Summarization error."). These are network I/O, so the handlers take the clients as function values (`Translator`, `Summarizer`). Also not modelled: the request always names English as the source language.
- The language-detection library: a foreign call. Only its empty-result fallback to "Unknown" is modelled; the library is the `Detector` parameter.
- React's asynchronous state batching, stale closures (the handlers read `messages` and `activeChat` as of their last render) and the last-write-wins race between overlapping language changes. Each step is an atomic transition on the current state.
- HomeComponent.Home.CompleteLanguageChange: requires `index` to be in range. In the source, if the list shrank during the await, the assignment would grow the array with holes.
- HomeComponent.Home.CompleteSummarize: requires `index` to be in range, for the same reason.
- Aliasing: lines 98 and 121 assign the messages of a conversation object that the previous conversation list shares. Conversations here are values.
- `languageCodes[newLang] || "en"` on a name inherited from `Object.prototype` (such as "toString"): the selector never offers one. The model treats every name outside the six as missing.
- JavaScript string lengths count UTF-16 units; Dafny strings count Unicode scalar values. No modelled handler depends on lengths.
