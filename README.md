# Chat widget conversation store, message formatter and webhook reply extraction

A model of the logic in `agent.js` of a browser chat widget. The widget keeps a list of
conversations in the page. It forwards each user message to a remote webhook and stores
the reply. The model covers three parts of that file:

- **The conversation store.** This is the module-level state `conversations` and
  `currentConversationId`. Here it is the class `Store.ConversationStore`, with a
  `seq<Conversation>` field and an `Option<string>` current id (`None` is `null`).
  Its methods are `startNewChat`, `deleteConversation` (the confirmed branch),
  `loadConversation`'s id assignment (which takes the record's own id, `null` included),
  `updateConversation`, and the order in which `sendMessage` uses them. Each method's postcondition ties the new state to a pure
  function of the old one. Those functions are in module `Conversations`: `Updated`,
  `Without`, `WithMessage`, `FirstIndex` and `Truncate`. The lemmas beside them state
  what the code promises: ordering, "nothing else changes", the preview and title
  bounds, the title rule, and unique ids. The title rule is proved for one record
  (`AppendAll`). `UpdateAllAppendsToFirstMatch` carries it over to a run of updates of the
  store's list (`UpdateAll`).
- **The formatter.** `formatMessage` replaces every newline with `<br>` and does nothing
  else. It is modelled in `MessageFormatter`.
- **The reply extraction.** This is `sendToWebhook`'s fallback chain over the parsed
  JSON body, and the text `sendMessage` finally stores. It is modelled in
  `WebhookResponse`.

`Store.Scenario` is a worked example. It is a client run through the store (a new chat, two
user messages, two deletes) whose assertions show what callers can conclude from the method
contracts alone. It models no function of `agent.js`.

Modules: `Wrappers` (Option, Result), `ConversationIds` (the `'conversation-' + Date.now()`
id), `MessageFormatter`, `WebhookResponse`, `Conversations`, `Store`.

Behaviours the model keeps exactly as the code has them:

- The auto-title is the first 20 characters plus `...`. It is derived only while the
  title is still `New Conversation`. If a first user message is literally
  `New Conversation`, the title stays the default, so the next user message derives it
  again (`Conversations.TitleFromFirstUserMessage` needs `first.text != DefaultTitle`).
- `sendMessage` stores the user message before `sendToWebhook` gives a missing id a value.
  With no active conversation, the user message goes into a conversation whose id is
  `null`. The reply goes into a second, new conversation that is put before it
  (`Store.FirstSendSplitsExchange`). A later send with no active conversation appends to
  that same `null`-id conversation, because `find` matches `null` against `null`.
- `deleteConversation` is only reached with a string. The delete button passes the id
  through a template string (agent.js:181). So `Without` never removes a conversation
  whose id is `null` (`Conversations.WithoutKeepsExactlyOthers`).
- A `null` reply body makes `responseData.output` throw. `sendMessage` catches that
  error and stores the apology. A truthy `output` that is not a string is returned
  unconverted; `formatMessage` then throws on it, and the apology is stored as well
  (`WebhookResponse.ReplyText`).
- Nothing is filtered when the saved list is loaded. The constructor takes the saved
  list of records as it is.
- The formatter does not strip markdown, build lists or create links. The title is not
  built from words.

## Model

| member | source | states |
|---|---|---|
| `ConversationIds.ConversationId` | agent.js:118 | a new id is `conversation-` followed by exactly `Decimal(stamp)`, the decimal digits of the timestamp |
| `ConversationIds.DecimalRoundTrip` | agent.js:118 | reading the digits written for a timestamp gives the timestamp back |
| `ConversationIds.ConversationIdInjective` | agent.js:264 | ids taken at different milliseconds are different |
| `MessageFormatter.FormatMessage` | agent.js:419-422 | output has no newline; its length is the input length plus 3 per newline; input without a newline comes back unchanged |
| `MessageFormatter.FormatAppend` | agent.js:421 | the replacement works piece by piece: formatting a concatenation formats each part |
| `MessageFormatter.FormatAt` | agent.js:421 | each non-newline character is copied to its shifted position; each newline becomes exactly `<br>` there |
| `MessageFormatter.FormatIdempotent` | agent.js:421 | formatting formatted text changes nothing |
| `WebhookResponse.ExtractResponse` | agent.js:290-306 | array: first item's truthy `output`, else the "couldn't generate" text; object: truthy `output`, else the "processing" text; string: itself; boolean or number: the "processing" text; fails exactly on `null` |
| `WebhookResponse.ExtractedIsStringOrTruthyOutput` | agent.js:292-304 | every extracted value is a string or a truthy `output` taken from the body |
| `WebhookResponse.ReplyText` | agent.js:240-253 | the apology is stored for a transport error, a non-OK status, a body that is not JSON, a `null` body, and an extracted value that is not a string; an extracted string is stored as it is |
| `WebhookResponse.ReplyTextOrigin` | agent.js:282-306 | the stored reply is a fixed text, the string body, or a non-empty string `output` of the body |
| `Conversations.Truncate` | agent.js:375 | text within the limit is kept; longer text is cut to the limit and gets `...`; at most limit + 3 characters; the kept prefix is the text's |
| `Conversations.TruncatedTitleIsDefault` | agent.js:378-379 | a derived title equals `New Conversation` exactly when the message text does |
| `Conversations.WithMessage` | agent.js:370-381 | one message is appended at the end; id and timestamp are kept; an assistant message keeps title and preview; a user message sets the preview (at most 33 characters) and replaces only the default title |
| `Conversations.NewConversation` | agent.js:119-125 | a new record has the given id and timestamp, the default title and preview, and no messages (the same record as agent.js:360-366) |
| `Conversations.Updated` | agent.js:356-371 | the list grows by one exactly when no conversation had the id, and afterwards one has it; `UpdatedTouchesOnlyFirstMatch` below states the rest: the touched or created record becomes `WithMessage` of the old or the default record, and nothing else changes |
| `Conversations.Without` | agent.js:145 | it is never longer than the input, and it keeps only conversations of the input whose id differs from the deleted one; the lemmas `WithoutKeepsExactlyOthers`, `WithoutAppend` and `WithoutAbsent` below add the converse, the order and the unchanged case |
| `Conversations.FirstIndex` | agent.js:357 | the index of the first conversation with the id, or none when no conversation has it |
| `Conversations.UpdatedTouchesOnlyFirstMatch` | agent.js:357-381 | a conversation is prepended only when none has the id, and it is then `WithMessage` of the default record; otherwise the first one with the id becomes `WithMessage` of itself, which fixes its message, preview and title; all others stay unchanged and in order |
| `Conversations.UpdatedAddsOneMessage` | agent.js:371 | each update stores exactly one more message in the whole list |
| `Conversations.UpdatedIds` | agent.js:358-367 | after an update the ids are the old ids plus the current one |
| `Conversations.UpdatedKeepsUniqueIds` | agent.js:357-368 | updating never creates a second conversation with an existing id |
| `Conversations.PrependKeepsUniqueIds` | agent.js:127 | prepending a new chat keeps ids unique exactly when its id is new |
| `Conversations.UpdateAllAppendsToFirstMatch` | agent.js:356-381 | once a conversation has the active id, a run of updates keeps the list length and that conversation's position and does to it exactly what `AppendAll` does to one record; the others stay unchanged |
| `Conversations.StoreTitleSettled` | agent.js:378-379 | in the store's list, once the active conversation's title differs from the default, no run of updates changes it |
| `Conversations.TitleSettled` | agent.js:378-379 | once the title differs from the default, no later message changes it |
| `Conversations.TitleFromFirstUserMessage` | agent.js:374-380 | after assistant messages, a user message (not itself the default title) fixes the title to its truncation for good |
| `Conversations.AiOnlyKeepsDisplay` | agent.js:374 | assistant messages alone never change title or preview |
| `Conversations.WithoutKeepsExactlyOthers` | agent.js:145 | the filtered list holds exactly the conversations whose id differs from the deleted one |
| `Conversations.WithoutAppend` | agent.js:145 | filtering keeps the original order |
| `Conversations.WithoutAbsent` | agent.js:145 | deleting an id no conversation has leaves the list unchanged |
| `Conversations.WithoutUnique` | agent.js:145 | with unique ids, deleting a present id removes exactly that one conversation |
| `Conversations.WithoutKeepsUniqueIds` | agent.js:145 | filtering keeps ids unique |
| `Store.ConversationStore.constructor` | agent.js:19-20 | the saved list is taken unfiltered (empty when nothing was saved); no conversation is active |
| `Store.ConversationStore.StartNewChat` | agent.js:117-128 | a default conversation with the fresh id goes first and becomes active; the old list follows unchanged |
| `Store.ConversationStore.DeleteConversation` | agent.js:141-156 | the list becomes the filtered list; the active id is cleared exactly when it was the deleted id |
| `Store.ConversationStore.LoadConversation` | agent.js:194-198 | the given id, `null` included, becomes active even when no conversation has it; the list is unchanged |
| `Store.ConversationStore.UpdateConversation` | agent.js:356-385 | the list becomes `Updated` of the old list under the active id; the active id is unchanged |
| `Store.ConversationStore.SendMessage` | agent.js:222-265 | empty input changes nothing; else the user message is stored under the old id, a missing id is replaced by a fresh one, and the reply is stored under the new id |
| `Store.FirstSendSplitsExchange` | agent.js:235-265 | with no active id, the user message and the reply end up in two new conversations, the `null`-id one second |

## Left out

- DOM rendering and UI state are not modelled: `loadConversations`, `addMessageToChat`,
  the typing indicator, the sidebar, the screen size, the textarea, scrolling and key
  handling. They only change the page.
- Speech recognition (agent.js:63-114) is not modelled. It is a browser API driven by
  callbacks.
- `fetch`, `async`/`await` and the `isWaitingForResponse` busy flag are not modelled.
  These are network I/O and asynchrony. The network's result is the parameter
  `outcome: WebhookOutcome`. The request body that is sent is not modelled.
- `localStorage`, `JSON.stringify` and `JSON.parse` are not modelled. `saveConversations`
  is a no-op here, and the saved list is a constructor parameter.
- `Date.now()` and `new Date().toISOString()` are non-deterministic, so they are
  parameters (`stamp`, `now`). The two clock readings inside one `updateConversation`
  call (agent.js:364, agent.js:371) are taken as one value.
- `confirm()` in `deleteConversation` is not modelled. Only the confirmed branch is.
- Theme toggling (agent.js:388-393, agent.js:432-434) is not modelled. It is a UI
  preference.
- `String.prototype.trim` in `sendMessage` (agent.js:223) is not modelled.
  `Store.ConversationStore.SendMessage` receives the trimmed text.
- Lengths are counted in Unicode characters. JavaScript counts UTF-16 code units, so the
  cut points at 20 and 30 differ for text with characters outside the Basic Multilingual
  Plane.
- `ConversationIds.Decimal` writes plain decimal digits. JavaScript switches to exponent
  notation from 10^21 on, and the model does not follow that.
- Store.ConversationStore.SendMessage: runs as one step, but `sendMessage` awaits the
  webhook (agent.js:242) and reads `currentConversationId` again only afterwards
  (agent.js:245, agent.js:253). A New Chat, a sidebar click or a delete during that wait
  sends the reply to another conversation, or re-creates a deleted one. The model's "the
  reply is stored under the new id" holds only when no such event comes in between.
- Store.ConversationStore.constructor: the saved records are assumed to have all five
  fields, each of the right type. agent.js:20 keeps whatever it parses, and a record
  without `messages` would make `currentConv.messages.push` throw (agent.js:371). Such
  records cannot be written as a `Conversation`, so that failure is not modelled.
- Conversation records are values in a sequence. The in-place updates of record objects
  (`messages.push`, the `preview` and `title` assignments) become reassignments of the
  list. No other reference to those objects is read.
