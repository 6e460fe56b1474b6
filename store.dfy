/**
 * The module-level state of agent.js (`conversations`, `currentConversationId`,
 * agent.js:19-20) as an object, with the operations that change it.
 */
module Store {
  import opened Wrappers
  import opened Conversations
  import opened ConversationIds
  import opened WebhookResponse

  /** `!currentConversationId`: `null` and the empty string are both falsy. */
  predicate NoActiveId(id: Option<string>) {
    id.None? || id == Some("")
  }

  class ConversationStore {
    /** Most recent first. */
    var conversations: seq<Conversation>
    /** The active conversation; `None` is `null`. */
    var currentId: Option<string>

    /**
     * Start-up: `JSON.parse(localStorage.getItem('conversations')) || []`,
     * taken as whatever list was saved (nothing is filtered), or empty.
     */
    constructor (saved: Option<seq<Conversation>>)
      ensures conversations == (if saved.Some? then saved.value else [])
      ensures currentId == None
    {
      conversations := if saved.Some? then saved.value else [];
      currentId := None;
    }

    /**
     * `startNewChat` (agent.js:117-128): a default conversation with a fresh
     * id goes first and becomes the active one; the others follow unchanged.
     */
    method StartNewChat(stamp: nat, now: string)
      modifies this
      ensures currentId == Some(ConversationId(stamp))
      ensures conversations == [NewConversation(currentId, now)] + old(conversations)
    {
      currentId := Some(ConversationId(stamp));
      var c := NewConversation(currentId, now);
      conversations := [c] + conversations;
    }

    /**
     * `deleteConversation` once the user confirmed (agent.js:145-148): the
     * conversations with another id stay, in order; the active id is cleared
     * exactly when it was the deleted one.
     */
    method DeleteConversation(id: string)
      modifies this
      ensures conversations == Without(old(conversations), id)
      ensures currentId == if old(currentId) == Some(id) then None else old(currentId)
    {
      conversations := Without(conversations, id);
      if currentId == Some(id) {
        currentId := None;
      }
    }

    /**
     * `loadConversation` (agent.js:195): the id becomes active even when no
     * conversation has it. The sidebar passes the record's own id
     * (agent.js:186-188), so it is `None` for a conversation whose id is `null`.
     */
    method LoadConversation(id: Option<string>)
      modifies this
      ensures currentId == id
      ensures conversations == old(conversations)
    {
      currentId := id;
    }

    /**
     * `updateConversation` (agent.js:356-381): find the conversation with the
     * active id, creating it first when there is none, and append the message.
     */
    method UpdateConversation(text: string, kind: MessageType, now: string)
      modifies this
      ensures currentId == old(currentId)
      ensures conversations == Updated(old(conversations), currentId, text, kind, now)
    {
      var conversation := FirstIndex(conversations, currentId);
      if conversation.None? {
        conversations := [NewConversation(currentId, now)] + conversations;
        assert conversations[0].id == currentId;
      }
      var current := FirstIndex(conversations, currentId);
      var k := current.value;
      conversations := conversations[k := WithMessage(conversations[k], text, kind, now)];
    }

    /**
     * `sendMessage` (agent.js:222-258) with the input already trimmed: the
     * user message is stored under the active id as it is at that moment,
     * then a missing id is replaced by a fresh one (agent.js:263-265), then
     * the assistant's reply (or the apology) is stored under the new id.
     */
    method SendMessage(text: string, stamp: nat, outcome: WebhookOutcome, userAt: string, replyAt: string)
      modifies this
      ensures text == [] ==> conversations == old(conversations) && currentId == old(currentId)
      ensures text != [] ==>
        currentId == if NoActiveId(old(currentId)) then Some(ConversationId(stamp)) else old(currentId)
      ensures text != [] ==>
        conversations == Updated(Updated(old(conversations), old(currentId), text, User, userAt),
                                 currentId, ReplyText(outcome), Ai, replyAt)
    {
      if text == [] {
        return;
      }
      UpdateConversation(text, User, userAt);
      if NoActiveId(currentId) {
        currentId := Some(ConversationId(stamp));
      }
      var reply := ReplyText(outcome);
      UpdateConversation(reply, Ai, replyAt);
    }
  }

  /**
   * A first message sent with no active conversation (and no conversation
   * with a `null` id yet) splits the exchange: the user message goes into a
   * new conversation whose id is `null`, the reply into a second new
   * conversation with the fresh id, which is put before it.
   */
  lemma FirstSendSplitsExchange(
    cs: seq<Conversation>, text: string, reply: string, stamp: nat, userAt: string, replyAt: string)
    requires None !in Ids(cs) && Some(ConversationId(stamp)) !in Ids(cs)
    ensures var r := Updated(Updated(cs, None, text, User, userAt),
                             Some(ConversationId(stamp)), reply, Ai, replyAt);
      |r| == |cs| + 2 && r[2..] == cs &&
      r[1].id == None && r[1].messages == [Message(text, User, userAt)] &&
      r[0].id == Some(ConversationId(stamp)) && r[0].messages == [Message(reply, Ai, replyAt)] &&
      r[0].title == DefaultTitle
  {
  }

  /** A client run: a new chat, two user messages, then deleting an unknown and the active id. */
  method Scenario(stamp: nat, other: nat)
    requires stamp != other
  {
    var store := new ConversationStore(None);
    store.StartNewChat(stamp, "t0");
    var id := ConversationId(stamp);
    assert store.conversations == [NewConversation(Some(id), "t0")];
    store.UpdateConversation("Hello there, how are you today?", User, "t1");
    assert store.conversations[0].title == "Hello there, how are...";
    store.UpdateConversation("Second", User, "t2");
    assert store.conversations[0].title == "Hello there, how are...";
    assert store.conversations[0].preview == "Second";
    ConversationIdInjective(other, stamp);
    store.DeleteConversation(ConversationId(other));
    assert |store.conversations| == 1 && store.currentId == Some(id);
    store.DeleteConversation(id);
    assert store.conversations == [] && store.currentId == None;
  }
}
