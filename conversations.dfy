/**
 * Conversation records and the pure rules the store applies to its list
 * (agent.js:117-156, agent.js:356-385).
 */
module Conversations {
  import opened Wrappers

  datatype MessageType = User | Ai

  datatype Message = Message(text: string, kind: MessageType, timestamp: string)

  /**
   * A stored conversation. The id is `None` for a conversation created while
   * no conversation was active (agent.js:361 copies a `null` id).
   */
  datatype Conversation = Conversation(
    id: Option<string>,
    title: string,
    preview: string,
    timestamp: string,
    messages: seq<Message>)

  const DefaultTitle: string := "New Conversation"
  const DefaultPreview: string := "Start a new conversation..."
  const Ellipsis: string := "..."
  const PreviewLimit: nat := 30
  const TitleLimit: nat := 20

  /** The record a new conversation starts as (agent.js:119-125, agent.js:360-366). */
  function NewConversation(id: Option<string>, now: string): (c: Conversation)
    ensures c.id == id && c.timestamp == now && c.messages == []
    ensures c.title == DefaultTitle && c.preview == DefaultPreview
  {
    Conversation(id, DefaultTitle, DefaultPreview, now, [])
  }

  /**
   * `s.length > limit ? s.substring(0, limit) + '...' : s`: at most `limit`
   * characters of `s`, followed by an ellipsis when some were cut.
   */
  function Truncate(s: string, limit: nat): (r: string)
    ensures |s| <= limit ==> r == s
    ensures |s| > limit ==> |r| == limit + |Ellipsis| && r[limit..] == Ellipsis
    ensures |r| <= limit + |Ellipsis|
    ensures r[..if |s| < limit then |s| else limit] == s[..if |s| < limit then |s| else limit]
  {
    if |s| > limit then s[..limit] + Ellipsis else s
  }

  /** A truncated text is the default title exactly when the text is. */
  lemma TruncatedTitleIsDefault(text: string)
    ensures Truncate(text, TitleLimit) == DefaultTitle <==> text == DefaultTitle
  {
  }

  /**
   * One message appended to one conversation (agent.js:371-381): the message
   * goes at the end; a user message sets the preview and, while the title is
   * still the default, the title; an assistant message touches nothing else.
   */
  function WithMessage(c: Conversation, text: string, kind: MessageType, now: string): (r: Conversation)
    ensures r.id == c.id && r.timestamp == c.timestamp
    ensures r.messages == c.messages + [Message(text, kind, now)]
    ensures kind == Ai ==> r.title == c.title && r.preview == c.preview
    ensures kind == User ==> r.preview == Truncate(text, PreviewLimit) && |r.preview| <= PreviewLimit + 3
    ensures c.title != DefaultTitle ==> r.title == c.title
    ensures kind == User && c.title == DefaultTitle ==> r.title == Truncate(text, TitleLimit)
  {
    var c' := c.(messages := c.messages + [Message(text, kind, now)]);
    if kind == User then
      c'.(preview := Truncate(text, PreviewLimit),
          title := if c.title == DefaultTitle then Truncate(text, TitleLimit) else c.title)
    else c'
  }

  /** `conversations.find(c => c.id === id)`, as the index of the first match. */
  function FirstIndex(cs: seq<Conversation>, id: Option<string>): (r: Option<nat>)
    ensures r.Some? ==> r.value < |cs| && cs[r.value].id == id
    ensures r.Some? ==> forall j :: 0 <= j < r.value ==> cs[j].id != id
    ensures r.None? ==> forall j :: 0 <= j < |cs| ==> cs[j].id != id
  {
    if cs == [] then None
    else if cs[0].id == id then Some(0)
    else match FirstIndex(cs[1..], id)
      case Some(k) => Some(k + 1)
      case None => None
  }

  /**
   * The list after `updateConversation(text, kind)` with current id `id`:
   * the first conversation with that id gets the message; when there is none,
   * a new conversation with that id is put first and gets it.
   */
  function Updated(cs: seq<Conversation>, id: Option<string>, text: string, kind: MessageType, now: string)
    : (r: seq<Conversation>)
    ensures |r| == |cs| + (if FirstIndex(cs, id).None? then 1 else 0)
    ensures FirstIndex(r, id).Some?
  {
    match FirstIndex(cs, id)
    case Some(k) =>
      var r := cs[k := WithMessage(cs[k], text, kind, now)];
      assert r[k].id == id;
      r
    case None => [WithMessage(NewConversation(id, now), text, kind, now)] + cs
  }

  /** `conversations.filter(conv => conv.id !== id)`. */
  function Without(cs: seq<Conversation>, id: string): (r: seq<Conversation>)
    ensures |r| <= |cs|
    ensures forall c :: c in r ==> c in cs && c.id != Some(id)
  {
    if cs == [] then []
    else if cs[0].id == Some(id) then Without(cs[1..], id)
    else [cs[0]] + Without(cs[1..], id)
  }

  predicate UniqueIds(cs: seq<Conversation>) {
    forall i, j :: 0 <= i < j < |cs| ==> cs[i].id != cs[j].id
  }

  function Ids(cs: seq<Conversation>): set<Option<string>> {
    set c | c in cs :: c.id
  }

  function MessageCount(cs: seq<Conversation>): nat {
    if cs == [] then 0 else |cs[0].messages| + MessageCount(cs[1..])
  }

  // ---------------------------------------------------------------- updateConversation

  /**
   * `Updated` adds a conversation only when none had the id, and then puts it
   * first; the message lands on the first conversation with the id, at the
   * end of its messages; every other conversation stays as it was, in order.
   */
  lemma UpdatedTouchesOnlyFirstMatch(
    cs: seq<Conversation>, id: Option<string>, text: string, kind: MessageType, now: string)
    ensures var r := Updated(cs, id, text, kind, now);
      match FirstIndex(cs, id)
      case Some(k) =>
        |r| == |cs| && r[k] == WithMessage(cs[k], text, kind, now) &&
        r[k].messages == cs[k].messages + [Message(text, kind, now)] &&
        FirstIndex(r, id) == Some(k) &&
        forall j :: 0 <= j < |cs| && j != k ==> r[j] == cs[j]
      case None =>
        |r| == |cs| + 1 && r[1..] == cs && FirstIndex(r, id) == Some(0) &&
        r[0] == WithMessage(NewConversation(id, now), text, kind, now) &&
        r[0].id == id && r[0].messages == [Message(text, kind, now)]
  {
  }

  lemma {:induction false} MessageCountUpdate(cs: seq<Conversation>, k: nat, c: Conversation)
    requires k < |cs|
    ensures MessageCount(cs[k := c]) + |cs[k].messages| == MessageCount(cs) + |c.messages|
  {
    if k > 0 {
      assert cs[k := c][1..] == cs[1..][k - 1 := c];
      MessageCountUpdate(cs[1..], k - 1, c);
    }
  }

  /** Each update stores exactly one more message in the whole list. */
  lemma UpdatedAddsOneMessage(cs: seq<Conversation>, id: Option<string>, text: string, kind: MessageType, now: string)
    ensures MessageCount(Updated(cs, id, text, kind, now)) == MessageCount(cs) + 1
  {
    match FirstIndex(cs, id)
    case Some(k) =>
      MessageCountUpdate(cs, k, WithMessage(cs[k], text, kind, now));
    case None =>
      var r := Updated(cs, id, text, kind, now);
      assert r[1..] == cs;
  }

  /** The set of ids grows by the current id and by nothing else. */
  lemma UpdatedIds(cs: seq<Conversation>, id: Option<string>, text: string, kind: MessageType, now: string)
    ensures Ids(Updated(cs, id, text, kind, now)) == Ids(cs) + {id}
  {
  }

  /** Updating keeps ids unique: a conversation is only created for an absent id. */
  lemma UpdatedKeepsUniqueIds(cs: seq<Conversation>, id: Option<string>, text: string, kind: MessageType, now: string)
    requires UniqueIds(cs)
    ensures UniqueIds(Updated(cs, id, text, kind, now))
  {
  }

  /** Putting a conversation first keeps ids unique exactly when its id is new. */
  lemma PrependKeepsUniqueIds(cs: seq<Conversation>, c: Conversation)
    requires UniqueIds(cs)
    ensures UniqueIds([c] + cs) <==> c.id !in Ids(cs)
  {
    if c.id in Ids(cs) {
      var d :| d in cs && d.id == c.id;
      var j :| 0 <= j < |cs| && cs[j] == d;
      assert ([c] + cs)[0].id == ([c] + cs)[j + 1].id;
    } else {
      forall j | 0 <= j < |cs| ensures cs[j].id != c.id {
        assert cs[j] in cs;
      }
    }
  }

  // ---------------------------------------------------------------- title and preview

  /** Appending messages one after another, as a run of `updateConversation` calls does. */
  function AppendAll(c: Conversation, ms: seq<Message>): Conversation
    decreases |ms|
  {
    if ms == [] then c
    else AppendAll(WithMessage(c, ms[0].text, ms[0].kind, ms[0].timestamp), ms[1..])
  }

  /** A run of `updateConversation` calls under one active id, one per message. */
  function UpdateAll(cs: seq<Conversation>, id: Option<string>, ms: seq<Message>): seq<Conversation>
    decreases |ms|
  {
    if ms == [] then cs
    else UpdateAll(Updated(cs, id, ms[0].text, ms[0].kind, ms[0].timestamp), id, ms[1..])
  }

  /**
   * Once a conversation has the active id, a run of updates leaves the list's
   * length and that conversation's position alone and does to it what
   * `AppendAll` does to one record.
   */
  lemma {:induction false} UpdateAllAppendsToFirstMatch(cs: seq<Conversation>, id: Option<string>, ms: seq<Message>, k: nat)
    requires FirstIndex(cs, id) == Some(k)
    ensures var r := UpdateAll(cs, id, ms);
      |r| == |cs| && FirstIndex(r, id) == Some(k) && r[k] == AppendAll(cs[k], ms) &&
      forall j :: 0 <= j < |cs| && j != k ==> r[j] == cs[j]
    decreases |ms|
  {
    if ms != [] {
      UpdatedTouchesOnlyFirstMatch(cs, id, ms[0].text, ms[0].kind, ms[0].timestamp);
      UpdateAllAppendsToFirstMatch(Updated(cs, id, ms[0].text, ms[0].kind, ms[0].timestamp), id, ms[1..], k);
    }
  }

  /**
   * In the store: once the active conversation's title differs from the
   * default, no run of updates changes it.
   */
  lemma StoreTitleSettled(cs: seq<Conversation>, id: Option<string>, ms: seq<Message>, k: nat)
    requires FirstIndex(cs, id) == Some(k) && cs[k].title != DefaultTitle
    ensures k < |UpdateAll(cs, id, ms)| && UpdateAll(cs, id, ms)[k].title == cs[k].title
  {
    UpdateAllAppendsToFirstMatch(cs, id, ms, k);
    TitleSettled(cs[k], ms);
  }

  /** Once the title differs from the default, no later message changes it. */
  lemma {:induction false} TitleSettled(c: Conversation, ms: seq<Message>)
    requires c.title != DefaultTitle
    ensures AppendAll(c, ms).title == c.title
    ensures AppendAll(c, ms).messages == c.messages + ms
    decreases |ms|
  {
    if ms != [] {
      var c' := WithMessage(c, ms[0].text, ms[0].kind, ms[0].timestamp);
      TitleSettled(c', ms[1..]);
      assert c.messages + ms == c'.messages + ms[1..];
    }
  }

  /**
   * The title comes from the first user message, whatever follows, unless
   * that message is itself the text "New Conversation": then the title is
   * still the default and the next user message derives it again.
   */
  lemma TitleFromFirstUserMessage(c: Conversation, ais: seq<Message>, first: Message, rest: seq<Message>)
    requires c.title == DefaultTitle
    requires forall m :: m in ais ==> m.kind == Ai
    requires first.kind == User && first.text != DefaultTitle
    ensures AppendAll(c, ais + [first] + rest).title == Truncate(first.text, TitleLimit)
  {
    AiOnlyKeepsDisplay(c, ais);
    var c1 := AppendAll(c, ais);
    AppendAllSplit(c, ais, [first] + rest);
    assert ais + [first] + rest == ais + ([first] + rest);
    var c2 := WithMessage(c1, first.text, first.kind, first.timestamp);
    assert AppendAll(c1, [first] + rest) == AppendAll(c2, rest);
    TruncatedTitleIsDefault(first.text);
    TitleSettled(c2, rest);
  }

  lemma {:induction false} AppendAllSplit(c: Conversation, a: seq<Message>, b: seq<Message>)
    ensures AppendAll(c, a + b) == AppendAll(AppendAll(c, a), b)
    decreases |a|
  {
    if a == [] {
      assert a + b == b;
    } else {
      assert (a + b)[0] == a[0];
      assert (a + b)[1..] == a[1..] + b;
      AppendAllSplit(WithMessage(c, a[0].text, a[0].kind, a[0].timestamp), a[1..], b);
    }
  }

  /** Assistant messages alone change neither title nor preview. */
  lemma {:induction false} AiOnlyKeepsDisplay(c: Conversation, ms: seq<Message>)
    requires forall m :: m in ms ==> m.kind == Ai
    ensures AppendAll(c, ms).title == c.title && AppendAll(c, ms).preview == c.preview
    decreases |ms|
  {
    if ms != [] {
      assert ms[0] in ms;
      assert forall m :: m in ms[1..] ==> m in ms;
      AiOnlyKeepsDisplay(WithMessage(c, ms[0].text, ms[0].kind, ms[0].timestamp), ms[1..]);
    }
  }

  // ---------------------------------------------------------------- deleteConversation

  /** Exactly the conversations with another id are kept (a `null` id is never equal). */
  lemma {:induction false} WithoutKeepsExactlyOthers(cs: seq<Conversation>, id: string)
    ensures forall c :: c in Without(cs, id) <==> c in cs && c.id != Some(id)
  {
    if cs != [] {
      WithoutKeepsExactlyOthers(cs[1..], id);
      assert forall c :: c in cs <==> c == cs[0] || c in cs[1..];
    }
  }

  /** Filtering keeps the original order: it works piece by piece. */
  lemma {:induction false} WithoutAppend(a: seq<Conversation>, b: seq<Conversation>, id: string)
    ensures Without(a + b, id) == Without(a, id) + Without(b, id)
  {
    if a == [] {
      assert a + b == b;
    } else {
      assert (a + b)[0] == a[0];
      assert (a + b)[1..] == a[1..] + b;
      WithoutAppend(a[1..], b, id);
    }
  }

  /** Deleting an id no conversation has leaves the list as it was. */
  lemma {:induction false} WithoutAbsent(cs: seq<Conversation>, id: string)
    requires forall j :: 0 <= j < |cs| ==> cs[j].id != Some(id)
    ensures Without(cs, id) == cs
  {
    if cs != [] {
      WithoutAbsent(cs[1..], id);
    }
  }

  /** With unique ids, deleting a present id removes just that one conversation. */
  lemma WithoutUnique(cs: seq<Conversation>, id: string, k: nat)
    requires UniqueIds(cs)
    requires k < |cs| && cs[k].id == Some(id)
    ensures Without(cs, id) == cs[..k] + cs[k + 1..]
  {
    assert cs == cs[..k] + ([cs[k]] + cs[k + 1..]);
    WithoutAppend(cs[..k], [cs[k]] + cs[k + 1..], id);
    WithoutAppend([cs[k]], cs[k + 1..], id);
    WithoutAbsent(cs[..k], id);
    WithoutAbsent(cs[k + 1..], id);
    assert Without([cs[k]], id) == [];
  }

  /** Filtering keeps ids unique. */
  lemma {:induction false} WithoutKeepsUniqueIds(cs: seq<Conversation>, id: string)
    requires UniqueIds(cs)
    ensures UniqueIds(Without(cs, id))
  {
    if cs != [] {
      assert UniqueIds(cs[1..]);
      WithoutKeepsUniqueIds(cs[1..], id);
      WithoutKeepsExactlyOthers(cs[1..], id);
      var rest := Without(cs[1..], id);
      if cs[0].id != Some(id) {
        forall j | 0 < j < |rest| + 1 ensures ([cs[0]] + rest)[j].id != cs[0].id {
          assert rest[j - 1] in cs[1..];
        }
      }
    }
  }
}
