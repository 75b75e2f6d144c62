/** The realtime callbacks of an open conversation
    (extension/contents/lib/conversation/websocket-handler.ts; the same
    callbacks are written out again in conversation-view.ts lines 1016-1116,
    whose typing callbacks ConversationView models on its own indicator).
    Each callback is one atomic step on the session and the rendered
    conversation; the calls it makes are returned. */
module WebSocketHandler {
  import opened Common
  import opened State
  import opened Reactions
  import opened ReadStatus

  /** A message element as the handler renders an incoming message: on the
      received side, without status icon and without reactions. */
  const ReceivedElement: MessageElement := MessageElement(false, None, None)

  /** The cache after an incoming message: appended to the conversation's
      entry, with the entry's timestamp refreshed, unless the entry already
      holds a message with that id or there is no entry. */
  function IncomingCache(cache: map<string, CacheEntry>, conversationId: string, m: Message, now: int): map<string, CacheEntry> {
    if conversationId !in cache || HasId(cache[conversationId].messages, m.id) then cache
    else cache[conversationId := cache[conversationId].(messages := cache[conversationId].messages + [m], timestamp := now)]
  }

  /** The rendering of an incoming message: a message already shown is
      skipped, otherwise it is shown once and marked read at once. */
  function IncomingDom(dom: map<string, MessageElement>, m: Message): (r: (map<string, MessageElement>, seq<Call>))
    ensures m.id in r.0
  {
    if m.id in dom then (dom, []) else (dom[m.id := ReceivedElement], [MarkMessagesAsRead([m.id])])
  }

  /** The handler's module-level `typingIndicatorEl`: the name shown by
      the indicator element it created, or none. Rendering another
      conversation does not reset it, so an indicator still recorded when
      the view was replaced keeps the next conversation's indicator from
      showing until a hide. */
  class TypingSlot {
    var indicator: Option<string>

    constructor()
      ensures indicator == None
    {
      indicator := None;
    }
  }

  /** `showTypingIndicator`: shows the indicator unless one is recorded. */
  method ShowTypingIndicator(slot: TypingSlot, typingUsername: string)
    modifies slot`indicator
    ensures slot.indicator == if old(slot.indicator).Some? then old(slot.indicator) else Some(typingUsername)
  {
    if slot.indicator.Some? {
      return;
    }
    slot.indicator := Some(typingUsername);
  }

  /** `hideTypingIndicator`: removes the indicator when one is recorded. */
  method HideTypingIndicator(slot: TypingSlot)
    modifies slot`indicator
    ensures slot.indicator == None
  {
    if slot.indicator.Some? {
      slot.indicator := None;
    }
  }

  /** `onMessage`: a message from anyone but the counterpart is ignored;
      otherwise the typing indicator goes, the cache takes the message once,
      and the message is rendered and marked read unless it is already
      shown. */
  method OnMessage(session: Session, dom: Dom, slot: TypingSlot, conversationId: string, otherUserId: string,
                   m: Message, now: int)
    returns (calls: seq<Call>)
    modifies session`messageCache, dom`messages, slot`indicator
    ensures m.senderId != otherUserId ==>
              calls == [] && session.messageCache == old(session.messageCache)
              && dom.messages == old(dom.messages) && slot.indicator == old(slot.indicator)
    ensures m.senderId == otherUserId ==>
              slot.indicator == None
              && session.messageCache == IncomingCache(old(session.messageCache), conversationId, m, now)
              && (dom.messages, calls) == IncomingDom(old(dom.messages), m)
  {
    if m.senderId != otherUserId {
      return [];
    }
    HideTypingIndicator(slot);
    if conversationId in session.messageCache {
      var cached := session.messageCache[conversationId];
      if !HasId(cached.messages, m.id) {
        session.messageCache := session.messageCache[conversationId := cached.(messages := cached.messages + [m], timestamp := now)];
      }
    }
    if m.id in dom.messages {
      return [];
    }
    dom.messages := dom.messages[m.id := ReceivedElement];
    calls := [MarkMessagesAsRead([m.id])];
  }

  /** The slot outlives a conversation: when the counterpart of one
      conversation is typing while another conversation is rendered, the
      next conversation's typing user is not shown until a hide. */
  method StaleIndicatorBlocksNextShow(first: string, next: string) returns (shown: Option<string>)
    ensures shown == Some(first)
  {
    var slot := new TypingSlot();
    OnTyping(slot, first);
    OnTyping(slot, next);
    shown := slot.indicator;
  }

  /** `onTyping` */
  method OnTyping(slot: TypingSlot, typingUsername: string)
    modifies slot`indicator
    ensures slot.indicator == if old(slot.indicator).Some? then old(slot.indicator) else Some(typingUsername)
  {
    ShowTypingIndicator(slot, typingUsername);
  }

  /** `onStopTyping` */
  method OnStopTyping(slot: TypingSlot)
    modifies slot`indicator
    ensures slot.indicator == None
  {
    HideTypingIndicator(slot);
  }

  /** The elements after a read receipt for `ids`: every rendered sent
      message among them that shows a status now shows "read". */
  function MarkedRead(els: map<string, MessageElement>, ids: seq<string>): map<string, MessageElement> {
    map k | k in els :: if k in ids && els[k].sent && els[k].status.Some? then els[k].(status := Some(Read)) else els[k]
  }

  /** `onMessagesRead(readMessageIds)`, one id after the other. */
  method OnMessagesRead(dom: Dom, ids: seq<string>)
    modifies dom`messages
    ensures dom.messages == MarkedRead(old(dom.messages), ids)
  {
    var i := 0;
    while i < |ids|
      invariant 0 <= i <= |ids|
      invariant dom.messages == MarkedRead(old(dom.messages), ids[..i])
    {
      var id := ids[i];
      if id in dom.messages && dom.messages[id].sent && dom.messages[id].status.Some? {
        dom.messages := dom.messages[id := dom.messages[id].(status := Some(Read))];
      }
      assert ids[..i + 1] == ids[..i] + [id];
      MarkedReadStep(old(dom.messages), ids[..i], id);
      i := i + 1;
    }
    assert ids[..i] == ids;
  }

  lemma MarkedReadStep(els: map<string, MessageElement>, ids: seq<string>, id: string)
    ensures var before := MarkedRead(els, ids);
            (MarkedRead(els, ids + [id])
             == if id in before && before[id].sent && before[id].status.Some? then before[id := before[id].(status := Some(Read))] else before)
  {
    var before := MarkedRead(els, ids);
    var after := if id in before && before[id].sent && before[id].status.Some? then before[id := before[id].(status := Some(Read))] else before;
    assert forall k :: k in ids + [id] <==> k in ids || k == id;
    assert MarkedRead(els, ids + [id]).Keys == after.Keys;
  }

  /** `onReaction(type, messageId, emoji, reactionUserId, reactionUsername)`. */
  method OnReaction(session: Session, dom: Dom, added: bool, messageId: string, emoji: string,
                    reactionUserId: string, reactionUsername: string, currentUserId: Option<string>, now: int)
    modifies dom`messages, session`messageCache
    ensures Scene(dom.messages, session.messageCache)
         == ApplyReaction(Scene(old(dom.messages), old(session.messageCache)), session.currentConversationId,
                          ReactionEvent(messageId, emoji, reactionUserId, reactionUsername, added), currentUserId, now)
  {
    UpdateReactionInDOM(session, dom, ReactionEvent(messageId, emoji, reactionUserId, reactionUsername, added), currentUserId, now);
  }

  /** The rest of `setupWebSocketHandler` once `joinConversation` has
      answered: `joined` is the subscription's cleanup handle, or None when
      the join threw. Only a successful join stores the cleanup and
      schedules the delayed read of the initial unread messages. */
  method SetupWebSocketHandler(session: Session, scheduler: ReadScheduler, conversationId: string,
                               unreadMessageIds: seq<string>, joined: Option<nat>)
    requires scheduler.Valid()
    modifies session`wsCleanup, scheduler
    ensures scheduler.Valid()
    ensures joined.Some? ==>
              session.wsCleanup == joined && scheduler.Current() == Slot(Some(conversationId), Some(conversationId), unreadMessageIds)
    ensures joined.None? ==> session.wsCleanup == old(session.wsCleanup) && scheduler.Current() == old(scheduler.Current())
  {
    if joined.None? {
      return;
    }
    session.wsCleanup := joined;
    scheduler.Schedule(conversationId, unreadMessageIds);
  }

  // ---------------------------------------------------------------------------
  // Properties

  /** The cache holds each incoming message at most once: an entry without
      repeated ids keeps that property, ends up holding the message, keeps
      every earlier message in place, and has its timestamp refreshed only
      when the message was appended. */
  lemma IncomingKeepsIdsUnique(cache: map<string, CacheEntry>, conversationId: string, m: Message, now: int)
    requires conversationId in cache && UniqueIds(cache[conversationId].messages)
    ensures var after := IncomingCache(cache, conversationId, m, now)[conversationId];
            var before := cache[conversationId];
            UniqueIds(after.messages)
            && HasId(after.messages, m.id)
            && |before.messages| <= |after.messages| <= |before.messages| + 1
            && after.messages[..|before.messages|] == before.messages
            && (after.timestamp != before.timestamp ==> after.messages == before.messages + [m])
  {
    var before := cache[conversationId];
    if !HasId(before.messages, m.id) {
      var ms := before.messages + [m];
      assert ms[|before.messages|].id == m.id;
      assert ms[..|before.messages|] == before.messages;
    }
  }

  /** A message delivered twice is taken, rendered and marked read once:
      the second delivery changes nothing and makes no call. */
  lemma SecondDeliveryChangesNothing(cache: map<string, CacheEntry>, dom: map<string, MessageElement>,
                                     conversationId: string, m: Message, now: int, later: int)
    ensures var once := IncomingCache(cache, conversationId, m, now);
            IncomingCache(once, conversationId, m, later) == once
    ensures var d := IncomingDom(dom, m).0;
            IncomingDom(d, m) == (d, [])
  {
    var once := IncomingCache(cache, conversationId, m, now);
    if conversationId in cache && !HasId(cache[conversationId].messages, m.id) {
      var ms := cache[conversationId].messages + [m];
      assert ms[|ms| - 1].id == m.id;
    }
  }

  /** A read receipt changes only the status of rendered sent messages that
      show one, and only to "read": received messages and every other
      field are untouched, ids outside the receipt are untouched, and a
      repeated receipt changes nothing more. */
  lemma ReadReceiptOnlyTouchesSent(els: map<string, MessageElement>, ids: seq<string>)
    ensures var after := MarkedRead(els, ids);
            after.Keys == els.Keys
            && (forall k :: k in els && after[k] != els[k] ==>
                  k in ids && els[k].sent && els[k].status.Some? && after[k] == els[k].(status := Some(Read)))
            && (forall k :: k in els && !els[k].sent ==> after[k] == els[k])
            && MarkedRead(after, ids) == after
  {
  }
}
