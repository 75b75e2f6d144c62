/** The conversation view (extension/contents/lib/conversation-view.ts,
    `renderConversationViewInto` and its helpers): the choice between the
    cached messages and a fetch, the collection of unread ids, backward
    pagination with its in-flight flag, the optimistic send through a
    `pending-<n>` placeholder, typing notifications, reaction-badge clicks
    and the list-cache unread reset.

    `renderConversationViewInto` awaits four times; each piece between two
    awaits is one method here, and the value each await produced is a
    parameter (None when the call threw). The local variables its closures
    share (`hasMoreMessages`, `isLoadingMore`, the conversation and the
    resolved user id) are the fields of a ConversationController. */
module ConversationView {
  import opened Common
  import opened State
  import opened Reactions
  import opened MessageRender
  import WebSocketHandler

  // ---------------------------------------------------------------------------
  // Instant display from the cache

  /** The cache entry the view may show at once: it is looked up only when
      an existing conversation id is given. */
  function CachedFor(cache: map<string, CacheEntry>, existingConversationId: Option<string>): Option<CacheEntry> {
    if Truthy(existingConversationId) && existingConversationId.value in cache
    then Some(cache[existingConversationId.value]) else None
  }

  /** `canUseInstantly`: a non-empty cached entry and a known user id. */
  predicate CanUseInstantly(cached: Option<CacheEntry>, currentUserId: Option<string>) {
    cached.Some? && |cached.value.messages| > 0 && Truthy(currentUserId)
  }

  /** Instant display needs exactly a known conversation with cached
      messages and a known user, whatever the entry's age and whether more
      messages exist. */
  lemma InstantDisplayCondition(cache: map<string, CacheEntry>, existingConversationId: Option<string>,
                                currentUserId: Option<string>, timestamp: int, hasMore: Option<bool>)
    ensures CanUseInstantly(CachedFor(cache, existingConversationId), currentUserId)
        <==> (Truthy(existingConversationId) && existingConversationId.value in cache
              && |cache[existingConversationId.value].messages| > 0 && Truthy(currentUserId))
    ensures existingConversationId.Some? && existingConversationId.value in cache ==>
              var id := existingConversationId.value;
              var aged := cache[id := cache[id].(timestamp := timestamp, hasMore := hasMore)];
              (CanUseInstantly(CachedFor(aged, existingConversationId), currentUserId)
               <==> CanUseInstantly(CachedFor(cache, existingConversationId), currentUserId))
  {
  }

  /** The synchronous start of `renderConversationViewInto`: the view and
      the counterpart are recorded, the list's global listener is removed,
      and the view shows the cached messages (sides decided by the signed-in
      user's id) with the input enabled exactly when instant display is
      possible, or a loading state with the input disabled. */
  method OpenConversationView(session: Session, dom: Dom, username: string, displayName: string, avatar: string,
                              existingConversationId: Option<string>)
    returns (cached: Option<CacheEntry>, instant: bool)
    modifies session`currentView, session`currentOtherUser, session`globalListener, dom
    ensures session.currentView == ConversationView
    ensures session.currentOtherUser == Some(OtherUser(username, displayName, avatar))
    ensures !session.globalListener
    ensures cached == CachedFor(session.messageCache, existingConversationId)
    ensures instant == CanUseInstantly(cached, session.currentUserId)
    ensures dom.inputEnabled == instant
    ensures dom.pending == map[] && dom.typingIndicator == None
    ensures dom.messages
         == if instant then RenderAll(cached.value.messages, SentBy(session.currentUserId.value), session.currentUserId)
            else map[]
  {
    session.currentView := ConversationView;
    session.currentOtherUser := Some(OtherUser(username, displayName, avatar));
    session.globalListener := false;
    cached := CachedFor(session.messageCache, existingConversationId);
    instant := CanUseInstantly(cached, session.currentUserId);
    if instant {
      dom.messages := RenderAll(cached.value.messages, SentBy(session.currentUserId.value), session.currentUserId);
    } else {
      dom.messages := map[];
    }
    dom.pending := map[];
    dom.typingIndicator := None;
    dom.inputEnabled := instant;
  }

  /** After `getCurrentUserInfo()` when no user id was known: the id it
      gave, with an empty one read as none, becomes the session's. */
  method UserResolved(session: Session, answer: Option<string>) returns (userId: Option<string>)
    modifies session`currentUserId
    ensures Truthy(old(session.currentUserId)) ==>
              userId == old(session.currentUserId) && session.currentUserId == old(session.currentUserId)
    ensures !Truthy(old(session.currentUserId)) ==>
              userId == (if Truthy(answer) then answer else None) && session.currentUserId == userId
  {
    userId := session.currentUserId;
    if !Truthy(userId) {
      userId := if Truthy(answer) then answer else None;
      session.currentUserId := userId;
    }
  }

  // ---------------------------------------------------------------------------
  // Unread ids

  /** A message the user has not read: from the counterpart, no `read_at`. */
  predicate IsUnread(m: Message, otherUserId: string) {
    m.senderId == otherUserId && !Truthy(m.readAt)
  }

  /** The ids of the unread messages, in message order. */
  function UnreadIds(ms: seq<Message>, otherUserId: string): seq<string>
    decreases |ms|
  {
    if ms == [] then []
    else UnreadIds(ms[..|ms| - 1], otherUserId)
         + (if IsUnread(ms[|ms| - 1], otherUserId) then [ms[|ms| - 1].id] else [])
  }

  /** The `unreadMessageIds.push` loop, over the fetched or the cached list. */
  method CollectUnread(ms: seq<Message>, otherUserId: string) returns (ids: seq<string>)
    ensures ids == UnreadIds(ms, otherUserId)
  {
    ids := [];
    for i := 0 to |ms|
      invariant ids == UnreadIds(ms[..i], otherUserId)
    {
      if ms[i].senderId == otherUserId && !Truthy(ms[i].readAt) {
        ids := ids + [ms[i].id];
      }
      assert ms[..i + 1][..i] == ms[..i];
    }
    assert ms[..|ms|] == ms;
  }

  /** An id is collected exactly when some message with it is unread. */
  lemma {:induction false} UnreadIdsMeaning(ms: seq<Message>, otherUserId: string, id: string)
    ensures id in UnreadIds(ms, otherUserId)
        <==> exists k :: 0 <= k < |ms| && ms[k].id == id && IsUnread(ms[k], otherUserId)
    decreases |ms|
  {
    if ms != [] {
      var init := ms[..|ms| - 1];
      UnreadIdsMeaning(init, otherUserId, id);
      if exists k :: 0 <= k < |init| && init[k].id == id && IsUnread(init[k], otherUserId) {
        var k :| 0 <= k < |init| && init[k].id == id && IsUnread(init[k], otherUserId);
        assert ms[k] == init[k];
      }
      if exists k :: 0 <= k < |ms| && ms[k].id == id && IsUnread(ms[k], otherUserId) {
        var k :| 0 <= k < |ms| && ms[k].id == id && IsUnread(ms[k], otherUserId);
        if k < |init| {
          assert init[k] == ms[k];
        }
      }
    }
  }

  /** Collecting over two lists one after the other collects the first
      list's ids and then the second's: the ids come in message order. */
  lemma {:induction false} UnreadIdsConcat(a: seq<Message>, b: seq<Message>, otherUserId: string)
    ensures UnreadIds(a + b, otherUserId) == UnreadIds(a, otherUserId) + UnreadIds(b, otherUserId)
    ensures |UnreadIds(a, otherUserId)| <= |a|
    decreases |b|
  {
    if b == [] {
      assert a + b == a;
      UnreadIdsBound(a, otherUserId);
    } else {
      var binit := b[..|b| - 1];
      UnreadIdsConcat(a, binit, otherUserId);
      assert (a + b)[..|a + b| - 1] == a + binit;
      assert (a + b)[|a + b| - 1] == b[|b| - 1];
    }
  }

  lemma {:induction false} UnreadIdsBound(ms: seq<Message>, otherUserId: string)
    ensures |UnreadIds(ms, otherUserId)| <= |ms|
    decreases |ms|
  {
    if ms != [] {
      UnreadIdsBound(ms[..|ms| - 1], otherUserId);
    }
  }

  // ---------------------------------------------------------------------------
  // The controller

  /** The cache after a fetched page: the conversation's entry replaced by
      the page, stamped now. */
  function StorePage(cache: map<string, CacheEntry>, conversationId: string, page: Page, now: int): map<string, CacheEntry> {
    cache[conversationId := CacheEntry(page.messages, Some(page.hasMore), now)]
  }

  /** The cache after an older page: prepended to the conversation's entry,
      which takes the page's `hasMore` and is stamped now; without an entry
      the cache is left alone. */
  function PrependOlder(cache: map<string, CacheEntry>, conversationId: string, page: Page, now: int): map<string, CacheEntry> {
    if conversationId in cache
    then cache[conversationId := CacheEntry(page.messages + cache[conversationId].messages, Some(page.hasMore), now)]
    else cache
  }

  /** An older page goes before the cached messages, which stay as they
      were, in order, after it; no other conversation is touched. */
  lemma PrependKeepsNewer(cache: map<string, CacheEntry>, conversationId: string, page: Page, now: int)
    requires conversationId in cache
    ensures var after := PrependOlder(cache, conversationId, page, now);
            var msgs := after[conversationId].messages;
            after.Keys == cache.Keys
            && |msgs| == |page.messages| + |cache[conversationId].messages|
            && msgs[..|page.messages|] == page.messages
            && msgs[|page.messages|..] == cache[conversationId].messages
            && (forall c :: c in cache && c != conversationId ==> after[c] == cache[c])
  {
  }

  class ConversationController {
    var conversationId: string
    var otherUserId: string
    var userId: Option<string>
    var hasMoreMessages: bool
    var isLoadingMore: bool

    /** The conversation is known: it becomes the session's current one,
        and `hasMoreMessages` starts at `cached?.hasMore ?? false`. */
    constructor (session: Session, conversationId: string, otherUserId: string, userId: Option<string>,
                 cached: Option<CacheEntry>)
      modifies session`currentConversationId
      ensures session.currentConversationId == Some(conversationId)
      ensures this.conversationId == conversationId && this.otherUserId == otherUserId && this.userId == userId
      ensures hasMoreMessages == (cached.Some? && cached.value.hasMore == Some(true))
      ensures !isLoadingMore
    {
      this.conversationId := conversationId;
      this.otherUserId := otherUserId;
      this.userId := userId;
      hasMoreMessages := if cached.Some? then cached.value.hasMore.GetOr(false) else false;
      isLoadingMore := false;
      new;
      session.currentConversationId := Some(conversationId);
    }

    /** The messages of the opened conversation. Without instant display the
        fetched page (None when the fetch threw, which ends the opening
        there) replaces the cache entry and is rendered with the sides
        decided by the counterpart's id; with instant display the cached
        list stays shown and a background refresh is requested. Either way
        the unread ids are collected from the list in use and the input is
        enabled. */
    method LoadInitial(session: Session, dom: Dom, instant: bool, cached: Option<CacheEntry>, fetched: Option<Page>, now: int)
      returns (unread: seq<string>, calls: seq<Call>, proceeds: bool)
      requires instant ==> cached.Some?
      modifies this`hasMoreMessages, session`messageCache, dom`messages, dom`inputEnabled
      ensures !instant && fetched.None? ==>
                !proceeds && unread == [] && calls == []
                && hasMoreMessages == old(hasMoreMessages) && session.messageCache == old(session.messageCache)
                && dom.messages == old(dom.messages) && dom.inputEnabled == old(dom.inputEnabled)
      ensures !instant && fetched.Some? ==>
                proceeds && calls == [] && dom.inputEnabled
                && hasMoreMessages == fetched.value.hasMore
                && session.messageCache == StorePage(old(session.messageCache), conversationId, fetched.value, now)
                && dom.messages == RenderAll(fetched.value.messages, NotFrom(otherUserId), userId)
                && unread == UnreadIds(fetched.value.messages, otherUserId)
      ensures instant ==>
                proceeds && dom.inputEnabled && calls == [FetchMessages(conversationId, None)]
                && hasMoreMessages == old(hasMoreMessages) && session.messageCache == old(session.messageCache)
                && dom.messages == old(dom.messages)
                && unread == UnreadIds(cached.value.messages, otherUserId)
    {
      calls := [];
      if !instant {
        if fetched.None? {
          return [], [], false;
        }
        var page := fetched.value;
        hasMoreMessages := page.hasMore;
        session.messageCache := session.messageCache[conversationId := CacheEntry(page.messages, Some(page.hasMore), now)];
        dom.messages := RenderAll(page.messages, NotFrom(otherUserId), userId);
        unread := CollectUnread(page.messages, otherUserId);
      } else {
        unread := CollectUnread(cached.value.messages, otherUserId);
        calls := [FetchMessages(conversationId, None)];
      }
      dom.inputEnabled := true;
      proceeds := true;
    }

    /** The background refresh answered: the entry is replaced and
        `hasMoreMessages` follows the fresh page. (A refresh that throws
        changes nothing.) */
    method BackgroundRefreshed(session: Session, page: Page, now: int)
      modifies this`hasMoreMessages, session`messageCache
      ensures hasMoreMessages == page.hasMore
      ensures session.messageCache == StorePage(old(session.messageCache), conversationId, page, now)
    {
      hasMoreMessages := page.hasMore;
      session.messageCache := session.messageCache[conversationId := CacheEntry(page.messages, Some(page.hasMore), now)];
    }

    /** The start of `loadMoreMessages`, given the id of the first message
        element: nothing while a load is in flight, when there is nothing
        more, or without an oldest id; otherwise the flag is raised and the
        page before that id is requested. */
    method BeginLoadMore(oldestMessageId: Option<string>) returns (request: Option<Call>)
      modifies this`isLoadingMore
      ensures old(isLoadingMore) || !hasMoreMessages || !Truthy(oldestMessageId) ==>
                request.None? && isLoadingMore == old(isLoadingMore)
      ensures !old(isLoadingMore) && hasMoreMessages && Truthy(oldestMessageId) ==>
                request == Some(FetchMessages(conversationId, oldestMessageId)) && isLoadingMore
    {
      if isLoadingMore || !hasMoreMessages {
        return None;
      }
      if !Truthy(oldestMessageId) {
        return None;
      }
      isLoadingMore := true;
      request := Some(FetchMessages(conversationId, oldestMessageId));
    }

    /** The end of `loadMoreMessages`: an older page (None when the fetch
        threw) is prepended to the cache entry and rendered above the shown
        messages, whose earlier elements therefore come first for a lookup
        by id; a failure changes nothing. The in-flight flag is cleared on
        both paths. */
    method CompleteLoadMore(session: Session, dom: Dom, answer: Option<Page>, now: int)
      modifies this`hasMoreMessages, this`isLoadingMore, session`messageCache, dom`messages
      ensures !isLoadingMore
      ensures answer.None? ==>
                hasMoreMessages == old(hasMoreMessages) && session.messageCache == old(session.messageCache)
                && dom.messages == old(dom.messages)
      ensures answer.Some? ==>
                hasMoreMessages == answer.value.hasMore
                && session.messageCache == PrependOlder(old(session.messageCache), conversationId, answer.value, now)
                && dom.messages
                   == (if |answer.value.messages| > 0
                       then old(dom.messages) + RenderAll(answer.value.messages, NotFrom(otherUserId), userId)
                       else old(dom.messages))
    {
      if answer.Some? {
        var older := answer.value;
        hasMoreMessages := older.hasMore;
        var cache := session.messageCache;
        if conversationId in cache {
          // messages, then hasMore, then the timestamp, one entry rebuilt
          var entry := cache[conversationId];
          entry := entry.(messages := older.messages + entry.messages);
          entry := entry.(hasMore := Some(older.hasMore));
          entry := entry.(timestamp := now);
          session.messageCache := cache[conversationId := entry];
        }
        assert session.messageCache == PrependOlder(cache, conversationId, older, now);
        if |older.messages| > 0 {
          var rendered := RenderAll(older.messages, NotFrom(otherUserId), userId);
          dom.messages := dom.messages + rendered;
        }
      }
      isLoadingMore := false;
    }
  }

  /** The in-flight flag makes loads strictly sequential: a second start
      while one is pending requests nothing, and only a completion allows
      the next start. */
  method LoadMoreIsSequential(c: ConversationController, first: Option<string>, second: Option<string>)
    returns (r1: Option<Call>, r2: Option<Call>)
    requires !c.isLoadingMore && c.hasMoreMessages && Truthy(first)
    modifies c`isLoadingMore
    ensures r1 == Some(FetchMessages(c.conversationId, first)) && r2.None? && c.isLoadingMore
  {
    r1 := c.BeginLoadMore(first);
    r2 := c.BeginLoadMore(second);
  }

  // ---------------------------------------------------------------------------
  // Typing and sending

  /** Input in the text area: report typing and (re)arm the 2 s idle timer,
      whose firing reports stop-typing. */
  method OnInput(session: Session) returns (calls: seq<Call>)
    modifies session`typingTimeout
    ensures calls == [SendTyping] && session.typingTimeout
  {
    calls := [SendTyping];
    session.typingTimeout := true;
  }

  /** The id of the placeholder for the n-th send of the tab. */
  function PendingId(n: nat): string {
    "pending-" + Decimal(n)
  }

  /** Different counter values give different placeholder ids, so a tab
      never reuses one. */
  lemma PendingIdsDistinct(a: nat, b: nat)
    ensures PendingId(a) == PendingId(b) ==> a == b
  {
    if PendingId(a) == PendingId(b) {
      assert PendingId(a)[8..] == Decimal(a);
      assert PendingId(b)[8..] == Decimal(b);
      DecimalInjective(a, b);
    }
  }

  /** The element of a placeholder: sent side, pending status, no reactions. */
  const PendingElement: MessageElement := MessageElement(true, Some(Pending), None)

  /** The synchronous part of `handleSendMessage`: nothing for text that
      trims to empty or without a current conversation; otherwise the idle
      timer is cleared, stop-typing is sent, the counter takes the next
      value, its placeholder is shown, and the trimmed text is sent. */
  method BeginSend(session: Session, dom: Dom, inputValue: string) returns (calls: seq<Call>, tempId: Option<string>)
    modifies session`typingTimeout, session`pendingMessageId, dom`pending
    ensures Trim(inputValue) == "" || !Truthy(old(session.currentConversationId)) ==>
              calls == [] && tempId.None?
              && session.typingTimeout == old(session.typingTimeout)
              && session.pendingMessageId == old(session.pendingMessageId) && dom.pending == old(dom.pending)
    ensures Trim(inputValue) != "" && Truthy(old(session.currentConversationId)) ==>
              !session.typingTimeout
              && session.pendingMessageId == old(session.pendingMessageId) + 1
              && tempId == Some(PendingId(session.pendingMessageId))
              && dom.pending == old(dom.pending)[tempId.value := PendingElement]
              && calls == [SendStopTyping, SendMessage(session.currentConversationId.value, Trim(inputValue))]
  {
    var text := Trim(inputValue);
    if text == "" || !Truthy(session.currentConversationId) {
      return [], None;
    }
    if session.typingTimeout {
      session.typingTimeout := false;
    }
    calls := [SendStopTyping];
    session.pendingMessageId := session.pendingMessageId + 1;
    var id := PendingId(session.pendingMessageId);
    dom.pending := dom.pending[id := PendingElement];
    calls := calls + [SendMessage(session.currentConversationId.value, text)];
    tempId := Some(id);
  }

  /** The cache after a confirmed send: the message pushed to the entry of
      the conversation current at that moment, stamped now, when there is
      one. */
  function PushSent(cache: map<string, CacheEntry>, conv: Option<string>, m: Message, now: int): map<string, CacheEntry> {
    if conv.Some? && conv.value in cache
    then cache[conv.value := cache[conv.value].(messages := cache[conv.value].messages + [m], timestamp := now)]
    else cache
  }

  /** The push does not test the id for truthiness: a cached entry under
      the empty id takes the sent message too. */
  lemma SentPushedUnderEmptyId(cache: map<string, CacheEntry>, m: Message, now: int)
    requires "" in cache
    ensures PushSent(cache, Some(""), m, now)[""].messages == cache[""].messages + [m]
    ensures PushSent(cache, Some(""), m, now)[""].timestamp == now
  {
  }

  /** An element's status icon set, when it has one. */
  function WithStatus(e: MessageElement, s: Status): MessageElement {
    if e.status.Some? then e.(status := Some(s)) else e
  }

  /** The rest of `handleSendMessage` once the server answered (None when
      it failed). Only a placeholder still shown is updated: on success it
      becomes the element of the server's message with status "sent" and
      the message is pushed to the cache; on failure it shows "failed" and
      the cache is untouched. */
  method CompleteSend(session: Session, dom: Dom, tempId: string, sent: Option<Message>, now: int)
    modifies dom`pending, dom`messages, session`messageCache
    ensures tempId !in old(dom.pending) ==>
              dom.pending == old(dom.pending) && dom.messages == old(dom.messages)
              && session.messageCache == old(session.messageCache)
    ensures tempId in old(dom.pending) && sent.Some? ==>
              dom.pending == old(dom.pending) - {tempId}
              && dom.messages == old(dom.messages)[sent.value.id := WithStatus(old(dom.pending)[tempId], Sent)]
              && session.messageCache == PushSent(old(session.messageCache), session.currentConversationId, sent.value, now)
    ensures tempId in old(dom.pending) && sent.None? ==>
              dom.pending == old(dom.pending)[tempId := WithStatus(old(dom.pending)[tempId], Failed)]
              && dom.messages == old(dom.messages) && session.messageCache == old(session.messageCache)
  {
    if tempId !in dom.pending {
      return;
    }
    var el := dom.pending[tempId];
    if sent.Some? {
      dom.pending := dom.pending - {tempId};
      dom.messages := dom.messages[sent.value.id := WithStatus(el, Sent)];
      var conv := session.currentConversationId;
      if conv.Some? && conv.value in session.messageCache {
        var entry := session.messageCache[conv.value];
        session.messageCache := session.messageCache[conv.value := entry.(messages := entry.messages + [sent.value], timestamp := now)];
      }
    } else {
      dom.pending := dom.pending[tempId := WithStatus(el, Failed)];
    }
  }

  /** Two sends in a row take two different placeholders, both shown, the
      second after the first in the counter's order. */
  method TwoSends(session: Session, dom: Dom, first: string, second: string)
    returns (id1: Option<string>, id2: Option<string>)
    requires Trim(first) != "" && Trim(second) != "" && Truthy(session.currentConversationId)
    modifies session`typingTimeout, session`pendingMessageId, dom`pending
    ensures id1.Some? && id2.Some? && id1 != id2
    ensures id1.value in dom.pending && id2.value in dom.pending
    ensures session.pendingMessageId == old(session.pendingMessageId) + 2
  {
    var calls1, calls2;
    calls1, id1 := BeginSend(session, dom, first);
    ghost var n1 := session.pendingMessageId;
    calls2, id2 := BeginSend(session, dom, second);
    PendingIdsDistinct(n1, session.pendingMessageId);
  }

  // ---------------------------------------------------------------------------
  // Reaction badges and the list cache

  /** The typing indicator local to one render (lines 988-1006): shown, with
      the typing user's name, unless one is already shown. */
  method ShowTypingInView(dom: Dom, typingUsername: string)
    modifies dom`typingIndicator
    ensures dom.typingIndicator == if old(dom.typingIndicator).Some? then old(dom.typingIndicator) else Some(typingUsername)
  {
    if dom.typingIndicator.Some? {
      return;
    }
    dom.typingIndicator := Some(typingUsername);
  }

  /** Lines 1008-1013: the render's indicator is removed when present. */
  method HideTypingInView(dom: Dom)
    modifies dom`typingIndicator
    ensures dom.typingIndicator == None
  {
    if dom.typingIndicator.Some? {
      dom.typingIndicator := None;
    }
  }

  /** The `onMessage` this view registers (lines 1018-1068): the same steps
      as the handler module's, but hiding the render's own indicator. */
  method OnMessageInView(session: Session, dom: Dom, conversationId: string, otherUserId: string, m: Message, now: int)
    returns (calls: seq<Call>)
    modifies session`messageCache, dom`messages, dom`typingIndicator
    ensures m.senderId != otherUserId ==>
              calls == [] && session.messageCache == old(session.messageCache)
              && dom.messages == old(dom.messages) && dom.typingIndicator == old(dom.typingIndicator)
    ensures m.senderId == otherUserId ==>
              dom.typingIndicator == None
              && session.messageCache == WebSocketHandler.IncomingCache(old(session.messageCache), conversationId, m, now)
              && (dom.messages, calls) == WebSocketHandler.IncomingDom(old(dom.messages), m)
  {
    if m.senderId != otherUserId {
      return [];
    }
    HideTypingInView(dom);
    if conversationId in session.messageCache {
      var cached := session.messageCache[conversationId];
      if !HasId(cached.messages, m.id) {
        session.messageCache := session.messageCache[conversationId := cached.(messages := cached.messages + [m], timestamp := now)];
      }
    }
    if m.id in dom.messages {
      return [];
    }
    dom.messages := dom.messages[m.id := WebSocketHandler.ReceivedElement];
    calls := [MarkMessagesAsRead([m.id])];
  }

  /** The view's `onTyping` (lines 1070-1072). */
  method OnTypingInView(dom: Dom, typingUsername: string)
    modifies dom`typingIndicator
    ensures dom.typingIndicator == if old(dom.typingIndicator).Some? then old(dom.typingIndicator) else Some(typingUsername)
  {
    ShowTypingInView(dom, typingUsername);
  }

  /** The view's `onStopTyping` (lines 1074-1076). */
  method OnStopTypingInView(dom: Dom)
    modifies dom`typingIndicator
    ensures dom.typingIndicator == None
  {
    HideTypingInView(dom);
  }

  /** Unlike the handler module's slot, the view's indicator belongs to one
      render: an indicator left by one conversation does not keep the next
      rendered conversation's typing user from showing. */
  method FreshRenderShowsNextTyping(first: string, next: string, username: string, displayName: string, avatar: string,
                                    existingConversationId: Option<string>)
    returns (shown: Option<string>)
    ensures shown == Some(next)
  {
    var session := new Session();
    var dom := new Dom();
    OnTypingInView(dom, first);
    var cached, instant := OpenConversationView(session, dom, username, displayName, avatar, existingConversationId);
    OnTypingInView(dom, next);
    shown := dom.typingIndicator;
  }

  /** A click on a reaction badge: with the badge's emoji, its message's id
      and a current conversation it removes the reaction when the badge is
      flagged and adds it otherwise; without one of them nothing happens. */
  function BadgeClick(emoji: Option<string>, messageId: Option<string>, conv: Option<string>, userReacted: bool): Option<Call> {
    if !Truthy(emoji) || !Truthy(messageId) || !Truthy(conv) then None
    else if userReacted then Some(RemoveReaction(conv.value, messageId.value, emoji.value))
    else Some(AddReaction(conv.value, messageId.value, emoji.value))
  }

  /** On a badge that agrees with the cached reactions, a click removes the
      signed-in user's reaction exactly when the cache holds it, and adds
      it otherwise: the click toggles the user's own reaction. */
  lemma BadgeClickToggles(c: Option<seq<Badge>>, rs: seq<Reaction>, current: Option<string>, k: nat,
                          messageId: string, conv: string)
    requires Consistent(c, rs, current) && k < |BadgesOf(c)|
    requires BadgesOf(c)[k].emoji != "" && messageId != "" && conv != ""
    ensures var b := BadgesOf(c)[k];
            BadgeClick(Some(b.emoji), Some(messageId), Some(conv), b.userReacted)
            == Some(if ReactedBy(rs, b.emoji, current) then RemoveReaction(conv, messageId, b.emoji)
                    else AddReaction(conv, messageId, b.emoji))
  {
  }

  /** `chats.find(c => c.conversationId === conversationId)` */
  function FindChat(chats: seq<Chat>, conversationId: string): (r: Option<nat>)
    ensures r.Some? ==> r.value < |chats| && chats[r.value].conversationId == conversationId
    ensures r.Some? ==> forall j :: 0 <= j < r.value ==> chats[j].conversationId != conversationId
    ensures r.None? ==> forall j :: 0 <= j < |chats| ==> chats[j].conversationId != conversationId
  {
    if chats == [] then None
    else if chats[0].conversationId == conversationId then Some(0)
    else match FindChat(chats[1..], conversationId)
      case None => None
      case Some(k) => Some(k + 1)
  }

  /** The list cache after `clearUnreadInCache`: the first chat of the
      conversation is shown read with a zero count. */
  function ClearUnread(c: Option<ChatListCache>, conversationId: string): Option<ChatListCache> {
    match c
    case None => None
    case Some(lc) =>
      match FindChat(lc.chats, conversationId)
      case None => c
      case Some(k) => Some(lc.(chats := lc.chats[k := lc.chats[k].(unread := false, unreadCount := Some(0))]))
  }

  /** `clearUnreadInCache(conversationId)` */
  method ClearUnreadInCache(session: Session, conversationId: string)
    modifies session`chatListCache
    ensures session.chatListCache == ClearUnread(old(session.chatListCache), conversationId)
  {
    if session.chatListCache.None? {
      return;
    }
    var lc := session.chatListCache.value;
    var k := FindChat(lc.chats, conversationId);
    if k.Some? {
      var chat := lc.chats[k.value];
      chat := chat.(unread := false);
      chat := chat.(unreadCount := Some(0));
      session.chatListCache := Some(lc.(chats := lc.chats[k.value := chat]));
    }
  }

  /** Clearing changes at most one chat, the first of the conversation,
      which ends read with a zero count; the list keeps its length, order
      and timestamp, and clearing again changes nothing. */
  lemma ClearUnreadMeaning(c: Option<ChatListCache>, conversationId: string)
    ensures var r := ClearUnread(c, conversationId);
            (r.Some? <==> c.Some?)
            && (c.Some? ==>
                  |r.value.chats| == |c.value.chats| && r.value.timestamp == c.value.timestamp
                  && (forall j :: 0 <= j < |c.value.chats| && Some(j) != FindChat(c.value.chats, conversationId) ==>
                        r.value.chats[j] == c.value.chats[j])
                  && (forall j :: 0 <= j < |c.value.chats| && Some(j) == FindChat(c.value.chats, conversationId) ==>
                        r.value.chats[j] == c.value.chats[j].(unread := false, unreadCount := Some(0))))
            && ClearUnread(r, conversationId) == r
  {
    var r := ClearUnread(c, conversationId);
    if c.Some? {
      var f := FindChat(c.value.chats, conversationId);
      if f.Some? {
        var k := f.value;
        var chats' := r.value.chats;
        assert chats'[k].conversationId == conversationId;
        assert forall j :: 0 <= j < k ==> chats'[j] == c.value.chats[j];
        assert FindChat(chats', conversationId) == Some(k);
        assert chats'[k].(unread := false, unreadCount := Some(0)) == chats'[k];
        assert chats'[k := chats'[k]] == chats';
      }
    }
  }
}
