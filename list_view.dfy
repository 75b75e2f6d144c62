/** The conversation list (extension/contents/lib/list-view.ts): background
    prefetch of recent conversations' messages under the 30 s freshness
    rule, the mapping of conversation summaries to list rows with the list
    cache, and the choice of rows the animated list starts from under the
    10 s rule. The answers of `getConversations` and `getMessages` are
    parameters. */
module ListView {
  import opened Common
  import opened State

  /** A cached entry still fresh at `now`. */
  predicate Fresh(cache: map<string, CacheEntry>, conversationId: string, now: int) {
    conversationId in cache && now - cache[conversationId].timestamp < CacheTtlMs
  }

  /** The synchronous start of `prefetchMessages`: no fetch while the
      conversation's entry is fresh, otherwise one fetch of its latest
      messages. Nothing changes. */
  method BeginPrefetch(session: Session, conversationId: string, now: int) returns (request: Option<Call>)
    ensures request.None? <==> Fresh(session.messageCache, conversationId, now)
    ensures request.Some? ==> request.value == FetchMessages(conversationId, None)
  {
    if conversationId in session.messageCache && now - session.messageCache[conversationId].timestamp < CacheTtlMs {
      return None;
    }
    request := Some(FetchMessages(conversationId, None));
  }

  /** The prefetch answered (None when the fetch threw): the entry is
      replaced by the messages stamped now, with no `hasMore`; a failure
      leaves the cache as it was. */
  method PrefetchAnswered(session: Session, conversationId: string, fetched: Option<seq<Message>>, now: int)
    modifies session`messageCache
    ensures fetched.None? ==> session.messageCache == old(session.messageCache)
    ensures fetched.Some? ==>
              session.messageCache == old(session.messageCache)[conversationId := CacheEntry(fetched.value, None, now)]
  {
    if fetched.Some? {
      session.messageCache := session.messageCache[conversationId := CacheEntry(fetched.value, None, now)];
    }
  }

  /** A prefetched entry is fresh for exactly 30 s after it was stored, and
      another prefetch in that time fetches nothing. */
  lemma PrefetchedStaysFresh(cache: map<string, CacheEntry>, conversationId: string, messages: seq<Message>,
                             stored: int, now: int)
    ensures var after := cache[conversationId := CacheEntry(messages, None, stored)];
            Fresh(after, conversationId, now) <==> now - stored < 30000
  {
  }

  /** One row of the list for a conversation summary: the display name
      falls back to the user name and the last message to "", the time is
      the last message's or else the update time, and the row starts read. */
  function ChatOf(c: Conversation): Chat {
    Chat(c.otherUsername,
         if Truthy(c.otherDisplayName) then c.otherDisplayName.value else c.otherUsername,
         c.otherAvatarUrl,
         c.lastMessage.GetOr(""),
         c.lastMessageTime.GetOr(c.updatedAt),
         false, None, c.otherHasAccount, c.id)
  }

  /** `conversations.map(...)` */
  function ChatsOf(convs: seq<Conversation>): (chats: seq<Chat>)
    ensures |chats| == |convs|
    ensures forall i :: 0 <= i < |convs| ==> chats[i] == ChatOf(convs[i])
  {
    seq(|convs|, i requires 0 <= i < |convs| => ChatOf(convs[i]))
  }

  /** The rows keep the conversations' order, ids, user names, avatars and
      account flags and are all read. The display name is the summary's when
      it is present and not empty and the user name otherwise; the last
      message is the summary's when present and "" otherwise; the time is the
      last message's when there is one and the update time otherwise. */
  lemma ChatRowsMeaning(convs: seq<Conversation>)
    ensures |ChatsOf(convs)| == |convs|
    ensures var chats := ChatsOf(convs);
            forall i :: 0 <= i < |convs| ==>
              && chats[i].conversationId == convs[i].id
              && chats[i].username == convs[i].otherUsername
              && chats[i].avatar == convs[i].otherAvatarUrl
              && chats[i].hasAccount == convs[i].otherHasAccount
              && !chats[i].unread && chats[i].unreadCount.None?
              && (Truthy(convs[i].otherDisplayName) ==> chats[i].displayName == convs[i].otherDisplayName.value)
              && (!Truthy(convs[i].otherDisplayName) ==> chats[i].displayName == convs[i].otherUsername)
              && (convs[i].lastMessage.Some? ==> chats[i].lastMessage == convs[i].lastMessage.value)
              && (convs[i].lastMessage.None? ==> chats[i].lastMessage == "")
              && (convs[i].lastMessageTime.Some? ==> chats[i].lastMessageTime == convs[i].lastMessageTime.value)
              && (convs[i].lastMessageTime.None? ==> chats[i].lastMessageTime == convs[i].updatedAt)
  {
  }

  /** The ids of the at most five conversations `slice(0, 5)` picks. */
  function FirstFive(convs: seq<Conversation>): seq<Conversation> {
    if |convs| <= 5 then convs else convs[..5]
  }

  /** The fetches the prefetches of some conversations make against one
      cache state, in order. */
  function PrefetchCalls(cache: map<string, CacheEntry>, convs: seq<Conversation>, now: int): seq<Call>
    decreases |convs|
  {
    if convs == [] then []
    else PrefetchCalls(cache, convs[..|convs| - 1], now)
         + (if Fresh(cache, convs[|convs| - 1].id, now) then [] else [FetchMessages(convs[|convs| - 1].id, None)])
  }

  /** `getAllChats` with the conversations `getConversations` answered: the
      first five are prefetched (each checking the cache before any answer
      arrives), the rows are built, and the list cache becomes the rows
      stamped now. */
  method GetAllChats(session: Session, conversations: seq<Conversation>, now: int)
    returns (chats: seq<Chat>, requests: seq<Call>)
    modifies session`chatListCache
    ensures requests == PrefetchCalls(session.messageCache, FirstFive(conversations), now)
    ensures chats == ChatsOf(conversations)
    ensures session.chatListCache == Some(ChatListCache(chats, now))
  {
    var recent := FirstFive(conversations);
    requests := [];
    for i := 0 to |recent|
      invariant requests == PrefetchCalls(session.messageCache, recent[..i], now)
    {
      var r := BeginPrefetch(session, recent[i].id, now);
      if r.Some? {
        requests := requests + [r.value];
      }
      assert recent[..i + 1][..i] == recent[..i];
    }
    assert recent[..|recent|] == recent;
    chats := ChatsOf(conversations);
    session.chatListCache := Some(ChatListCache(chats, now));
  }

  /** At most five fetches are made, and a conversation is fetched exactly
      when it is among the first five and its entry is not fresh. */
  lemma {:induction false} PrefetchCallsMeaning(cache: map<string, CacheEntry>, convs: seq<Conversation>, now: int, id: string)
    ensures |PrefetchCalls(cache, convs, now)| <= |convs|
    ensures FetchMessages(id, None) in PrefetchCalls(cache, convs, now)
        <==> (exists i :: 0 <= i < |convs| && convs[i].id == id) && !Fresh(cache, id, now)
    ensures forall c :: c in PrefetchCalls(cache, convs, now) ==> c.FetchMessages? && c.before.None?
    decreases |convs|
  {
    if convs != [] {
      var init := convs[..|convs| - 1];
      PrefetchCallsMeaning(cache, init, now, id);
      if exists i :: 0 <= i < |init| && init[i].id == id {
        var i :| 0 <= i < |init| && init[i].id == id;
        assert convs[i] == init[i];
      }
      if exists i :: 0 <= i < |convs| && convs[i].id == id {
        var i :| 0 <= i < |convs| && convs[i].id == id;
        if i < |init| {
          assert init[i] == convs[i];
        }
      }
    }
  }

  lemma AtMostFivePrefetches(cache: map<string, CacheEntry>, convs: seq<Conversation>, now: int)
    ensures |PrefetchCalls(cache, FirstFive(convs), now)| <= 5
  {
    PrefetchCallsMeaning(cache, FirstFive(convs), now, "");
  }

  /** The rows the animated list starts from: the cached ones while fresh,
      otherwise none. */
  function InitialRows(c: Option<ChatListCache>, now: int): seq<Chat> {
    if c.Some? && now - c.value.timestamp < ChatListCacheTtlMs then c.value.chats else []
  }

  /** `renderListViewAnimated`: it shows the initial rows and always asks
      for a fresh list. Nothing changes until that list arrives. */
  method RenderListViewAnimated(session: Session, now: int) returns (shown: seq<Chat>, calls: seq<Call>)
    ensures shown == InitialRows(session.chatListCache, now)
    ensures calls == [FetchConversations]
  {
    var c := session.chatListCache;
    if c.Some? && now - c.value.timestamp < ChatListCacheTtlMs {
      shown := c.value.chats;
    } else {
      shown := [];
    }
    calls := [FetchConversations];
  }

  /** A list stored by `getAllChats` at `stored` is shown again by the
      animated list for exactly 10 s, and an empty list is shown after
      that or without a stored list. */
  lemma ListCacheFreshness(convs: seq<Conversation>, stored: int, now: int)
    ensures InitialRows(Some(ChatListCache(ChatsOf(convs), stored)), now)
         == if now - stored < 10000 then ChatsOf(convs) else []
    ensures InitialRows(None, now) == []
  {
  }
}
