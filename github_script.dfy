/** The single-file content script (extension/contents/github.ts), which
    keeps its own copy of the lib/ behaviour, with these differences: ids are numbers, the
    message cache has no `hasMore`, messages carry no reactions, the
    realtime handler appends without checking ids, and the initial unread
    messages are marked read as soon as the conversation is joined.

    Its module-level variables are the fields of a Script; the rendered
    conversation is a Drawer whose message elements form a list in
    document order, so that a message delivered twice shows twice. */
module GithubScript {
  import opened Common
  import opened State

  /** How long a cached message list counts as fresh. */
  const MessageCacheTtlMs: int := 30000
  /** How long the cached conversation list counts as fresh. */
  const ListCacheTtlMs: int := 10000

  /** A message as this script reads it. */
  datatype Msg = Msg(id: nat, senderId: nat, content: string, readAt: Option<string>)

  datatype Entry = Entry(messages: seq<Msg>, timestamp: int)

  /** A message element: its `data-message-id` (absent on a placeholder),
      its element id (a placeholder's `pending-<n>`), its side and its
      status icon. */
  datatype Element = Element(messageId: Option<nat>, elementId: Option<string>, sent: bool, status: Option<Status>)

  /** A call this script makes to the API module. */
  datatype ScriptCall =
    | StopTyping
    | Typing
    | Cleanup(subscription: nat)
    | MarkRead(ids: seq<nat>)
    | Send(conversationId: nat, text: string)
    | Fetch(conversationId: nat)
    | FetchList

  /** JavaScript truthiness of a number-or-null: present and not 0. */
  predicate Known(n: Option<nat>) {
    n.Some? && n.value != 0
  }

  class Script {
    var currentConversationId: Option<nat>
    var currentUserId: Option<nat>
    /** The unsubscribe handle of the joined conversation. */
    var wsCleanup: Option<nat>
    var pendingMessageId: nat
    var typingTimeout: bool
    var currentView: ViewKind
    var currentOtherUser: Option<OtherUser>
    var messageCache: map<nat, Entry>
    var chatListCache: Option<ChatListCache>

    constructor ()
      ensures currentConversationId == None && currentUserId == None && wsCleanup == None
      ensures pendingMessageId == 0 && !typingTimeout && currentView == ListView && currentOtherUser == None
      ensures messageCache == map[] && chatListCache == None
    {
      currentConversationId := None;
      currentUserId := None;
      wsCleanup := None;
      pendingMessageId := 0;
      typingTimeout := false;
      currentView := ListView;
      currentOtherUser := None;
      messageCache := map[];
      chatListCache := None;
    }

    /** What `closeChatDrawer` and `goBackToList` both do to the session:
        clear the idle timer, send stop-typing, run and drop the
        subscription's cleanup when there is one, forget the conversation
        and the counterpart, and return to the list. */
    method EndConversation() returns (calls: seq<ScriptCall>)
      modifies this`typingTimeout, this`wsCleanup, this`currentConversationId, this`currentOtherUser, this`currentView
      ensures calls == [StopTyping] + (if old(wsCleanup).Some? then [Cleanup(old(wsCleanup).value)] else [])
      ensures !typingTimeout && wsCleanup == None
      ensures currentConversationId == None && currentOtherUser == None && currentView == ListView
    {
      if typingTimeout {
        typingTimeout := false;
      }
      calls := [StopTyping];
      if wsCleanup.Some? {
        calls := calls + [Cleanup(wsCleanup.value)];
        wsCleanup := None;
      }
      currentConversationId := None;
      currentOtherUser := None;
      currentView := ListView;
    }

    /** `closeChatDrawer()` */
    method CloseChatDrawer() returns (calls: seq<ScriptCall>)
      modifies this`typingTimeout, this`wsCleanup, this`currentConversationId, this`currentOtherUser, this`currentView
      ensures calls == [StopTyping] + (if old(wsCleanup).Some? then [Cleanup(old(wsCleanup).value)] else [])
      ensures !typingTimeout && wsCleanup == None
      ensures currentConversationId == None && currentOtherUser == None && currentView == ListView
    {
      calls := EndConversation();
    }

    /** `goBackToList()`: the same teardown, then the animated list starts
        from the cached rows while fresh and asks for a fresh list. */
    method GoBackToList(now: int) returns (calls: seq<ScriptCall>, shown: seq<Chat>)
      modifies this`typingTimeout, this`wsCleanup, this`currentConversationId, this`currentOtherUser, this`currentView
      ensures calls == [StopTyping] + (if old(wsCleanup).Some? then [Cleanup(old(wsCleanup).value)] else []) + [FetchList]
      ensures !typingTimeout && wsCleanup == None
      ensures currentConversationId == None && currentOtherUser == None && currentView == ListView
      ensures shown == ShownRows(chatListCache, now)
    {
      calls := EndConversation();
      shown := if chatListCache.Some? && now - chatListCache.value.timestamp < ListCacheTtlMs
               then chatListCache.value.chats else [];
      calls := calls + [FetchList];
    }

    /** The synchronous start of `renderConversationViewInto`: instant
        display needs a known conversation with cached messages and a known
        user; it renders the cached list with sides decided by the user's
        id and enables the input, otherwise the view waits with the input
        disabled. */
    method OpenConversationView(drawer: Drawer, username: string, displayName: string, avatar: string,
                                existingConversationId: Option<nat>)
      returns (cached: Option<Entry>, instant: bool)
      modifies this`currentView, this`currentOtherUser, drawer
      ensures currentView == ConversationView && currentOtherUser == Some(OtherUser(username, displayName, avatar))
      ensures cached == (if Known(existingConversationId) && existingConversationId.value in messageCache
                         then Some(messageCache[existingConversationId.value]) else None)
      ensures instant <==> cached.Some? && |cached.value.messages| > 0 && Known(currentUserId)
      ensures drawer.inputEnabled == instant && drawer.typingIndicator == None
      ensures drawer.elements
           == if instant then RenderAll(cached.value.messages, ByUser(currentUserId.value)) else []
    {
      currentView := ConversationView;
      currentOtherUser := Some(OtherUser(username, displayName, avatar));
      cached := if Known(existingConversationId) && existingConversationId.value in messageCache
                then Some(messageCache[existingConversationId.value]) else None;
      instant := cached.Some? && |cached.value.messages| > 0 && Known(currentUserId);
      drawer.elements := if instant then RenderAll(cached.value.messages, ByUser(currentUserId.value)) else [];
      drawer.typingIndicator := None;
      drawer.inputEnabled := instant;
    }

    /** After `getCurrentUserInfo()` when no user id was known: the id it
        gave becomes the session's, an id of 0 or none read as none. */
    method UserResolved(answer: Option<nat>)
      modifies this`currentUserId
      ensures Known(old(currentUserId)) ==> currentUserId == old(currentUserId)
      ensures !Known(old(currentUserId)) ==> currentUserId == if Known(answer) then answer else None
    {
      if !Known(currentUserId) {
        currentUserId := if Known(answer) then answer else None;
      }
    }

    /** The conversation is known: it becomes the current one. Without
        instant display the fetched list (None when the fetch threw, which
        ends the opening) replaces the cache entry and is rendered with
        sides decided by the counterpart; with instant display a background
        refresh is requested. The unread ids are collected from the list in
        use, and the input is enabled. */
    method LoadInitial(drawer: Drawer, conversationId: nat, otherUserId: nat, instant: bool, cached: Option<Entry>,
                       fetched: Option<seq<Msg>>, now: int)
      returns (unread: seq<nat>, calls: seq<ScriptCall>, proceeds: bool)
      requires instant ==> cached.Some?
      modifies this`currentConversationId, this`messageCache, drawer`elements, drawer`inputEnabled
      ensures currentConversationId == Some(conversationId)
      ensures !instant && fetched.None? ==>
                !proceeds && unread == [] && calls == [] && messageCache == old(messageCache)
                && drawer.elements == old(drawer.elements) && drawer.inputEnabled == old(drawer.inputEnabled)
      ensures !instant && fetched.Some? ==>
                proceeds && calls == [] && drawer.inputEnabled
                && messageCache == old(messageCache)[conversationId := Entry(fetched.value, now)]
                && drawer.elements == RenderAll(fetched.value, NotBy(otherUserId))
                && unread == UnreadIds(fetched.value, otherUserId)
      ensures instant ==>
                proceeds && drawer.inputEnabled && calls == [Fetch(conversationId)]
                && messageCache == old(messageCache) && drawer.elements == old(drawer.elements)
                && unread == UnreadIds(cached.value.messages, otherUserId)
    {
      currentConversationId := Some(conversationId);
      calls := [];
      if !instant {
        if fetched.None? {
          return [], [], false;
        }
        messageCache := messageCache[conversationId := Entry(fetched.value, now)];
        drawer.elements := RenderAll(fetched.value, NotBy(otherUserId));
        unread := CollectUnread(fetched.value, otherUserId);
      } else {
        unread := CollectUnread(cached.value.messages, otherUserId);
        calls := [Fetch(conversationId)];
      }
      drawer.inputEnabled := true;
      proceeds := true;
    }

    /** The background refresh requested by an instant display answered
        (lines 669-674): the entry is replaced by the fresh list, stamped
        now, whatever it held. A refresh that rejects changes nothing. */
    method RefreshAnswered(conversationId: nat, freshMessages: seq<Msg>, now: int)
      modifies this`messageCache
      ensures messageCache == old(messageCache)[conversationId := Entry(freshMessages, now)]
    {
      messageCache := messageCache[conversationId := Entry(freshMessages, now)];
    }

    /** `joinConversation` answered with the cleanup handle (None when it
        threw): the handle is stored and the initial unread messages, when
        there are any, are marked read at once. A failed join does
        neither. */
    method Joined(joined: Option<nat>, unread: seq<nat>) returns (calls: seq<ScriptCall>)
      modifies this`wsCleanup
      ensures joined.None? ==> calls == [] && wsCleanup == old(wsCleanup)
      ensures joined.Some? ==> wsCleanup == joined && calls == (if |unread| > 0 then [MarkRead(unread)] else [])
    {
      if joined.None? {
        return [];
      }
      wsCleanup := joined;
      calls := if |unread| > 0 then [MarkRead(unread)] else [];
    }

    /** Input in the text area: report typing and (re)arm the idle timer. */
    method OnInput() returns (calls: seq<ScriptCall>)
      modifies this`typingTimeout
      ensures calls == [Typing] && typingTimeout
    {
      calls := [Typing];
      typingTimeout := true;
    }

    /** The synchronous part of `handleSendMessage`: nothing for text that
        trims to empty or without a known conversation; otherwise the idle
        timer is cleared, stop-typing is sent, `++pendingMessageId` names
        the placeholder appended to the view, and the text is sent. */
    method BeginSend(drawer: Drawer, inputValue: string) returns (calls: seq<ScriptCall>, tempId: Option<string>)
      modifies this`typingTimeout, this`pendingMessageId, drawer`elements
      ensures Trim(inputValue) == "" || !Known(currentConversationId) ==>
                calls == [] && tempId.None? && typingTimeout == old(typingTimeout)
                && pendingMessageId == old(pendingMessageId) && drawer.elements == old(drawer.elements)
      ensures Trim(inputValue) != "" && Known(currentConversationId) ==>
                !typingTimeout && pendingMessageId == old(pendingMessageId) + 1
                && tempId == Some(PlaceholderId(pendingMessageId))
                && drawer.elements == old(drawer.elements) + [Element(None, tempId, true, Some(Pending))]
                && calls == [StopTyping, Send(currentConversationId.value, Trim(inputValue))]
    {
      var text := Trim(inputValue);
      if text == "" || !Known(currentConversationId) {
        return [], None;
      }
      if typingTimeout {
        typingTimeout := false;
      }
      calls := [StopTyping];
      pendingMessageId := pendingMessageId + 1;
      var id := PlaceholderId(pendingMessageId);
      drawer.elements := drawer.elements + [Element(None, Some(id), true, Some(Pending))];
      calls := calls + [Send(currentConversationId.value, text)];
      tempId := Some(id);
    }

    /** The rest of `handleSendMessage` once the server answered (None on
        failure), on the first element with the placeholder's id when it is
        still shown: on success it takes the message's id, loses the
        placeholder id and shows "sent", and the message is pushed to the
        current conversation's cache entry, stamped now, when there is one;
        on failure only its status becomes "failed". */
    method CompleteSend(drawer: Drawer, tempId: string, sent: Option<Msg>, now: int)
      modifies this`messageCache, drawer`elements
      ensures FindElement(old(drawer.elements), tempId).None? ==>
                drawer.elements == old(drawer.elements) && messageCache == old(messageCache)
      ensures FindElement(old(drawer.elements), tempId).Some? ==>
                var k := FindElement(old(drawer.elements), tempId).value;
                var el := old(drawer.elements)[k];
                (sent.Some? ==>
                   drawer.elements == old(drawer.elements)[k := SetStatus(el.(messageId := Some(sent.value.id), elementId := None), Sent)]
                   && messageCache == PushSent(old(messageCache), currentConversationId, sent.value, now))
                && (sent.None? ==>
                   drawer.elements == old(drawer.elements)[k := SetStatus(el, Failed)] && messageCache == old(messageCache))
    {
      var found := FindElement(drawer.elements, tempId);
      if found.None? {
        return;
      }
      var k := found.value;
      var el := drawer.elements[k];
      if sent.Some? {
        drawer.elements := drawer.elements[k := SetStatus(el.(messageId := Some(sent.value.id), elementId := None), Sent)];
        if currentConversationId.Some? && currentConversationId.value in messageCache {
          var entry := messageCache[currentConversationId.value];
          messageCache := messageCache[currentConversationId.value := entry.(messages := entry.messages + [sent.value], timestamp := now)];
        }
      } else {
        drawer.elements := drawer.elements[k := SetStatus(el, Failed)];
      }
    }

    /** The realtime `onMessage`: a message from anyone but the counterpart
        is ignored; otherwise the typing indicator goes, the message is
        pushed to the conversation's cache entry when there is one and
        appended to the view, and it is marked read, with no check whether
        it is already there. */
    method OnMessage(drawer: Drawer, conversationId: nat, otherUserId: nat, m: Msg, now: int)
      returns (calls: seq<ScriptCall>)
      modifies this`messageCache, drawer`elements, drawer`typingIndicator
      ensures m.senderId != otherUserId ==>
                calls == [] && messageCache == old(messageCache)
                && drawer.elements == old(drawer.elements) && drawer.typingIndicator == old(drawer.typingIndicator)
      ensures m.senderId == otherUserId ==>
                calls == [MarkRead([m.id])] && drawer.typingIndicator == None
                && messageCache == Delivered(old(messageCache), conversationId, m, now)
                && drawer.elements == old(drawer.elements) + [Element(Some(m.id), None, false, None)]
    {
      if m.senderId != otherUserId {
        return [];
      }
      if drawer.typingIndicator.Some? {
        drawer.typingIndicator := None;
      }
      if conversationId in messageCache {
        var entry := messageCache[conversationId];
        messageCache := messageCache[conversationId := entry.(messages := entry.messages + [m], timestamp := now)];
      }
      drawer.elements := drawer.elements + [Element(Some(m.id), None, false, None)];
      calls := [MarkRead([m.id])];
    }
  }

  /** The conversation view inside the drawer. */
  class Drawer {
    /** The message elements in document order. */
    var elements: seq<Element>
    /** The typing indicator with the name it shows, when present. */
    var typingIndicator: Option<string>
    var inputEnabled: bool

    constructor ()
      ensures elements == [] && typingIndicator == None && !inputEnabled
    {
      elements := [];
      typingIndicator := None;
      inputEnabled := false;
    }

    /** `showTypingIndicator(username)`: shown unless one is shown. */
    method ShowTypingIndicator(username: string)
      modifies this`typingIndicator
      ensures typingIndicator == if old(typingIndicator).Some? then old(typingIndicator) else Some(username)
    {
      if typingIndicator.Some? {
        return;
      }
      typingIndicator := Some(username);
    }

    /** `hideTypingIndicator()` */
    method HideTypingIndicator()
      modifies this`typingIndicator
      ensures typingIndicator == None
    {
      if typingIndicator.Some? {
        typingIndicator := None;
      }
    }

    /** The realtime `onMessagesRead(messageIds)`, one id after the other. */
    method OnMessagesRead(ids: seq<nat>)
      modifies this`elements
      ensures elements == ReadAll(old(elements), ids)
    {
      for i := 0 to |ids|
        invariant elements == ReadAll(old(elements), ids[..i])
      {
        var found := FindMessageElement(elements, ids[i]);
        if found.Some? && elements[found.value].sent && elements[found.value].status.Some? {
          elements := elements[found.value := elements[found.value].(status := Some(Read))];
        }
        assert ids[..i + 1][..i] == ids[..i];
      }
      assert ids[..|ids|] == ids;
    }
  }

  // ---------------------------------------------------------------------------
  // Specification functions

  /** The rows the animated list starts from: the cached ones while fresh,
      otherwise none. */
  function ShownRows(c: Option<ChatListCache>, now: int): seq<Chat> {
    if c.Some? && now - c.value.timestamp < ListCacheTtlMs then c.value.chats else []
  }

  /** How a rendering decides the side: by the user's id (instant display)
      or by the counterpart's (after a fetch). */
  datatype Side = ByUser(userId: nat) | NotBy(otherUserId: nat)

  function ElementOf(m: Msg, side: Side): Element {
    var sent := match side case ByUser(u) => m.senderId == u case NotBy(o) => m.senderId != o;
    Element(Some(m.id), None, sent, if sent then Some(if Truthy(m.readAt) then Read else Sent) else None)
  }

  /** The elements of a rendered message list, in message order. */
  function RenderAll(ms: seq<Msg>, side: Side): (els: seq<Element>)
    ensures |els| == |ms| && forall k :: 0 <= k < |ms| ==> els[k] == ElementOf(ms[k], side)
  {
    seq(|ms|, k requires 0 <= k < |ms| => ElementOf(ms[k], side))
  }

  /** The ids of the messages from the counterpart without `read_at`. */
  function UnreadIds(ms: seq<Msg>, otherUserId: nat): seq<nat>
    decreases |ms|
  {
    if ms == [] then []
    else UnreadIds(ms[..|ms| - 1], otherUserId)
         + (if ms[|ms| - 1].senderId == otherUserId && !Truthy(ms[|ms| - 1].readAt) then [ms[|ms| - 1].id] else [])
  }

  /** The `unreadMessageIds.push` loop, in github.ts's own copy (lines
      638-640 and 664-668) over its numeric ids; the lib version is
      `ConversationView.CollectUnread`. */
  method CollectUnread(ms: seq<Msg>, otherUserId: nat) returns (ids: seq<nat>)
    ensures ids == UnreadIds(ms, otherUserId)
  {
    ids := [];
    for i := 0 to |ms|
      invariant ids == UnreadIds(ms[..i], otherUserId)
    {
      if ms[i].senderId == otherUserId && !Truthy(ms[i].readAt) {
        ids := ids + [ms[i].id];
      }
      assert ms[..i + 1][..i] == ms[..i];
    }
    assert ms[..|ms|] == ms;
  }

  /** Every collected id is that of a listed message from the counterpart
      without `read_at`, and every such message is collected. */
  lemma {:induction false} UnreadIdsMeaning(ms: seq<Msg>, otherUserId: nat)
    ensures forall id :: id in UnreadIds(ms, otherUserId) ==>
              exists k :: 0 <= k < |ms| && ms[k].id == id && ms[k].senderId == otherUserId && !Truthy(ms[k].readAt)
    ensures forall k :: 0 <= k < |ms| && ms[k].senderId == otherUserId && !Truthy(ms[k].readAt) ==>
              ms[k].id in UnreadIds(ms, otherUserId)
    decreases |ms|
  {
    if ms != [] {
      var init := ms[..|ms| - 1];
      UnreadIdsMeaning(init, otherUserId);
      forall id | id in UnreadIds(init, otherUserId)
        ensures exists k :: 0 <= k < |ms| && ms[k].id == id && ms[k].senderId == otherUserId && !Truthy(ms[k].readAt)
      {
        var k :| 0 <= k < |init| && init[k].id == id && init[k].senderId == otherUserId && !Truthy(init[k].readAt);
        assert ms[k] == init[k];
      }
      forall k | 0 <= k < |init|
        ensures ms[k] == init[k]
      {
      }
    }
  }

  /** The id of the placeholder for the n-th send. */
  function PlaceholderId(n: nat): string {
    "pending-" + Decimal(n)
  }

  /** `++pendingMessageId` never repeats a value, so placeholder ids are
      never reused in a tab. */
  lemma PlaceholderIdsDistinct(a: nat, b: nat)
    ensures PlaceholderId(a) == PlaceholderId(b) ==> a == b
  {
    if PlaceholderId(a) == PlaceholderId(b) {
      assert PlaceholderId(a)[8..] == Decimal(a);
      assert PlaceholderId(b)[8..] == Decimal(b);
      DecimalInjective(a, b);
    }
  }

  /** `document.getElementById(tempId)`: the first element with that id. */
  function FindElement(els: seq<Element>, tempId: string): (r: Option<nat>)
    ensures r.Some? ==> r.value < |els| && els[r.value].elementId == Some(tempId)
    ensures r.Some? ==> forall j :: 0 <= j < r.value ==> els[j].elementId != Some(tempId)
    ensures r.None? ==> forall j :: 0 <= j < |els| ==> els[j].elementId != Some(tempId)
  {
    if els == [] then None
    else if els[0].elementId == Some(tempId) then Some(0)
    else match FindElement(els[1..], tempId)
      case None => None
      case Some(k) => Some(k + 1)
  }

  /** `querySelector('[data-message-id="…"]')`: the first element with it. */
  function FindMessageElement(els: seq<Element>, id: nat): (r: Option<nat>)
    ensures r.Some? ==> r.value < |els| && els[r.value].messageId == Some(id)
    ensures r.Some? ==> forall j :: 0 <= j < r.value ==> els[j].messageId != Some(id)
    ensures r.None? ==> forall j :: 0 <= j < |els| ==> els[j].messageId != Some(id)
  {
    if els == [] then None
    else if els[0].messageId == Some(id) then Some(0)
    else match FindMessageElement(els[1..], id)
      case None => None
      case Some(k) => Some(k + 1)
  }

  /** An element's status icon set, when it has one. */
  function SetStatus(e: Element, s: Status): Element {
    if e.status.Some? then e.(status := Some(s)) else e
  }

  /** The cache after a confirmed send: the message pushed to the entry of
      the conversation current at that moment, stamped now, when there is
      one, whatever its id. */
  function PushSent(cache: map<nat, Entry>, conv: Option<nat>, m: Msg, now: int): map<nat, Entry> {
    if conv.Some? && conv.value in cache
    then cache[conv.value := cache[conv.value].(messages := cache[conv.value].messages + [m], timestamp := now)]
    else cache
  }

  /** The cache after a realtime message: pushed, whatever it holds. */
  function Delivered(cache: map<nat, Entry>, conversationId: nat, m: Msg, now: int): map<nat, Entry> {
    if conversationId in cache
    then cache[conversationId := cache[conversationId].(messages := cache[conversationId].messages + [m], timestamp := now)]
    else cache
  }

  /** One id of a read receipt: the first element with it shows "read"
      when it is a sent one with a status icon. */
  function ReadOne(els: seq<Element>, id: nat): seq<Element> {
    match FindMessageElement(els, id)
    case None => els
    case Some(k) => if els[k].sent && els[k].status.Some? then els[k := els[k].(status := Some(Read))] else els
  }

  function ReadAll(els: seq<Element>, ids: seq<nat>): seq<Element>
    decreases |ids|
  {
    if ids == [] then els else ReadOne(ReadAll(els, ids[..|ids| - 1]), ids[|ids| - 1])
  }

  // ---------------------------------------------------------------------------
  // Properties

  /** A second teardown finds no subscription: the cleanup runs at most
      once, whichever of the two teardowns comes first. */
  method TeardownTwice(s: Script, now: int) returns (first: seq<ScriptCall>, second: seq<ScriptCall>)
    requires s.wsCleanup.Some?
    modifies s`typingTimeout, s`wsCleanup, s`currentConversationId, s`currentOtherUser, s`currentView
    ensures first == [StopTyping, Cleanup(old(s.wsCleanup).value)]
    ensures second == [StopTyping, FetchList]
  {
    first := s.CloseChatDrawer();
    var shown;
    second, shown := s.GoBackToList(now);
  }

  /** A message delivered twice while its conversation is cached is held
      twice in the cache and shown twice; the lib handler keeps one. */
  lemma DuplicateDeliveryAddsTwice(cache: map<nat, Entry>, conversationId: nat, m: Msg, now: int, later: int)
    requires conversationId in cache
    ensures var twice := Delivered(Delivered(cache, conversationId, m, now), conversationId, m, later);
            twice[conversationId].messages == cache[conversationId].messages + [m, m]
            && twice[conversationId].timestamp == later
  {
    assert cache[conversationId].messages + [m] + [m] == cache[conversationId].messages + [m, m];
  }

  /** A read receipt changes only the status of sent elements showing one,
      and only to "read": every element keeps its ids and side, and
      received elements are untouched. */
  lemma {:induction false} ReadAllOnlyTouchesSent(els: seq<Element>, ids: seq<nat>)
    ensures var r := ReadAll(els, ids);
            |r| == |els|
            && forall k :: 0 <= k < |els| ==>
                 r[k] == els[k] || (els[k].sent && els[k].status.Some? && r[k] == els[k].(status := Some(Read)))
    decreases |ids|
  {
    if ids != [] {
      ReadAllOnlyTouchesSent(els, ids[..|ids| - 1]);
    }
  }

  /** An id's first element, when sent with a status icon, shows "read"
      after a receipt naming it. */
  lemma ReceiptMarksFirstElement(els: seq<Element>, id: nat)
    requires FindMessageElement(els, id).Some?
    ensures var k := FindMessageElement(els, id).value;
            var r := ReadAll(els, [id]);
            |r| == |els| && (els[k].sent && els[k].status.Some? ==> r[k].status == Some(Read))
  {
    assert [id][..0] == [];
  }

  /** A stored list is shown again for exactly 10 s after it was stored. */
  lemma ListFreshFor10Seconds(chats: seq<Chat>, stored: int, now: int)
    ensures ShownRows(Some(ChatListCache(chats, stored)), now) == (if now - stored < 10000 then chats else [])
    ensures ShownRows(None, now) == []
  {
  }
}
