/** The values the lib/ content scripts pass around (messages, reactions,
    cache entries, chat previews) and the two pieces of mutable state they
    share: the tab's session variables and the rendered conversation.

    The session object stands for the module-level variables of the
    extension's `state` module (currentConversationId, currentUserId,
    messageCache, chatListCache, wsCleanup, typingTimeout and the pending
    message counter), which is not part of this model; their names and the
    way the core reads and writes them come from the callers. The rendered
    conversation is the DOM reduced to what the core reads back: the message
    elements by `data-message-id` with their sent/received side, status
    icon and reaction badges, the optimistic placeholders by element id, the
    typing indicator, and whether the input is enabled. */
module State {
  import opened Common

  datatype Reaction = Reaction(emoji: string, userId: string, username: string)

  /** A message as the API returns it (`created_at` and the conversation id
      are not read by the modelled logic). `reactions` may be absent. */
  datatype Message = Message(
    id: string,
    senderId: string,
    content: string,
    readAt: Option<string>,
    reactions: Option<seq<Reaction>>)

  /** One entry of the per-conversation message cache. */
  datatype CacheEntry = CacheEntry(messages: seq<Message>, hasMore: Option<bool>, timestamp: int)

  /** A conversation summary as the API returns it. */
  datatype Conversation = Conversation(
    id: string,
    otherUsername: string,
    otherDisplayName: Option<string>,
    otherAvatarUrl: string,
    lastMessage: Option<string>,
    lastMessageTime: Option<int>,
    updatedAt: int,
    otherHasAccount: bool)

  /** A row of the conversation list. */
  datatype Chat = Chat(
    username: string,
    displayName: string,
    avatar: string,
    lastMessage: string,
    lastMessageTime: int,
    unread: bool,
    unreadCount: Option<int>,
    hasAccount: bool,
    conversationId: string)

  datatype ChatListCache = ChatListCache(chats: seq<Chat>, timestamp: int)

  datatype ViewKind = ListView | ConversationView

  datatype OtherUser = OtherUser(username: string, displayName: string, avatar: string)

  /** A page of messages from `getMessages`. */
  datatype Page = Page(messages: seq<Message>, hasMore: bool)

  /** The status icon of a sent message. */
  datatype Status = Pending | Sent | Read | Failed

  /** A reaction badge: its emoji, the number shown, the "user-reacted"
      flag and the comma-joined user names in its title. */
  datatype Badge = Badge(emoji: string, count: int, userReacted: bool, title: string)

  /** A rendered message: which side it is on, its status icon (received
      messages have none) and its reactions container, absent when the
      message shows no reactions. */
  datatype MessageElement = MessageElement(sent: bool, status: Option<Status>, reactions: Option<seq<Badge>>)

  /** A call the core makes to a collaborator. Calls are recorded, not
      performed; their answers come back as inputs of later steps. */
  datatype Call =
    | MarkConversationAsRead(conversationId: string)
    | MarkMessagesAsRead(ids: seq<string>)
    | SendStopTyping
    | SendTyping
    | RunCleanup(subscription: nat)
    | FetchConversations
    | FetchMessages(conversationId: string, before: Option<string>)
    | SendMessage(conversationId: string, text: string)
    | AddReaction(conversationId: string, messageId: string, emoji: string)
    | RemoveReaction(conversationId: string, messageId: string, emoji: string)

  /** How long a cached message list counts as fresh, in milliseconds. */
  const CacheTtlMs: int := 30000
  /** How long the cached conversation list counts as fresh. */
  const ChatListCacheTtlMs: int := 10000

  class Session {
    var currentConversationId: Option<string>
    var currentUserId: Option<string>
    var currentView: ViewKind
    var currentOtherUser: Option<OtherUser>
    var messageCache: map<string, CacheEntry>
    var chatListCache: Option<ChatListCache>
    /** The unsubscribe handle of the joined conversation, by number. */
    var wsCleanup: Option<nat>
    /** Whether the typing-idle timer is armed. */
    var typingTimeout: bool
    /** The counter behind `incrementPendingMessageId()`. */
    var pendingMessageId: nat
    /** Whether the list view's global message listener is installed. */
    var globalListener: bool

    constructor ()
      ensures currentConversationId == None && currentUserId == None
      ensures currentView == ListView && currentOtherUser == None
      ensures messageCache == map[] && chatListCache == None
      ensures wsCleanup == None && !typingTimeout && pendingMessageId == 0
      ensures !globalListener
    {
      currentConversationId := None;
      currentUserId := None;
      currentView := ListView;
      currentOtherUser := None;
      messageCache := map[];
      chatListCache := None;
      wsCleanup := None;
      typingTimeout := false;
      pendingMessageId := 0;
      globalListener := false;
    }
  }

  class Dom {
    /** Message elements by their `data-message-id`. */
    var messages: map<string, MessageElement>
    /** Optimistic placeholders by their element id (`pending-<n>`). */
    var pending: map<string, MessageElement>
    /** The typing indicator, with the name it shows, when it is present. */
    var typingIndicator: Option<string>
    var inputEnabled: bool

    constructor ()
      ensures messages == map[] && pending == map[] && typingIndicator == None && !inputEnabled
    {
      messages := map[];
      pending := map[];
      typingIndicator := None;
      inputEnabled := false;
    }
  }

  /** `messages.find(m => m.id === id)`: the first message with that id. */
  function FindMessage(messages: seq<Message>, id: string): (r: Option<nat>)
    ensures r.Some? ==> r.value < |messages| && messages[r.value].id == id
    ensures r.Some? ==> forall j :: 0 <= j < r.value ==> messages[j].id != id
    ensures r.None? ==> forall j :: 0 <= j < |messages| ==> messages[j].id != id
  {
    if messages == [] then None
    else if messages[0].id == id then Some(0)
    else match FindMessage(messages[1..], id)
      case None => None
      case Some(k) => Some(k + 1)
  }

  /** `messages.some(m => m.id === id)` */
  predicate HasId(messages: seq<Message>, id: string) {
    exists k :: 0 <= k < |messages| && messages[k].id == id
  }

  /** The ids occurring in a message list. */
  function Ids(messages: seq<Message>): set<string> {
    set i | 0 <= i < |messages| :: messages[i].id
  }

  /** No id occurs twice. */
  predicate UniqueIds(messages: seq<Message>) {
    forall i, j :: 0 <= i < j < |messages| ==> messages[i].id != messages[j].id
  }
}
