# GitHub Chat: conversation engine and auth bookkeeping

GitHub Chat is a browser extension that adds direct messaging to GitHub
profile pages, together with a small backend. This project models its
client-side conversation engine in Dafny and proves properties of that model.
It also models the part of the backend's OAuth route that keeps state.

- **Reactions** (`reactions.dfy`). A reaction event, realtime or optimistic,
  changes the badges shown under a rendered message and the cached reaction
  list of the open conversation. An optimistic add or remove is rolled back
  when the API call answers no or fails.
- **Message rendering** (`message_render.dfy`). `groupReactions` folds a
  message's reactions into one group per emoji. The groups become badges,
  and messages become elements on the sent or received side.
- **Conversation view** (`conversation_view.dfy`). It covers:
  - opening a conversation with instant display from the message cache;
  - resolving the user id;
  - fetching the first page, or refreshing it in the background;
  - collecting unread ids;
  - infinite scroll guarded by an in-flight flag;
  - typing reports;
  - optimistic sending through `pending-N` placeholders;
  - reaction badge clicks;
  - `clearUnreadInCache`.
- **Read status** (`read_status.dfy`). The delayed mark-as-read has a single
  pending slot (cancel, schedule, fire). When the conversation is confirmed
  read, the list cache is dropped.
- **Realtime handler** (`websocket_handler.dfy`). It provides the callbacks of
  `setupWebSocketHandler`. Incoming messages are de-duplicated in the cache
  and in the view, and are marked read at once. It also handles typing,
  read receipts that only touch sent messages, and reactions. Its typing
  indicator lives in a module-level slot (`TypingSlot`) that outlives the
  conversation it was shown in.
- **List view** (`list_view.dfy`). It covers:
  - the prefetch of messages for the five most recent conversations under the
    30 s freshness rule;
  - the mapping of conversation summaries to list rows;
  - the list cache;
  - the 10 s rule for the rows the animated list starts from.
- **Single-file content script** (`github_script.dfy`). This is the
  single-file content script `github.ts`, with its own session variables and
  numeric ids.
  It covers teardown on close or back, opening and loading a conversation,
  sending, and its realtime callbacks. Unlike the library version, it does
  not de-duplicate incoming messages.
- **Utilities** (`utils.dfy`, `profile.dfy`). These are relative time labels,
  profile page recognition, and the way the profile's user name and display
  name are read.
- **Backend auth** (`auth.dfy`). It covers:
  - hex OAuth state generation;
  - the state map with start, callback and ten-minute cleanup;
  - the choice of the user's email;
  - `Bearer` header parsing;
  - the 30-day session expiry;
  - the counters of the email backfill.

`common.dfy` holds shared helpers: Option, JavaScript truthiness, decimal
rendering, split/join and trim. `state.dfy` holds the shared session and
view state (`Session`, `Dom`) and the calls to the API module.

Network answers, timer firings and the clock are parameters:
- An answer that is absent means the call threw or failed.
- `now` is the time in milliseconds.
- The calls a step makes are returned as a sequence of `Call` values, in
  order.

## Model

| member | source | states |
|---|---|---|
| Reactions.UpdateReactionInDOM | extension/contents/lib/conversation/reactions.ts:8-162 | The new badges and cache are `ApplyReaction` of the old ones, and nothing else changes. |
| Reactions.HandleReactionOptimistic | extension/contents/lib/conversation/reactions.ts:165-213 | The optimistic event is applied with the user id (or "") as reacting user; the API request matches the direction; a refusal or failure applies the reverse event, success nothing more. |
| Reactions.NotRenderedUnchanged | extension/contents/lib/conversation/reactions.ts:16-19 | An event for a message that is not rendered changes neither the view nor the cache. |
| Reactions.DuplicateDropped | extension/contents/lib/conversation/reactions.ts:22-40 | An add of a pair the cache already holds, or a remove of a pair it lacks, changes nothing. |
| Reactions.AddToExistingBadge | extension/contents/lib/conversation/reactions.ts:59-80 | An add on an emoji that already has a badge raises that badge's count by one, appends the name to its title, and sets the flag when it is the user's own reaction. |
| Reactions.AddNewBadge | extension/contents/lib/conversation/reactions.ts:44-94 | An add on an emoji without a badge creates the container if needed and appends a badge with count 1, the user name as title, and the user's flag. |
| Reactions.RemoveLastOfBadge | extension/contents/lib/conversation/reactions.ts:96-113 | A remove on a badge showing at most 1 deletes that badge, and deletes the container when it becomes empty. |
| Reactions.RemoveDecrements | extension/contents/lib/conversation/reactions.ts:114-130 | A remove on a badge showing more than 1 lowers its count by one, filters the name out of the title, and clears the flag for the user's own reaction. |
| Reactions.RemoveWithoutBadgeUnchanged | extension/contents/lib/conversation/reactions.ts:96-102 | A remove that finds no container or no badge for the emoji leaves the view as it was. |
| Reactions.BadgesAfterAdd | extension/contents/lib/conversation/reactions.ts:44-94 | If the badges agree with the cached list, adding a new pair keeps them in agreement with the list plus that reaction. Agreement means distinct emojis, count equal to the reactions with that emoji, and flag set exactly when the user is among them. |
| Reactions.BadgesAfterRemove | extension/contents/lib/conversation/reactions.ts:96-131 | Removing a cached pair always finds its badge, and keeps the badges in agreement with the filtered list. |
| Reactions.LookupDetermined | extension/contents/lib/conversation/reactions.ts:63-131 | Under agreement, the count and flag shown for each emoji are fixed by the cached list. The container exists exactly when the list is non-empty. |
| Reactions.ReactionsAfterUnique | extension/contents/lib/conversation/reactions.ts:139-157 | The cache never holds an (emoji, user) pair twice. After the event the pair is present exactly when the event was an add. |
| Reactions.CacheAfterFinds | extension/contents/lib/conversation/reactions.ts:133-161 | The cache update finds the same message again. Its reactions are updated, the entry is re-stamped, and the other messages and conversations are kept. |
| Reactions.ApplyFrame | extension/contents/lib/conversation/reactions.ts:8-162 | An event changes only the reacted message's element and the open conversation's entry. |
| Reactions.ApplyKeepsConsistent | extension/contents/lib/conversation/reactions.ts:8-162 | For a rendered and cached message whose badges agree with its cached list, one event keeps that agreement and keeps the pairs unique. |
| Reactions.AddThenRollback | extension/contents/lib/conversation/reactions.ts:165-213 | An optimistic add followed by its rollback restores the cached list. Every emoji shows its old count and flag, and the container is present exactly as before. |
| Reactions.RemoveThenRollback | extension/contents/lib/conversation/reactions.ts:165-213 | An optimistic remove followed by its rollback restores the same reactions, with the re-added one last. Counts, flags and the container are as before. |
| MessageRender.CountReaction | extension/contents/lib/conversation-view.ts:174-182 | One pass of the loop is `AddToGroups`: the emoji's group, created empty at the end when missing, counts one more, pushes the user name, and sets its flag for the signed-in user. |
| MessageRender.GroupReactions | extension/contents/lib/conversation-view.ts:165-185 | The grouping loop computes `Grouped`, the fold of the reactions into per-emoji groups. |
| MessageRender.GroupedMeaning | extension/contents/lib/conversation-view.ts:165-185 | Each group has a distinct emoji. Its count is the number of reactions with that emoji, and is at least 1. Its usernames are theirs, in order. The flag is set iff the user is among them. Every emoji has a group. Groups follow first occurrence. The counts sum to the number of reactions. |
| MessageRender.RenderedReactionsAgree | extension/contents/lib/conversation-view.ts:188-209 | With unique pairs, the rendered badges agree with the reaction list in the sense `updateReactionInDOM` maintains. No reactions render no container. |
| MessageRender.RenderedTitles | extension/contents/lib/conversation-view.ts:197-206 | A badge's title is its users' names joined by ", ". Adding a name the way a realtime add does gives the title a fresh render would show. |
| MessageRender.RenderMessage | extension/contents/lib/conversation-view.ts:212-248 | The element's side is as given. Only sent messages carry a status icon, which shows "read" iff `read_at` is set. The reactions container is absent iff there are no reactions. |
| MessageRender.RenderAllFinds | extension/contents/lib/conversation-view.ts:529-553 | An id is rendered iff the list holds a message with it. Its element is the render of the first such message. |
| MessageRender.RenderedConversationAgrees | extension/contents/lib/conversation-view.ts:675-700 | Every rendered message's badges agree with that message's reactions. |
| ConversationView.InstantDisplayCondition | extension/contents/lib/conversation-view.ts:523-555 | Instant display holds iff a conversation id is given, its cache entry holds messages, and a user id is known. The entry's time stamp and `hasMore` do not matter. |
| ConversationView.OpenConversationView | extension/contents/lib/conversation-view.ts:512-590 | The view and counterpart are set and the global listener is dropped. The input is enabled exactly under instant display. The cached list is then rendered with sides by the user's id; otherwise nothing is rendered. |
| ConversationView.UserResolved | extension/contents/lib/conversation-view.ts:594-600 | A known user id is kept. Otherwise the answer's id becomes the session's, an empty one read as none. |
| ConversationView.CollectUnread | extension/contents/lib/conversation-view.ts:706-710 | The loop collects `UnreadIds`. |
| ConversationView.UnreadIdsMeaning | extension/contents/lib/conversation-view.ts:677-682 | An id is collected iff some listed message with it is from the counterpart and has no `read_at`. |
| ConversationView.UnreadIdsConcat | extension/contents/lib/conversation-view.ts:706-710 | Collecting over two lists in a row gives the two collections one after the other. |
| ConversationView.PrependKeepsNewer | extension/contents/lib/conversation-view.ts:766-772 | An older page goes before the cached messages, which are kept in order. No other conversation changes. |
| ConversationView.ConversationController.constructor | extension/contents/lib/conversation-view.ts:631-652 | The conversation becomes current. `hasMoreMessages` starts at `cached?.hasMore ?? false`, and nothing is loading. |
| ConversationView.ConversationController.LoadInitial | extension/contents/lib/conversation-view.ts:652-733 | Without instant display, the fetched page replaces the entry, is rendered with sides by the counterpart, and sets `hasMore`. With instant display, a refresh is requested and the view is kept. Unread ids come from the list in use. A throwing fetch ends the opening with nothing changed. Otherwise the input is enabled. |
| ConversationView.ConversationController.BackgroundRefreshed | extension/contents/lib/conversation-view.ts:712-721 | The refreshed page replaces the entry and sets `hasMoreMessages`. |
| ConversationView.ConversationController.BeginLoadMore | extension/contents/lib/conversation-view.ts:741-748 | Nothing is requested while loading, when no more messages exist, or without an oldest id. Otherwise one request for the page before that id is made, and the flag is raised. |
| ConversationView.ConversationController.CompleteLoadMore | extension/contents/lib/conversation-view.ts:759-824 | A page is prepended to the cache entry and rendered above the shown messages, and sets `hasMore`. A failure changes nothing. The flag is cleared either way. |
| ConversationView.LoadMoreIsSequential | extension/contents/lib/conversation-view.ts:741-748 | A second start while one is in flight requests nothing. |
| ConversationView.OnInput | extension/contents/lib/conversation-view.ts:880-894 | Input reports typing and arms the idle timer. |
| ConversationView.PendingIdsDistinct | extension/contents/lib/conversation-view.ts:918 | Different counter values give different `pending-N` ids. |
| ConversationView.BeginSend | extension/contents/lib/conversation-view.ts:906-953 | Blank text or a missing conversation does nothing. Otherwise the timer is cleared, stop-typing is sent, the counter is bumped, a pending placeholder is added under the new id, and the trimmed text is sent. |
| ConversationView.CompleteSend | extension/contents/lib/conversation-view.ts:956-985 | If the placeholder is gone, nothing changes. On success it becomes the message's element with "sent", and the message is pushed to the current conversation's entry, stamped now, whenever that entry exists, whatever the id (the empty id included). On failure only its status becomes "failed". |
| ConversationView.SentPushedUnderEmptyId | extension/contents/lib/conversation-view.ts:971-975 | A confirmed send reaches the entry cached under the empty id too, stamped now. |
| ConversationView.ShowTypingInView | extension/contents/lib/conversation-view.ts:988-1006 | The render's indicator is kept when shown. Otherwise it shows the typing user's name. |
| ConversationView.HideTypingInView | extension/contents/lib/conversation-view.ts:1008-1013 | The render's indicator is gone afterwards. |
| ConversationView.OnMessageInView | extension/contents/lib/conversation-view.ts:1018-1068 | Messages not from the counterpart are ignored. Otherwise the render's indicator is hidden, the cache takes the message once, and it is rendered and marked read unless it is already shown. |
| ConversationView.OnTypingInView | extension/contents/lib/conversation-view.ts:1070-1072 | The render's indicator shows the typing user's name unless one is already shown. |
| ConversationView.OnStopTypingInView | extension/contents/lib/conversation-view.ts:1074-1076 | The render's indicator is gone afterwards. |
| ConversationView.FreshRenderShowsNextTyping | extension/contents/lib/conversation-view.ts:988-1072 | An indicator left from one conversation does not block the next render's: after opening a view, a typing report shows the new name. |
| ConversationView.TwoSends | extension/contents/lib/conversation-view.ts:906-953 | Two sends in a row get two different placeholders, both shown, and the counter rises by two. |
| ConversationView.BadgeClickToggles | extension/contents/lib/conversation-view.ts:835-857 | On a badge that agrees with the cache, a click removes the user's reaction iff the cache holds it, and adds it otherwise. |
| ConversationView.ClearUnreadInCache | extension/contents/lib/conversation-view.ts:455-465 | The list cache becomes `ClearUnread` of the old one. |
| ConversationView.ClearUnreadMeaning | extension/contents/lib/conversation-view.ts:455-465 | Only the first chat of the conversation changes, to read with count 0. The length, order and time stamp are kept, and clearing twice changes nothing more. |
| ReadStatus.FireCalls | extension/contents/lib/conversation-view.ts:434-451 | A timer whose conversation is no longer pending makes no call. Otherwise it marks the conversation read first, and marks the ids read iff there are any. |
| ReadStatus.ReadScheduler.constructor | extension/contents/lib/conversation-view.ts:408-410 | The scheduler starts idle, so its slot is reachable. |
| ReadStatus.ReadScheduler.Cancel | extension/contents/lib/conversation-view.ts:413-420 | The slot is idle afterwards and stays reachable. |
| ReadStatus.ReadScheduler.Schedule | extension/contents/lib/conversation-view.ts:423-452 | The previous slot is discarded, and the new timer holds the conversation and its ids. The slot stays reachable. |
| ReadStatus.ReadScheduler.Fire | extension/contents/lib/conversation-view.ts:434-451 | The live timer makes `FireCalls`, which for a reachable slot marks its own conversation read, with the pending ids when there are any. It leaves the slot idle. Without a timer nothing happens. The slot stays reachable. |
| ReadStatus.CancelledReadCallsNothing | extension/contents/lib/conversation-view.ts:413-451 | A read that is scheduled and then cancelled makes no call when the timer would fire. |
| ReadStatus.RescheduleMarksLatest | extension/contents/lib/conversation-view.ts:423-451 | After two schedules only the second conversation is marked read, with its own ids. |
| ReadStatus.ConversationMarkedRead | extension/contents/lib/conversation-view.ts:437-441 | A confirmed read drops the list cache. |
| ReadStatus.FireOfReachable | extension/contents/lib/conversation-view.ts:423-452 | In every reachable slot the live timer marks its own conversation read. |
| WebSocketHandler.TypingSlot.constructor | extension/contents/lib/conversation/websocket-handler.ts:18 | The module starts with no indicator recorded. |
| WebSocketHandler.ShowTypingIndicator | extension/contents/lib/conversation/websocket-handler.ts:20-33 | A recorded indicator is kept. Otherwise the typing user's name is recorded. |
| WebSocketHandler.HideTypingIndicator | extension/contents/lib/conversation/websocket-handler.ts:35-40 | No indicator is recorded afterwards. |
| WebSocketHandler.StaleIndicatorBlocksNextShow | extension/contents/lib/conversation/websocket-handler.ts:18-33 | Once an indicator is recorded, a later typing report, for instance from the next conversation, still shows the first name. |
| WebSocketHandler.OnMessage | extension/contents/lib/conversation/websocket-handler.ts:52-101 | Messages not from the counterpart are ignored, and the slot is left as it is. Otherwise the slot is cleared, the cache takes the message once, and it is rendered and marked read unless it is already shown. |
| WebSocketHandler.IncomingKeepsIdsUnique | extension/contents/lib/conversation/websocket-handler.ts:57-65 | An entry without repeated ids keeps none, holds the message afterwards, and keeps earlier messages in place. It is re-stamped only when the message was appended. |
| WebSocketHandler.SecondDeliveryChangesNothing | extension/contents/lib/conversation/websocket-handler.ts:57-72 | A second delivery of the same message changes neither the cache nor the view, and makes no call. |
| WebSocketHandler.OnTyping | extension/contents/lib/conversation/websocket-handler.ts:103-105 | The slot takes the typing user's name unless an indicator is already recorded. |
| WebSocketHandler.OnStopTyping | extension/contents/lib/conversation/websocket-handler.ts:107-109 | The slot is empty afterwards. |
| WebSocketHandler.OnMessagesRead | extension/contents/lib/conversation/websocket-handler.ts:111-122 | The loop over the receipt's ids computes `MarkedRead`. |
| WebSocketHandler.ReadReceiptOnlyTouchesSent | extension/contents/lib/conversation/websocket-handler.ts:111-122 | Only sent elements in the receipt that show a status change, and only to "read". Received elements and other ids are untouched, and a repeat changes nothing. |
| WebSocketHandler.OnReaction | extension/contents/lib/conversation/websocket-handler.ts:124-139 | A realtime reaction is `ApplyReaction` on the view and the cache. |
| WebSocketHandler.SetupWebSocketHandler | extension/contents/lib/conversation/websocket-handler.ts:142-148 | A successful join stores the cleanup and schedules the delayed read of the unread ids. A failed join changes neither. |
| ListView.BeginPrefetch | extension/contents/lib/list-view.ts:18-21 | No fetch happens iff the entry is fresh (under 30 s old). Otherwise the latest messages are fetched. |
| ListView.PrefetchAnswered | extension/contents/lib/list-view.ts:22-27 | An answer replaces the entry, stamped now. A failure leaves the cache alone. |
| ListView.PrefetchedStaysFresh | extension/contents/lib/list-view.ts:18-24 | A prefetched entry is fresh for exactly 30 s. |
| ListView.ChatRowsMeaning | extension/contents/lib/list-view.ts:39-50 | There is one row per conversation, in order. Each row carries the conversation's id, user name, avatar and account flag. It starts read with no unread count. Its display name is the other user's display name when that is non-empty, otherwise the user name. Its last message falls back to "", and its time to the update time. |
| ListView.GetAllChats | extension/contents/lib/list-view.ts:31-56 | The requests are the prefetches of the first five conversations. The rows are the mapped conversations, and the list cache holds them, stamped now. |
| ListView.PrefetchCallsMeaning | extension/contents/lib/list-view.ts:34-37 | A conversation is fetched iff it is among those given and its entry is not fresh. Every call is a latest-page fetch. |
| ListView.AtMostFivePrefetches | extension/contents/lib/list-view.ts:35 | At most five prefetches are made. |
| ListView.RenderListViewAnimated | extension/contents/lib/list-view.ts:148-179 | The rows shown are the cached ones while fresh, and always a fresh list is requested. |
| ListView.ListCacheFreshness | extension/contents/lib/list-view.ts:152-155 | A stored list is shown again for exactly 10 s, and after that an empty list is shown. |
| GithubScript.Script.CloseChatDrawer | extension/contents/github.ts:206-231 | Typing stops, and the subscription is cleaned up if present. No conversation stays current, and the view is the list. |
| GithubScript.Script.GoBackToList | extension/contents/github.ts:234-263 | Same teardown as `CloseChatDrawer`, then the cached rows are shown and a fresh list is requested. |
| GithubScript.TeardownTwice | extension/contents/github.ts:206-263 | The cleanup runs at most once: after a close, going back only stops typing and refreshes the list. |
| GithubScript.Script.OpenConversationView | extension/contents/github.ts:493-566 | The view and counterpart are set. Instant display needs a non-zero conversation id with cached messages and a non-zero user id, and then renders with sides by the user's id. The input is enabled exactly then. |
| GithubScript.Script.UserResolved | extension/contents/github.ts:568-572 | A known user id is kept. Otherwise the answer's id becomes the session's, with 0 read as none. |
| GithubScript.Script.LoadInitial | extension/contents/github.ts:597-687 | The conversation becomes current. Without instant display, the fetched list replaces the entry and is rendered with sides by the counterpart; a throwing fetch ends the opening. With instant display, a refresh is requested. Unread ids come from the list in use. |
| GithubScript.UnreadIdsMeaning | extension/contents/github.ts:638-640 | Every collected id belongs to a listed unread message from the counterpart, and every such message's id is collected. |
| GithubScript.Script.RefreshAnswered | extension/contents/github.ts:669-674 | The background refresh's answer replaces the conversation's entry, stamped now. |
| GithubScript.Script.Joined | extension/contents/github.ts:813-875 | A successful join stores the cleanup and marks the unread ids read at once when there are any. A failed join does neither. |
| GithubScript.Script.OnInput | extension/contents/github.ts:690-702 | Input reports typing and arms the idle timer. |
| GithubScript.Script.BeginSend | extension/contents/github.ts:714-753 | Blank text or a conversation id that is absent or 0 does nothing. Otherwise typing stops, the counter is bumped, a pending placeholder is appended, and the trimmed text is sent. |
| GithubScript.PlaceholderIdsDistinct | extension/contents/github.ts:726 | Different counter values give different placeholder ids. |
| GithubScript.Script.CompleteSend | extension/contents/github.ts:756-781 | The first element with the placeholder's id, if it is still shown, takes the message's id and "sent", and the message is pushed to the current conversation's entry, stamped now, whenever that entry exists, whatever the id (0 included). On failure only its status becomes "failed". |
| GithubScript.Script.OnMessage | extension/contents/github.ts:815-845 | Messages not from the counterpart are ignored. Otherwise the indicator goes, the message is pushed to the entry and appended to the view, and it is marked read, with no duplicate check. |
| GithubScript.DuplicateDeliveryAddsTwice | extension/contents/github.ts:821-825 | A message delivered twice while cached is held twice in the entry. |
| GithubScript.Drawer.ShowTypingIndicator | extension/contents/github.ts:787-803 | The indicator is shown with the name unless one is already shown. |
| GithubScript.Drawer.HideTypingIndicator | extension/contents/github.ts:805-810 | The indicator is gone afterwards. |
| GithubScript.Drawer.OnMessagesRead | extension/contents/github.ts:855-866 | The loop over the receipt's ids computes `ReadAll`. |
| GithubScript.ReadAllOnlyTouchesSent | extension/contents/github.ts:855-866 | A receipt keeps the elements' number. Only sent elements with a status change, and only to "read". |
| GithubScript.ReceiptMarksFirstElement | extension/contents/github.ts:856-864 | The first element with a receipt's id, if it is sent with a status, shows "read" afterwards. |
| GithubScript.ListFreshFor10Seconds | extension/contents/github.ts:327-335 | A stored list is shown again for exactly 10 s. Without one an empty list is shown. |
| Utils.FormatRelativeTime | extension/contents/lib/utils.ts:11-23 | The label is "now" under a minute. Then it is whole minutes under an hour, hours under a day, days under a week, and otherwise the date. The boundaries are exact and each count is in its range. |
| Utils.LabelShape | extension/contents/lib/utils.ts:18-21 | The compact labels are a positive number followed by m, h or d, or "now". |
| Profile.IsProfilePage | extension/contents/lib/profile.ts:4-36 | A profile page has one or two path segments, a first segment that is not a reserved GitHub path, and a profile header or vcard. These conditions are also sufficient. |
| Profile.ProfilePathRecognised | extension/contents/lib/profile.ts:4-36 | `/name` with a profile header or vcard is a profile page. |
| Profile.GetProfileUsername | extension/contents/lib/profile.ts:39-49 | With a vcard, the name is the trimmed vcard text with its first "@" removed, or none when that is empty. Without a vcard the first path segment is used. The name is never empty. |
| Profile.RemoveFirstAtMeaning | extension/contents/lib/profile.ts:42 | A text containing "@" loses exactly its first "@": the part before it, which has no "@", followed by the part after it. |
| Profile.VcardHandleWithoutAt | extension/contents/lib/profile.ts:39-44 | The vcard text "@alice" gives the name "alice". |
| Profile.GetProfileDisplayName | extension/contents/lib/profile.ts:62-67 | The trimmed full name is used if it is non-empty, otherwise the user name, otherwise "User". |
| Auth.GenerateState | backend/src/routes/auth.ts:21-25 | The state is two lower-case hex digits per byte. |
| Auth.DecodeGenerateState | backend/src/routes/auth.ts:21-25 | Hex decoding gives the bytes back. |
| Auth.StateIsInjective | backend/src/routes/auth.ts:21-25 | 32 bytes give 64 characters, and different bytes give different states. |
| Auth.OAuthStates.Start | backend/src/routes/auth.ts:63-65 | The state is recorded with its creation time. |
| Auth.OAuthStates.Callback | backend/src/routes/auth.ts:83-90 | A missing, empty or unknown state is rejected and the map is left alone. A known state is consumed, then a missing code is rejected. A state is never accepted twice. |
| Auth.OAuthStates.Cleanup | backend/src/routes/auth.ts:53-60 | Exactly the states older than ten minutes are removed. The rest keep their times. |
| Auth.SelectEmail | backend/src/routes/auth.ts:138-157 | The profile email wins. Otherwise the first primary verified email is used, then the first verified one, then none. The result is never empty. |
| Auth.ParseAuthorization | backend/src/routes/auth.ts:201-206 | A header is unauthorized iff it is missing or lacks the "Bearer " prefix. Otherwise the token is the rest of the header. |
| Auth.BearerRoundTrip | backend/src/routes/auth.ts:238-243 | "Bearer " followed by a token parses back to that token. |
| Auth.SessionExpiresAt | backend/src/routes/auth.ts:183 | A session expires 30 days after it is issued. |
| Auth.ProcessUser | backend/src/routes/auth.ts:270-320 | A failed or throwing fetch gives no email. A fetched list gives the selected email, or none when there is none or the update fails. |
| Auth.BackfillUserEmails | backend/src/routes/auth.ts:252-327 | Every user counts once, as a success or a failure. The successes are the users for whom an email was written. The updates are exactly one (id, email) pair per success, in the users' order. |
| Auth.UpdatesMeaning | backend/src/routes/auth.ts:252-327 | An (id, email) pair is among the updates iff some user with that id had that email written. |
| Auth.UpdatesCount | backend/src/routes/auth.ts:252-327 | There are as many updates as users with an email written. |

## Left out

- DOM structure, HTML strings, CSS classes, scrolling, focus, the text area's
  height and clearing the input are not modelled. The view is reduced to
  message elements (side, status, reactions), the typing indicator and
  whether the input is enabled.
- The emoji picker and popover, the action handler, the layout and
  navigation modules, the popup, the privacy page, analytics and the
  backend user routes are not part of this model.
- The lib `state` module is not part of this model. Its session variables
  are the fields of `State.Session`. Its TTLs are taken to be 30 s and 10 s,
  as `github.ts` declares them.
- The `~lib/api` module is not part of this model. Its calls are `Call`
  values and its answers are parameters. The prefetch answer in
  `list-view.ts` is modelled as a plain message list stored without
  `hasMore`.
- The two lib callers of `getMessages` read its answer differently.
  `list-view.ts` (lines 23-24) stores the answer itself as the entry's
  messages. `conversation-view.ts` (lines 656, 712 and 760) takes `messages`
  and `hasMore` out of it. The model takes each caller's own reading, so a
  prefetched entry holds a list of messages and can give instant display. If
  the answer is the object `conversation-view.ts` expects, a prefetched
  entry's `messages` is that object, its length test fails, and a prefetch
  never gives instant display; the model does not capture that reading.
- `read-status.ts`, which `websocket-handler.ts` imports, is not part of this
  model. `ReadStatus` models the same scheduler as written in
  `conversation-view.ts` lines 407-452.
- The copy of `updateReactionInDOM` in `conversation-view.ts` (lines
  251-405) is modelled once, in `Reactions`.
- The realtime callbacks written out again in `conversation-view.ts` (lines
  1016-1116) are modelled once, in `WebSocketHandler`, except for the typing
  indicator. The handler's indicator lives at module level
  (`websocket-handler.ts` line 18) and is modelled by `TypingSlot`, which
  opening another conversation does not reset. The copy in
  `conversation-view.ts` (line 988) is local to each render and is modelled
  by `Dom.typingIndicator`, which `ConversationView.OpenConversationView`
  clears. The view's own `onMessage`, `onTyping` and `onStopTyping` act on
  it (`ConversationView.OnMessageInView`, `OnTypingInView` and
  `OnStopTypingInView`).
- The helpers `github.ts` repeats are modelled once, in `Profile`, `Utils`
  and `ListView`. These are `isProfilePage`, `getProfileUsername`,
  `getProfileDisplayName`, `formatRelativeTime`, `prefetchMessages`,
  `getAllChats` and the row mapping. `GithubScript` keeps only its own
  session and view behaviour.
- Concurrency and real timers are reduced to atomic steps; interleavings
  are not modelled:
  - An asynchronous operation is split into a step that starts it and a
    step that receives its answer.
  - The 1.5 s read timer is modelled as an explicit `Fire` step.
  - The 2 s typing-idle timer is modelled only as the `typingTimeout` flag;
    its firing (a stop-typing call) is not modelled.
- The "Loading...", "empty conversation" and "could not start" texts and the
  header's "not on platform" indicator are not modelled. The
  `getOrCreateConversation` failure is modelled only as the opening not
  going on.
- `github.ts` functions do nothing without the drawer element. The model
  assumes the drawer is present.
- Date parsing, `formatTime`, `toLocaleDateString` and `escapeHtml` are not
  modelled. Times are integers in milliseconds, and the locale date label
  carries the time stamp.
- In the backend, the GitHub token exchange, user fetch, SQL, JWT signing
  and verification, random bytes, the 100 ms pause and logging are not
  modelled:
  - The random bytes are a parameter of `Auth.GenerateState`.
  - Each backfill user's fetch outcome is a parameter of
    `Auth.BackfillUserEmails`.
  - `/auth/me` and `/auth/logout` are modelled only as far as the header
    check (`Auth.ParseAuthorization`).
- `clearUnreadInCache` is not called anywhere in the sources. It is modelled
  as written.
- Reactions.UpdateReactionInDOM: the badge's title is not covered by the
  agreement invariant. `AddThenRollback` and `RemoveThenRollback` therefore
  restore counts, flags and the cached reactions, but not the title text.
  After a remove then re-add, the re-added reaction is last in the cached
  list instead of in its old place.
- Reactions.HandleReactionOptimistic: the rollback round trips are stated
  for messages that are both rendered and cached with agreeing badges. They
  are not stated for a message missing from the cache, where the duplicate
  guard of lines 22-40 cannot apply.
