/** Reaction badges and the cached reaction lists, kept in step by
    `updateReactionInDOM` and `handleReactionOptimistic`
    (extension/contents/lib/conversation/reactions.ts).

    A rendered message shows one badge per emoji (the number of reactions,
    a "user-reacted" flag for the signed-in user, the reacting users' names
    in its title); the message cache holds the same reactions as a list of
    (emoji, user id, user name) records. The specification functions below
    give the effect of one reaction event on both; the methods perform it
    step by step on the session and the rendered conversation. */
module Reactions {
  import opened Common
  import opened State

  /** One call of `updateReactionInDOM`; `isAdding` is true for an added
      reaction and false for a removed one. */
  datatype ReactionEvent = ReactionEvent(
    messageId: string,
    emoji: string,
    userId: string,
    username: string,
    isAdding: bool)

  /** What the reaction code reads and writes: the message elements and the
      message cache. */
  datatype Scene = Scene(dom: map<string, MessageElement>, cache: map<string, CacheEntry>)

  /** The answer of the add/remove reaction API call. */
  datatype ApiOutcome = Answered(success: bool) | Threw

  // ---------------------------------------------------------------------------
  // Badges

  /** The badges of a reactions container; a missing container shows none. */
  function BadgesOf(c: Option<seq<Badge>>): seq<Badge> {
    c.GetOr([])
  }

  /** `container.querySelector('[data-emoji="…"]')`: the first badge for the
      emoji. */
  function FindBadge(bs: seq<Badge>, emoji: string): (r: Option<nat>)
    ensures r.Some? ==> r.value < |bs| && bs[r.value].emoji == emoji
    ensures r.Some? ==> forall j :: 0 <= j < r.value ==> bs[j].emoji != emoji
    ensures r.None? ==> forall j :: 0 <= j < |bs| ==> bs[j].emoji != emoji
  {
    if bs == [] then None
    else if bs[0].emoji == emoji then Some(0)
    else match FindBadge(bs[1..], emoji)
      case None => None
      case Some(k) => Some(k + 1)
  }

  /** The comma-joined title after a user name is added to it. */
  function TitleWith(title: string, username: string): string {
    if title != "" then title + ", " + username else username
  }

  /** The title after every occurrence of a user name is removed from it. */
  function TitleWithout(title: string, username: string): string {
    Join(Without(Split(title, ", "), username), ", ")
  }

  /** The badges after an added reaction (reactions.ts lines 44-94): the
      container is created when missing; the emoji's badge is incremented,
      its title extended, and its flag set when the reacting user is the
      signed-in one; or a new badge with count 1 is appended. */
  function AddBadge(c: Option<seq<Badge>>, ev: ReactionEvent, current: Option<string>): seq<Badge> {
    var bs := BadgesOf(c);
    match FindBadge(bs, ev.emoji)
    case Some(i) => bs[i := PlusOne(bs[i], ev, current)]
    case None => bs + [Badge(ev.emoji, 1, current == Some(ev.userId), ev.username)]
  }

  /** A badge that takes one more reaction: one more, the user name added
      to the title, the flag set when the reacting user is the signed-in one. */
  function PlusOne(b: Badge, ev: ReactionEvent, current: Option<string>): Badge {
    b.(count := b.count + 1,
       title := TitleWith(b.title, ev.username),
       userReacted := b.userReacted || current == Some(ev.userId))
  }

  /** What a removed reaction does to the container: nothing when there is
      no container or no badge for the emoji (the handler then returns
      early), else its new state. */
  datatype BadgeChange = Unchanged | Changed(container: Option<seq<Badge>>)

  /** The badges after a removed reaction (reactions.ts lines 96-131): a
      count of at most 1 deletes the badge, and the container with it when
      it is left empty; a larger one is decremented, the user name filtered
      out of the title, and the flag cleared for the signed-in user. */
  function RemoveBadge(c: Option<seq<Badge>>, ev: ReactionEvent, current: Option<string>): BadgeChange {
    match c
    case None => Unchanged
    case Some(bs) =>
      match FindBadge(bs, ev.emoji)
      case None => Unchanged
      case Some(i) =>
        if bs[i].count <= 1 then
          var rest := bs[..i] + bs[i + 1..];
          Changed(if rest == [] then None else Some(rest))
        else
          Changed(Some(bs[i := LessOne(bs[i], ev, current)]))
  }

  /** A badge that keeps reactions after one is removed: one less, the user
      name filtered out of the title, the flag cleared for the signed-in user. */
  function LessOne(b: Badge, ev: ReactionEvent, current: Option<string>): Badge {
    b.(count := b.count - 1,
       title := TitleWithout(b.title, ev.username),
       userReacted := if current == Some(ev.userId) then false else b.userReacted)
  }

  // ---------------------------------------------------------------------------
  // Cached reaction lists

  /** Some reaction of the list is by `userId` with `emoji`. */
  predicate HasPair(rs: seq<Reaction>, emoji: string, userId: string)
    decreases |rs|
  {
    rs != [] && ((rs[0].emoji == emoji && rs[0].userId == userId) || HasPair(rs[1..], emoji, userId))
  }

  /** No (emoji, user id) pair occurs twice. */
  predicate UniquePairs(rs: seq<Reaction>)
    decreases |rs|
  {
    rs == [] || (!HasPair(rs[1..], rs[0].emoji, rs[0].userId) && UniquePairs(rs[1..]))
  }

  /** The number of reactions with the emoji. */
  function CountEmoji(rs: seq<Reaction>, emoji: string): nat
    decreases |rs|
  {
    if rs == [] then 0 else (if rs[0].emoji == emoji then 1 else 0) + CountEmoji(rs[1..], emoji)
  }

  /** The signed-in user is among the emoji's reactions. */
  predicate ReactedBy(rs: seq<Reaction>, emoji: string, current: Option<string>) {
    current.Some? && HasPair(rs, emoji, current.value)
  }

  /** `rs.filter(r => !(r.emoji === emoji && r.user_id === userId))` */
  function RemovePair(rs: seq<Reaction>, emoji: string, userId: string): (r: seq<Reaction>)
    ensures |r| <= |rs|
    decreases |rs|
  {
    if rs == [] then []
    else if rs[0].emoji == emoji && rs[0].userId == userId then RemovePair(rs[1..], emoji, userId)
    else [rs[0]] + RemovePair(rs[1..], emoji, userId)
  }

  /** A message's reactions; an absent list is empty. */
  function ReactionsOf(m: Message): seq<Reaction> {
    m.reactions.GetOr([])
  }

  /** The cached list after the event (reactions.ts lines 139-157): an add
      pushes the reaction unless the pair is already there, a remove filters
      out every reaction with the pair. */
  function ReactionsAfter(rs: seq<Reaction>, ev: ReactionEvent): seq<Reaction> {
    if ev.isAdding then
      (if HasPair(rs, ev.emoji, ev.userId) then rs else rs + [Reaction(ev.emoji, ev.userId, ev.username)])
    else RemovePair(rs, ev.emoji, ev.userId)
  }

  /** The cached copy of a message of the open conversation, if any. */
  function CachedMessage(cache: map<string, CacheEntry>, conv: Option<string>, id: string): Option<Message> {
    if !Truthy(conv) || conv.value !in cache then None
    else match FindMessage(cache[conv.value].messages, id)
      case None => None
      case Some(i) => Some(cache[conv.value].messages[i])
  }

  /** The event repeats what the cache already records (reactions.ts lines
      22-40): an add of a present pair or a remove of an absent one, on a
      cached message that has a reactions list. */
  predicate IsDuplicate(cache: map<string, CacheEntry>, conv: Option<string>, ev: ReactionEvent) {
    var m := CachedMessage(cache, conv, ev.messageId);
    m.Some? && m.value.reactions.Some?
    && ev.isAdding == HasPair(m.value.reactions.value, ev.emoji, ev.userId)
  }

  /** The message cache after the event: the cached message's list updated
      and the entry's timestamp set to `now`. */
  function CacheAfter(cache: map<string, CacheEntry>, conv: Option<string>, ev: ReactionEvent, now: int): map<string, CacheEntry> {
    if !Truthy(conv) || conv.value !in cache then cache
    else
      var entry := cache[conv.value];
      match FindMessage(entry.messages, ev.messageId)
      case None => cache
      case Some(i) =>
        var m := entry.messages[i];
        cache[conv.value := entry.(messages := entry.messages[i := m.(reactions := Some(ReactionsAfter(ReactionsOf(m), ev)))],
                                   timestamp := now)]
  }

  /** `updateReactionInDOM` as a function of the scene: the rendered message
      and the cache the open conversation `conv` names, with the signed-in
      user `current` and the clock reading `now`. */
  function ApplyReaction(s: Scene, conv: Option<string>, ev: ReactionEvent, current: Option<string>, now: int): Scene {
    if ev.messageId !in s.dom || IsDuplicate(s.cache, conv, ev) then s
    else
      var el := s.dom[ev.messageId];
      if ev.isAdding then
        Scene(s.dom[ev.messageId := el.(reactions := Some(AddBadge(el.reactions, ev, current)))], CacheAfter(s.cache, conv, ev, now))
      else match RemoveBadge(el.reactions, ev, current)
        case Unchanged => s
        case Changed(c) => Scene(s.dom[ev.messageId := el.(reactions := c)], CacheAfter(s.cache, conv, ev, now))
  }

  /** The badges of a message agree with its cached reactions: there is a
      container only when there are badges, one badge per emoji, each
      showing the number of reactions with its emoji and flagged exactly
      when the signed-in user is among them, every reacted emoji has a
      badge, and no pair is cached twice. Titles are not part of it. */
  ghost predicate Consistent(c: Option<seq<Badge>>, rs: seq<Reaction>, current: Option<string>) {
    var bs := BadgesOf(c);
    (c.Some? ==> bs != [])
    && DistinctEmojis(bs) && CountsAgree(bs, rs) && FlagsAgree(bs, rs, current) && Covered(bs, rs)
    && UniquePairs(rs)
  }

  predicate DistinctEmojis(bs: seq<Badge>) {
    forall i, j :: 0 <= i < j < |bs| ==> bs[i].emoji != bs[j].emoji
  }

  predicate CountsAgree(bs: seq<Badge>, rs: seq<Reaction>) {
    forall i :: 0 <= i < |bs| ==> bs[i].count == CountEmoji(rs, bs[i].emoji) >= 1
  }

  predicate FlagsAgree(bs: seq<Badge>, rs: seq<Reaction>, current: Option<string>) {
    forall i :: 0 <= i < |bs| ==> (bs[i].userReacted <==> ReactedBy(rs, bs[i].emoji, current))
  }

  ghost predicate Covered(bs: seq<Badge>, rs: seq<Reaction>) {
    forall e :: CountEmoji(rs, e) > 0 ==> FindBadge(bs, e).Some?
  }

  /** The count and flag a container shows for an emoji, or None without a
      badge for it. */
  function Lookup(c: Option<seq<Badge>>, emoji: string): Option<(int, bool)> {
    var bs := BadgesOf(c);
    match FindBadge(bs, emoji)
    case None => None
    case Some(i) => Some((bs[i].count, bs[i].userReacted))
  }

  // ---------------------------------------------------------------------------
  // The handlers

  /** `updateReactionInDOM(messageId, emoji, reactionUserId, reactionUsername,
      isAdding, currentUserIdVal)`. */
  method UpdateReactionInDOM(session: Session, dom: Dom, ev: ReactionEvent, current: Option<string>, now: int)
    modifies dom`messages, session`messageCache
    ensures Scene(dom.messages, session.messageCache)
         == ApplyReaction(Scene(old(dom.messages), old(session.messageCache)), session.currentConversationId, ev, current, now)
  {
    if ev.messageId !in dom.messages {
      return;
    }
    var conv := session.currentConversationId;
    if IsDuplicate(session.messageCache, conv, ev) {
      return;
    }
    var el := dom.messages[ev.messageId];
    if ev.isAdding {
      dom.messages := dom.messages[ev.messageId := el.(reactions := Some(AddBadge(el.reactions, ev, current)))];
    } else {
      var change := RemoveBadge(el.reactions, ev, current);
      if change.Unchanged? {
        return;
      }
      dom.messages := dom.messages[ev.messageId := el.(reactions := change.container)];
    }
    if Truthy(conv) && conv.value in session.messageCache {
      var entry := session.messageCache[conv.value];
      var found := FindMessage(entry.messages, ev.messageId);
      if found.Some? {
        var m := entry.messages[found.value];
        var list := ReactionsOf(m);
        if ev.isAdding {
          if !HasPair(list, ev.emoji, ev.userId) {
            list := list + [Reaction(ev.emoji, ev.userId, ev.username)];
          }
        } else {
          list := RemovePair(list, ev.emoji, ev.userId);
        }
        var messages := entry.messages[found.value := m.(reactions := Some(list))];
        session.messageCache := session.messageCache[conv.value := entry.(messages := messages, timestamp := now)];
      }
    }
  }

  /** The event the optimistic handler applies: the reacting user is
      `userId || ""`. */
  function OptimisticEvent(messageId: string, emoji: string, isAdding: bool, userId: Option<string>, username: string): ReactionEvent {
    ReactionEvent(messageId, emoji, if Truthy(userId) then userId.value else "", username, isAdding)
  }

  /** The API call answered no, or failed. */
  predicate RollsBack(outcome: ApiOutcome) {
    outcome.Threw? || !outcome.success
  }

  /** `handleReactionOptimistic`: apply the change at once, issue the API
      call, and apply the opposite change when the call answers false or
      throws. The call's answer is `outcome`; `now` and `later` are the
      clock readings of the two updates. */
  method HandleReactionOptimistic(session: Session, dom: Dom, conversationId: string, messageId: string, emoji: string,
                                  isAdding: bool, userId: Option<string>, username: string,
                                  outcome: ApiOutcome, now: int, later: int)
    returns (request: Call)
    modifies dom`messages, session`messageCache
    ensures request == if isAdding then AddReaction(conversationId, messageId, emoji) else RemoveReaction(conversationId, messageId, emoji)
    ensures var ev := OptimisticEvent(messageId, emoji, isAdding, userId, username);
            var conv := session.currentConversationId;
            var applied := ApplyReaction(Scene(old(dom.messages), old(session.messageCache)), conv, ev, userId, now);
            (Scene(dom.messages, session.messageCache)
             == if RollsBack(outcome) then ApplyReaction(applied, conv, ev.(isAdding := !isAdding), userId, later) else applied)
  {
    var ev := OptimisticEvent(messageId, emoji, isAdding, userId, username);
    UpdateReactionInDOM(session, dom, ev, userId, now);
    request := if isAdding then AddReaction(conversationId, messageId, emoji) else RemoveReaction(conversationId, messageId, emoji);
    if RollsBack(outcome) {
      UpdateReactionInDOM(session, dom, ev.(isAdding := !isAdding), userId, later);
    }
  }

  // ---------------------------------------------------------------------------
  // Facts about one event

  /** An event for a message that is not rendered changes nothing, neither
      the badges nor the cache. */
  lemma NotRenderedUnchanged(s: Scene, conv: Option<string>, ev: ReactionEvent, current: Option<string>, now: int)
    requires ev.messageId !in s.dom
    ensures ApplyReaction(s, conv, ev, current, now) == s
  {
  }

  /** An add of a cached pair and a remove of an uncached one are dropped. */
  lemma DuplicateDropped(s: Scene, conv: Option<string>, ev: ReactionEvent, current: Option<string>, now: int)
    requires CachedMessage(s.cache, conv, ev.messageId).Some?
    requires CachedMessage(s.cache, conv, ev.messageId).value.reactions.Some?
    requires ev.isAdding == HasPair(CachedMessage(s.cache, conv, ev.messageId).value.reactions.value, ev.emoji, ev.userId)
    ensures ApplyReaction(s, conv, ev, current, now) == s
  {
  }

  /** An add on an emoji that already has a badge increments that badge by
      exactly one, appends the user name to its title, and sets its flag
      when the reacting user is the signed-in one, else keeps it; the other
      badges stay as they were. */
  lemma AddToExistingBadge(s: Scene, conv: Option<string>, ev: ReactionEvent, current: Option<string>, now: int, i: nat)
    requires ev.isAdding && ev.messageId in s.dom && !IsDuplicate(s.cache, conv, ev)
    requires var bs := BadgesOf(s.dom[ev.messageId].reactions); i < |bs| && bs[i].emoji == ev.emoji
    requires var bs := BadgesOf(s.dom[ev.messageId].reactions); forall j :: 0 <= j < i ==> bs[j].emoji != ev.emoji
    ensures var t := ApplyReaction(s, conv, ev, current, now);
            var bs := BadgesOf(s.dom[ev.messageId].reactions);
            ev.messageId in t.dom && t.dom[ev.messageId].reactions.Some?
            && var bs' := t.dom[ev.messageId].reactions.value;
            |bs'| == |bs|
            && bs'[i].emoji == ev.emoji
            && bs'[i].count == bs[i].count + 1
            && bs'[i].title == (if bs[i].title == "" then ev.username else bs[i].title + ", " + ev.username)
            && (bs'[i].userReacted <==> bs[i].userReacted || current == Some(ev.userId))
            && forall j :: 0 <= j < |bs| && j != i ==> bs'[j] == bs[j]
  {
  }

  /** An add on an emoji without a badge appends a badge with count 1, the
      user name as title, and the flag set exactly for the signed-in user. */
  lemma AddNewBadge(s: Scene, conv: Option<string>, ev: ReactionEvent, current: Option<string>, now: int)
    requires ev.isAdding && ev.messageId in s.dom && !IsDuplicate(s.cache, conv, ev)
    requires var bs := BadgesOf(s.dom[ev.messageId].reactions); forall j :: 0 <= j < |bs| ==> bs[j].emoji != ev.emoji
    ensures var t := ApplyReaction(s, conv, ev, current, now);
            ev.messageId in t.dom
            && t.dom[ev.messageId].reactions
               == Some(BadgesOf(s.dom[ev.messageId].reactions) + [Badge(ev.emoji, 1, current == Some(ev.userId), ev.username)])
  {
    var bs := BadgesOf(s.dom[ev.messageId].reactions);
    assert FindBadge(bs, ev.emoji).None?;
  }

  /** A remove on a badge showing at most 1 deletes the badge, and drops the
      container once it is empty. */
  lemma RemoveLastOfBadge(s: Scene, conv: Option<string>, ev: ReactionEvent, current: Option<string>, now: int, i: nat)
    requires !ev.isAdding && ev.messageId in s.dom && !IsDuplicate(s.cache, conv, ev)
    requires s.dom[ev.messageId].reactions.Some?
    requires var bs := s.dom[ev.messageId].reactions.value; i < |bs| && bs[i].emoji == ev.emoji && bs[i].count <= 1
    requires var bs := s.dom[ev.messageId].reactions.value; forall j :: 0 <= j < i ==> bs[j].emoji != ev.emoji
    ensures var t := ApplyReaction(s, conv, ev, current, now);
            var bs := s.dom[ev.messageId].reactions.value;
            ev.messageId in t.dom
            && BadgesOf(t.dom[ev.messageId].reactions) == bs[..i] + bs[i + 1..]
            && (t.dom[ev.messageId].reactions.None? <==> |bs| == 1)
  {
  }

  /** A remove on a badge showing more than 1 decrements it, filters the
      user name out of its title, and clears its flag for the signed-in
      user only. */
  lemma RemoveDecrements(s: Scene, conv: Option<string>, ev: ReactionEvent, current: Option<string>, now: int, i: nat)
    requires !ev.isAdding && ev.messageId in s.dom && !IsDuplicate(s.cache, conv, ev)
    requires s.dom[ev.messageId].reactions.Some?
    requires var bs := s.dom[ev.messageId].reactions.value; i < |bs| && bs[i].emoji == ev.emoji && bs[i].count > 1
    requires var bs := s.dom[ev.messageId].reactions.value; forall j :: 0 <= j < i ==> bs[j].emoji != ev.emoji
    ensures var t := ApplyReaction(s, conv, ev, current, now);
            var bs := s.dom[ev.messageId].reactions.value;
            ev.messageId in t.dom && t.dom[ev.messageId].reactions.Some?
            && var bs' := t.dom[ev.messageId].reactions.value;
            |bs'| == |bs|
            && bs'[i].count == bs[i].count - 1
            && bs'[i].title == TitleWithout(bs[i].title, ev.username)
            && bs'[i].userReacted == (bs[i].userReacted && current != Some(ev.userId))
            && forall j :: 0 <= j < |bs| && j != i ==> bs'[j] == bs[j]
  {
  }

  /** A remove that finds no container or no badge for the emoji leaves
      the badges and the cache as they were. */
  lemma RemoveWithoutBadgeUnchanged(s: Scene, conv: Option<string>, ev: ReactionEvent, current: Option<string>, now: int)
    requires !ev.isAdding && ev.messageId in s.dom
    requires FindBadge(BadgesOf(s.dom[ev.messageId].reactions), ev.emoji).None?
    ensures ApplyReaction(s, conv, ev, current, now) == s
  {
  }

  // ---------------------------------------------------------------------------
  // Reaction lists under push and filter

  lemma {:induction false} HasPairAppend(rs: seq<Reaction>, r: Reaction, emoji: string, userId: string)
    ensures HasPair(rs + [r], emoji, userId) == (HasPair(rs, emoji, userId) || (r.emoji == emoji && r.userId == userId))
    decreases |rs|
  {
    if rs != [] {
      assert (rs + [r])[1..] == rs[1..] + [r];
      HasPairAppend(rs[1..], r, emoji, userId);
    }
  }

  lemma {:induction false} CountAppend(rs: seq<Reaction>, r: Reaction, emoji: string)
    ensures CountEmoji(rs + [r], emoji) == CountEmoji(rs, emoji) + (if r.emoji == emoji then 1 else 0)
    decreases |rs|
  {
    if rs != [] {
      assert (rs + [r])[1..] == rs[1..] + [r];
      CountAppend(rs[1..], r, emoji);
    }
  }

  /** Pushing a pair that is absent keeps the pairs unique. */
  lemma {:induction false} UniqueAppend(rs: seq<Reaction>, r: Reaction)
    requires UniquePairs(rs) && !HasPair(rs, r.emoji, r.userId)
    ensures UniquePairs(rs + [r])
    decreases |rs|
  {
    if rs != [] {
      assert (rs + [r])[1..] == rs[1..] + [r];
      HasPairAppend(rs[1..], r, rs[0].emoji, rs[0].userId);
      UniqueAppend(rs[1..], r);
    }
  }

  /** Filtering a pair out removes exactly that pair. */
  lemma {:induction false} HasPairRemove(rs: seq<Reaction>, emoji: string, userId: string, e: string, u: string)
    ensures HasPair(RemovePair(rs, emoji, userId), e, u) == (HasPair(rs, e, u) && !(e == emoji && u == userId))
    decreases |rs|
  {
    if rs != [] {
      HasPairRemove(rs[1..], emoji, userId, e, u);
      if !(rs[0].emoji == emoji && rs[0].userId == userId) {
        assert ([rs[0]] + RemovePair(rs[1..], emoji, userId))[1..] == RemovePair(rs[1..], emoji, userId);
      }
    }
  }

  /** With unique pairs, filtering a present pair out lowers its emoji's
      count by one and leaves the other emojis' counts alone. */
  lemma {:induction false} CountRemove(rs: seq<Reaction>, emoji: string, userId: string, e: string)
    requires UniquePairs(rs)
    ensures CountEmoji(RemovePair(rs, emoji, userId), e)
         == CountEmoji(rs, e) - (if e == emoji && HasPair(rs, emoji, userId) then 1 else 0)
    decreases |rs|
  {
    if rs != [] {
      CountRemove(rs[1..], emoji, userId, e);
      if rs[0].emoji == emoji && rs[0].userId == userId {
      } else {
        assert ([rs[0]] + RemovePair(rs[1..], emoji, userId))[1..] == RemovePair(rs[1..], emoji, userId);
      }
    }
  }

  lemma {:induction false} UniqueRemove(rs: seq<Reaction>, emoji: string, userId: string)
    requires UniquePairs(rs)
    ensures UniquePairs(RemovePair(rs, emoji, userId))
    decreases |rs|
  {
    if rs != [] {
      UniqueRemove(rs[1..], emoji, userId);
      HasPairRemove(rs[1..], emoji, userId, rs[0].emoji, rs[0].userId);
      if !(rs[0].emoji == emoji && rs[0].userId == userId) {
        assert ([rs[0]] + RemovePair(rs[1..], emoji, userId))[1..] == RemovePair(rs[1..], emoji, userId);
      }
    }
  }

  /** Filtering out an absent pair changes nothing. */
  lemma {:induction false} RemoveAbsent(rs: seq<Reaction>, emoji: string, userId: string)
    requires !HasPair(rs, emoji, userId)
    ensures RemovePair(rs, emoji, userId) == rs
    decreases |rs|
  {
    if rs != [] {
      RemoveAbsent(rs[1..], emoji, userId);
      assert [rs[0]] + rs[1..] == rs;
    }
  }

  lemma {:induction false} PairCounts(rs: seq<Reaction>, emoji: string, userId: string)
    requires HasPair(rs, emoji, userId)
    ensures CountEmoji(rs, emoji) > 0
    decreases |rs|
  {
    if rs[0].emoji != emoji {
      PairCounts(rs[1..], emoji, userId);
    }
  }

  /** Filtering out a pair that was just pushed gives the list back. */
  lemma {:induction false} RemoveAfterAppend(rs: seq<Reaction>, r: Reaction)
    requires !HasPair(rs, r.emoji, r.userId)
    ensures RemovePair(rs + [r], r.emoji, r.userId) == rs
    decreases |rs|
  {
    if rs == [] {
      assert RemovePair([r], r.emoji, r.userId) == RemovePair([], r.emoji, r.userId);
    } else {
      assert (rs + [r])[1..] == rs[1..] + [r];
      RemoveAfterAppend(rs[1..], r);
      assert [rs[0]] + rs[1..] == rs;
    }
  }

  lemma {:induction false} MemberHasPair(rs: seq<Reaction>, x: Reaction)
    requires x in rs
    ensures HasPair(rs, x.emoji, x.userId)
    decreases |rs|
  {
    if rs[0] != x {
      assert x in rs[1..];
      MemberHasPair(rs[1..], x);
    }
  }

  /** With unique pairs, a reaction is identified by its pair. */
  lemma {:induction false} UniquePairMember(rs: seq<Reaction>, x: Reaction, y: Reaction)
    requires UniquePairs(rs) && x in rs && y in rs && x.emoji == y.emoji && x.userId == y.userId
    ensures x == y
    decreases |rs|
  {
    if x != rs[0] && y != rs[0] {
      assert x in rs[1..] && y in rs[1..];
      UniquePairMember(rs[1..], x, y);
    } else if x != rs[0] {
      assert x in rs[1..];
      MemberHasPair(rs[1..], x);
    } else if y != rs[0] {
      assert y in rs[1..];
      MemberHasPair(rs[1..], y);
    }
  }

  lemma {:induction false} MemberRemove(rs: seq<Reaction>, emoji: string, userId: string, x: Reaction)
    ensures x in RemovePair(rs, emoji, userId) <==> x in rs && !(x.emoji == emoji && x.userId == userId)
    decreases |rs|
  {
    if rs != [] {
      MemberRemove(rs[1..], emoji, userId, x);
      assert x in rs <==> x == rs[0] || x in rs[1..];
    }
  }

  // ---------------------------------------------------------------------------
  // Badges and cache stay in agreement

  /** An add of an absent pair keeps the badges in agreement with the list
      extended by the new reaction. */
  lemma BadgesAfterAdd(c: Option<seq<Badge>>, rs: seq<Reaction>, ev: ReactionEvent, current: Option<string>)
    requires Consistent(c, rs, current) && !HasPair(rs, ev.emoji, ev.userId)
    ensures Consistent(Some(AddBadge(c, ev, current)), rs + [Reaction(ev.emoji, ev.userId, ev.username)], current)
  {
    var bs := BadgesOf(c);
    var r := Reaction(ev.emoji, ev.userId, ev.username);
    var rs' := rs + [r];
    UniqueAppend(rs, r);
    var f := FindBadge(bs, ev.emoji);
    if f.Some? {
      var i := f.value;
      AddExisting(bs, rs, ev, current, i);
      var bs' := bs[i := PlusOne(bs[i], ev, current)];
      assert AddBadge(c, ev, current) == bs';
      ConsistentOf(Some(bs'), bs', rs', current);
    } else {
      AddFresh(bs, rs, ev, current);
      var bs' := bs + [Badge(ev.emoji, 1, current == Some(ev.userId), ev.username)];
      assert AddBadge(c, ev, current) == bs';
      ConsistentOf(Some(bs'), bs', rs', current);
    }
  }

  lemma AddExisting(bs: seq<Badge>, rs: seq<Reaction>, ev: ReactionEvent, current: Option<string>, i: nat)
    requires DistinctEmojis(bs) && CountsAgree(bs, rs) && FlagsAgree(bs, rs, current) && Covered(bs, rs)
    requires i < |bs| && bs[i].emoji == ev.emoji
    ensures var bs' := bs[i := PlusOne(bs[i], ev, current)];
            var rs' := rs + [Reaction(ev.emoji, ev.userId, ev.username)];
            DistinctEmojis(bs') && CountsAgree(bs', rs') && FlagsAgree(bs', rs', current) && Covered(bs', rs')
  {
    var bs' := bs[i := PlusOne(bs[i], ev, current)];
    assert forall j :: 0 <= j < |bs'| ==> bs'[j].emoji == bs[j].emoji;
    AddExistingCounts(bs, rs, ev, current, i);
    AddExistingFlags(bs, rs, ev, current, i);
    AddExistingCover(bs, rs, ev, current, i);
  }

  lemma AddExistingCounts(bs: seq<Badge>, rs: seq<Reaction>, ev: ReactionEvent, current: Option<string>, i: nat)
    requires DistinctEmojis(bs) && CountsAgree(bs, rs) && i < |bs| && bs[i].emoji == ev.emoji
    ensures CountsAgree(bs[i := PlusOne(bs[i], ev, current)], rs + [Reaction(ev.emoji, ev.userId, ev.username)])
  {
    var r := Reaction(ev.emoji, ev.userId, ev.username);
    var bs' := bs[i := PlusOne(bs[i], ev, current)];
    forall j | 0 <= j < |bs'| ensures bs'[j].count == CountEmoji(rs + [r], bs'[j].emoji) >= 1 {
      assert bs'[j].emoji == bs[j].emoji;
      CountAppend(rs, r, bs[j].emoji);
    }
  }

  lemma AddExistingFlags(bs: seq<Badge>, rs: seq<Reaction>, ev: ReactionEvent, current: Option<string>, i: nat)
    requires DistinctEmojis(bs) && FlagsAgree(bs, rs, current) && i < |bs| && bs[i].emoji == ev.emoji
    ensures FlagsAgree(bs[i := PlusOne(bs[i], ev, current)], rs + [Reaction(ev.emoji, ev.userId, ev.username)], current)
  {
    var r := Reaction(ev.emoji, ev.userId, ev.username);
    var bs' := bs[i := PlusOne(bs[i], ev, current)];
    forall j | 0 <= j < |bs'| ensures bs'[j].userReacted <==> ReactedBy(rs + [r], bs'[j].emoji, current) {
      if current.Some? {
        HasPairAppend(rs, r, bs[j].emoji, current.value);
      }
    }
  }

  lemma AddExistingCover(bs: seq<Badge>, rs: seq<Reaction>, ev: ReactionEvent, current: Option<string>, i: nat)
    requires Covered(bs, rs) && i < |bs| && bs[i].emoji == ev.emoji
    ensures Covered(bs[i := PlusOne(bs[i], ev, current)], rs + [Reaction(ev.emoji, ev.userId, ev.username)])
  {
    var r := Reaction(ev.emoji, ev.userId, ev.username);
    var bs' := bs[i := PlusOne(bs[i], ev, current)];
    forall e | CountEmoji(rs + [r], e) > 0 ensures FindBadge(bs', e).Some? {
      CountAppend(rs, r, e);
      if e == ev.emoji {
        assert bs'[i].emoji == e;
      } else {
        var k := FindBadge(bs, e).value;
        assert bs'[k].emoji == e;
      }
    }
  }

  lemma AddFresh(bs: seq<Badge>, rs: seq<Reaction>, ev: ReactionEvent, current: Option<string>)
    requires DistinctEmojis(bs) && CountsAgree(bs, rs) && FlagsAgree(bs, rs, current) && Covered(bs, rs)
    requires FindBadge(bs, ev.emoji).None?
    ensures var bs' := bs + [Badge(ev.emoji, 1, current == Some(ev.userId), ev.username)];
            var rs' := rs + [Reaction(ev.emoji, ev.userId, ev.username)];
            DistinctEmojis(bs') && CountsAgree(bs', rs') && FlagsAgree(bs', rs', current) && Covered(bs', rs')
  {
    assert CountEmoji(rs, ev.emoji) == 0;
    AddFreshCounts(bs, rs, ev, current);
    AddFreshFlags(bs, rs, ev, current);
    AddFreshCover(bs, rs, ev, current);
  }

  lemma AddFreshCounts(bs: seq<Badge>, rs: seq<Reaction>, ev: ReactionEvent, current: Option<string>)
    requires CountsAgree(bs, rs) && CountEmoji(rs, ev.emoji) == 0
    ensures CountsAgree(bs + [Badge(ev.emoji, 1, current == Some(ev.userId), ev.username)],
                        rs + [Reaction(ev.emoji, ev.userId, ev.username)])
  {
    var r := Reaction(ev.emoji, ev.userId, ev.username);
    var bs' := bs + [Badge(ev.emoji, 1, current == Some(ev.userId), ev.username)];
    forall j | 0 <= j < |bs'| ensures bs'[j].count == CountEmoji(rs + [r], bs'[j].emoji) >= 1 {
      CountAppend(rs, r, bs'[j].emoji);
    }
  }

  lemma AddFreshFlags(bs: seq<Badge>, rs: seq<Reaction>, ev: ReactionEvent, current: Option<string>)
    requires FlagsAgree(bs, rs, current) && CountEmoji(rs, ev.emoji) == 0 && FindBadge(bs, ev.emoji).None?
    ensures FlagsAgree(bs + [Badge(ev.emoji, 1, current == Some(ev.userId), ev.username)],
                       rs + [Reaction(ev.emoji, ev.userId, ev.username)], current)
  {
    var r := Reaction(ev.emoji, ev.userId, ev.username);
    var bs' := bs + [Badge(ev.emoji, 1, current == Some(ev.userId), ev.username)];
    forall j | 0 <= j < |bs'| ensures bs'[j].userReacted <==> ReactedBy(rs + [r], bs'[j].emoji, current) {
      if current.Some? {
        HasPairAppend(rs, r, bs'[j].emoji, current.value);
        if HasPair(rs, ev.emoji, current.value) {
          PairCounts(rs, ev.emoji, current.value);
        }
      }
    }
  }

  lemma AddFreshCover(bs: seq<Badge>, rs: seq<Reaction>, ev: ReactionEvent, current: Option<string>)
    requires Covered(bs, rs)
    ensures Covered(bs + [Badge(ev.emoji, 1, current == Some(ev.userId), ev.username)],
                    rs + [Reaction(ev.emoji, ev.userId, ev.username)])
  {
    var r := Reaction(ev.emoji, ev.userId, ev.username);
    var bs' := bs + [Badge(ev.emoji, 1, current == Some(ev.userId), ev.username)];
    forall e | CountEmoji(rs + [r], e) > 0 ensures FindBadge(bs', e).Some? {
      CountAppend(rs, r, e);
      if e == ev.emoji {
        assert bs'[|bs|].emoji == e;
      } else {
        var k := FindBadge(bs, e).value;
        assert bs'[k].emoji == e;
      }
    }
  }

  /** A remove of a present pair always finds its badge, and keeps the
      badges in agreement with the filtered list. */
  lemma BadgesAfterRemove(c: Option<seq<Badge>>, rs: seq<Reaction>, ev: ReactionEvent, current: Option<string>)
    requires Consistent(c, rs, current) && HasPair(rs, ev.emoji, ev.userId)
    ensures RemoveBadge(c, ev, current).Changed?
    ensures Consistent(RemoveBadge(c, ev, current).container, RemovePair(rs, ev.emoji, ev.userId), current)
  {
    var bs := BadgesOf(c);
    PairCounts(rs, ev.emoji, ev.userId);
    assert FindBadge(bs, ev.emoji).Some?;
    assert c == Some(bs);
    var i := FindBadge(bs, ev.emoji).value;
    UniqueRemove(rs, ev.emoji, ev.userId);
    if bs[i].count <= 1 {
      BadgesAfterRemoveWhole(bs, rs, ev, current, i);
    } else {
      BadgesAfterRemoveOne(bs, rs, ev, current, i);
    }
  }

  /** The last reaction of a badge removed: the badge goes. */
  lemma BadgesAfterRemoveWhole(bs: seq<Badge>, rs: seq<Reaction>, ev: ReactionEvent, current: Option<string>, i: nat)
    requires DistinctEmojis(bs) && CountsAgree(bs, rs) && FlagsAgree(bs, rs, current) && Covered(bs, rs)
    requires UniquePairs(RemovePair(rs, ev.emoji, ev.userId)) && UniquePairs(rs)
    requires FindBadge(bs, ev.emoji) == Some(i) && bs[i].count <= 1 && HasPair(rs, ev.emoji, ev.userId)
    ensures RemoveBadge(Some(bs), ev, current).Changed?
    ensures Consistent(RemoveBadge(Some(bs), ev, current).container, RemovePair(rs, ev.emoji, ev.userId), current)
  {
    RemoveWhole(bs, rs, ev, current, i);
    var rest := bs[..i] + bs[i + 1..];
    assert RemoveBadge(Some(bs), ev, current) == Changed(if rest == [] then None else Some(rest));
    ConsistentOf(if rest == [] then None else Some(rest), rest, RemovePair(rs, ev.emoji, ev.userId), current);
  }

  /** One of several reactions of a badge removed: the badge counts one less. */
  lemma BadgesAfterRemoveOne(bs: seq<Badge>, rs: seq<Reaction>, ev: ReactionEvent, current: Option<string>, i: nat)
    requires DistinctEmojis(bs) && CountsAgree(bs, rs) && FlagsAgree(bs, rs, current) && Covered(bs, rs)
    requires UniquePairs(RemovePair(rs, ev.emoji, ev.userId)) && UniquePairs(rs)
    requires FindBadge(bs, ev.emoji) == Some(i) && bs[i].count > 1 && HasPair(rs, ev.emoji, ev.userId)
    ensures RemoveBadge(Some(bs), ev, current).Changed?
    ensures Consistent(RemoveBadge(Some(bs), ev, current).container, RemovePair(rs, ev.emoji, ev.userId), current)
  {
    RemoveOne(bs, rs, ev, current, i);
    var bs' := bs[i := LessOne(bs[i], ev, current)];
    assert RemoveBadge(Some(bs), ev, current) == Changed(Some(bs'));
    ConsistentOf(Some(bs'), bs', RemovePair(rs, ev.emoji, ev.userId), current);
  }

  /** Agreement from its parts, for a container that is present exactly
      when it has badges. */
  lemma ConsistentOf(c: Option<seq<Badge>>, bs: seq<Badge>, rs: seq<Reaction>, current: Option<string>)
    requires BadgesOf(c) == bs && (c.Some? ==> bs != [])
    requires DistinctEmojis(bs) && CountsAgree(bs, rs) && FlagsAgree(bs, rs, current) && Covered(bs, rs) && UniquePairs(rs)
    ensures Consistent(c, rs, current)
  {
  }

  lemma RemoveWhole(bs: seq<Badge>, rs: seq<Reaction>, ev: ReactionEvent, current: Option<string>, i: nat)
    requires DistinctEmojis(bs) && CountsAgree(bs, rs) && FlagsAgree(bs, rs, current) && Covered(bs, rs) && UniquePairs(rs)
    requires i < |bs| && bs[i].emoji == ev.emoji && bs[i].count <= 1 && HasPair(rs, ev.emoji, ev.userId)
    ensures var rest := bs[..i] + bs[i + 1..];
            var rs' := RemovePair(rs, ev.emoji, ev.userId);
            DistinctEmojis(rest) && CountsAgree(rest, rs') && FlagsAgree(rest, rs', current) && Covered(rest, rs')
  {
    RemoveWholeDistinct(bs, i);
    RemoveWholeCounts(bs, rs, ev, i);
    RemoveWholeFlags(bs, rs, ev, current, i);
    RemoveWholeCover(bs, rs, ev, i);
  }

  lemma RemoveWholeDistinct(bs: seq<Badge>, i: nat)
    requires DistinctEmojis(bs) && i < |bs|
    ensures DistinctEmojis(bs[..i] + bs[i + 1..])
  {
    var rest := bs[..i] + bs[i + 1..];
    assert forall k :: 0 <= k < |rest| ==> rest[k] == bs[if k < i then k else k + 1];
  }

  lemma RemoveWholeCounts(bs: seq<Badge>, rs: seq<Reaction>, ev: ReactionEvent, i: nat)
    requires DistinctEmojis(bs) && CountsAgree(bs, rs) && UniquePairs(rs)
    requires i < |bs| && bs[i].emoji == ev.emoji
    ensures CountsAgree(bs[..i] + bs[i + 1..], RemovePair(rs, ev.emoji, ev.userId))
  {
    var rest := bs[..i] + bs[i + 1..];
    var rs' := RemovePair(rs, ev.emoji, ev.userId);
    forall k | 0 <= k < |rest| ensures rest[k].count == CountEmoji(rs', rest[k].emoji) >= 1 {
      var k0 := if k < i then k else k + 1;
      assert rest[k] == bs[k0] && k0 != i;
      CountRemove(rs, ev.emoji, ev.userId, bs[k0].emoji);
    }
  }

  lemma RemoveWholeFlags(bs: seq<Badge>, rs: seq<Reaction>, ev: ReactionEvent, current: Option<string>, i: nat)
    requires DistinctEmojis(bs) && FlagsAgree(bs, rs, current)
    requires i < |bs| && bs[i].emoji == ev.emoji
    ensures FlagsAgree(bs[..i] + bs[i + 1..], RemovePair(rs, ev.emoji, ev.userId), current)
  {
    var rest := bs[..i] + bs[i + 1..];
    var rs' := RemovePair(rs, ev.emoji, ev.userId);
    forall k | 0 <= k < |rest| ensures rest[k].userReacted <==> ReactedBy(rs', rest[k].emoji, current) {
      var k0 := if k < i then k else k + 1;
      assert rest[k] == bs[k0] && k0 != i;
      if current.Some? {
        HasPairRemove(rs, ev.emoji, ev.userId, bs[k0].emoji, current.value);
      }
    }
  }

  lemma RemoveWholeCover(bs: seq<Badge>, rs: seq<Reaction>, ev: ReactionEvent, i: nat)
    requires CountsAgree(bs, rs) && Covered(bs, rs) && UniquePairs(rs)
    requires i < |bs| && bs[i].emoji == ev.emoji && bs[i].count <= 1 && HasPair(rs, ev.emoji, ev.userId)
    ensures Covered(bs[..i] + bs[i + 1..], RemovePair(rs, ev.emoji, ev.userId))
  {
    var rest := bs[..i] + bs[i + 1..];
    var rs' := RemovePair(rs, ev.emoji, ev.userId);
    forall e | CountEmoji(rs', e) > 0 ensures FindBadge(rest, e).Some? {
      CountRemove(rs, ev.emoji, ev.userId, e);
      var k := FindBadge(bs, e).value;
      assert k != i;
      var k' := if k < i then k else k - 1;
      assert rest[k'] == bs[k];
    }
  }

  lemma RemoveOne(bs: seq<Badge>, rs: seq<Reaction>, ev: ReactionEvent, current: Option<string>, i: nat)
    requires DistinctEmojis(bs) && CountsAgree(bs, rs) && FlagsAgree(bs, rs, current) && Covered(bs, rs) && UniquePairs(rs)
    requires i < |bs| && bs[i].emoji == ev.emoji && bs[i].count > 1 && HasPair(rs, ev.emoji, ev.userId)
    ensures var bs' := bs[i := LessOne(bs[i], ev, current)];
            var rs' := RemovePair(rs, ev.emoji, ev.userId);
            DistinctEmojis(bs') && CountsAgree(bs', rs') && FlagsAgree(bs', rs', current) && Covered(bs', rs')
  {
    var bs' := bs[i := LessOne(bs[i], ev, current)];
    assert forall k :: 0 <= k < |bs'| ==> bs'[k].emoji == bs[k].emoji;
    RemoveOneCounts(bs, rs, ev, current, i);
    RemoveOneFlags(bs, rs, ev, current, i);
    RemoveOneCover(bs, rs, ev, current, i);
  }

  lemma RemoveOneCounts(bs: seq<Badge>, rs: seq<Reaction>, ev: ReactionEvent, current: Option<string>, i: nat)
    requires DistinctEmojis(bs) && CountsAgree(bs, rs) && UniquePairs(rs)
    requires i < |bs| && bs[i].emoji == ev.emoji && bs[i].count > 1 && HasPair(rs, ev.emoji, ev.userId)
    ensures CountsAgree(bs[i := LessOne(bs[i], ev, current)], RemovePair(rs, ev.emoji, ev.userId))
  {
    var bs' := bs[i := LessOne(bs[i], ev, current)];
    var rs' := RemovePair(rs, ev.emoji, ev.userId);
    forall k | 0 <= k < |bs'| ensures bs'[k].count == CountEmoji(rs', bs'[k].emoji) >= 1 {
      CountRemove(rs, ev.emoji, ev.userId, bs[k].emoji);
    }
  }

  lemma RemoveOneFlags(bs: seq<Badge>, rs: seq<Reaction>, ev: ReactionEvent, current: Option<string>, i: nat)
    requires DistinctEmojis(bs) && FlagsAgree(bs, rs, current) && UniquePairs(rs)
    requires i < |bs| && bs[i].emoji == ev.emoji && HasPair(rs, ev.emoji, ev.userId)
    ensures FlagsAgree(bs[i := LessOne(bs[i], ev, current)], RemovePair(rs, ev.emoji, ev.userId), current)
  {
    var bs' := bs[i := LessOne(bs[i], ev, current)];
    var rs' := RemovePair(rs, ev.emoji, ev.userId);
    forall k | 0 <= k < |bs'| ensures bs'[k].userReacted <==> ReactedBy(rs', bs'[k].emoji, current) {
      if current.Some? {
        HasPairRemove(rs, ev.emoji, ev.userId, bs[k].emoji, current.value);
      }
    }
  }

  lemma RemoveOneCover(bs: seq<Badge>, rs: seq<Reaction>, ev: ReactionEvent, current: Option<string>, i: nat)
    requires Covered(bs, rs) && UniquePairs(rs)
    requires i < |bs| && bs[i].emoji == ev.emoji
    ensures Covered(bs[i := LessOne(bs[i], ev, current)], RemovePair(rs, ev.emoji, ev.userId))
  {
    var bs' := bs[i := LessOne(bs[i], ev, current)];
    var rs' := RemovePair(rs, ev.emoji, ev.userId);
    forall e | CountEmoji(rs', e) > 0 ensures FindBadge(bs', e).Some? {
      CountRemove(rs, ev.emoji, ev.userId, e);
      var k := FindBadge(bs, e).value;
      assert bs'[k].emoji == e;
    }
  }

  /** Under agreement, a container shows for each emoji exactly the number
      of cached reactions with it and whether the signed-in user is among
      them, and nothing for an emoji nobody reacted with; and there is a
      container exactly when there are cached reactions. */
  lemma LookupDetermined(c: Option<seq<Badge>>, rs: seq<Reaction>, current: Option<string>, emoji: string)
    requires Consistent(c, rs, current)
    ensures Lookup(c, emoji) == if CountEmoji(rs, emoji) > 0 then Some((CountEmoji(rs, emoji), ReactedBy(rs, emoji, current))) else None
    ensures c.Some? <==> rs != []
  {
    var bs := BadgesOf(c);
    if rs != [] {
      assert CountEmoji(rs, rs[0].emoji) > 0;
    }
    if c.Some? {
      assert bs[0].count >= 1;
    }
  }

  /** The cached list never holds a pair twice: an add leaves the pair
      present exactly once, a remove leaves it absent. */
  lemma ReactionsAfterUnique(rs: seq<Reaction>, ev: ReactionEvent)
    requires UniquePairs(rs)
    ensures UniquePairs(ReactionsAfter(rs, ev))
    ensures HasPair(ReactionsAfter(rs, ev), ev.emoji, ev.userId) == ev.isAdding
  {
    var r := Reaction(ev.emoji, ev.userId, ev.username);
    if ev.isAdding {
      if !HasPair(rs, ev.emoji, ev.userId) {
        UniqueAppend(rs, r);
        HasPairAppend(rs, r, ev.emoji, ev.userId);
      }
    } else {
      UniqueRemove(rs, ev.emoji, ev.userId);
      HasPairRemove(rs, ev.emoji, ev.userId, ev.emoji, ev.userId);
    }
  }

  /** The cache update finds the same message again, now with the updated
      list. */
  lemma CacheAfterFinds(cache: map<string, CacheEntry>, conv: Option<string>, ev: ReactionEvent, now: int)
    requires CachedMessage(cache, conv, ev.messageId).Some?
    ensures var m := CachedMessage(cache, conv, ev.messageId).value;
            (CachedMessage(CacheAfter(cache, conv, ev, now), conv, ev.messageId)
             == Some(m.(reactions := Some(ReactionsAfter(ReactionsOf(m), ev)))))
  {
    var entry := cache[conv.value];
    var i := FindMessage(entry.messages, ev.messageId).value;
    var m := entry.messages[i];
    var messages' := entry.messages[i := m.(reactions := Some(ReactionsAfter(ReactionsOf(m), ev)))];
    assert messages'[i].id == ev.messageId;
    assert forall j :: 0 <= j < i ==> messages'[j].id == entry.messages[j].id != ev.messageId;
    var f := FindMessage(messages', ev.messageId);
    assert f.Some? && f.value <= i;
    assert f == Some(i);
  }

  /** An event touches only the reacted message's badges and, in the open
      conversation's cache entry, only that message's reactions and the
      entry's timestamp. */
  lemma ApplyFrame(s: Scene, conv: Option<string>, ev: ReactionEvent, current: Option<string>, now: int)
    ensures var t := ApplyReaction(s, conv, ev, current, now);
            t.dom.Keys == s.dom.Keys
            && (forall k :: k in s.dom && k != ev.messageId ==> t.dom[k] == s.dom[k])
            && (forall k :: k in s.dom ==> t.dom[k].sent == s.dom[k].sent && t.dom[k].status == s.dom[k].status)
            && t.cache.Keys == s.cache.Keys
            && (forall k :: k in s.cache && conv != Some(k) ==> t.cache[k] == s.cache[k])
            && (forall k :: k in s.cache ==>
                  t.cache[k].hasMore == s.cache[k].hasMore && |t.cache[k].messages| == |s.cache[k].messages|)
            && (forall k, j :: k in s.cache && 0 <= j < |s.cache[k].messages| ==>
                  t.cache[k].messages[j] == s.cache[k].messages[j].(reactions := t.cache[k].messages[j].reactions))
            && (forall k, j :: k in s.cache && 0 <= j < |s.cache[k].messages| && s.cache[k].messages[j].id != ev.messageId ==>
                  t.cache[k].messages[j] == s.cache[k].messages[j])
  {
    CacheAfterFrame(s.cache, conv, ev, now);
    if ev.messageId in s.dom && !IsDuplicate(s.cache, conv, ev) {
      var el := s.dom[ev.messageId];
      if ev.isAdding {
        assert ApplyReaction(s, conv, ev, current, now)
            == Scene(s.dom[ev.messageId := el.(reactions := Some(AddBadge(el.reactions, ev, current)))], CacheAfter(s.cache, conv, ev, now));
      }
    }
  }

  /** The cache half of the frame: only the open conversation's entry
      changes, and in it only the reacted message's reactions and the
      timestamp. */
  lemma CacheAfterFrame(cache: map<string, CacheEntry>, conv: Option<string>, ev: ReactionEvent, now: int)
    ensures var after := CacheAfter(cache, conv, ev, now);
            after.Keys == cache.Keys
            && (forall k :: k in cache && conv != Some(k) ==> after[k] == cache[k])
            && (forall k :: k in cache ==>
                  after[k].hasMore == cache[k].hasMore && |after[k].messages| == |cache[k].messages|)
            && (forall k, j :: k in cache && 0 <= j < |cache[k].messages| ==>
                  after[k].messages[j] == cache[k].messages[j].(reactions := after[k].messages[j].reactions))
            && (forall k, j :: k in cache && 0 <= j < |cache[k].messages| && cache[k].messages[j].id != ev.messageId ==>
                  after[k].messages[j] == cache[k].messages[j])
  {
    if Truthy(conv) && conv.value in cache {
      var entry := cache[conv.value];
      match FindMessage(entry.messages, ev.messageId)
      case None =>
      case Some(i) =>
        assert entry.messages[i].id == ev.messageId;
    }
  }

  /** One event on a rendered, cached message whose badges agree with its
      cached reactions: the cache then holds the list `ReactionsAfter`
      gives, and the badges agree with it again. */
  lemma ApplyKeepsConsistent(s: Scene, conv: Option<string>, ev: ReactionEvent, current: Option<string>, now: int)
    requires ev.messageId in s.dom && CachedMessage(s.cache, conv, ev.messageId).Some?
    requires Consistent(s.dom[ev.messageId].reactions, ReactionsOf(CachedMessage(s.cache, conv, ev.messageId).value), current)
    ensures var t := ApplyReaction(s, conv, ev, current, now);
            var rs := ReactionsOf(CachedMessage(s.cache, conv, ev.messageId).value);
            ev.messageId in t.dom && CachedMessage(t.cache, conv, ev.messageId).Some?
            && ReactionsOf(CachedMessage(t.cache, conv, ev.messageId).value) == ReactionsAfter(rs, ev)
            && Consistent(t.dom[ev.messageId].reactions, ReactionsAfter(rs, ev), current)
  {
    var m := CachedMessage(s.cache, conv, ev.messageId).value;
    var rs := ReactionsOf(m);
    var el := s.dom[ev.messageId];
    if IsDuplicate(s.cache, conv, ev) {
      if !ev.isAdding {
        RemoveAbsent(rs, ev.emoji, ev.userId);
      }
    } else if ev.isAdding {
      BadgesAfterAdd(el.reactions, rs, ev, current);
      CacheAfterFinds(s.cache, conv, ev, now);
    } else if HasPair(rs, ev.emoji, ev.userId) {
      BadgesAfterRemove(el.reactions, rs, ev, current);
      CacheAfterFinds(s.cache, conv, ev, now);
    } else {
      LookupDetermined(el.reactions, rs, current, ev.emoji);
      RemoveAbsent(rs, ev.emoji, ev.userId);
    }
  }

  /** Optimistic add, then its rollback: for a rendered and cached message
      whose badges agree with the cache, and a pair not yet cached, the
      cached list is back to what it was, and every emoji shows the same
      count and flag as before, with the container present exactly when it
      was. */
  lemma AddThenRollback(s: Scene, conv: Option<string>, ev: ReactionEvent, current: Option<string>, now: int, later: int)
    requires ev.isAdding && ev.messageId in s.dom && CachedMessage(s.cache, conv, ev.messageId).Some?
    requires Consistent(s.dom[ev.messageId].reactions, ReactionsOf(CachedMessage(s.cache, conv, ev.messageId).value), current)
    requires !HasPair(ReactionsOf(CachedMessage(s.cache, conv, ev.messageId).value), ev.emoji, ev.userId)
    ensures var t := ApplyReaction(ApplyReaction(s, conv, ev, current, now), conv, ev.(isAdding := false), current, later);
            ev.messageId in t.dom && CachedMessage(t.cache, conv, ev.messageId).Some?
            && ReactionsOf(CachedMessage(t.cache, conv, ev.messageId).value)
               == ReactionsOf(CachedMessage(s.cache, conv, ev.messageId).value)
            && (t.dom[ev.messageId].reactions.Some? <==> s.dom[ev.messageId].reactions.Some?)
            && forall e :: Lookup(t.dom[ev.messageId].reactions, e) == Lookup(s.dom[ev.messageId].reactions, e)
  {
    var rs := ReactionsOf(CachedMessage(s.cache, conv, ev.messageId).value);
    var undo := ev.(isAdding := false);
    var s1 := ApplyReaction(s, conv, ev, current, now);
    ApplyKeepsConsistent(s, conv, ev, current, now);
    ApplyKeepsConsistent(s1, conv, undo, current, later);
    var t := ApplyReaction(s1, conv, undo, current, later);
    RemoveAfterAppend(rs, Reaction(ev.emoji, ev.userId, ev.username));
    assert ReactionsOf(CachedMessage(t.cache, conv, ev.messageId).value) == rs;
    forall e ensures Lookup(t.dom[ev.messageId].reactions, e) == Lookup(s.dom[ev.messageId].reactions, e) {
      LookupDetermined(s.dom[ev.messageId].reactions, rs, current, e);
      LookupDetermined(t.dom[ev.messageId].reactions, rs, current, e);
    }
    LookupDetermined(s.dom[ev.messageId].reactions, rs, current, ev.emoji);
    LookupDetermined(t.dom[ev.messageId].reactions, rs, current, ev.emoji);
  }

  /** Optimistic remove, then its rollback: for a rendered and cached message
      whose badges agree with the cache, and a cached reaction carrying the
      same user name, the cached list holds the same reactions as before
      (the re-added one now last), and every emoji shows the same count and
      flag as before, with the container present exactly when it was. */
  lemma RemoveThenRollback(s: Scene, conv: Option<string>, ev: ReactionEvent, current: Option<string>, now: int, later: int)
    requires !ev.isAdding && ev.messageId in s.dom && CachedMessage(s.cache, conv, ev.messageId).Some?
    requires Consistent(s.dom[ev.messageId].reactions, ReactionsOf(CachedMessage(s.cache, conv, ev.messageId).value), current)
    requires Reaction(ev.emoji, ev.userId, ev.username) in ReactionsOf(CachedMessage(s.cache, conv, ev.messageId).value)
    ensures var t := ApplyReaction(ApplyReaction(s, conv, ev, current, now), conv, ev.(isAdding := true), current, later);
            ev.messageId in t.dom && CachedMessage(t.cache, conv, ev.messageId).Some?
            && (forall x :: x in ReactionsOf(CachedMessage(t.cache, conv, ev.messageId).value)
                        <==> x in ReactionsOf(CachedMessage(s.cache, conv, ev.messageId).value))
            && (t.dom[ev.messageId].reactions.Some? <==> s.dom[ev.messageId].reactions.Some?)
            && forall e :: Lookup(t.dom[ev.messageId].reactions, e) == Lookup(s.dom[ev.messageId].reactions, e)
  {
    var rs := ReactionsOf(CachedMessage(s.cache, conv, ev.messageId).value);
    var r := Reaction(ev.emoji, ev.userId, ev.username);
    var redo := ev.(isAdding := true);
    var s1 := ApplyReaction(s, conv, ev, current, now);
    ApplyKeepsConsistent(s, conv, ev, current, now);
    ApplyKeepsConsistent(s1, conv, redo, current, later);
    var t := ApplyReaction(s1, conv, redo, current, later);
    MemberHasPair(rs, r);
    var rs1 := RemovePair(rs, ev.emoji, ev.userId);
    HasPairRemove(rs, ev.emoji, ev.userId, ev.emoji, ev.userId);
    var rs2 := rs1 + [r];
    assert ReactionsOf(CachedMessage(t.cache, conv, ev.messageId).value) == rs2;
    forall x ensures x in rs2 <==> x in rs {
      MemberRemove(rs, ev.emoji, ev.userId, x);
      if x in rs && x.emoji == ev.emoji && x.userId == ev.userId {
        UniquePairMember(rs, x, r);
      }
    }
    forall e ensures CountEmoji(rs2, e) == CountEmoji(rs, e) && ReactedBy(rs2, e, current) == ReactedBy(rs, e, current) {
      CountRemove(rs, ev.emoji, ev.userId, e);
      CountAppend(rs1, r, e);
      if current.Some? {
        HasPairRemove(rs, ev.emoji, ev.userId, e, current.value);
        HasPairAppend(rs1, r, e, current.value);
      }
    }
    forall e ensures Lookup(t.dom[ev.messageId].reactions, e) == Lookup(s.dom[ev.messageId].reactions, e) {
      LookupDetermined(s.dom[ev.messageId].reactions, rs, current, e);
      LookupDetermined(t.dom[ev.messageId].reactions, rs2, current, e);
    }
    LookupDetermined(s.dom[ev.messageId].reactions, rs, current, ev.emoji);
    LookupDetermined(t.dom[ev.messageId].reactions, rs2, current, ev.emoji);
  }
}
