/** How a message and its reactions are rendered
    (extension/contents/lib/conversation-view.ts lines 164-249): reactions
    are grouped by emoji in order of first appearance, each group becomes a
    badge with its count, its "user-reacted" flag and the comma-joined user
    names as title, and a message element is on the sent or received side
    with a status icon only when sent.

    The proved point: a freshly rendered reactions container is in the
    agreement the realtime updates of the Reactions module preserve. */
module MessageRender {
  import opened Common
  import opened State
  import opened Reactions

  /** One entry of the `groupReactions` map. */
  datatype Group = Group(emoji: string, count: nat, userReacted: bool, usernames: seq<string>)

  /** `grouped.get(emoji)`: the position of the emoji's group. */
  function FindGroup(gs: seq<Group>, emoji: string): (r: Option<nat>)
    ensures r.Some? ==> r.value < |gs| && gs[r.value].emoji == emoji
    ensures r.None? ==> forall j :: 0 <= j < |gs| ==> gs[j].emoji != emoji
  {
    if gs == [] then None
    else if gs[0].emoji == emoji then Some(0)
    else match FindGroup(gs[1..], emoji)
      case None => None
      case Some(k) => Some(k + 1)
  }

  /** One reaction counted into its group: one more, its user name pushed,
      and the flag set when the reacting user is the signed-in one. */
  function Tally(g: Group, r: Reaction, current: Option<string>): Group {
    g.(count := g.count + 1, usernames := g.usernames + [r.username],
       userReacted := g.userReacted || current == Some(r.userId))
  }

  /** One iteration of the grouping loop: the emoji's group, created empty
      at the end of the map when missing, takes the reaction. */
  function AddToGroups(gs: seq<Group>, r: Reaction, current: Option<string>): seq<Group> {
    match FindGroup(gs, r.emoji)
    case Some(j) => gs[j := Tally(gs[j], r, current)]
    case None => gs + [Tally(Group(r.emoji, 0, false, []), r, current)]
  }

  /** The groups of a reaction list, as the loop builds them. */
  function Grouped(rs: seq<Reaction>, current: Option<string>): seq<Group>
    decreases |rs|
  {
    if rs == [] then [] else AddToGroups(Grouped(rs[..|rs| - 1], current), rs[|rs| - 1], current)
  }

  /** The body of the grouping loop: the emoji's group, created empty at
      the end of the map when missing, counts the reaction. */
  method CountReaction(groups: seq<Group>, r: Reaction, currentUserId: Option<string>) returns (groups': seq<Group>)
    ensures groups' == AddToGroups(groups, r, currentUserId)
  {
    var j := FindGroup(groups, r.emoji);
    var g := if j.Some? then groups[j.value] else Group(r.emoji, 0, false, []);
    ghost var start := g;
    g := g.(count := g.count + 1);
    g := g.(usernames := g.usernames + [r.username]);
    if currentUserId == Some(r.userId) {
      g := g.(userReacted := true);
    }
    assert g == Tally(start, r, currentUserId);
    if j.Some? {
      groups' := groups[j.value := g];
    } else {
      groups' := groups + [g];
    }
  }

  /** `groupReactions(reactions, currentUserId)` */
  method GroupReactions(reactions: seq<Reaction>, currentUserId: Option<string>) returns (groups: seq<Group>)
    ensures groups == Grouped(reactions, currentUserId)
  {
    groups := [];
    for i := 0 to |reactions|
      invariant groups == Grouped(reactions[..i], currentUserId)
    {
      groups := CountReaction(groups, reactions[i], currentUserId);
      GroupedStep(reactions, i, currentUserId);
    }
    assert reactions[..|reactions|] == reactions;
  }

  /** One more reaction of the list counted into the groups of those before it. */
  lemma GroupedStep(rs: seq<Reaction>, i: nat, current: Option<string>)
    requires i < |rs|
    ensures Grouped(rs[..i + 1], current) == AddToGroups(Grouped(rs[..i], current), rs[i], current)
  {
    assert rs[..i + 1][..i] == rs[..i];
  }

  // ---------------------------------------------------------------------------
  // What the groups mean

  /** The user names of the emoji's reactions, in list order. */
  function NamesFor(rs: seq<Reaction>, emoji: string): seq<string>
    decreases |rs|
  {
    if rs == [] then []
    else NamesFor(rs[..|rs| - 1], emoji) + (if rs[|rs| - 1].emoji == emoji then [rs[|rs| - 1].username] else [])
  }

  /** The position of the emoji's first reaction, or the length of the list
      when it has none. */
  function FirstIndex(rs: seq<Reaction>, emoji: string): (r: nat)
    ensures r <= |rs|
    ensures r < |rs| ==> rs[r].emoji == emoji
    ensures forall j :: 0 <= j < r ==> rs[j].emoji != emoji
  {
    if rs == [] then 0
    else if rs[0].emoji == emoji then 0
    else FirstIndex(rs[1..], emoji) + 1
  }

  /** The total of the counts shown. */
  function SumCounts(gs: seq<Group>): int
    decreases |gs|
  {
    if gs == [] then 0 else gs[0].count + SumCounts(gs[1..])
  }

  predicate GroupsDistinct(gs: seq<Group>) {
    forall a, b :: 0 <= a < b < |gs| ==> gs[a].emoji != gs[b].emoji
  }

  /** Each group's count, flag and names are those of its emoji's reactions. */
  predicate GroupsAgree(gs: seq<Group>, rs: seq<Reaction>, current: Option<string>) {
    forall a :: 0 <= a < |gs| ==>
      gs[a].count == CountEmoji(rs, gs[a].emoji) >= 1
      && (gs[a].userReacted <==> ReactedBy(rs, gs[a].emoji, current))
      && gs[a].usernames == NamesFor(rs, gs[a].emoji)
  }

  /** Every emoji that occurs has a group. */
  ghost predicate GroupsCover(gs: seq<Group>, rs: seq<Reaction>) {
    forall e :: CountEmoji(rs, e) > 0 ==> FindGroup(gs, e).Some?
  }

  /** The groups come in the order their emojis first occur. */
  predicate GroupsOrdered(gs: seq<Group>, rs: seq<Reaction>) {
    forall a, b :: 0 <= a < b < |gs| ==> FirstIndex(rs, gs[a].emoji) < FirstIndex(rs, gs[b].emoji)
  }

  ghost predicate GroupsMean(gs: seq<Group>, rs: seq<Reaction>, current: Option<string>) {
    GroupsDistinct(gs) && GroupsAgree(gs, rs, current) && GroupsCover(gs, rs)
    && GroupsOrdered(gs, rs) && SumCounts(gs) == |rs|
  }

  lemma NamesAppend(rs: seq<Reaction>, r: Reaction, emoji: string)
    ensures NamesFor(rs + [r], emoji) == NamesFor(rs, emoji) + (if r.emoji == emoji then [r.username] else [])
  {
    assert (rs + [r])[..|rs|] == rs;
  }

  lemma {:induction false} NamesCount(rs: seq<Reaction>, emoji: string)
    ensures |NamesFor(rs, emoji)| == CountEmoji(rs, emoji)
    decreases |rs|
  {
    if rs != [] {
      var init := rs[..|rs| - 1];
      NamesCount(init, emoji);
      assert init + [rs[|rs| - 1]] == rs;
      CountAppend(init, rs[|rs| - 1], emoji);
    }
  }

  lemma {:induction false} FirstIndexCounts(rs: seq<Reaction>, emoji: string)
    ensures FirstIndex(rs, emoji) < |rs| <==> CountEmoji(rs, emoji) > 0
    decreases |rs|
  {
    if rs != [] && rs[0].emoji != emoji {
      FirstIndexCounts(rs[1..], emoji);
    }
  }

  lemma FirstIndexAppend(rs: seq<Reaction>, r: Reaction, emoji: string)
    ensures FirstIndex(rs + [r], emoji)
         == if FirstIndex(rs, emoji) < |rs| then FirstIndex(rs, emoji)
            else if r.emoji == emoji then |rs| else |rs| + 1
  {
    assert forall j :: 0 <= j < |rs| ==> (rs + [r])[j] == rs[j];
    assert (rs + [r])[|rs|] == r;
  }

  lemma {:induction false} SumCountsAppend(gs: seq<Group>, g: Group)
    ensures SumCounts(gs + [g]) == SumCounts(gs) + g.count
    decreases |gs|
  {
    if gs != [] {
      assert (gs + [g])[1..] == gs[1..] + [g];
      SumCountsAppend(gs[1..], g);
    }
  }

  lemma {:induction false} SumCountsUpdate(gs: seq<Group>, j: nat, g: Group)
    requires j < |gs|
    ensures SumCounts(gs[j := g]) == SumCounts(gs) - gs[j].count + g.count
    decreases |gs|
  {
    if j > 0 {
      assert gs[j := g][1..] == gs[1..][j - 1 := g];
      SumCountsUpdate(gs[1..], j - 1, g);
    }
  }

  /** A reaction whose emoji has a group. */
  lemma TallyExisting(gs: seq<Group>, rs: seq<Reaction>, r: Reaction, current: Option<string>, j: nat)
    requires GroupsMean(gs, rs, current) && FindGroup(gs, r.emoji) == Some(j)
    ensures GroupsMean(AddToGroups(gs, r, current), rs + [r], current)
  {
    var gs' := AddToGroups(gs, r, current);
    assert gs' == gs[j := Tally(gs[j], r, current)];
    assert forall a :: 0 <= a < |gs| ==> gs'[a].emoji == gs[a].emoji;
    TallyExistingAgree(gs, rs, r, current, j);
    TallyExistingCover(gs, rs, r, current, j);
    TallyExistingOrdered(gs, rs, r, current, j);
    SumCountsUpdate(gs, j, Tally(gs[j], r, current));
  }

  lemma TallyExistingAgree(gs: seq<Group>, rs: seq<Reaction>, r: Reaction, current: Option<string>, j: nat)
    requires GroupsDistinct(gs) && GroupsAgree(gs, rs, current) && j < |gs| && gs[j].emoji == r.emoji
    ensures GroupsAgree(gs[j := Tally(gs[j], r, current)], rs + [r], current)
  {
    var gs' := gs[j := Tally(gs[j], r, current)];
    var rs' := rs + [r];
    forall a | 0 <= a < |gs'|
      ensures gs'[a].count == CountEmoji(rs', gs'[a].emoji) >= 1
      ensures gs'[a].userReacted <==> ReactedBy(rs', gs'[a].emoji, current)
      ensures gs'[a].usernames == NamesFor(rs', gs'[a].emoji)
    {
      CountAppend(rs, r, gs[a].emoji);
      NamesAppend(rs, r, gs[a].emoji);
      if current.Some? {
        HasPairAppend(rs, r, gs[a].emoji, current.value);
      }
    }
  }

  lemma TallyExistingCover(gs: seq<Group>, rs: seq<Reaction>, r: Reaction, current: Option<string>, j: nat)
    requires GroupsCover(gs, rs) && j < |gs| && gs[j].emoji == r.emoji
    ensures GroupsCover(gs[j := Tally(gs[j], r, current)], rs + [r])
  {
    var gs' := gs[j := Tally(gs[j], r, current)];
    forall e | CountEmoji(rs + [r], e) > 0
      ensures FindGroup(gs', e).Some?
    {
      CountAppend(rs, r, e);
      if e == r.emoji {
        assert gs'[j].emoji == e;
      } else {
        var k := FindGroup(gs, e).value;
        assert gs'[k].emoji == e;
      }
    }
  }

  lemma TallyExistingOrdered(gs: seq<Group>, rs: seq<Reaction>, r: Reaction, current: Option<string>, j: nat)
    requires GroupsOrdered(gs, rs) && GroupsAgree(gs, rs, current) && j < |gs| && gs[j].emoji == r.emoji
    ensures GroupsOrdered(gs[j := Tally(gs[j], r, current)], rs + [r])
  {
    var gs' := gs[j := Tally(gs[j], r, current)];
    forall a, b | 0 <= a < b < |gs'|
      ensures FirstIndex(rs + [r], gs'[a].emoji) < FirstIndex(rs + [r], gs'[b].emoji)
    {
      assert gs'[a].emoji == gs[a].emoji && gs'[b].emoji == gs[b].emoji;
      FirstIndexCounts(rs, gs[a].emoji);
      FirstIndexCounts(rs, gs[b].emoji);
      FirstIndexAppend(rs, r, gs[a].emoji);
      FirstIndexAppend(rs, r, gs[b].emoji);
    }
  }

  /** The group a reaction with a fresh emoji starts. */
  function FreshGroup(r: Reaction, current: Option<string>): Group {
    Tally(Group(r.emoji, 0, false, []), r, current)
  }

  /** A reaction whose emoji has no group yet. */
  lemma TallyFresh(gs: seq<Group>, rs: seq<Reaction>, r: Reaction, current: Option<string>)
    requires GroupsMean(gs, rs, current) && FindGroup(gs, r.emoji).None?
    ensures GroupsMean(AddToGroups(gs, r, current), rs + [r], current)
  {
    var g := FreshGroup(r, current);
    assert AddToGroups(gs, r, current) == gs + [g];
    assert CountEmoji(rs, r.emoji) == 0;
    TallyFreshAgree(gs, rs, r, current);
    TallyFreshCover(gs, rs, r, current);
    TallyFreshOrdered(gs, rs, r, current);
    SumCountsAppend(gs, g);
  }

  lemma TallyFreshAgree(gs: seq<Group>, rs: seq<Reaction>, r: Reaction, current: Option<string>)
    requires GroupsAgree(gs, rs, current) && CountEmoji(rs, r.emoji) == 0
    ensures GroupsAgree(gs + [FreshGroup(r, current)], rs + [r], current)
  {
    var gs' := gs + [FreshGroup(r, current)];
    var rs' := rs + [r];
    forall a | 0 <= a < |gs'|
      ensures gs'[a].count == CountEmoji(rs', gs'[a].emoji) >= 1
      ensures gs'[a].userReacted <==> ReactedBy(rs', gs'[a].emoji, current)
      ensures gs'[a].usernames == NamesFor(rs', gs'[a].emoji)
    {
      CountAppend(rs, r, gs'[a].emoji);
      NamesAppend(rs, r, gs'[a].emoji);
      if current.Some? {
        HasPairAppend(rs, r, gs'[a].emoji, current.value);
        if HasPair(rs, r.emoji, current.value) {
          PairCounts(rs, r.emoji, current.value);
        }
      }
      if a == |gs| {
        NamesCount(rs, r.emoji);
      } else {
        assert gs'[a] == gs[a];
      }
    }
  }

  lemma TallyFreshCover(gs: seq<Group>, rs: seq<Reaction>, r: Reaction, current: Option<string>)
    requires GroupsCover(gs, rs)
    ensures GroupsCover(gs + [FreshGroup(r, current)], rs + [r])
  {
    var gs' := gs + [FreshGroup(r, current)];
    forall e | CountEmoji(rs + [r], e) > 0
      ensures FindGroup(gs', e).Some?
    {
      CountAppend(rs, r, e);
      if CountEmoji(rs, e) > 0 {
        var k := FindGroup(gs, e).value;
        assert gs'[k].emoji == e;
      } else {
        assert gs'[|gs|].emoji == e;
      }
    }
  }

  lemma TallyFreshOrdered(gs: seq<Group>, rs: seq<Reaction>, r: Reaction, current: Option<string>)
    requires GroupsOrdered(gs, rs) && GroupsAgree(gs, rs, current) && CountEmoji(rs, r.emoji) == 0
    ensures GroupsOrdered(gs + [FreshGroup(r, current)], rs + [r])
  {
    var gs' := gs + [FreshGroup(r, current)];
    forall a, b | 0 <= a < b < |gs'|
      ensures FirstIndex(rs + [r], gs'[a].emoji) < FirstIndex(rs + [r], gs'[b].emoji)
    {
      assert gs'[a] == gs[a];
      FirstIndexCounts(rs, gs'[a].emoji);
      FirstIndexCounts(rs, gs'[b].emoji);
      FirstIndexAppend(rs, r, gs'[a].emoji);
      FirstIndexAppend(rs, r, gs'[b].emoji);
    }
  }

  /** `groupReactions` gives one group per emoji that occurs, with distinct
      emojis, in order of first appearance; each group counts its emoji's
      reactions, lists their user names in order, and is flagged exactly
      when the signed-in user is among them; the counts add up to the
      number of reactions. */
  lemma {:induction false} GroupedMeaning(rs: seq<Reaction>, current: Option<string>)
    ensures GroupsMean(Grouped(rs, current), rs, current)
    decreases |rs|
  {
    if rs != [] {
      var init := rs[..|rs| - 1];
      var r := rs[|rs| - 1];
      GroupedMeaning(init, current);
      assert init + [r] == rs;
      match FindGroup(Grouped(init, current), r.emoji)
      case Some(j) => TallyExisting(Grouped(init, current), init, r, current, j);
      case None => TallyFresh(Grouped(init, current), init, r, current);
    }
  }

  // ---------------------------------------------------------------------------
  // Rendering

  /** A group as its badge. */
  function BadgeOf(g: Group): Badge {
    Badge(g.emoji, g.count, g.userReacted, Join(g.usernames, ", "))
  }

  function BadgesOfGroups(gs: seq<Group>): (bs: seq<Badge>)
    ensures |bs| == |gs| && forall k :: 0 <= k < |gs| ==> bs[k] == BadgeOf(gs[k])
  {
    seq(|gs|, k requires 0 <= k < |gs| => BadgeOf(gs[k]))
  }

  /** `generateReactionsHTML(reactions, currentUserId)`: no container for no
      reactions, otherwise one badge per group. */
  function RenderReactions(rs: seq<Reaction>, current: Option<string>): Option<seq<Badge>> {
    if |rs| == 0 then None else Some(BadgesOfGroups(Grouped(rs, current)))
  }

  /** A freshly rendered reactions container agrees with the reactions it
      was rendered from, in the sense the realtime updates keep: a container
      only when there are reactions, one badge per emoji that occurs, each
      showing its emoji's count and flagged exactly when the signed-in user
      reacted with it. */
  lemma RenderedReactionsAgree(rs: seq<Reaction>, current: Option<string>)
    requires UniquePairs(rs)
    ensures Consistent(RenderReactions(rs, current), rs, current)
  {
    if rs != [] {
      var gs := Grouped(rs, current);
      var bs := BadgesOfGroups(gs);
      GroupedMeaning(rs, current);
      assert CountEmoji(rs, rs[0].emoji) > 0;
      assert FindGroup(gs, rs[0].emoji).Some?;
      forall e | CountEmoji(rs, e) > 0
        ensures FindBadge(bs, e).Some?
      {
        var k := FindGroup(gs, e).value;
        assert bs[k].emoji == e;
      }
    }
  }

  /** A freshly rendered badge's title is the user names of its emoji's
      reactions in list order, and a realtime add by a new user extends it
      to the names with that user last. */
  lemma RenderedTitles(rs: seq<Reaction>, current: Option<string>, k: nat, username: string)
    requires rs != [] && k < |BadgesOf(RenderReactions(rs, current))|
    requires forall i :: 0 <= i < |rs| ==> rs[i].username != ""
    ensures var b := BadgesOf(RenderReactions(rs, current))[k];
            b.title == Join(NamesFor(rs, b.emoji), ", ")
            && TitleWith(b.title, username) == Join(NamesFor(rs, b.emoji) + [username], ", ")
  {
    var gs := Grouped(rs, current);
    GroupedMeaning(rs, current);
    var e := gs[k].emoji;
    NamesNonEmpty(rs, e);
    JoinAppendNonEmpty(NamesFor(rs, e), username);
  }

  lemma {:induction false} NamesNonEmpty(rs: seq<Reaction>, emoji: string)
    requires forall i :: 0 <= i < |rs| ==> rs[i].username != ""
    ensures forall i :: 0 <= i < |NamesFor(rs, emoji)| ==> NamesFor(rs, emoji)[i] != ""
    decreases |rs|
  {
    if rs != [] {
      NamesNonEmpty(rs[..|rs| - 1], emoji);
    }
  }

  /** Joining one more non-empty name extends a title as `TitleWith` does. */
  lemma {:induction false} JoinAppendNonEmpty(ns: seq<string>, n: string)
    requires forall i :: 0 <= i < |ns| ==> ns[i] != ""
    ensures TitleWith(Join(ns, ", "), n) == Join(ns + [n], ", ")
    decreases |ns|
  {
    if |ns| == 1 {
      assert ns + [n] == [ns[0], n];
    } else if |ns| > 1 {
      JoinAppendNonEmpty(ns[1..], n);
      assert (ns + [n])[1..] == ns[1..] + [n];
    }
  }

  /** How a rendering decides which side a message is on: by the signed-in
      user's id (instant display from the cache) or by the counterpart's id
      (messages fetched after the conversation is known). */
  datatype Side = SentBy(userId: string) | NotFrom(otherUserId: string)

  predicate IsSent(m: Message, side: Side) {
    match side
    case SentBy(u) => m.senderId == u
    case NotFrom(o) => m.senderId != o
  }

  /** `generateMessageHTML` with the status icon its callers pass: sent
      messages show "read" when `read_at` is set, "sent" otherwise;
      received messages show none. */
  function RenderMessage(m: Message, sent: bool, current: Option<string>): (e: MessageElement)
    ensures e.sent == sent && (e.status.Some? <==> sent)
    ensures sent ==> (e.status == Some(Read) <==> Truthy(m.readAt))
    ensures e.reactions.None? <==> ReactionsOf(m) == []
  {
    MessageElement(sent, if sent then Some(if Truthy(m.readAt) then Read else Sent) else None,
                   RenderReactions(ReactionsOf(m), current))
  }

  /** The elements a rendered message list yields, by `data-message-id`; a
      lookup by id finds the first element with it. */
  function RenderAll(ms: seq<Message>, side: Side, current: Option<string>): map<string, MessageElement>
    decreases |ms|
  {
    if ms == [] then map[]
    else RenderAll(ms[1..], side, current)[ms[0].id := RenderMessage(ms[0], IsSent(ms[0], side), current)]
  }

  /** The rendered list has an element for exactly the ids of the messages,
      and the element for an id is the rendering of the first message with
      it. */
  lemma {:induction false} RenderAllFinds(ms: seq<Message>, side: Side, current: Option<string>, id: string)
    ensures id in RenderAll(ms, side, current) <==> FindMessage(ms, id).Some?
    ensures FindMessage(ms, id).Some? ==>
              var m := ms[FindMessage(ms, id).value];
              RenderAll(ms, side, current)[id] == RenderMessage(m, IsSent(m, side), current)
    decreases |ms|
  {
    if ms != [] && ms[0].id != id {
      RenderAllFinds(ms[1..], side, current, id);
    }
  }

  /** A freshly rendered conversation is in agreement with the cached list
      it came from: every element's reactions agree with the reactions of
      the message the realtime updates will look up for its id. */
  lemma RenderedConversationAgrees(ms: seq<Message>, side: Side, current: Option<string>, id: string)
    requires forall k :: 0 <= k < |ms| ==> UniquePairs(ReactionsOf(ms[k]))
    requires id in RenderAll(ms, side, current)
    ensures FindMessage(ms, id).Some?
    ensures Consistent(RenderAll(ms, side, current)[id].reactions, ReactionsOf(ms[FindMessage(ms, id).value]), current)
  {
    RenderAllFinds(ms, side, current, id);
    RenderedReactionsAgree(ReactionsOf(ms[FindMessage(ms, id).value]), current);
  }
}
