/** The delayed mark-as-read of an opened conversation
    (extension/contents/lib/conversation-view.ts lines 407-452): one pending
    slot holding a timer, the conversation id and the message ids to mark.
    The 1.5 s timer is an explicit event: `Fire` is its callback running,
    and a cancelled timer never fires. */
module ReadStatus {
  import opened Common
  import opened State

  /** How long the scheduler waits before marking messages read. */
  const ReadDelayMs: int := 1500

  /** The slot. `timer` is the live timer, given by the conversation id its
      callback captured, or None when no timer is pending. */
  datatype Slot = Slot(timer: Option<string>, conversationId: Option<string>, messageIds: seq<string>)

  /** The slot with nothing pending. */
  const Idle: Slot := Slot(None, None, [])

  /** The slots the scheduler can reach: idle, or a live timer whose
      conversation is the pending one. */
  predicate Reachable(s: Slot) {
    s == Idle || (s.timer.Some? && s.conversationId == s.timer)
  }

  /** The calls the callback of a timer that captured `captured` makes: mark
      the conversation read when it is still the pending one, and mark the
      pending messages read when there are any. */
  function FireCalls(s: Slot, captured: string): (calls: seq<Call>)
    ensures s.conversationId != Some(captured) ==> calls == []
    ensures s.conversationId == Some(captured) ==> |calls| >= 1 && calls[0] == MarkConversationAsRead(captured)
    ensures MarkMessagesAsRead(s.messageIds) in calls <==> s.conversationId == Some(captured) && |s.messageIds| > 0
    ensures |calls| <= 2
  {
    if s.conversationId == Some(captured) then
      [MarkConversationAsRead(captured)] + (if |s.messageIds| > 0 then [MarkMessagesAsRead(s.messageIds)] else [])
    else []
  }

  class ReadScheduler {
    var timer: Option<string>
    var conversationId: Option<string>
    var messageIds: seq<string>

    function Current(): Slot
      reads this
    {
      Slot(timer, conversationId, messageIds)
    }

    /** The scheduler's invariant: its slot is reachable. */
    predicate Valid()
      reads this
    {
      Reachable(Current())
    }

    constructor ()
      ensures Valid() && Current() == Idle
    {
      timer := None;
      conversationId := None;
      messageIds := [];
    }

    /** `cancelPendingRead()`: clears the timer, the id and the ids. */
    method Cancel()
      requires Valid()
      modifies this
      ensures Valid() && Current() == Idle
    {
      if timer.Some? {
        timer := None;
      }
      conversationId := None;
      messageIds := [];
    }

    /** `scheduleMarkAsRead(conversationId, messageIds)`: cancels whatever was
        pending, then stores the new read and starts its timer. */
    method Schedule(conv: string, ids: seq<string>)
      requires Valid()
      modifies this
      ensures Valid() && Current() == Slot(Some(conv), Some(conv), ids)
    {
      Cancel();
      conversationId := Some(conv);
      messageIds := ids;
      timer := Some(conv);
    }

    /** The live timer's callback, when there is one; it makes its calls and
        leaves the slot idle. Without a live timer nothing runs. */
    method Fire() returns (calls: seq<Call>)
      requires Valid()
      modifies this
      ensures Valid()
      ensures old(timer).None? ==> calls == [] && Current() == old(Current())
      ensures old(timer).Some? ==> calls == FireCalls(old(Current()), old(timer).value) && Current() == Idle
      ensures old(timer).Some? ==>
                calls == [MarkConversationAsRead(old(timer).value)]
                         + (if |old(messageIds)| > 0 then [MarkMessagesAsRead(old(messageIds))] else [])
    {
      if timer.None? {
        return [];
      }
      var captured := timer.value;
      calls := [];
      if conversationId == Some(captured) {
        calls := calls + [MarkConversationAsRead(captured)];
        if |messageIds| > 0 {
          calls := calls + [MarkMessagesAsRead(messageIds)];
        }
      }
      timer := None;
      conversationId := None;
      messageIds := [];
    }
  }

  /** The answer to the mark-conversation-read call: the conversation list
      cache is dropped so that the next list shows fresh unread counts. */
  method ConversationMarkedRead(session: Session)
    modifies session`chatListCache
    ensures session.chatListCache == None
  {
    session.chatListCache := None;
  }

  /** Leaving a conversation before its timer fires cancels the read: the
      timer that was scheduled and then cancelled makes no call. */
  method CancelledReadCallsNothing(conv: string, ids: seq<string>) returns (calls: seq<Call>)
    ensures calls == []
  {
    var scheduler := new ReadScheduler();
    scheduler.Schedule(conv, ids);
    scheduler.Cancel();
    calls := scheduler.Fire();
  }

  /** At most one read is pending, and it is the last one scheduled: after
      two schedules the timer marks only the second conversation read. */
  method RescheduleMarksLatest(first: string, firstIds: seq<string>, second: string, secondIds: seq<string>)
    returns (calls: seq<Call>)
    ensures calls == [MarkConversationAsRead(second)] + (if |secondIds| > 0 then [MarkMessagesAsRead(secondIds)] else [])
  {
    var scheduler := new ReadScheduler();
    scheduler.Schedule(first, firstIds);
    scheduler.Schedule(second, secondIds);
    calls := scheduler.Fire();
  }

  /** In every reachable slot the live timer's own conversation is still the
      pending one when it fires, so the callback always marks it read, with
      the pending messages when there are any. */
  lemma FireOfReachable(s: Slot)
    requires Reachable(s) && s.timer.Some?
    ensures FireCalls(s, s.timer.value)
         == [MarkConversationAsRead(s.timer.value)] + (if |s.messageIds| > 0 then [MarkMessagesAsRead(s.messageIds)] else [])
  {
  }
}
