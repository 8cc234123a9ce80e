/** What kernel calls do to threads: who waits, who becomes runnable, and that nobody else notices. */
module RiotEffects {
  import opened Options
  import opened PrioList
  import opened RiotSystem
  import opened RiotLists
  import opened RiotInvariant
  import opened RiotSteps
  import opened RiotRuns
  import opened RiotMessages
  import opened RiotMailbox

  // ---------- vocabulary ----------

  /** At most threads a and b changed. */
  ghost predicate OthersSame(s: Sys, r: Sys, a: Pid, b: Pid) {
    && r.threads.Keys == s.threads.Keys
    && forall t :: t in s.threads && t != a && t != b ==> r.threads[t] == s.threads[t]
  }

  /** No wait list but pl changed, and no mutex was taken or given back; the same thread is active. */
  ghost predicate SameBut(s: Sys, r: Sys, pl: Option<Place>) {
    && r.locked == s.locked && r.active == s.active
    && forall q: Place :: !q.RunQueue? && Some(q) != pl ==> At(r, q) == At(s, q)
  }

  /** t is PENDING and at hand on the run queue of its priority. */
  ghost predicate Ready(r: Sys, t: Pid) {
    t in r.threads && r.threads[t].status == Pending && t in At(r, RunQueue(r.threads[t].priority))
  }

  lemma PendingIsReady(r: Sys, t: Pid)
    requires Inv(r) && t in r.threads && r.threads[t].status == Pending
    ensures Ready(r, t)
  {
    RunQueueMembers(r, t, r.threads[t].priority);
  }

  /** t waits for flags and has them, counted from what its status says. */
  predicate HasWhatItAwaits(c: Thread) {
    c.waitData.Mask?
    && ((c.status == FlagBlockedAny && exists b :: b in c.waitData.mask && b in c.flags)
        || (c.status == FlagBlockedAll && forall b :: b in c.waitData.mask ==> b in c.flags))
  }

  lemma SatisfiedMeans(c: Thread)
    ensures FlagsSatisfied(c) <==> HasWhatItAwaits(c)
  {
    if c.waitData.Mask? {
      if c.flags * c.waitData.mask != {} { var b :| b in c.flags * c.waitData.mask; }
      if b :| b in c.waitData.mask && b in c.flags { assert b in c.flags * c.waitData.mask; }
    }
  }

  /** The message-waiting flag of t is set, and a wait for flags that this answers is over. */
  ghost predicate Flagged(s: Sys, r: Sys, t: Pid, c: Thread) {
    && t in r.threads
    && (if HasWhatItAwaits(c.(flags := c.flags + MSG_WAITING))
        then r.threads[t] == c.(flags := c.flags + MSG_WAITING, status := Pending) && Ready(r, t)
        else r.threads[t] == c.(flags := c.flags + MSG_WAITING))
  }

  // ---------- handing over a message ----------

  /** A receiver that waited has the message and is at hand; nobody else changed. */
  ghost predicate HandedTo(s: Sys, r: Sys, target: Pid, m: Msg) {
    && OthersSame(s, r, target, target) && SameBut(s, r, None) && target in s.threads && Ready(r, target)
    && r.threads[target] == s.threads[target].(received := s.threads[target].received + [m], status := Pending)
  }

  /** The message is in the queue of its target, which is told so. */
  ghost predicate QueuedAt(s: Sys, r: Sys, target: Pid, m: Msg) {
    && OthersSame(s, r, target, target) && SameBut(s, r, None) && target in s.threads
    && Flagged(s, r, target, s.threads[target].(queue := s.threads[target].queue + [m]))
  }

  lemma DirectHands(s: Sys, target: Pid, m: Msg)
    requires Inv(s) && target in s.threads && s.threads[target].status == ReceiveBlocked
    ensures HandedTo(s, DirectCopy(s, target, m), target, m)
  {
    hide ListsOk, Rest, SetStatus;
    DirectCopyKeeps(s, target, m);
    var c := s.threads[target].(received := s.threads[target].received + [m]);
    SetStatusShape(WithThread(s, target, c), target, Pending);
    SameLists(s, WithThread(s, target, c));
    PendingIsReady(DirectCopy(s, target, m), target);
  }

  lemma SameLists(s: Sys, r: Sys)
    requires r.lists == s.lists
    ensures forall pl: Place :: At(r, pl) == At(s, pl)
  {
  }

  lemma QueueFlags(s: Sys, target: Pid, m: Msg)
    requires Inv(s) && target in s.threads && |s.threads[target].queue| < s.threads[target].capacity
    requires s.threads[target].status != ReceiveBlocked
    ensures QueueMsg(s, target, m).1 && QueuedAt(s, QueueMsg(s, target, m).0, target, m)
  {
    hide ListsOk, Rest, SetStatus, FlagsSet;
    QueueMsgKeeps(s, target, m);
    var c := s.threads[target].(queue := s.threads[target].queue + [m]);
    var s1 := WithThread(s, target, c);
    SameLists(s, s1);
    FlagsSetShape(s1, target, MSG_WAITING);
    SatisfiedMeans(c.(flags := c.flags + MSG_WAITING));
    var r := FlagsSet(s1, target, MSG_WAITING);
    if FlagsSatisfied(c.(flags := c.flags + MSG_WAITING)) { PendingIsReady(r, target); }
  }

  /** The sender stops with its message in hand, on the list of its target behind all at least as urgent;
      the target is told that a message waits. */
  ghost predicate SenderStops(s: Sys, r: Sys, me: Pid, target: Pid, m: Msg) {
    && OthersSame(s, r, me, target) && SameBut(s, r, Some(MsgWaiters(target)))
    && me in s.threads && target in s.threads
    && r.threads[me] == s.threads[me].(waitData := Message(m),
                                       status := if s.threads[me].status == ReplyBlocked then ReplyBlocked else SendBlocked)
    && At(r, MsgWaiters(target)) == Insert(Prio(s), At(s, MsgWaiters(target)), me)
    && Flagged(s, r, target, s.threads[target])
  }

  lemma WaiterStops(s: Sys, me: Pid, target: Pid, m: Msg, st: Status)
    requires me in s.threads && target in s.threads && target != me
    requires st == if s.threads[me].status == ReplyBlocked then ReplyBlocked else SendBlocked
    requires target in SenderQueued(s, me, target, m, st).threads
    requires Inv(FlagsSet(SenderQueued(s, me, target, m, st), target, MSG_WAITING))
    ensures SenderStops(s, FlagsSet(SenderQueued(s, me, target, m, st), target, MSG_WAITING), me, target, m)
  {
    hide Inv, FlagsSet, SenderQueued, Insert, At;
    var c := s.threads[target];
    SenderStoppedShape(s, me, target, m, st);
    var q := SenderQueued(s, me, target, m, st);
    FlagsSetShape(q, target, MSG_WAITING);
    SatisfiedMeans(c.(flags := c.flags + MSG_WAITING));
    var r := FlagsSet(q, target, MSG_WAITING);
    if FlagsSatisfied(c.(flags := c.flags + MSG_WAITING)) { PendingIsReady(r, target); }
  }

  /** Before the target is told */
  lemma SenderStoppedShape(s: Sys, me: Pid, target: Pid, m: Msg, st: Status)
    requires me in s.threads
    ensures var q := SenderQueued(s, me, target, m, st);
            && q.threads == s.threads[me := s.threads[me].(waitData := Message(m), status := st)]
            && SameBut(s, q, Some(MsgWaiters(target)))
            && At(q, MsgWaiters(target)) == Insert(Prio(s), At(s, MsgWaiters(target)), me)
  {
    hide SetStatus, Position, At, Insert;
    SenderQueuedShape(s, me, target, m, st);
    SenderBlocked(s, me, m, st);
    InsertByShape(s, me, target, m, st);
    var s3 := SetStatus(WithThread(s, me, s.threads[me].(waitData := Message(m))), me, st);
    StoppedPlaces(s, me, m, st);
    AddToListShape(s3, MsgWaiters(target), me);
  }

  lemma StoppedPlaces(s: Sys, me: Pid, m: Msg, st: Status)
    requires me in s.threads
    ensures var s2 := WithThread(s, me, s.threads[me].(waitData := Message(m)));
            me in s2.threads && SameBut(s, SetStatus(s2, me, st), None)
  {
    hide SetStatus;
    var s2 := WithThread(s, me, s.threads[me].(waitData := Message(m)));
    SameLists(s, s2);
    SetStatusShape(s2, me, st);
  }

  lemma InsertByShape(s: Sys, me: Pid, target: Pid, m: Msg, st: Status)
    requires me in s.threads
    ensures At(SenderQueued(s, me, target, m, st), MsgWaiters(target)) == Insert(Prio(s), At(s, MsgWaiters(target)), me)
  {
    hide SetStatus, Position, SenderQueued, At;
    SenderQueuedShape(s, me, target, m, st);
  }

  /** What _msg_send did and answered: nobody there, handed over at once, queued, waiting, or refused */
  ghost predicate SendOutcome(s: Sys, r: Sys, me: Pid, target: Pid, m: Msg, block: bool, ret: int) {
    if target !in s.threads then ret == -1 && r == s
    else if s.threads[target].status == ReceiveBlocked then ret == 1 && HandedTo(s, r, target, m)
    else if |s.threads[target].queue| < s.threads[target].capacity then ret == 1 && QueuedAt(s, r, target, m)
    else if !block then ret == 0 && r == s
    else ret == 1 && SenderStops(s, r, me, target, m)
  }

  /** Main result, send. A target that waits in receive has the message and is at hand; one with room has it
      in its queue; otherwise the caller waits in order of urgency, or the call has no effect. No other
      thread changes. */
  lemma SendDoes(s: Sys, me: Pid, target: Pid, m0: Msg, block: bool)
    requires Inv(s) && CanRun(s, me) && target != me
    ensures var (r, ret) := MsgSend(s, me, target, m0, block);
            Inv(r) && SendOutcome(s, r, me, target, m0.(sender := me), block, ret)
  {
    hide ListsOk, Rest, SetStatus, FlagsSet, QueueMsg, DirectCopy, HandedTo, QueuedAt, SenderStops, OnNoList;
    MsgSendKeeps(s, me, target, m0, block);
    SendBranches(s, me, target, m0, block);
  }

  lemma SendBranches(s: Sys, me: Pid, target: Pid, m0: Msg, block: bool)
    requires Inv(s) && me in s.threads && target != me && Inv(MsgSend(s, me, target, m0, block).0)
    ensures var (r, ret) := MsgSend(s, me, target, m0, block);
            SendOutcome(s, r, me, target, m0.(sender := me), block, ret)
  {
    hide Inv, SetStatus, FlagsSet, QueueMsg, DirectCopy, HandedTo, QueuedAt, SenderStops, AddToList;
    var m := m0.(sender := me);
    if target in s.threads {
      if s.threads[target].status == ReceiveBlocked {
        DirectHands(s, target, m);
      } else if |s.threads[target].queue| < s.threads[target].capacity {
        QueueFlags(s, target, m);
      } else {
        Refused(s, target, m);
        var st := if s.threads[me].status == ReplyBlocked then ReplyBlocked else SendBlocked;
        SenderQueuedKeys(s, me, target, m);
        if block { WaiterStops(s, me, target, m, st); }
      }
    }
  }

  /** Main result, send from an interrupt */
  lemma SendIntDoes(s: Sys, target: Pid, m0: Msg)
    requires Inv(s)
    ensures var (r, ret) := MsgSendInt(s, target, m0); var m := m0.(sender := PID_ISR);
            && Inv(r)
            && if target !in s.threads then ret == -1 && r == s
               else if s.threads[target].status == ReceiveBlocked then ret == 1 && HandedTo(s, r, target, m)
               else if |s.threads[target].queue| < s.threads[target].capacity then ret == 1 && QueuedAt(s, r, target, m)
               else ret == 0 && r == s
  {
    hide Inv, QueueMsg, DirectCopy, HandedTo, QueuedAt;
    SendIntKeeps(s, target, m0);
    var m := m0.(sender := PID_ISR);
    if target in s.threads {
      if s.threads[target].status == ReceiveBlocked {
        DirectHands(s, target, m);
      } else if |s.threads[target].queue| < s.threads[target].capacity {
        QueueFlags(s, target, m);
      } else {
        Refused(s, target, m);
      }
    }
  }

  lemma SendToSelfDoes(s: Sys, me: Pid, m0: Msg)
    requires Inv(s) && CanRun(s, me)
    ensures me in s.threads
    ensures var (r, ret) := MsgSendToSelf(s, me, m0); var m := m0.(sender := me);
            && Inv(r)
            && if |s.threads[me].queue| < s.threads[me].capacity then ret == 1 && QueuedAt(s, r, me, m) else ret == 0 && r == s
  {
    hide ListsOk, Rest, QueueMsg, QueuedAt, OnNoList;
    var m := m0.(sender := me);
    QueueMsgKeeps(s, me, m);
    if |s.threads[me].queue| < s.threads[me].capacity { QueueFlags(s, me, m); } else { Refused(s, me, m); }
  }

  /** What msg_send_receive did: the caller stops and awaits the reply, and its message is handed over,
      queued or waits with it; or nobody is there, and the caller awaits a reply all the same. */
  ghost predicate RequestOutcome(s: Sys, r: Sys, me: Pid, target: Pid, m: Msg, m0: Msg, ret: int)
    requires me in s.threads
  {
    && r.threads.Keys == s.threads.Keys
    && r.threads[me] == s.threads[me].(status := ReplyBlocked, waitData := r.threads[me].waitData)
    && (r.threads[me].waitData == Message(m) || r.threads[me].waitData == Message(m0))
    && (forall t :: t in s.threads && t != me && t != target ==> r.threads[t] == s.threads[t])
    && if target !in s.threads then ret == -1 && SameBut(s, r, None)
       else if s.threads[target].status == ReceiveBlocked then
         && ret == 1 && SameBut(s, r, None) && Ready(r, target)
         && r.threads[target] == s.threads[target].(received := s.threads[target].received + [m], status := Pending)
       else if |s.threads[target].queue| < s.threads[target].capacity then
         && ret == 1 && SameBut(s, r, None)
         && Flagged(s, r, target, s.threads[target].(queue := s.threads[target].queue + [m]))
       else
         && ret == 1 && SameBut(s, r, Some(MsgWaiters(target)))
         && At(r, MsgWaiters(target)) == Insert(Prio(s), At(s, MsgWaiters(target)), me)
         && Flagged(s, r, target, s.threads[target])
  }

  lemma SameInsertOf(s: Sys, q: Sys, l: seq<Pid>, me: Pid)
    requires forall u :: Prio(q)(u) == Prio(s)(u)
    ensures Insert(Prio(q), l, me) == Insert(Prio(s), l, me)
  {
    SamePosition(Prio(s), Prio(q), l, Prio(s)(me));
  }

  /** The state in which msg_send_receive calls _msg_send */
  lemma AwaitingShape(s: Sys, me: Pid, m: Msg)
    requires me in s.threads
    ensures var s1 := SetStatus(s, me, ReplyBlocked);
            && me in s1.threads
            && var s2 := WithThread(s1, me, s1.threads[me].(waitData := Message(m)));
            && s2.threads == s.threads[me := s.threads[me].(status := ReplyBlocked, waitData := Message(m))]
            && SameBut(s, s2, None) && forall u :: Prio(s2)(u) == Prio(s)(u)
  {
    hide SetStatus;
    SetStatusShape(s, me, ReplyBlocked);
    var s1 := SetStatus(s, me, ReplyBlocked);
    SameLists(s1, WithThread(s1, me, s1.threads[me].(waitData := Message(m))));
  }

  /** Main result, request. The caller stops and awaits the reply. A target that waits in receive has the
      message and is at hand, one with room has it in its queue, otherwise it waits in order of urgency. No
      other thread changes. */
  lemma SendReceiveDoes(s: Sys, me: Pid, target: Pid, m0: Msg)
    requires Inv(s) && CanRun(s, me) && target != me
    ensures me in s.threads
    ensures var (r, ret) := MsgSendReceive(s, me, target, m0);
            Inv(r) && RequestOutcome(s, r, me, target, m0.(sender := me), m0, ret)
  {
    AwaitReplyKeeps(s, me, m0);
    AwaitingShape(s, me, m0);
    MsgSendReceiveKeeps(s, me, target, m0);
    hide Inv, CanRun, SetStatus, MsgSend, OnNoList;
    var s1 := SetStatus(s, me, ReplyBlocked);
    var s2 := WithThread(s1, me, s1.threads[me].(waitData := Message(m0)));
    SendBranches(s2, me, target, m0, true);
    RequestFromSend(s, s2, MsgSend(s2, me, target, m0, true).0, me, target, m0.(sender := me), m0,
                    MsgSend(s2, me, target, m0, true).1);
  }

  lemma RequestFromSend(s: Sys, s2: Sys, r: Sys, me: Pid, target: Pid, m: Msg, m0: Msg, ret: int)
    requires me in s.threads && target != me
    requires s2.threads == s.threads[me := s.threads[me].(status := ReplyBlocked, waitData := Message(m0))]
    requires SameBut(s, s2, None) && forall u :: Prio(s2)(u) == Prio(s)(u)
    requires SendOutcome(s2, r, me, target, m, true, ret)
    ensures RequestOutcome(s, r, me, target, m, m0, ret)
  {
    hide Insert, Ready, Prio;
    SameInsertOf(s, s2, At(s, MsgWaiters(target)), me);
  }

  // ---------- receiving ----------

  /** What _msg_receive did to threads: the message came from the queue or from the first waiting sender,
      who is at hand unless it awaits a reply; or there was none and the caller waits, or may not. */
  ghost predicate ReceiveOutcome(s: Sys, r: Sys, me: Pid, block: bool, ret: int)
    requires me in s.threads
  {
    var c, l := s.threads[me], At(s, MsgWaiters(me));
    if l == [] then
      && SameBut(s, r, None) && OthersSame(s, r, me, me)
      && (if c.queue != [] then
            ret == 1 && r.threads[me] == c.(received := c.received + [c.queue[0]], queue := c.queue[1..])
          else if block then ret == 1 && r.threads[me] == c.(status := ReceiveBlocked, waitData := Destination)
          else ret == -1 && r == s)
    else
      && ret == 1 && l[0] in s.threads && l[0] != me
      && OthersSame(s, r, me, l[0]) && SameBut(s, r, Some(MsgWaiters(me))) && At(r, MsgWaiters(me)) == l[1..]
      && (if c.queue != [] then
            r.threads[me] == c.(received := c.received + [c.queue[0]], queue := c.queue[1..] + [MsgOf(s, l[0])])
          else r.threads[me] == c.(received := c.received + [MsgOf(s, l[0])], waitData := Destination))
      && (if s.threads[l[0]].status == ReplyBlocked then r.threads[l[0]] == s.threads[l[0]]
          else Ready(r, l[0]) && r.threads[l[0]] == s.threads[l[0]].(status := Pending, waitData := Nothing))
  }

  /** Main result, receive */
  lemma ReceiveDoes(s: Sys, me: Pid, block: bool)
    requires Inv(s) && CanRun(s, me)
    ensures me in s.threads
    ensures At(s, MsgWaiters(me)) != [] ==>
              At(s, MsgWaiters(me))[0] in s.threads && At(s, MsgWaiters(me))[0] != me
    ensures var (r, ret) := MsgReceive(s, me, block); Inv(r) && ReceiveOutcome(s, r, me, block, ret)
  {
    WaitersExist(s, me);
    MsgReceiveKeeps(s, me, block);
    hide ListsOk, Rest, OnNoList, NotSending, MsgReceive;
    if At(s, MsgWaiters(me)) == [] { NoWaiterOutcome(s, me, block); } else { WaiterOutcome(s, me, block); }
  }

  lemma NoWaiterOutcome(s: Sys, me: Pid, block: bool)
    requires me in s.threads && At(s, MsgWaiters(me)) == []
    ensures var (r, ret) := MsgReceive(s, me, block); ReceiveOutcome(s, r, me, block, ret)
  {
    hide SetStatus, At;
    var c := s.threads[me];
    var s1 := WithThread(s, me, c.(waitData := Destination));
    SameLists(s, s1);
    SetStatusShape(s1, me, ReceiveBlocked);
    SameLists(s, WithThread(s, me, if c.queue != [] then c.(received := c.received + [c.queue[0]], queue := c.queue[1..]) else c));
    assert s.threads[me := c] == s.threads;
  }

  lemma WaiterOutcome(s: Sys, me: Pid, block: bool)
    requires Inv(s) && me in s.threads && At(s, MsgWaiters(me)) != [] && NotSending(s, me)
    requires At(s, MsgWaiters(me))[0] in s.threads && At(s, MsgWaiters(me))[0] != me
    requires Inv(MsgReceive(s, me, block).0)
    ensures var (r, ret) := MsgReceive(s, me, block); ReceiveOutcome(s, r, me, block, ret)
  {
    var l := At(s, MsgWaiters(me));
    ReceiveFromWaiter(s, me, block);
    hide Inv, ReleaseSender, RemoveHead, NotSending, At;
    var c1 := AfterTake(s.threads[me], MsgOf(s, l[0]));
    TakeWaiterShape(s, me, c1, l[0]);
    ReleasedShape(s, me, c1, l[0]);
    hide MsgReceive;
    var r := MsgReceive(s, me, block).0;
    assert MsgReceive(s, me, block).1 == 1 by { WaiterAnswer(s, me, block); }
    if r.threads[l[0]].status == Pending { PendingIsReady(r, l[0]); }
  }

  lemma WaiterAnswer(s: Sys, me: Pid, block: bool)
    requires me in s.threads && At(s, MsgWaiters(me)) != []
    requires At(s, MsgWaiters(me))[0] in s.threads && At(s, MsgWaiters(me))[0] != me
    ensures MsgReceive(s, me, block).1 == 1
  {
    hide SetStatus, ReleaseSender, RemoveHead;
  }

  /** The sender whose message was taken */
  lemma ReleasedShape(s: Sys, me: Pid, c1: Thread, w: Pid)
    requires me in s.threads && At(s, MsgWaiters(me)) != [] && At(s, MsgWaiters(me))[0] == w
    requires w in s.threads && w != me
    ensures var r := ReleaseSender(WithThread(RemoveHead(s, MsgWaiters(me)), me, c1), w);
            && SameBut(s, r, Some(MsgWaiters(me))) && w in r.threads
            && (if s.threads[w].status == ReplyBlocked then r.threads[w] == s.threads[w]
                else r.threads[w] == s.threads[w].(status := Pending, waitData := Nothing))
  {
    hide SetStatus;
    var s1 := RemoveHead(s, MsgWaiters(me));
    AtWithList(s, MsgWaiters(me), At(s, MsgWaiters(me))[1..]);
    var s2 := WithThread(s1, me, c1);
    SameLists(s1, s2);
    if s2.threads[w].status != ReplyBlocked {
      var s3 := WithThread(s2, w, s2.threads[w].(waitData := Nothing));
      SameLists(s2, s3);
      SetStatusShape(s3, w, Pending);
    }
  }

  /** Main result, reply. A thread that awaits a reply has it and is at hand; for any other -1 is returned and
      nothing happens. */
  lemma ReplyDoes(s: Sys, target: Pid, reply: Msg)
    requires Inv(s) && target in s.threads && NotSending(s, target)
    ensures var (r, ret) := MsgReply(s, target, reply);
            && Inv(r)
            && if s.threads[target].status == ReplyBlocked
               then
                 && ret == 1 && OthersSame(s, r, target, target) && SameBut(s, r, None) && Ready(r, target)
                 && r.threads[target] == s.threads[target].(replies := s.threads[target].replies + [reply], status := Pending)
               else ret == -1 && r == s
  {
    hide Inv, SetStatus, NotSending, At;
    MsgReplyKeeps(s, target, reply);
    if s.threads[target].status == ReplyBlocked {
      var s1 := WithThread(s, target, s.threads[target].(replies := s.threads[target].replies + [reply]));
      SameLists(s, s1);
      SetStatusShape(s1, target, Pending);
      PendingIsReady(MsgReply(s, target, reply).0, target);
    }
  }

  /** A new queue of the size asked for, empty; nothing else changes. */
  lemma InitQueueDoes(s: Sys, me: Pid, capacity: nat)
    requires me in s.threads
    ensures var r := MsgInitQueue(s, me, capacity);
            && OthersSame(s, r, me, me) && SameBut(s, r, None) && r.cache == s.cache
            && r.threads[me] == s.threads[me].(queue := [], capacity := capacity)
            && forall pl: Place :: At(r, pl) == At(s, pl)
  {
    SameLists(s, MsgInitQueue(s, me, capacity));
  }

  // ---------- waiting for a message over runs ----------

  /** A thread that waits in receive before and after a step received nothing in it. */
  lemma StillWaitingGotNothing(s: Sys, a: Action, t: Pid)
    requires Inv(s) && Sound(s) && Enabled(s, a) && t in s.threads && s.threads[t].status == ReceiveBlocked
    requires t in Apply(s, a).threads && Apply(s, a).threads[t].status == ReceiveBlocked
    ensures Received(Apply(s, a), t) == Received(s, t)
  {
    StepRefines(s, a, t);
    var e := EffectOn(s, a, t);
    if e.Deliver? {
      hide ListsOk, Rest, Sound, Refines;
      match a
      case Send(me, target, m, block) => hide SendEffect; SendDoes(s, me, target, m, block);
      case SendInt(target, m) => SendIntDoes(s, target, m);
      case SendReceive(me, target, m) => SendReceiveDoes(s, me, target, m);
      case _ =>
    }
  }

  /** Main result, waiting in receive. As long as a thread stays blocked in receive it has received nothing
      since it blocked, and nothing is pending for it: whoever was handed a message does not stay blocked. */
  lemma {:induction false} BlockedReceivedNothing(states: seq<Sys>, acts: seq<Action>, j: nat, n: nat, t: Pid)
    requires Run(states, acts) && j <= n <= |acts| < |states|
    requires forall k :: j <= k <= n ==> t in states[k].threads && states[k].threads[t].status == ReceiveBlocked
    ensures Received(states[n], t) == Received(states[j], t) && Backlog(states[n], t) == []
    decreases n
  {
    hide Run, Received, Backlog, Inv, Sound, Enabled, Apply;
    NobodyWaitsInVain(states, acts, n, t);
    if j < n {
      BlockedReceivedNothing(states, acts, j, n - 1, t);
      StepFacts(states, acts, n - 1);
      StillWaitingGotNothing(states[n - 1], acts[n - 1], t);
    }
  }

  // ---------- mutexes, flags, sleep and yield ----------

  /** Main result, lock. A free mutex is taken and no thread changes; one that is taken is left alone by a try,
      and otherwise the caller waits behind all at least as urgent. */
  lemma LockDoes(s: Sys, me: Pid, m: nat, block: bool)
    requires Inv(s) && CanRun(s, me)
    ensures me in s.threads
    ensures var (r, ok) := MutexLock(s, me, m, block);
            && Inv(r) && (ok <==> block || m !in s.locked)
            && if m !in s.locked then r == s.(locked := r.locked) && r.locked == s.locked + {m}
               else if !block then r == s
               else
                 && OthersSame(s, r, me, me) && SameBut(s, r, Some(MutexQueue(m)))
                 && r.threads[me] == s.threads[me].(status := MutexBlocked)
                 && At(r, MutexQueue(m)) == Insert(Prio(s), At(s, MutexQueue(m)), me)
  {
    hide Inv, AddToList, SetStatus, Insert, At, OnNoList;
    MutexLockKeeps(s, me, m, block);
    if m in s.locked && block { BlockShape(s, me, MutexBlocked, MutexQueue(m)); }
  }

  /** The caller stops and joins a list. */
  lemma BlockShape(s: Sys, me: Pid, st: Status, pl: Place)
    requires me in s.threads && !pl.RunQueue?
    ensures var r := AddToList(SetStatus(s, me, st), pl, me);
            && OthersSame(s, r, me, me) && SameBut(s, r, Some(pl)) && r.threads[me] == s.threads[me].(status := st)
            && At(r, pl) == Insert(Prio(s), At(s, pl), me)
  {
    hide SetStatus, Insert, At;
    SetStatusShape(s, me, st);
    var s1 := SetStatus(s, me, st);
    AddToListShape(s1, pl, me);
    SameInsertOf(s, s1, At(s, pl), me);
  }

  /** Main result, waiting for flags. With what is awaited at hand nothing changes; otherwise the caller stops
      and its mask and kind of wait are noted. */
  lemma FlagsWaitDoes(s: Sys, me: Pid, mask: Flags, all: bool)
    requires Inv(s) && CanRun(s, me)
    ensures me in s.threads
    ensures var r, c := FlagsWait(s, me, mask, all), s.threads[me];
            && Inv(r)
            && if (if all then forall b :: b in mask ==> b in c.flags else exists b :: b in mask && b in c.flags)
               then r == s
               else
                 && OthersSame(s, r, me, me) && SameBut(s, r, None)
                 && r.threads[me] == c.(waitData := Mask(mask), status := if all then FlagBlockedAll else FlagBlockedAny)
  {
    hide Inv, SetStatus, OnNoList, At;
    FlagsWaitKeeps(s, me, mask, all);
    var c := s.threads[me];
    if c.flags * mask != {} { var b :| b in c.flags * mask; }
    if b :| b in mask && b in c.flags { assert b in c.flags * mask; }
    var s1 := WithThread(s, me, c.(waitData := Mask(mask)));
    SameLists(s, s1);
    SetStatusShape(s1, me, if all then FlagBlockedAll else FlagBlockedAny);
  }

  /** Main result, setting flags. The flags are set, a thread that waited and now has what it awaits is at hand,
      and no other thread changes. */
  lemma FlagsSetDoes(s: Sys, t: Pid, mask: Flags)
    requires Inv(s) && t in s.threads
    ensures var r, c := FlagsSet(s, t, mask), s.threads[t].(flags := s.threads[t].flags + mask);
            && Inv(r) && OthersSame(s, r, t, t) && SameBut(s, r, None)
            && if HasWhatItAwaits(c) then r.threads[t] == c.(status := Pending) && Ready(r, t) else r.threads[t] == c
  {
    FlagsSetKeeps(s, t, mask);
    hide Inv, FlagsSet;
    FlagsSetShape(s, t, mask);
    var c := s.threads[t].(flags := s.threads[t].flags + mask);
    SatisfiedMeans(c);
    if FlagsSatisfied(c) { PendingIsReady(FlagsSet(s, t, mask), t); }
  }

  /** The caller sleeps and is on no list; no other thread changes. */
  lemma SleepDoes(s: Sys, me: Pid)
    requires Inv(s) && CanRun(s, me)
    ensures me in s.threads
    ensures var r := ThreadSleep(s, me);
            && Inv(r) && OthersSame(s, r, me, me) && SameBut(s, r, None) && OnNoList(r, me)
            && r.threads[me] == s.threads[me].(status := Sleeping)
  {
    hide ListsOk, Rest, SetStatus, OnNoList, At;
    ThreadSleepKeeps(s, me);
    SetStatusShape(s, me, Sleeping);
    UnlistedStatus(ThreadSleep(s, me), me);
  }

  /** The queue part of a yield: the caller's run queue goes round by one, and nothing else changes. */
  lemma AdvanceDoes(s: Sys, me: Pid)
    requires Inv(s) && CanRun(s, me) && s.threads[me].status == Running
    ensures var r, p := Advance(s, me), RunQueue(s.threads[me].priority);
            && Inv(r) && r.threads == s.threads && r.locked == s.locked && r.active == s.active && r.cache == s.cache
            && (forall q: Place :: q != p ==> At(r, q) == At(s, q))
            && At(s, p) != [] && At(r, p) == At(s, p)[1..] + [At(s, p)[0]]
  {
    AdvanceKeeps(s, me);
    RunQueueMembers(s, me, s.threads[me].priority);
    hide Inv;
  }
}
