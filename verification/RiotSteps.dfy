/** Every critical section keeps the kernel invariant, hence so does every run. */
module RiotSteps {
  import opened Options
  import opened PrioList
  import opened Bitcache
  import opened RiotSystem
  import opened RiotLists
  import opened RiotInvariant

  // ---------- mutex and condition variable ----------

  lemma LockedFrame(s: Sys, locked: set<nat>)
    requires Inv(s) && forall m: nat :: At(s, MutexQueue(m)) != [] ==> m in locked
    ensures Inv(s.(locked := locked))
  {
    var r := s.(locked := locked);
    var home :| Placed(s, home, None);
    assert forall pl: Place :: At(r, pl) == At(s, pl);
    assert Prio(r) == Prio(s) || forall u: nat :: Prio(r)(u) == Prio(s)(u);
    forall pl: Place | !pl.RunQueue? ensures Sorted(Prio(r), At(r, pl)) {
      assert Sorted(Prio(s), At(s, pl));
      SortedFrame(Prio(s), Prio(r), At(s, pl));
    }
    forall pl: Place ensures Distinct(At(r, pl)) { assert Distinct(At(s, pl)); }
    assert Placed(r, home, None);
    forall u | u in r.threads ensures MailboxOk(r, u) { assert MailboxOk(s, u); }
    forall x: nat, w | w in At(r, MsgWaiters(x)) ensures Carries(r, x, w) {
      assert w in At(s, MsgWaiters(x)) && Carries(s, x, w);
    }
  }

  lemma MutexLockKeeps(s: Sys, me: Pid, m: nat, block: bool)
    requires Inv(s) && CanRun(s, me)
    ensures Inv(MutexLock(s, me, m, block).0)
  {
    if m !in s.locked {
      LockedFrame(s, s.locked + {m});
    } else if block {
      BlockKeeps(s, me, MutexBlocked, MutexQueue(m));
    }
  }

  /** mutex_unlock keeps the invariant and leaves a thread that is not waiting as it was. */
  lemma MutexUnlockKeeps(s: Sys, m: nat)
    requires Inv(s)
    ensures At(s, MutexQueue(m)) != [] ==> At(s, MutexQueue(m))[0] in s.threads
    ensures Inv(MutexUnlock(s, m))
  {
    if m in s.locked {
      if At(s, MutexQueue(m)) == [] {
        LockedFrame(s, s.locked - {m});
      } else {
        WakeHeadKeeps(s, MutexQueue(m));
      }
    }
  }

  lemma MutexUnlockDetached(s: Sys, m: nat, me: Pid)
    requires Inv(s) && me in s.threads && Detached(s, me) && s.threads[me].status != MutexBlocked
    ensures At(s, MutexQueue(m)) != [] ==> At(s, MutexQueue(m))[0] in s.threads
    ensures me in MutexUnlock(s, m).threads && Detached(MutexUnlock(s, m), me)
    ensures MutexUnlock(s, m).threads[me] == s.threads[me]
  {
    if m in s.locked && At(s, MutexQueue(m)) != [] {
      MemberStatus(s, MutexQueue(m), At(s, MutexQueue(m))[0]);
      WakeHeadDetached(s, MutexQueue(m), me);
    } else {
      var r := MutexUnlock(s, m);
      assert forall pl: Place :: me in At(r, pl) ==> me in At(s, pl);
    }
  }

  lemma UnlockAndSleepKeeps(s: Sys, me: Pid, m: nat)
    requires Inv(s) && CanRun(s, me)
    ensures At(s, MutexQueue(m)) != [] ==> At(s, MutexQueue(m))[0] in s.threads
    ensures Inv(MutexUnlockAndSleep(s, me, m))
  {
    hide ListsOk;
    MutexUnlockKeeps(s, m);
    MutexUnlockDetached(s, m, me);
    var s1 := MutexUnlock(s, m);
    assert MailboxOk(s1, me);
    StopKeeps(s1, me, Sleeping);
  }

  lemma CondWaitKeeps(s: Sys, me: Pid, c: nat, m: nat)
    requires Inv(s) && CanRun(s, me)
    ensures At(s, MutexQueue(m)) != [] ==> At(s, MutexQueue(m))[0] in s.threads
    ensures Inv(CondWait(s, me, c, m))
  {
    MutexUnlockKeeps(s, m);
    MutexUnlockDetached(s, m, me);
    BlockKeeps(MutexUnlock(s, m), me, CondBlocked, CondQueue(c));
  }

  lemma CondMembers(s: Sys, c: nat)
    requires Inv(s)
    ensures forall t :: t in At(s, CondQueue(c)) ==> t in s.threads
  {
    forall t | t in At(s, CondQueue(c)) ensures t in s.threads { MemberStatus(s, CondQueue(c), t); }
  }

  lemma {:induction false} CondSignalKeeps(s: Sys, c: nat, broadcast: bool)
    requires Inv(s)
    ensures forall t :: t in At(s, CondQueue(c)) ==> t in s.threads
    ensures Inv(CondSignal(s, c, broadcast))
    decreases |At(s, CondQueue(c))|
  {
    CondMembers(s, c);
    if At(s, CondQueue(c)) != [] {
      assert At(s, CondQueue(c))[0] in At(s, CondQueue(c));
      WakeHeadKeeps(s, CondQueue(c));
      if broadcast { CondSignalKeeps(WakeHead(s, CondQueue(c)), c, broadcast); }
    }
  }

  lemma SameMembership(s: Sys, t: Pid, c: Thread, u: Pid)
    ensures OnNoList(s, u) ==> OnNoList(WithThread(s, t, c), u)
  {
    forall pl: Place | OnNoList(s, u) ensures u !in At(WithThread(s, t, c), pl) {
      assert u !in At(s, pl);
    }
  }

  // ---------- thread flags ----------

  lemma FlagsSetLists(s: Sys, t: Pid, mask: Flags)
    requires ListsOk(s) && t in s.threads
    ensures ListsOk(FlagsSet(s, t, mask))
  {
    var c := s.threads[t].(flags := s.threads[t].flags + mask);
    FieldsOk(s, t, c);
    if FlagsSatisfied(c) {
      UnlistedStatus(WithThread(s, t, c), t);
      ReadyOk(WithThread(s, t, c), t);
    }
  }

  /** What setting flags does to the state outside the run queues. */
  lemma FlagsSetShape(s: Sys, t: Pid, mask: Flags)
    requires t in s.threads
    ensures var c := s.threads[t].(flags := s.threads[t].flags + mask);
            && OnlyThread(s, FlagsSet(s, t, mask), t)
            && FlagsSet(s, t, mask).threads[t] == if FlagsSatisfied(c) then c.(status := Pending) else c
  {
    SetStatusShape(WithThread(s, t, s.threads[t].(flags := s.threads[t].flags + mask)), t, Pending);
  }

  lemma FlagsSetKeeps(s: Sys, t: Pid, mask: Flags)
    requires Inv(s) && t in s.threads
    ensures Inv(FlagsSet(s, t, mask))
  {
    FlagsSetLists(s, t, mask);
    FlagsSetRest(s, t, mask);
  }

  lemma FlagsSetRest(s: Sys, t: Pid, mask: Flags)
    requires Rest(s) && t in s.threads
    ensures Rest(FlagsSet(s, t, mask))
  {
    FlagsSetShape(s, t, mask);
    assert MailboxOk(s, t);
    OneThread(s, FlagsSet(s, t, mask), t);
  }

  lemma FlagsWaitLists(s: Sys, me: Pid, mask: Flags, all: bool)
    requires ListsOk(s) && CanRun(s, me)
    ensures ListsOk(FlagsWait(s, me, mask, all))
  {
    hide ListsOk;
    var c := s.threads[me].(waitData := Mask(mask));
    var s1 := WithThread(s, me, c);
    FieldsOk(s, me, c);
    SameMembership(s, me, c, me);
    StopOk(s1, me, if all then FlagBlockedAll else FlagBlockedAny);
  }

  lemma FlagsWaitRest(s: Sys, me: Pid, mask: Flags, all: bool)
    requires Rest(s) && me in s.threads && NotSending(s, me)
    ensures Rest(FlagsWait(s, me, mask, all))
  {
    var c := s.threads[me].(waitData := Mask(mask));
    SetStatusShape(WithThread(s, me, c), me, if all then FlagBlockedAll else FlagBlockedAny);
    assert MailboxOk(s, me);
    if !(if all then mask <= c.flags else c.flags * mask != {}) {
      OneThread(s, FlagsWait(s, me, mask, all), me);
    }
  }

  lemma FlagsWaitKeeps(s: Sys, me: Pid, mask: Flags, all: bool)
    requires Inv(s) && CanRun(s, me)
    ensures Inv(FlagsWait(s, me, mask, all))
  {
    FlagsWaitLists(s, me, mask, all);
    UnlistedNotSending(s, me);
    FlagsWaitRest(s, me, mask, all);
  }

  lemma FlagsTakeKeeps(s: Sys, me: Pid, mask: Flags)
    requires Inv(s) && CanRun(s, me)
    ensures Inv(FlagsTake(s, me, mask).0)
  {
    assert MailboxOk(s, me);
    FieldsKeep(s, me, s.threads[me].(flags := s.threads[me].flags - mask));
  }

  // ---------- messages ----------

  lemma QueueMsgKeeps(s: Sys, t: Pid, m: Msg)
    requires Inv(s) && t in s.threads && s.threads[t].status != ReceiveBlocked
    ensures Inv(QueueMsg(s, t, m).0)
  {
    var c := s.threads[t];
    if |c.queue| < c.capacity {
      assert MailboxOk(s, t);
      var c1 := c.(queue := c.queue + [m]);
      FieldsKeep(s, t, c1);
      FlagsSetKeeps(WithThread(s, t, c1), t, MSG_WAITING);
    }
  }

  lemma DirectCopyKeeps(s: Sys, target: Pid, m: Msg)
    requires Inv(s) && target in s.threads && s.threads[target].status == ReceiveBlocked
    ensures Inv(DirectCopy(s, target, m))
  {
    var c := s.threads[target].(received := s.threads[target].received + [m]);
    assert MailboxOk(s, target);
    FieldsKeep(s, target, c);
    UnlistedStatus(s, target);
    SameMembership(s, target, c, target);
    ReadyKeeps(WithThread(s, target, c), target);
  }

  /** The sender joins the waiters of a thread whose queue is full or absent. */
  function SenderQueued(s: Sys, me: Pid, target: Pid, m: Msg, st: Status): Sys
    requires me in s.threads
  {
    AddToList(SetStatus(WithThread(s, me, s.threads[me].(waitData := Message(m))), me, st), MsgWaiters(target), me)
  }

  lemma SenderQueuedLists(s: Sys, me: Pid, target: Pid, m: Msg, st: Status)
    requires ListsOk(s) && me in s.threads && Detached(s, me)
    requires st == SendBlocked || st == ReplyBlocked
    ensures ListsOk(SenderQueued(s, me, target, m, st))
  {
    hide ListsOk;
    var c := s.threads[me].(waitData := Message(m));
    var s1 := WithThread(s, me, c);
    FieldsOk(s, me, c);
    SameMembership(s, me, c, me);
    BlockOk(s1, me, st, MsgWaiters(target));
  }

  lemma SenderQueuedRest(s: Sys, me: Pid, target: Pid, m: Msg, st: Status)
    requires Rest(s) && me in s.threads && target in s.threads && target != me
    requires s.threads[me].status != FlagBlockedAny && s.threads[me].status != FlagBlockedAll
    requires s.threads[target].status != ReceiveBlocked
    requires |s.threads[target].queue| >= s.threads[target].capacity
    requires st == SendBlocked || st == ReplyBlocked
    ensures Rest(SenderQueued(s, me, target, m, st))
  {
    hide Rest, SetStatus, AddToList, NotSending;
    MessagesFrameOf(s, me);
    MessagesFrameOf(s, target);
    var s1 := WithThread(s, me, s.threads[me].(waitData := Message(m)));
    assert At(s1, MsgWaiters(me)) == At(s, MsgWaiters(me));
    OneThread(s, s1, me);
    BlockRest(s1, me, st, MsgWaiters(target));
  }

  lemma RefusedWhenFull(s: Sys, t: Pid, m: Msg)
    requires t in s.threads
    ensures !QueueMsg(s, t, m).1 ==> QueueMsg(s, t, m).0 == s && |s.threads[t].queue| >= s.threads[t].capacity
  {
  }

  lemma SenderQueuedKeys(s: Sys, me: Pid, target: Pid, m: Msg)
    requires me in s.threads
    ensures forall st: Status :: SenderQueued(s, me, target, m, st).threads.Keys == s.threads.Keys
  {
    forall st: Status ensures SenderQueued(s, me, target, m, st).threads.Keys == s.threads.Keys {
      SetStatusShape(WithThread(s, me, s.threads[me].(waitData := Message(m))), me, st);
    }
  }

  lemma MsgSendKeeps(s: Sys, me: Pid, target: Pid, m0: Msg, block: bool)
    requires Inv(s) && me in s.threads && Detached(s, me) && target != me
    requires s.threads[me].status != FlagBlockedAny && s.threads[me].status != FlagBlockedAll
    ensures Inv(MsgSend(s, me, target, m0, block).0)
  {
    hide ListsOk, Rest, SetStatus, FlagsSet, QueueMsg, AddToList, DirectCopy;
    var m := m0.(sender := me);
    if target in s.threads {
      if s.threads[target].status != ReceiveBlocked {
        QueueMsgKeeps(s, target, m);
        RefusedWhenFull(s, target, m);
        SenderQueuedKeys(s, me, target, m);
        if !QueueMsg(s, target, m).1 && block {
          var st := if s.threads[me].status == ReplyBlocked then ReplyBlocked else SendBlocked;
          SenderQueuedLists(s, me, target, m, st);
          SenderQueuedRest(s, me, target, m, st);
          FlagsSetKeeps(SenderQueued(s, me, target, m, st), target, MSG_WAITING);
        }
      } else {
        DirectCopyKeeps(s, target, m);
      }
    }
  }

  /** The state in which msg_send_receive hands over to _msg_send. */
  lemma AwaitReplyKeeps(s: Sys, me: Pid, m: Msg)
    requires Inv(s) && CanRun(s, me)
    ensures var s1 := SetStatus(s, me, ReplyBlocked);
            && me in s1.threads
            && var s2 := WithThread(s1, me, s1.threads[me].(waitData := Message(m)));
            && Inv(s2) && OnNoList(s2, me) && s2.threads[me].status == ReplyBlocked
  {
    hide ListsOk;
    assert MailboxOk(s, me);
    StopKeeps(s, me, ReplyBlocked);
    var s1 := SetStatus(s, me, ReplyBlocked);
    SetStatusShape(s, me, ReplyBlocked);
    StoppedDetached(s, me, ReplyBlocked);
    var c := s1.threads[me].(waitData := Message(m));
    assert MailboxOk(s1, me);
    FieldsKeep(s1, me, c);
    SameMembership(s1, me, c, me);
  }

  lemma MsgSendReceiveKeeps(s: Sys, me: Pid, target: Pid, m: Msg)
    requires Inv(s) && CanRun(s, me) && target != me
    ensures Inv(MsgSendReceive(s, me, target, m).0)
  {
    AwaitReplyKeeps(s, me, m);
    var s1 := SetStatus(s, me, ReplyBlocked);
    MsgSendKeeps(WithThread(s1, me, s1.threads[me].(waitData := Message(m))), me, target, m, true);
  }

  /** A detached thread that stops is then on no list. */
  lemma StoppedDetached(s: Sys, me: Pid, st: Status)
    requires ListsOk(s) && me in s.threads && Detached(s, me) && !OnRunqueue(st)
    ensures OnNoList(SetStatus(s, me, st), me)
  {
    var home :| Placed(s, home, None);
    var h := FloatOff(s, home, me, st);
  }

  /** A thread that awaits a reply and is not queued as a sender is on no list. */
  lemma AwaitingOnNoList(s: Sys, t: Pid)
    requires ListsOk(s) && t in s.threads && s.threads[t].status == ReplyBlocked && NotSending(s, t)
    ensures OnNoList(s, t)
  {
    var home :| Placed(s, home, None);
  }

  lemma MsgReplyKeeps(s: Sys, target: Pid, reply: Msg)
    requires Inv(s) && target in s.threads && NotSending(s, target)
    ensures Inv(MsgReply(s, target, reply).0)
  {
    hide ListsOk;
    var c := s.threads[target];
    if c.status == ReplyBlocked {
      var c1 := c.(replies := c.replies + [reply]);
      var s1 := WithThread(s, target, c1);
      AwaitingOnNoList(s, target);
      FieldsOk(s, target, c1);
      SameMembership(s, target, c1, target);
      ReadyOk(s1, target);
      SetStatusShape(s1, target, Pending);
      assert MailboxOk(s, target);
      OneThread(s, SetStatus(s1, target, Pending), target);
    }
  }

  /** msg_receive up to the wake-up of the sender whose message was taken. */
  lemma TakeWaiterLists(s: Sys, me: Pid, c1: Thread)
    requires ListsOk(s) && me in s.threads && At(s, MsgWaiters(me)) != []
    requires c1.status == s.threads[me].status && c1.priority == s.threads[me].priority
    requires me != At(s, MsgWaiters(me))[0]
    ensures At(s, MsgWaiters(me))[0] in s.threads
    ensures ListsOk(ReleaseSender(WithThread(RemoveHead(s, MsgWaiters(me)), me, c1), At(s, MsgWaiters(me))[0]))
  {
    var w := At(s, MsgWaiters(me))[0];
    var home :| Placed(s, home, None);
    HeadFloats(s, home, MsgWaiters(me));
    hide ListsOk;
    var s1 := RemoveHead(s, MsgWaiters(me));
    var h1 := home - {w};
    ReceiverFrame(s1, h1, me, c1, w);
    ReleaseLists(WithThread(s1, me, c1), h1, w);
  }

  lemma ReceiverFrame(s: Sys, home: map<Pid, Place>, me: Pid, c: Thread, w: Pid)
    requires Placed(s, home, Some(w)) && me in s.threads && me != w
    requires c.status == s.threads[me].status && c.priority == s.threads[me].priority
    ensures Placed(WithThread(s, me, c), home, Some(w))
  {
    FieldsFrame(s, home, me, c, Some(w));
  }

  lemma ReleaseLists(s: Sys, home: map<Pid, Place>, w: Pid)
    requires Placed(s, home, Some(w)) && w in s.threads
    requires s.threads[w].status == SendBlocked || s.threads[w].status == ReplyBlocked
    ensures ListsOk(ReleaseSender(s, w))
  {
    var c := s.threads[w];
    if c.status == ReplyBlocked {
      NoListNeeded(s, home, w);
    } else {
      FieldsFrame(s, home, w, c.(waitData := Nothing), Some(w));
      PushLands(WithThread(s, w, c.(waitData := Nothing)), home, w);
    }
  }

  lemma TakeWaiterRest(s: Sys, me: Pid, c1: Thread, w: Pid)
    requires Rest(s) && me in s.threads && At(s, MsgWaiters(me)) != [] && w == At(s, MsgWaiters(me))[0]
    requires w in s.threads && w != me && NotSending(RemoveHead(s, MsgWaiters(me)), w)
    requires s.threads[w].status == SendBlocked || s.threads[w].status == ReplyBlocked
    requires s.threads[me].status == Running || s.threads[me].status == ReplyBlocked
    requires c1.status == s.threads[me].status && |c1.queue| == |s.threads[me].queue|
    requires c1.capacity == s.threads[me].capacity
    requires NotSending(s, me)
    ensures Rest(ReleaseSender(WithThread(RemoveHead(s, MsgWaiters(me)), me, c1), w))
  {
    hide Rest;
    var s1 := RemoveHead(s, MsgWaiters(me));
    forall x: nat ensures me !in At(s1, MsgWaiters(x)) { assert me !in At(s, MsgWaiters(x)); }
    RestDrop(s, MsgWaiters(me));
    FillRest(s1, me, c1);
    ReleaseRest(WithThread(s1, me, c1), w);
  }

  lemma FillRest(s: Sys, me: Pid, c1: Thread)
    requires Rest(s) && me in s.threads && NotSending(s, me)
    requires s.threads[me].status == Running || s.threads[me].status == ReplyBlocked
    requires c1.status == s.threads[me].status && |c1.queue| == |s.threads[me].queue|
    requires c1.capacity == s.threads[me].capacity
    ensures Rest(WithThread(s, me, c1))
  {
    assert MailboxOk(s, me);
    OneThread(s, WithThread(s, me, c1), me);
  }

  lemma ReleaseRest(s: Sys, w: Pid)
    requires Rest(s) && w in s.threads && NotSending(s, w)
    requires s.threads[w].status == SendBlocked || s.threads[w].status == ReplyBlocked
    ensures Rest(ReleaseSender(s, w))
  {
    hide Rest, SetStatus, NotSending;
    if s.threads[w].status != ReplyBlocked {
      MessagesFrameOf(s, w);
      SetStatusShape(WithThread(s, w, s.threads[w].(waitData := Nothing)), w, Pending);
      OneThread(s, ReleaseSender(s, w), w);
    }
  }

  /** A sender that left the list of me is a sender nowhere. */
  lemma HeadNotSending(s: Sys, me: Pid)
    requires ListsOk(s) && At(s, MsgWaiters(me)) != []
    ensures var w := At(s, MsgWaiters(me))[0];
            && w in s.threads && NotSending(RemoveHead(s, MsgWaiters(me)), w)
            && (s.threads[w].status == SendBlocked || s.threads[w].status == ReplyBlocked)
  {
    var home :| Placed(s, home, None);
    HeadFloats(s, home, MsgWaiters(me));
  }

  lemma MsgReceiveKeeps(s: Sys, me: Pid, block: bool)
    requires Inv(s) && CanRun(s, me)
    ensures At(s, MsgWaiters(me)) != [] ==>
              At(s, MsgWaiters(me))[0] in s.threads && At(s, MsgWaiters(me))[0] != me
    ensures Inv(MsgReceive(s, me, block).0)
  {
    var c := s.threads[me];
    assert MailboxOk(s, me);
    UnlistedNotSending(s, me);
    if At(s, MsgWaiters(me)) != [] {
      var w := At(s, MsgWaiters(me))[0];
      HeadNotSending(s, me);
      assert w in At(s, MsgWaiters(me));
      var m := SentBy(s.threads[w]);
      var c1 :=
        if c.queue != []
        then c.(received := c.received + [c.queue[0]], queue := c.queue[1..] + [m])
        else c.(received := c.received + [m], waitData := Destination);
      TakeWaiterLists(s, me, c1);
      TakeWaiterRest(s, me, c1, w);
    } else if c.queue != [] {
      FieldsKeep(s, me, c.(received := c.received + [c.queue[0]], queue := c.queue[1..]));
    } else if block {
      ReceiveBlocksKeeps(s, me);
    }
  }

  lemma ReceiveBlocksKeeps(s: Sys, me: Pid)
    requires Inv(s) && CanRun(s, me) && s.threads[me].queue == [] && At(s, MsgWaiters(me)) == []
    ensures Inv(SetStatus(WithThread(s, me, s.threads[me].(waitData := Destination)), me, ReceiveBlocked))
  {
    hide ListsOk;
    var c := s.threads[me].(waitData := Destination);
    var s1 := WithThread(s, me, c);
    FieldsOk(s, me, c);
    SameMembership(s, me, c, me);
    StopOk(s1, me, ReceiveBlocked);
    UnlistedNotSending(s, me);
    SetStatusShape(s1, me, ReceiveBlocked);
    assert MailboxOk(s, me);
    OneThread(s, SetStatus(s1, me, ReceiveBlocked), me);
  }

  /** msg_init_queue is called while nobody waits to send. */
  lemma MsgInitQueueKeeps(s: Sys, me: Pid, capacity: nat)
    requires Inv(s) && CanRun(s, me) && At(s, MsgWaiters(me)) == []
    ensures Inv(MsgInitQueue(s, me, capacity))
  {
    FieldsKeep(s, me, s.threads[me].(queue := [], capacity := capacity));
  }

  // ---------- threads ----------

  lemma ThreadSleepKeeps(s: Sys, me: Pid)
    requires Inv(s) && CanRun(s, me)
    ensures Inv(ThreadSleep(s, me))
  {
    assert MailboxOk(s, me);
    StopKeeps(s, me, Sleeping);
  }

  lemma ThreadWakeupKeeps(s: Sys, t: Pid)
    requires Inv(s)
    ensures Inv(ThreadWakeup(s, t))
  {
    if t in s.threads && s.threads[t].status == Sleeping {
      UnlistedStatus(s, t);
      ReadyKeeps(s, t);
    }
  }

  /** A thread that is on no list may change priority. */
  lemma FloatPriority(s: Sys, home: map<Pid, Place>, t: Pid, c: Thread)
    requires Placed(s, home, Some(t)) && c.status == s.threads[t].status
    ensures Placed(WithThread(s, t, c), home, Some(t))
  {
    hide Sorted, Distinct, Belongs;
    var r := WithThread(s, t, c);
    assert forall q: Place :: At(r, q) == At(s, q);
    forall q: Place | !q.RunQueue? ensures Sorted(Prio(r), At(r, q)) {
      assert Sorted(Prio(s), At(s, q));
      assert t !in At(s, q);
      SortedFrame(Prio(s), Prio(r), At(s, q));
    }
    forall q: Place ensures Distinct(At(r, q)) { assert Distinct(At(s, q)); }
    FloatFits(s, home, t, c);
  }

  lemma FloatFits(s: Sys, home: map<Pid, Place>, t: Pid, c: Thread)
    requires StatusFits(s, home) && NobodyLost(s, home, Some(t))
    ensures StatusFits(WithThread(s, t, c), home) && NobodyLost(WithThread(s, t, c), home, Some(t))
  {
  }

  /** Changing the priority of a runnable thread is taking it off, changing it, and putting it back. */
  lemma ChangePriorityAsMoves(s: Sys, t: Pid, p: Priority)
    requires t in s.threads && OnRunqueue(s.threads[t].status) && s.threads[t].priority != p
    ensures var c := s.threads[t];
            var s1 := SetStatus(s, t, Stopped);
            var s2 := WithThread(s1, t, c.(status := Stopped, priority := p));
            ChangePriority(s, t, p) == WithThread(SetStatus(s2, t, Pending), t, c.(priority := p))
  {
    var c := s.threads[t];
    var s2 := WithThread(SetStatus(s, t, Stopped), t, c.(status := Stopped, priority := p));
    var a := ChangePriority(s, t, p);
    var b := WithThread(SetStatus(s2, t, Pending), t, c.(priority := p));
    assert a.threads == b.threads;
    assert a.lists == b.lists;
  }

  lemma ChangePriorityLists(s: Sys, t: Pid, p: Priority)
    requires ListsOk(s) && t in s.threads && Detached(s, t) && !(MustQueue(s.threads[t].status) && !OnRunqueue(s.threads[t].status))
    ensures ListsOk(ChangePriority(s, t, p))
  {
    var c := s.threads[t];
    if c.priority != p {
      var home :| Placed(s, home, None);
      hide ListsOk;
      if OnRunqueue(c.status) {
        RequeueLists(s, home, t, p);
      } else {
        FloatsFree(s, home, t);
        FloatPriority(s, home, t, c.(priority := p));
        Settle(WithThread(s, t, c.(priority := p)), home, t);
      }
    }
  }

  lemma Settle(s: Sys, home: map<Pid, Place>, t: Pid)
    requires Placed(s, home, Some(t)) && !MustQueue(s.threads[t].status)
    ensures ListsOk(s)
  {
    NoListNeeded(s, home, t);
  }

  lemma RequeueLists(s: Sys, home: map<Pid, Place>, t: Pid, p: Priority)
    requires Placed(s, home, None) && t in s.threads && OnRunqueue(s.threads[t].status)
    requires s.threads[t].priority != p
    ensures ListsOk(ChangePriority(s, t, p))
  {
    hide Placed;
    var c := s.threads[t];
    ChangePriorityAsMoves(s, t, p);
    PopFloats(s, home, t, Stopped);
    var s1 := SetStatus(s, t, Stopped);
    SetStatusShape(s, t, Stopped);
    FloatPriority(s1, home - {t}, t, c.(status := Stopped, priority := p));
    var s2 := WithThread(s1, t, c.(status := Stopped, priority := p));
    PushLands(s2, home - {t}, t);
    var s3 := SetStatus(s2, t, Pending);
    SetStatusShape(s2, t, Pending);
    PlacedIsOk(s3, (home - {t})[t := RunQueue(p)]);
    FieldsOk(s3, t, c.(priority := p));
  }

  lemma PlacedIsOk(s: Sys, home: map<Pid, Place>)
    requires Placed(s, home, None)
    ensures ListsOk(s)
  {
  }

  lemma ChangePriorityShape(s: Sys, t: Pid, p: Priority)
    requires t in s.threads
    ensures OnlyThread(s, ChangePriority(s, t, p), t)
    ensures ChangePriority(s, t, p).threads[t] == s.threads[t].(priority := p)
  {
  }

  lemma ChangePriorityRest(s: Sys, t: Pid, p: Priority)
    requires Rest(s) && t in s.threads
    ensures Rest(ChangePriority(s, t, p))
  {
    ChangePriorityShape(s, t, p);
    assert MailboxOk(s, t);
    OneThread(s, ChangePriority(s, t, p), t);
  }

  /** The control block of a new thread is not linked anywhere. */
  lemma NewThreadLists(s: Sys, t: Pid, c: Thread)
    requires ListsOk(s) && t !in s.threads && c.status == Stopped
    ensures ListsOk(WithThread(s, t, c)) && OnNoList(WithThread(s, t, c), t)
  {
    var home :| Placed(s, home, None);
    hide ListsOk;
    var r := WithThread(s, t, c);
    NewThreadPlaced(s, r, home, t, c);
    PlacedIsOk(r, home);
    forall q: Place ensures t !in At(r, q) {
      assert At(r, q) == At(s, q);
    }
  }

  lemma NewThreadPlaced(s: Sys, r: Sys, home: map<Pid, Place>, t: Pid, c: Thread)
    requires Placed(s, home, None) && t !in s.threads && c.status == Stopped && r == WithThread(s, t, c)
    ensures Placed(r, home, None)
  {
    assert t !in home;
    assert forall q: Place :: At(r, q) == At(s, q);
    forall q: Place ensures Distinct(At(r, q)) { assert Distinct(At(s, q)); }
    assert WaitersSorted(r) by { NewThreadSorted(s, r, home, t, c); }
  }

  lemma NewThreadSorted(s: Sys, r: Sys, home: map<Pid, Place>, t: Pid, c: Thread)
    requires Placed(s, home, None) && t !in s.threads && r == WithThread(s, t, c)
    ensures WaitersSorted(r)
  {
    assert t !in home;
    assert forall u :: u in home ==> Prio(r)(u) == Prio(s)(u);
    forall q: Place | !q.RunQueue? ensures Sorted(Prio(r), At(r, q)) {
      assert At(r, q) == At(s, q) && Sorted(Prio(s), At(s, q));
      SortedFrame(Prio(s), Prio(r), At(s, q));
    }
  }

  lemma NewThreadRest(s: Sys, t: Pid, c: Thread)
    requires Rest(s) && t !in s.threads && c.status == Stopped && c.queue == [] && c.capacity == 0
    ensures Rest(WithThread(s, t, c))
  {
    var r := WithThread(s, t, c);
    forall u | u in r.threads ensures MailboxOk(r, u) {
      if u != t { assert MailboxOk(s, u); }
    }
    forall x: nat, w | w in At(r, MsgWaiters(x)) ensures Carries(r, x, w) {
      assert w in At(s, MsgWaiters(x)) && Carries(s, x, w);
    }
  }

  lemma ThreadCreateKeeps(s: Sys, p: Priority, sleeping: bool, flags: Flags)
    requires Inv(s)
    ensures Inv(ThreadCreate(s, p, sleeping, flags).0)
  {
    hide ListsOk, Rest;
    var pid := FreePid(s, PID_FIRST);
    if pid.Some? {
      var t := pid.value;
      var c := Thread(p, Stopped, flags, Nothing, [], 0, [], []);
      var s1 := WithThread(s, t, c);
      NewThreadLists(s, t, c);
      NewThreadRest(s, t, c);
      if sleeping {
        assert MailboxOk(s1, t) by { assert s1.threads[t] == c; }
        StopKeeps(s1, t, Sleeping);
      } else {
        ReadyKeeps(s1, t);
      }
    }
  }

  // ---------- scheduler ----------

  /** thread_yield rotates one run queue. */
  lemma AdvanceKeeps(s: Sys, me: Pid)
    requires Inv(s) && me in s.threads
    ensures Inv(Advance(s, me))
  {
    hide ListsOk, Rest, Advance;
    AdvanceLists(s, me);
    AdvanceRest(s, me);
  }

  lemma AdvanceLists(s: Sys, me: Pid)
    requires ListsOk(s) && me in s.threads
    ensures ListsOk(Advance(s, me))
  {
    var p := s.threads[me].priority;
    var l := At(s, RunQueue(p));
    if OnRunqueue(s.threads[me].status) && l != [] {
      var r := Advance(s, me);
      var home :| Placed(s, home, None);
      hide Placed, ListsOk;
      AtWithList(s, RunQueue(p), l[1..] + [l[0]]);
      RotateElements(l);
      RotateLists(s, r, home, p);
    }
  }

  lemma AdvanceRest(s: Sys, me: Pid)
    requires Rest(s) && me in s.threads
    ensures Rest(Advance(s, me))
  {
    var p := s.threads[me].priority;
    var l := At(s, RunQueue(p));
    if OnRunqueue(s.threads[me].status) && l != [] {
      MessagesFrameOf(s, me);
      var r := Advance(s, me);
      AtWithList(s, RunQueue(p), l[1..] + [l[0]]);
      hide Rest, Advance;
      assert OnlyThread(s, r, me);
      assert At(r, MsgWaiters(me)) == At(s, MsgWaiters(me));
      OneThread(s, r, me);
    }
  }

  lemma MessagesFrameOf(s: Sys, t: Pid)
    requires Rest(s) && t in s.threads
    ensures MailboxOk(s, t) && FlagsFit(s.threads[t]) && (s.threads[t].status == Running ==> s.active == Some(t))
  {
  }

  lemma RotateElements(l: seq<nat>)
    requires l != []
    ensures forall u :: u in l[1..] + [l[0]] <==> u in l
    ensures Distinct(l) ==> Distinct(l[1..] + [l[0]])
  {
    assert l == [l[0]] + l[1..];
  }

  lemma RotateLists(s: Sys, r: Sys, home: map<Pid, Place>, p: nat)
    requires Placed(s, home, None) && r.threads == s.threads && r.cache == s.cache && r.clz == s.clz
    requires forall q: Place :: q != RunQueue(p) ==> At(r, q) == At(s, q)
    requires forall u :: u in At(r, RunQueue(p)) <==> u in At(s, RunQueue(p))
    requires Distinct(At(s, RunQueue(p))) ==> Distinct(At(r, RunQueue(p)))
    requires At(r, RunQueue(p)) != [] && At(s, RunQueue(p)) != []
    ensures ListsOk(r)
  {
    forall q: Place ensures Distinct(At(r, q)) { assert Distinct(At(s, q)); }
    assert forall u: nat :: Prio(r)(u) == Prio(s)(u);
    forall q: Place | !q.RunQueue? ensures Sorted(Prio(r), At(r, q)) {
      assert Sorted(Prio(s), At(s, q));
      SortedFrame(Prio(s), Prio(r), At(s, q));
    }
    assert Placed(r, home, None);
  }

  /** There is something to run: runqueue_bitcache is not zero. */
  ghost predicate SomebodyReady(s: Sys) {
    exists p: nat :: p < 32 && Has(s.clz, s.cache, p)
  }

  lemma NextExists(s: Sys)
    requires ListsOk(s) && SomebodyReady(s)
    ensures var p := First(s.clz, s.cache); var q := At(s, RunQueue(p));
            && p < PRIO_LEVELS && q != [] && q[0] in s.threads
            && OnRunqueue(s.threads[q[0]].status) && s.threads[q[0]].priority == p
    ensures forall t :: t in s.threads && OnRunqueue(s.threads[t].status) ==>
              First(s.clz, s.cache) <= s.threads[t].priority
  {
    var hit: nat :| hit < 32 && Has(s.clz, s.cache, hit);
    FirstIsMostUrgent(s.clz, s.cache, hit);
    var home :| Placed(s, home, None);
    HeadRunnable(s, home, First(s.clz, s.cache));
    hide ListsOk;
    forall t | t in s.threads && OnRunqueue(s.threads[t].status)
      ensures First(s.clz, s.cache) <= s.threads[t].priority
    {
      RunnableHasBit(s, home, t);
    }
  }

  lemma HeadRunnable(s: Sys, home: map<Pid, Place>, p: nat)
    requires Placed(s, home, None) && p < 32 && Has(s.clz, s.cache, p)
    ensures var q := At(s, RunQueue(p));
            q != [] && q[0] in s.threads && OnRunqueue(s.threads[q[0]].status) && s.threads[q[0]].priority == p
  {
    var q := At(s, RunQueue(p));
    assert q[0] in q;
  }

  lemma RunnableHasBit(s: Sys, home: map<Pid, Place>, t: Pid)
    requires Placed(s, home, None) && t in s.threads && OnRunqueue(s.threads[t].status)
    ensures Has(s.clz, s.cache, s.threads[t].priority)
  {
    assert t in home && t in At(s, home[t]);
  }

  lemma SchedRunLists(s: Sys)
    requires ListsOk(s) && SomebodyReady(s)
    ensures var q := At(s, RunQueue(First(s.clz, s.cache))); q != [] && q[0] in s.threads
    ensures ListsOk(SchedRun(s))
  {
    NextExists(s);
    var next := At(s, RunQueue(First(s.clz, s.cache)))[0];
    FieldsOk(s, next, s.threads[next].(status := Running));
    hide ListsOk;
    var s1 := WithThread(s, next, s.threads[next].(status := Running));
    if s.active != Some(next) && s.active.Some? && s.active.value in s1.threads
       && s1.threads[s.active.value].status == Running {
      FieldsOk(s1, s.active.value, s1.threads[s.active.value].(status := Pending));
    }
    ActiveFrame(if s.active == Some(next) then s1 else SchedRun(s).(active := s.active), Some(next));
  }

  lemma ActiveFrame(s: Sys, a: Option<Pid>)
    ensures ListsOk(s) ==> ListsOk(s.(active := a))
  {
    if ListsOk(s) {
      var home :| Placed(s, home, None);
      var r := s.(active := a);
      assert forall q: Place :: At(r, q) == At(s, q);
      forall q: Place ensures Distinct(At(r, q)) { assert Distinct(At(s, q)); }
      forall q: Place | !q.RunQueue? ensures Sorted(Prio(r), At(r, q)) {
        assert Sorted(Prio(s), At(s, q));
        SortedFrame(Prio(s), Prio(r), At(s, q));
      }
      assert Placed(r, home, None);
    }
  }

  /** What sched_run leaves of every thread, and who is RUNNING afterwards. */
  lemma SchedRunShape(s: Sys)
    requires RunningOk(s)
    requires var q := At(s, RunQueue(First(s.clz, s.cache)));
             q != [] && q[0] in s.threads && OnRunqueue(s.threads[q[0]].status)
    ensures var r := SchedRun(s);
            && r.threads.Keys == s.threads.Keys && r.lists == s.lists && r.locked == s.locked
            && r.active == Some(At(s, RunQueue(First(s.clz, s.cache)))[0])
            && (forall t :: t in s.threads ==>
                  (r.threads[t] == s.threads[t]
                   || (OnRunqueue(s.threads[t].status) && OnRunqueue(r.threads[t].status)
                       && r.threads[t] == s.threads[t].(status := r.threads[t].status))))
            && (forall t :: t in r.threads ==> (r.threads[t].status == Running <==> r.active == Some(t)))
  {
    hide First, Has;
  }

  lemma SchedRunRest(s: Sys)
    requires Rest(s)
    requires var q := At(s, RunQueue(First(s.clz, s.cache)));
             q != [] && q[0] in s.threads && OnRunqueue(s.threads[q[0]].status)
    ensures Rest(SchedRun(s))
  {
    var r := SchedRun(s);
    SchedRunShape(s);
    RunMessages(s, r);
    assert forall pl: Place :: At(r, pl) == At(s, pl);
    forall u | u in r.threads ensures FlagsFit(r.threads[u]) { assert FlagsFit(s.threads[u]); }
  }

  lemma RunMessages(s: Sys, r: Sys)
    requires MessagesOk(s) && r.threads.Keys == s.threads.Keys && r.lists == s.lists
    requires forall t :: t in s.threads ==>
               (r.threads[t] == s.threads[t]
                || (OnRunqueue(r.threads[t].status) && r.threads[t] == s.threads[t].(status := r.threads[t].status)))
    ensures MessagesOk(r)
  {
    forall u | u in r.threads ensures MailboxOk(r, u) {
      assert MailboxOk(s, u) && At(r, MsgWaiters(u)) == At(s, MsgWaiters(u));
    }
    forall x: nat, w | w in At(r, MsgWaiters(x)) ensures Carries(r, x, w) {
      assert w in At(s, MsgWaiters(x)) && Carries(s, x, w);
    }
  }

  /** sched_run picks the head of the most urgent non-empty queue; afterwards exactly that
      thread is RUNNING, it is the active one, and nobody runnable is more urgent. */
  lemma SchedRunPicks(s: Sys)
    requires Inv(s) && SomebodyReady(s)
    ensures var q := At(s, RunQueue(First(s.clz, s.cache)));
            q != [] && q[0] in s.threads && SchedRun(s).active == Some(q[0])
    ensures Inv(SchedRun(s))
    ensures forall t :: t in SchedRun(s).threads ==>
              (SchedRun(s).threads[t].status == Running <==> SchedRun(s).active == Some(t))
    ensures forall n, t :: SchedRun(s).active == Some(n) && n in SchedRun(s).threads && t in SchedRun(s).threads ==>
              OnRunqueue(SchedRun(s).threads[t].status) ==>
                SchedRun(s).threads[n].priority <= SchedRun(s).threads[t].priority
  {
    NextExists(s);
    SchedRunLists(s);
    hide ListsOk;
    SchedRunRest(s);
    SchedRunShape(s);
  }
}
