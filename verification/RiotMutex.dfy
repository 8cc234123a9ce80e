/** Mutual exclusion of the RIOT mutex over whole runs: who is between lock and unlock, how the
    lock is passed on, and who may overtake a waiter. */
module RiotMutex {
  import opened Options
  import opened PrioList
  import opened Bitcache
  import opened RiotSystem
  import opened RiotLists
  import opened RiotInvariant
  import opened RiotSteps
  import opened RiotRuns

  // ---------- steps that do not concern mutex m ----------

  /** Mutex m has the same state and the same waiters with the same priorities. */
  ghost predicate Kept(s: Sys, r: Sys, m: nat) {
    && At(r, MutexQueue(m)) == At(s, MutexQueue(m))
    && (m in r.locked <==> m in s.locked)
    && (forall t :: t in At(s, MutexQueue(m)) && t in s.threads ==>
          t in r.threads && r.threads[t].priority == s.threads[t].priority)
  }

  lemma KeptJoin(s: Sys, q: Sys, r: Sys, m: nat)
    requires Kept(s, q, m) && Kept(q, r, m)
    ensures Kept(s, r, m)
  {
  }

  lemma KeptStatus(s: Sys, t: Pid, st: Status, m: nat)
    requires t in s.threads
    ensures Kept(s, SetStatus(s, t, st), m) && SetStatus(s, t, st).threads.Keys == s.threads.Keys
  {
    SetStatusShape(s, t, st);
    hide SetStatus;
  }

  lemma KeptOne(s: Sys, r: Sys, t: Pid, m: nat)
    requires OnlyThread(s, r, t) && r.threads[t].priority == s.threads[t].priority
    ensures Kept(s, r, m)
  {
  }

  lemma KeptFields(s: Sys, t: Pid, c: Thread, m: nat)
    requires t in s.threads && c.priority == s.threads[t].priority
    ensures Kept(s, WithThread(s, t, c), m) && WithThread(s, t, c).threads.Keys == s.threads.Keys
  {
  }

  lemma KeptList(s: Sys, pl: Place, l: seq<Pid>, m: nat)
    requires pl != MutexQueue(m)
    ensures Kept(s, WithList(s, pl, l), m)
  {
  }

  lemma KeptWake(s: Sys, pl: Place, m: nat)
    requires pl != MutexQueue(m) && At(s, pl) != [] && At(s, pl)[0] in s.threads
    ensures Kept(s, WakeHead(s, pl), m) && WakeHead(s, pl).threads.Keys == s.threads.Keys
  {
    KeptList(s, pl, At(s, pl)[1..], m);
    KeptStatus(RemoveHead(s, pl), At(s, pl)[0], Pending, m);
    hide Kept, SetStatus;
    KeptJoin(s, RemoveHead(s, pl), WakeHead(s, pl), m);
  }

  lemma KeptBlock(s: Sys, me: Pid, st: Status, pl: Place, m: nat)
    requires me in s.threads && pl != MutexQueue(m)
    ensures Kept(s, AddToList(SetStatus(s, me, st), pl, me), m)
  {
    var q := SetStatus(s, me, st);
    KeptStatus(s, me, st, m);
    hide Kept, SetStatus;
    KeptList(q, pl, Insert(Prio(q), At(q, pl), me), m);
    KeptJoin(s, q, AddToList(q, pl, me), m);
  }

  lemma KeptSelf(s: Sys, m: nat)
    ensures Kept(s, s, m)
  {
  }

  lemma KeptUnlock(s: Sys, k: nat, m: nat)
    requires k != m && (At(s, MutexQueue(k)) != [] ==> At(s, MutexQueue(k))[0] in s.threads)
    ensures Kept(s, MutexUnlock(s, k), m) && MutexUnlock(s, k).threads.Keys == s.threads.Keys
  {
    if k in s.locked && At(s, MutexQueue(k)) != [] { KeptWake(s, MutexQueue(k), m); }
  }

  lemma KeptLock(s: Sys, me: Pid, k: nat, block: bool, m: nat)
    requires k != m && me in s.threads
    ensures Kept(s, MutexLock(s, me, k, block).0, m)
  {
    if k in s.locked && block { KeptBlock(s, me, MutexBlocked, MutexQueue(k), m); }
  }

  lemma {:induction false} KeptSignal(s: Sys, c: nat, broadcast: bool, m: nat)
    requires forall t :: t in At(s, CondQueue(c)) ==> t in s.threads
    ensures Kept(s, CondSignal(s, c, broadcast), m)
    decreases |At(s, CondQueue(c))|
  {
    var l := At(s, CondQueue(c));
    if l != [] {
      assert l[0] in l;
      var q := WakeHead(s, CondQueue(c));
      KeptWake(s, CondQueue(c), m);
      if broadcast {
        WokenQueue(s, CondQueue(c));
        hide Kept, WakeHead;
        KeptSignal(q, c, broadcast, m);
        KeptJoin(s, q, CondSignal(q, c, broadcast), m);
      }
    }
  }

  lemma WokenQueue(s: Sys, pl: Place)
    requires !pl.RunQueue? && At(s, pl) != [] && At(s, pl)[0] in s.threads
    ensures At(WakeHead(s, pl), pl) == At(s, pl)[1..] && WakeHead(s, pl).threads.Keys == s.threads.Keys
    ensures WakeHead(s, pl).locked == s.locked
  {
    SetStatusShape(RemoveHead(s, pl), At(s, pl)[0], Pending);
    hide SetStatus;
  }

  lemma KeptFlags(s: Sys, t: Pid, mask: Flags, m: nat)
    requires t in s.threads
    ensures Kept(s, FlagsSet(s, t, mask), m) && FlagsSet(s, t, mask).threads.Keys == s.threads.Keys
  {
    FlagsSetShape(s, t, mask);
    hide FlagsSet;
    KeptOne(s, FlagsSet(s, t, mask), t, m);
  }

  lemma KeptFlagsWait(s: Sys, me: Pid, mask: Flags, all: bool, m: nat)
    requires me in s.threads
    ensures Kept(s, FlagsWait(s, me, mask, all), m)
  {
    var c := s.threads[me].(waitData := Mask(mask));
    var q := WithThread(s, me, c);
    KeptFields(s, me, c, m);
    var st := if all then FlagBlockedAll else FlagBlockedAny;
    KeptStatus(q, me, st, m);
    hide Kept, SetStatus;
    KeptJoin(s, q, SetStatus(q, me, st), m);
    KeptSelf(s, m);
  }

  lemma KeptQueueMsg(s: Sys, t: Pid, x: Msg, m: nat)
    requires t in s.threads
    ensures Kept(s, QueueMsg(s, t, x).0, m)
  {
    var c := s.threads[t].(queue := s.threads[t].queue + [x]);
    var q := WithThread(s, t, c);
    KeptFields(s, t, c, m);
    KeptFlags(q, t, MSG_WAITING, m);
    hide Kept, FlagsSet;
    KeptJoin(s, q, FlagsSet(q, t, MSG_WAITING), m);
    KeptSelf(s, m);
  }

  lemma KeptStatusOf(s: Sys, t: Pid, c: Thread, st: Status, m: nat)
    requires t in s.threads && c.priority == s.threads[t].priority
    ensures Kept(s, SetStatus(WithThread(s, t, c), t, st), m)
  {
    var q := WithThread(s, t, c);
    KeptFields(s, t, c, m);
    KeptStatus(q, t, st, m);
    hide Kept, SetStatus;
    KeptJoin(s, q, SetStatus(q, t, st), m);
  }

  lemma KeptDirect(s: Sys, t: Pid, x: Msg, m: nat)
    requires t in s.threads
    ensures Kept(s, DirectCopy(s, t, x), m)
  {
    KeptStatusOf(s, t, s.threads[t].(received := s.threads[t].received + [x]), Pending, m);
  }

  lemma KeptSenderQueued(s: Sys, me: Pid, target: Pid, x: Msg, st: Status, m: nat)
    requires me in s.threads && target in s.threads
    ensures var q := AddToList(SetStatus(WithThread(s, me, s.threads[me].(waitData := Message(x))), me, st),
                               MsgWaiters(target), me);
            target in q.threads && Kept(s, FlagsSet(q, target, MSG_WAITING), m)
  {
    var c := s.threads[me].(waitData := Message(x));
    var q := WithThread(s, me, c);
    KeptFields(s, me, c, m);
    KeptBlock(q, me, st, MsgWaiters(target), m);
    KeptStatus(q, me, st, m);
    var u := AddToList(SetStatus(q, me, st), MsgWaiters(target), me);
    hide Kept, SetStatus, FlagsSet;
    KeptFlags(u, target, MSG_WAITING, m);
    KeptJoin(s, q, u, m);
    KeptJoin(s, u, FlagsSet(u, target, MSG_WAITING), m);
  }

  lemma KeptSend(s: Sys, me: Pid, target: Pid, x0: Msg, block: bool, m: nat)
    requires me in s.threads
    ensures Kept(s, MsgSend(s, me, target, x0, block).0, m)
  {
    hide Kept, SetStatus, FlagsSet, DirectCopy, QueueMsg, AddToList;
    var x := x0.(sender := me);
    KeptSelf(s, m);
    if target in s.threads {
      KeptQueueMsg(s, target, x, m);
      KeptDirect(s, target, x, m);
      KeptSenderQueued(s, me, target, x,
                       if s.threads[me].status == ReplyBlocked then ReplyBlocked else SendBlocked, m);
    }
  }

  lemma KeptSendInt(s: Sys, target: Pid, x: Msg, m: nat)
    ensures Kept(s, MsgSendInt(s, target, x).0, m)
  {
    hide Kept, DirectCopy, QueueMsg;
    KeptSelf(s, m);
    if target in s.threads {
      KeptQueueMsg(s, target, x.(sender := PID_ISR), m);
      KeptDirect(s, target, x.(sender := PID_ISR), m);
    }
  }

  lemma KeptSendReceive(s: Sys, me: Pid, target: Pid, x: Msg, m: nat)
    requires me in s.threads
    ensures Kept(s, MsgSendReceive(s, me, target, x).0, m)
  {
    KeptStatus(s, me, ReplyBlocked, m);
    SetStatusShape(s, me, ReplyBlocked);
    hide Kept, SetStatus, MsgSend;
    var q := SetStatus(s, me, ReplyBlocked);
    var c := q.threads[me].(waitData := Message(x));
    var u := WithThread(q, me, c);
    KeptFields(q, me, c, m);
    KeptJoin(s, q, u, m);
    KeptSend(u, me, target, x, true, m);
    KeptJoin(s, u, MsgSend(u, me, target, x, true).0, m);
  }

  lemma KeptReply(s: Sys, t: Pid, x: Msg, m: nat)
    requires t in s.threads
    ensures Kept(s, MsgReply(s, t, x).0, m)
  {
    hide Kept, SetStatus;
    KeptSelf(s, m);
    KeptStatusOf(s, t, s.threads[t].(replies := s.threads[t].replies + [x]), Pending, m);
  }

  lemma KeptRelease(s: Sys, w: Pid, m: nat)
    requires w in s.threads
    ensures Kept(s, ReleaseSender(s, w), m)
  {
    hide Kept, SetStatus;
    KeptSelf(s, m);
    KeptStatusOf(s, w, s.threads[w].(waitData := Nothing), Pending, m);
  }

  lemma KeptTake(s: Sys, me: Pid, c: Thread, w: Pid, m: nat)
    requires me in s.threads && w in s.threads && c.priority == s.threads[me].priority
    requires At(s, MsgWaiters(me)) != []
    ensures var u := WithThread(RemoveHead(s, MsgWaiters(me)), me, c); w in u.threads && Kept(s, ReleaseSender(u, w), m)
  {
    var q := RemoveHead(s, MsgWaiters(me));
    KeptList(s, MsgWaiters(me), At(s, MsgWaiters(me))[1..], m);
    KeptFields(q, me, c, m);
    var u := WithThread(q, me, c);
    hide Kept, ReleaseSender;
    KeptJoin(s, q, u, m);
    KeptRelease(u, w, m);
    KeptJoin(s, u, ReleaseSender(u, w), m);
  }

  lemma KeptReceive(s: Sys, me: Pid, block: bool, m: nat)
    requires me in s.threads
    requires At(s, MsgWaiters(me)) != [] ==> At(s, MsgWaiters(me))[0] in s.threads && At(s, MsgWaiters(me))[0] != me
    ensures Kept(s, MsgReceive(s, me, block).0, m)
  {
    hide Kept, ReleaseSender, SetStatus, RemoveHead;
    var c := s.threads[me];
    KeptSelf(s, m);
    if At(s, MsgWaiters(me)) == [] {
      if c.queue != [] {
        KeptFields(s, me, c.(received := c.received + [c.queue[0]], queue := c.queue[1..]), m);
      } else {
        KeptStatusOf(s, me, c.(waitData := Destination), ReceiveBlocked, m);
      }
    } else {
      var w := At(s, MsgWaiters(me))[0];
      var x := SentBy(s.threads[w]);
      if c.queue != [] {
        KeptTake(s, me, c.(received := c.received + [c.queue[0]], queue := c.queue[1..] + [x]), w, m);
      } else {
        KeptTake(s, me, c.(received := c.received + [x], waitData := Destination), w, m);
      }
    }
  }

  lemma KeptCreate(s: Sys, p: Priority, sleeping: bool, flags: Flags, m: nat)
    ensures Kept(s, ThreadCreate(s, p, sleeping, flags).0, m)
  {
    var pid := FreePid(s, PID_FIRST);
    KeptSelf(s, m);
    if pid.Some? {
      var q := WithThread(s, pid.value, Thread(p, Stopped, flags, Nothing, [], 0, [], []));
      assert Kept(s, q, m);
      var st := if sleeping then Sleeping else Pending;
      KeptStatus(q, pid.value, st, m);
      hide Kept, SetStatus;
      KeptJoin(s, q, SetStatus(q, pid.value, st), m);
    }
  }

  lemma KeptSetPriority(s: Sys, t: Pid, p: Priority, m: nat)
    requires t in s.threads && t !in At(s, MutexQueue(m))
    ensures Kept(s, ChangePriority(s, t, p), m)
  {
    ChangePriorityShape(s, t, p);
    hide ChangePriority;
  }

  lemma KeptSchedule(s: Sys, m: nat)
    requires Inv(s) && SomebodyReady(s)
    ensures var q := At(s, RunQueue(First(s.clz, s.cache))); q != [] && q[0] in s.threads
    ensures Kept(s, SchedRun(s), m)
  {
    hide ListsOk, MessagesOk, FlagsOk, MutexesOk, SomebodyReady, SchedRun, First;
    NextExists(s);
    SchedRunShape(s);
    assert At(SchedRun(s), MutexQueue(m)) == At(s, MutexQueue(m));
  }

  predicate Releases(a: Action, m: nat) {
    match a
    case UnlockMutex(_, k) => k == m
    case UnlockAndSleep(_, k) => k == m
    case WaitCond(_, _, k) => k == m
    case _ => false
  }

  predicate Locks(a: Action, m: nat) {
    a.LockMutex? && a.mutex == m
  }

  lemma KeptYield(s: Sys, me: Pid, m: nat)
    requires me in s.threads
    ensures Kept(s, Advance(s, me), m)
  {
    var p := s.threads[me].priority;
    var l := At(s, RunQueue(p));
    KeptSelf(s, m);
    if l != [] { KeptList(s, RunQueue(p), l[1..] + [l[0]], m); }
  }

  lemma DetachedNotWaiting(s: Sys, t: Pid, m: nat)
    requires Inv(s) && t in s.threads && Detached(s, t)
    ensures t !in At(s, MutexQueue(m))
  {
    if t in At(s, MutexQueue(m)) { MemberStatus(s, MutexQueue(m), t); }
  }

  lemma SyncKept(s: Sys, a: Action, m: nat)
    requires Inv(s) && Sound(s) && Enabled(s, a) && IsSync(a) && !Releases(a, m) && !Locks(a, m)
    ensures Kept(s, Apply(s, a), m)
  {
    hide ListsOk, Rest, Sound, Kept;
    match a
    case LockMutex(me, k, block) => KeptLock(s, me, k, block, m);
    case UnlockMutex(me, k) => MutexUnlockKeeps(s, k); KeptUnlock(s, k, m);
    case UnlockAndSleep(me, k) => KeptUnlockThen(s, me, k, m);
    case WaitCond(me, c, k) => KeptUnlockThen(s, me, k, m);
    case SignalCond(c, broadcast) => CondMembers(s, c); KeptSignal(s, c, broadcast, m);
    case SetFlags(t, mask) => KeptFlags(s, t, mask, m);
    case WaitFlags(me, mask, all) => KeptFlagsWait(s, me, mask, all, m);
    case TakeFlags(me, mask) => KeptFlagsTake(s, me, mask, m);
    case ReadFlags(_) => KeptSelf(s, m);
    case _ =>
  }

  lemma KeptFlagsTake(s: Sys, me: Pid, mask: Flags, m: nat)
    requires me in s.threads
    ensures Kept(s, FlagsTake(s, me, mask).0, m)
  {
    KeptFields(s, me, s.threads[me].(flags := s.threads[me].flags - mask), m);
  }

  lemma KeptUnlockThen(s: Sys, me: Pid, k: nat, m: nat)
    requires Inv(s) && CanRun(s, me) && k != m
    ensures At(s, MutexQueue(k)) != [] ==> At(s, MutexQueue(k))[0] in s.threads
    ensures Kept(s, MutexUnlockAndSleep(s, me, k), m)
    ensures forall c: nat :: Kept(s, CondWait(s, me, c, k), m)
  {
    hide Rest, ListsOk, Kept;
    MutexUnlockKeeps(s, k);
    KeptUnlock(s, k, m);
    hide MutexUnlock, SetStatus;
    var q := MutexUnlock(s, k);
    KeptStatus(q, me, Sleeping, m);
    KeptJoin(s, q, MutexUnlockAndSleep(s, me, k), m);
    forall c: nat ensures Kept(s, CondWait(s, me, c, k), m) {
      KeptBlock(q, me, CondBlocked, CondQueue(c), m);
      KeptJoin(s, q, CondWait(s, me, c, k), m);
    }
  }

  lemma KeptToSelf(s: Sys, me: Pid, x: Msg, m: nat)
    requires me in s.threads
    ensures Kept(s, MsgSendToSelf(s, me, x).0, m)
  {
    hide Kept;
    KeptQueueMsg(s, me, x.(sender := me), m);
  }

  lemma MessageKept(s: Sys, a: Action, m: nat)
    requires Inv(s) && Sound(s) && Enabled(s, a) && IsMessage(a)
    ensures Kept(s, Apply(s, a), m)
  {
    hide ListsOk, Rest, Sound, Kept, MsgSend, MsgSendToSelf, MsgSendInt, MsgSendReceive, MsgReply, MsgReceive;
    match a
    case Send(me, target, x, block) => KeptSend(s, me, target, x, block, m);
    case SendToSelf(me, x) => KeptToSelf(s, me, x, m);
    case SendInt(target, x) => KeptSendInt(s, target, x, m);
    case SendReceive(me, target, x) => KeptSendReceive(s, me, target, x, m);
    case Reply(t, x) => KeptReply(s, t, x, m);
    case Receive(me, block) => ReceiverSound(s, me); KeptReceive(s, me, block, m);
    case InitQueue(me, capacity) => KeptFields(s, me, s.threads[me].(queue := [], capacity := capacity), m);
    case _ =>
  }

  lemma ReceiverSound(s: Sys, me: Pid)
    requires Inv(s) && CanRun(s, me)
    ensures At(s, MsgWaiters(me)) != [] ==>
              At(s, MsgWaiters(me))[0] in s.threads && At(s, MsgWaiters(me))[0] != me
  {
    var l := At(s, MsgWaiters(me));
    if l != [] {
      assert l[0] in l;
      MemberStatus(s, MsgWaiters(me), l[0]);
      UnlistedNotSending(s, me);
    }
  }

  /** Only locking and releasing m change anything about m. */
  lemma OthersKeep(s: Sys, a: Action, m: nat)
    requires Inv(s) && Sound(s) && Enabled(s, a) && !Releases(a, m) && !Locks(a, m)
    ensures Kept(s, Apply(s, a), m)
  {
    hide ListsOk, Rest, Sound, Kept;
    if IsSync(a) {
      SyncKept(s, a, m);
    } else if IsMessage(a) {
      MessageKept(s, a, m);
    } else {
      hide SetStatus, SchedRun, Advance, ChangePriority, ThreadCreate;
      match a
      case Sleep(me) => KeptStatus(s, me, Sleeping, m);
      case Wakeup(t) =>
        KeptSelf(s, m);
        if t in s.threads { KeptStatus(s, t, Pending, m); }
      case Create(p, sleeping, flags) => KeptCreate(s, p, sleeping, flags, m);
      case Yield(me) => KeptYield(s, me, m);
      case SetPriority(t, p) => DetachedNotWaiting(s, t, m); KeptSetPriority(s, t, p, m);
      case Schedule => KeptSchedule(s, m);
      case _ =>
    }
  }

  // ---------- locking and releasing m ----------

  /** Priorities of the threads of s are the same in r. */
  ghost predicate SamePriorities(s: Sys, r: Sys) {
    forall t :: t in s.threads ==> t in r.threads && r.threads[t].priority == s.threads[t].priority
  }

  lemma LockShape(s: Sys, me: Pid, m: nat, block: bool)
    requires me in s.threads
    ensures var (r, locked) := MutexLock(s, me, m, block);
            && SamePriorities(s, r)
            && (m !in s.locked ==> locked && m in r.locked && At(r, MutexQueue(m)) == At(s, MutexQueue(m)))
            && (m in s.locked && !block ==> !locked && r == s)
            && (m in s.locked && block ==>
                  && m in r.locked
                  && At(r, MutexQueue(m)) == Insert(Prio(s), At(s, MutexQueue(m)), me))
  {
    if m in s.locked && block {
      SetStatusShape(s, me, MutexBlocked);
      hide SetStatus;
      var q := SetStatus(s, me, MutexBlocked);
      SamePosition(Prio(s), Prio(q), At(s, MutexQueue(m)), s.threads[me].priority);
    }
  }

  /** A release with waiters passes the mutex to the first of them, and it stays locked all the
      time; without waiters it becomes free. */
  lemma UnlockPassesOn(s: Sys, m: nat)
    requires m in s.locked && (At(s, MutexQueue(m)) != [] ==> At(s, MutexQueue(m))[0] in s.threads)
    ensures var r, l := MutexUnlock(s, m), At(s, MutexQueue(m));
            if l == [] then m !in r.locked && At(r, MutexQueue(m)) == []
            else m in r.locked && At(r, MutexQueue(m)) == l[1..]
                 && l[0] in r.threads && r.threads[l[0]].status == Pending
  {
    if At(s, MutexQueue(m)) != [] {
      WokenQueue(s, MutexQueue(m));
      SetStatusShape(RemoveHead(s, MutexQueue(m)), At(s, MutexQueue(m))[0], Pending);
      hide SetStatus;
    }
  }

  /** The queue and the lock bit after any call that releases m. */
  ghost predicate PassedOn(s: Sys, r: Sys, m: nat) {
    var l := At(s, MutexQueue(m));
    if m !in s.locked then m !in r.locked && At(r, MutexQueue(m)) == l
    else if l == [] then m !in r.locked && At(r, MutexQueue(m)) == []
    else m in r.locked && At(r, MutexQueue(m)) == l[1..]
  }

  lemma ReleasePassesOn(s: Sys, a: Action, m: nat)
    requires Inv(s) && Sound(s) && Enabled(s, a) && Releases(a, m)
    ensures PassedOn(s, Apply(s, a), m)
  {
    hide ListsOk, Rest, Sound, SetStatus, WakeHead, OnNoList;
    MutexUnlockKeeps(s, m);
    if m in s.locked { UnlockPassesOn(s, m); }
    var q := MutexUnlock(s, m);
    MutexUnlockDetached(s, m, a.me);
    hide MutexUnlock;
    match a
    case UnlockAndSleep(me, _) => KeptStatus(q, me, Sleeping, m);
    case WaitCond(me, c, _) => KeptBlock(q, me, CondBlocked, CondQueue(c), m);
    case _ =>
  }

  // ---------- mutual exclusion ----------

  /** Who got m in this step: a call that found it free, or a waiter that was taken off the list. */
  ghost function Granted(s: Sys, a: Action, r: Sys, m: nat): set<Pid> {
    (if Locks(a, m) && m !in s.locked then {a.me} else {})
    + (set t | t in At(s, MutexQueue(m)) && t !in At(r, MutexQueue(m)))
  }

  /** The threads between getting m and releasing it. */
  ghost function HoldersAfter(h: set<Pid>, s: Sys, a: Action, r: Sys, m: nat): set<Pid> {
    (if Releases(a, m) then h - {a.me} else h) + Granted(s, a, r, m)
  }

  ghost predicate HoldersOk(h: set<Pid>, s: Sys, m: nat) {
    |h| <= 1 && (m in s.locked <==> h != {})
  }

  lemma NobodyGranted(s: Sys, r: Sys, m: nat)
    requires At(r, MutexQueue(m)) == At(s, MutexQueue(m))
    ensures (set t | t in At(s, MutexQueue(m)) && t !in At(r, MutexQueue(m))) == {}
  {
  }

  lemma HeadGranted(s: Sys, r: Sys, m: nat)
    requires ListsOk(s) && At(s, MutexQueue(m)) != [] && At(r, MutexQueue(m)) == At(s, MutexQueue(m))[1..]
    ensures (set t | t in At(s, MutexQueue(m)) && t !in At(r, MutexQueue(m))) == {At(s, MutexQueue(m))[0]}
  {
    ListsSeparate(s);
    hide ListsOk;
    var l := At(s, MutexQueue(m));
    assert Distinct(l);
    assert l == [l[0]] + l[1..];
  }

  lemma OneHolder(h: set<Pid>, t: Pid)
    requires |h| <= 1 && t in h
    ensures h == {t} && h - {t} == {}
  {
    assert |h - {t}| == |h| - 1;
  }

  lemma LockExcludes(h: set<Pid>, s: Sys, a: Action, m: nat)
    requires Inv(s) && Sound(s) && Enabled(s, a) && Locks(a, m) && HoldersOk(h, s, m)
    ensures HoldersOk(HoldersAfter(h, s, a, Apply(s, a), m), Apply(s, a), m)
  {
    hide ListsOk, Rest, Sound, MutexLock;
    LockShape(s, a.me, m, a.block);
    var r := Apply(s, a);
    var l := At(s, MutexQueue(m));
    if m in s.locked && a.block {
      InsertElements(Prio(s), l, a.me);
      assert (set t | t in l && t !in At(r, MutexQueue(m))) == {};
    } else {
      NobodyGranted(s, r, m);
    }
    if m !in s.locked { assert h == {} && HoldersAfter(h, s, a, r, m) == {a.me}; }
    else { assert HoldersAfter(h, s, a, r, m) == h; }
  }

  lemma ReleaseExcludes(h: set<Pid>, s: Sys, a: Action, m: nat)
    requires Inv(s) && Sound(s) && Enabled(s, a) && Releases(a, m) && HoldersOk(h, s, m) && a.me in h
    ensures HoldersOk(HoldersAfter(h, s, a, Apply(s, a), m), Apply(s, a), m)
  {
    hide ListsOk, Rest, Sound, Apply, PassedOn, HoldersOk;
    ReleasePassesOn(s, a, m);
    ReleasedHolders(h, s, a, Apply(s, a), m);
  }

  lemma ReleasedHolders(h: set<Pid>, s: Sys, a: Action, r: Sys, m: nat)
    requires ListsOk(s) && PassedOn(s, r, m) && Releases(a, m) && HoldersOk(h, s, m) && a.me in h
    ensures HoldersOk(HoldersAfter(h, s, a, r, m), r, m)
  {
    hide ListsOk;
    OneHolder(h, a.me);
    if At(s, MutexQueue(m)) == [] {
      NobodyGranted(s, r, m);
      assert HoldersAfter(h, s, a, r, m) == {};
    } else {
      HeadGranted(s, r, m);
      assert HoldersAfter(h, s, a, r, m) == {At(s, MutexQueue(m))[0]};
    }
  }

  /** Every step keeps at most one holder, provided only holders release. */
  lemma StepExcludes(h: set<Pid>, s: Sys, a: Action, m: nat)
    requires Inv(s) && Sound(s) && Enabled(s, a) && HoldersOk(h, s, m)
    requires Releases(a, m) ==> a.me in h
    ensures HoldersOk(HoldersAfter(h, s, a, Apply(s, a), m), Apply(s, a), m)
  {
    hide ListsOk, Rest, Sound, Apply, HoldersOk;
    if Locks(a, m) {
      LockExcludes(h, s, a, m);
    } else if Releases(a, m) {
      ReleaseExcludes(h, s, a, m);
    } else {
      OthersKeep(s, a, m);
      OthersHold(h, s, a, Apply(s, a), m);
    }
  }

  lemma OthersHold(h: set<Pid>, s: Sys, a: Action, r: Sys, m: nat)
    requires Kept(s, r, m) && HoldersOk(h, s, m) && !Locks(a, m) && !Releases(a, m)
    ensures HoldersOk(HoldersAfter(h, s, a, r, m), r, m)
  {
    NobodyGranted(s, r, m);
    assert HoldersAfter(h, s, a, r, m) == h;
  }

  /** The holders of m after the first n steps of a run */
  ghost function Holders(states: seq<Sys>, acts: seq<Action>, m: nat, n: nat): set<Pid>
    requires n < |states| && n <= |acts|
  {
    if n == 0 then {}
    else HoldersAfter(Holders(states, acts, m, n - 1), states[n - 1], acts[n - 1], states[n], m)
  }

  /** In this run m is released by its holders only. */
  ghost predicate Disciplined(states: seq<Sys>, acts: seq<Action>, m: nat)
    requires |states| == |acts| + 1
  {
    forall i {:trigger acts[i]} :: 0 <= i < |acts| && Releases(acts[i], m) ==> acts[i].me in Holders(states, acts, m, i)
  }

  lemma FreeAtBoot(states: seq<Sys>, acts: seq<Action>, m: nat)
    requires Run(states, acts)
    ensures |states| == |acts| + 1 && HoldersOk({}, states[0], m)
  {
  }

  /** Main result. In every run in which m is released by its holders only, at most one thread
      holds m at any time, and m is locked exactly while one does. */
  lemma {:induction false} MutualExclusion(states: seq<Sys>, acts: seq<Action>, m: nat, n: nat)
    requires Run(states, acts) && n <= |acts|
    requires |states| == |acts| + 1 && Disciplined(states, acts, m)
    ensures |Holders(states, acts, m, n)| <= 1
    ensures m in states[n].locked <==> Holders(states, acts, m, n) != {}
    decreases n
  {
    hide Run, Inv, Sound, Apply, Step, Enabled, HoldersAfter;
    FreeAtBoot(states, acts, m);
    if n > 0 {
      MutualExclusion(states, acts, m, n - 1);
      StepFacts(states, acts, n - 1);
      assert Releases(acts[n - 1], m) ==> acts[n - 1].me in Holders(states, acts, m, n - 1);
      StepExcludes(Holders(states, acts, m, n - 1), states[n - 1], acts[n - 1], m);
    }
  }

  // ---------- overtaking ----------

  /** x waits for m ahead of w. */
  ghost predicate Ahead(s: Sys, m: nat, x: Pid, w: Pid) {
    Before(At(s, MutexQueue(m)), x, w)
  }

  ghost predicate MoreUrgent(s: Sys, x: Pid, w: Pid) {
    x in s.threads && w in s.threads && s.threads[x].priority < s.threads[w].priority
  }

  lemma WaitersInOrder(s: Sys, pl: Place)
    requires ListsOk(s) && !pl.RunQueue?
    ensures Sorted(Prio(s), At(s, pl))
  {
    var home :| Placed(s, home, None);
    assert WaitersSorted(s);
  }

  /** A newcomer that is ahead of a waiter is strictly more urgent. */
  lemma LockOvertakes(s: Sys, me: Pid, m: nat, block: bool, x: Pid, w: Pid)
    requires Inv(s) && me in s.threads && me !in At(s, MutexQueue(m))
    requires w in At(s, MutexQueue(m)) && Ahead(MutexLock(s, me, m, block).0, m, x, w) && !Ahead(s, m, x, w)
    ensures x == me && MoreUrgent(s, x, w)
  {
    hide MutexLock, ListsOk, Rest, Before, Insert;
    LockShape(s, me, m, block);
    WaitersInOrder(s, MutexQueue(m));
    MemberStatus(s, MutexQueue(m), w);
    InsertOvertakes(Prio(s), At(s, MutexQueue(m)), me, x, w);
  }

  lemma TailBefore(l: seq<nat>, x: nat, w: nat)
    requires l != [] && Before(l[1..], x, w)
    ensures Before(l, x, w)
  {
    var i, j :| 0 <= i < j < |l[1..]| && l[1..][i] == x && l[1..][j] == w;
    assert l[i + 1] == x && l[j + 1] == w;
  }

  lemma PassOnAhead(s: Sys, r: Sys, m: nat, x: Pid, w: Pid)
    requires PassedOn(s, r, m) && Ahead(r, m, x, w)
    ensures Ahead(s, m, x, w)
  {
    var l := At(s, MutexQueue(m));
    if m in s.locked && l != [] { TailBefore(l, x, w); }
  }

  /** Main result. While w waits for m, a step puts another thread ahead of it only if that thread
      just joined and is strictly more urgent; everybody else keeps the order. */
  lemma OvertakenByMoreUrgentOnly(states: seq<Sys>, acts: seq<Action>, m: nat, n: nat, x: Pid, w: Pid)
    requires Run(states, acts) && n < |acts| && |states| == |acts| + 1
    requires w in At(states[n], MutexQueue(m)) && Ahead(states[n + 1], m, x, w) && !Ahead(states[n], m, x, w)
    ensures Locks(acts[n], m) && acts[n].me == x && MoreUrgent(states[n], x, w)
  {
    hide Run, Ahead, Inv, Sound, Enabled, Apply, MoreUrgent;
    StepFacts(states, acts, n);
    OvertakingStep(states[n], acts[n], m, x, w);
  }

  lemma OvertakingStep(s: Sys, a: Action, m: nat, x: Pid, w: Pid)
    requires Inv(s) && Sound(s) && Enabled(s, a)
    requires w in At(s, MutexQueue(m)) && Ahead(Apply(s, a), m, x, w) && !Ahead(s, m, x, w)
    ensures Locks(a, m) && a.me == x && MoreUrgent(s, x, w)
  {
    hide ListsOk, Rest, Sound, Ahead, MutexLock, PassedOn, Kept, MoreUrgent;
    if Locks(a, m) {
      CallerNotWaiting(s, a.me, m);
      LockOvertakes(s, a.me, m, a.block, x, w);
    } else {
      hide Apply;
      if Releases(a, m) {
        ReleasePassesOn(s, a, m);
        PassOnAhead(s, Apply(s, a), m, x, w);
      } else {
        OthersKeep(s, a, m);
        SameAhead(s, Apply(s, a), m, x, w);
      }
    }
  }

  lemma SameAhead(s: Sys, r: Sys, m: nat, x: Pid, w: Pid)
    requires Kept(s, r, m)
    ensures Ahead(r, m, x, w) == Ahead(s, m, x, w)
  {
  }

  lemma CallerNotWaiting(s: Sys, me: Pid, m: nat)
    requires Inv(s) && CanRun(s, me)
    ensures me in s.threads && me !in At(s, MutexQueue(m))
  {
    DetachedNotWaiting(s, me, m);
  }
}
