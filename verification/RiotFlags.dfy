/** Thread flags over whole runs: no wake-up is lost, and what a wait returns is what was awaited. */
module RiotFlags {
  import opened PrioList
  import opened Bitcache
  import opened RiotSystem
  import opened RiotLists
  import opened RiotInvariant
  import opened RiotSteps
  import opened RiotRuns
  import opened RiotBoot

  predicate Awaits(c: Thread) {
    c.status == FlagBlockedAny || c.status == FlagBlockedAll
  }

  /** The flags answer a wait for any, or for all, of the mask. */
  predicate Answers(flags: Flags, mask: Flags, all: bool) {
    if all then mask <= flags else flags * mask != {}
  }

  /** The thread waits with this mask, or its wait is answered. */
  predicate Promised(c: Thread, mask: Flags, all: bool) {
    || Answers(c.flags, mask, all)
    || (c.status == (if all then FlagBlockedAll else FlagBlockedAny) && c.waitData == Mask(mask))
  }

  // ---------- what others may do to a waiting thread ----------

  /** Thread t kept its flags, and every promise made to it is kept. */
  ghost predicate Watch(s: Sys, r: Sys, t: Pid) {
    t in s.threads ==>
      && t in r.threads && s.threads[t].flags <= r.threads[t].flags
      && forall mask, all {:trigger Promised(r.threads[t], mask, all)} ::
           Promised(s.threads[t], mask, all) ==> Promised(r.threads[t], mask, all)
  }

  lemma WatchJoin(s: Sys, q: Sys, r: Sys, t: Pid)
    requires Watch(s, q, t) && Watch(q, r, t)
    ensures Watch(s, r, t)
  {
    if t in s.threads {
      forall mask, all | Promised(s.threads[t], mask, all) ensures Promised(r.threads[t], mask, all) {
        assert Promised(q.threads[t], mask, all);
      }
    }
  }

  lemma WatchSelf(s: Sys, r: Sys, t: Pid)
    requires t in s.threads ==> t in r.threads && r.threads[t] == s.threads[t]
    ensures Watch(s, r, t)
  {
  }

  lemma WatchStatus(s: Sys, u: Pid, st: Status, t: Pid)
    requires u in s.threads && !Awaits(s.threads[u])
    ensures Watch(s, SetStatus(s, u, st), t) && SetStatus(s, u, st).threads.Keys == s.threads.Keys
  {
    SetStatusShape(s, u, st);
    hide SetStatus;
  }

  lemma WatchFields(s: Sys, u: Pid, c: Thread, t: Pid)
    requires u in s.threads && s.threads[u].flags <= c.flags
    requires Awaits(s.threads[u]) ==> c.status == s.threads[u].status && c.waitData == s.threads[u].waitData
    ensures Watch(s, WithThread(s, u, c), t) && WithThread(s, u, c).threads.Keys == s.threads.Keys
  {
  }

  lemma WatchList(s: Sys, pl: Place, l: seq<Pid>, t: Pid)
    ensures Watch(s, WithList(s, pl, l), t)
  {
  }

  lemma WatchBlock(s: Sys, me: Pid, st: Status, pl: Place, t: Pid)
    requires me in s.threads && !Awaits(s.threads[me])
    ensures Watch(s, AddToList(SetStatus(s, me, st), pl, me), t)
  {
    var q := SetStatus(s, me, st);
    WatchStatus(s, me, st, t);
    hide Watch, SetStatus;
    WatchList(q, pl, Insert(Prio(q), At(q, pl), me), t);
    WatchJoin(s, q, AddToList(q, pl, me), t);
  }

  /** Nobody on a wait list awaits flags. */
  lemma ListedNotAwaiting(s: Sys, pl: Place, u: Pid)
    requires ListsOk(s) && u in At(s, pl)
    ensures u in s.threads && !Awaits(s.threads[u])
  {
    MemberStatus(s, pl, u);
  }

  lemma WatchWake(s: Sys, pl: Place, t: Pid)
    requires ListsOk(s) && At(s, pl) != []
    ensures At(s, pl)[0] in s.threads && Watch(s, WakeHead(s, pl), t)
  {
    var h := At(s, pl)[0];
    assert h in At(s, pl);
    ListedNotAwaiting(s, pl, h);
    var q := RemoveHead(s, pl);
    WatchList(s, pl, At(s, pl)[1..], t);
    WatchStatus(q, h, Pending, t);
    hide Watch, SetStatus, ListsOk;
    WatchJoin(s, q, WakeHead(s, pl), t);
  }

  lemma WatchUnlock(s: Sys, m: nat, t: Pid)
    requires ListsOk(s)
    ensures At(s, MutexQueue(m)) != [] ==> At(s, MutexQueue(m))[0] in s.threads
    ensures Watch(s, MutexUnlock(s, m), t)
  {
    hide ListsOk, Watch, WakeHead;
    WatchSame(s, t);
    if At(s, MutexQueue(m)) != [] { WatchWake(s, MutexQueue(m), t); }
  }

  /** Changes outside the thread table */
  lemma WatchSame(s: Sys, t: Pid)
    ensures forall r: Sys {:trigger Watch(s, r, t)} :: r.threads == s.threads ==> Watch(s, r, t)
  {
  }

  lemma {:induction false} WatchSignal(s: Sys, c: nat, broadcast: bool, t: Pid)
    requires Inv(s)
    ensures forall u :: u in At(s, CondQueue(c)) ==> u in s.threads
    ensures Watch(s, CondSignal(s, c, broadcast), t)
    decreases |At(s, CondQueue(c))|
  {
    hide ListsOk, Rest, Watch;
    CondMembers(s, c);
    WatchSame(s, t);
    var l := At(s, CondQueue(c));
    if l != [] {
      assert l[0] in l;
      WatchWake(s, CondQueue(c), t);
      if broadcast {
        WakeHeadKeeps(s, CondQueue(c));
        WatchSignal(WakeHead(s, CondQueue(c)), c, broadcast, t);
        WatchJoin(s, WakeHead(s, CondQueue(c)), CondSignal(WakeHead(s, CondQueue(c)), c, broadcast), t);
      }
    }
  }

  /** Setting flags wakes a thread only when its wait is answered. */
  lemma WatchFlagsSet(s: Sys, u: Pid, mask: Flags, t: Pid)
    requires u in s.threads
    ensures Watch(s, FlagsSet(s, u, mask), t) && FlagsSet(s, u, mask).threads.Keys == s.threads.Keys
  {
    FlagsSetShape(s, u, mask);
    hide FlagsSet;
  }

  lemma WatchQueueMsg(s: Sys, u: Pid, x: Msg, t: Pid)
    requires u in s.threads
    ensures Watch(s, QueueMsg(s, u, x).0, t)
  {
    var c := s.threads[u].(queue := s.threads[u].queue + [x]);
    var q := WithThread(s, u, c);
    WatchFields(s, u, c, t);
    WatchFlagsSet(q, u, MSG_WAITING, t);
    WatchSame(s, t);
    hide Watch, FlagsSet;
    WatchJoin(s, q, FlagsSet(q, u, MSG_WAITING), t);
  }

  lemma WatchStatusOf(s: Sys, u: Pid, c: Thread, st: Status, t: Pid)
    requires u in s.threads && s.threads[u].flags == c.flags && !Awaits(s.threads[u]) && !Awaits(c)
    ensures Watch(s, SetStatus(WithThread(s, u, c), u, st), t)
  {
    var q := WithThread(s, u, c);
    WatchFields(s, u, c, t);
    WatchStatus(q, u, st, t);
    hide Watch, SetStatus;
    WatchJoin(s, q, SetStatus(q, u, st), t);
  }

  lemma WatchDirect(s: Sys, u: Pid, x: Msg, t: Pid)
    requires u in s.threads && !Awaits(s.threads[u])
    ensures Watch(s, DirectCopy(s, u, x), t)
  {
    WatchStatusOf(s, u, s.threads[u].(received := s.threads[u].received + [x]), Pending, t);
  }

  lemma WatchSenderQueued(s: Sys, me: Pid, target: Pid, x: Msg, st: Status, t: Pid)
    requires me in s.threads && target in s.threads && !Awaits(s.threads[me])
    ensures var q := AddToList(SetStatus(WithThread(s, me, s.threads[me].(waitData := Message(x))), me, st),
                               MsgWaiters(target), me);
            target in q.threads && Watch(s, FlagsSet(q, target, MSG_WAITING), t)
  {
    var c := s.threads[me].(waitData := Message(x));
    var q := WithThread(s, me, c);
    WatchFields(s, me, c, t);
    WatchBlock(q, me, st, MsgWaiters(target), t);
    WatchStatus(q, me, st, t);
    var u := AddToList(SetStatus(q, me, st), MsgWaiters(target), me);
    hide Watch, SetStatus, FlagsSet;
    WatchFlagsSet(u, target, MSG_WAITING, t);
    WatchJoin(s, q, u, t);
    WatchJoin(s, u, FlagsSet(u, target, MSG_WAITING), t);
  }

  lemma WatchSend(s: Sys, me: Pid, target: Pid, x0: Msg, block: bool, t: Pid)
    requires me in s.threads && !Awaits(s.threads[me])
    ensures Watch(s, MsgSend(s, me, target, x0, block).0, t)
  {
    hide Watch, SetStatus, FlagsSet, DirectCopy, QueueMsg, AddToList;
    var x := x0.(sender := me);
    WatchSame(s, t);
    if target in s.threads {
      WatchQueueMsg(s, target, x, t);
      if s.threads[target].status == ReceiveBlocked { WatchDirect(s, target, x, t); }
      WatchSenderQueued(s, me, target, x,
                        if s.threads[me].status == ReplyBlocked then ReplyBlocked else SendBlocked, t);
    }
  }

  lemma WatchSendInt(s: Sys, target: Pid, x: Msg, t: Pid)
    ensures Watch(s, MsgSendInt(s, target, x).0, t)
  {
    hide Watch, DirectCopy, QueueMsg;
    WatchSame(s, t);
    if target in s.threads {
      WatchQueueMsg(s, target, x.(sender := PID_ISR), t);
      if s.threads[target].status == ReceiveBlocked { WatchDirect(s, target, x.(sender := PID_ISR), t); }
    }
  }

  lemma WatchSendReceive(s: Sys, me: Pid, target: Pid, x: Msg, t: Pid)
    requires me in s.threads && !Awaits(s.threads[me])
    ensures Watch(s, MsgSendReceive(s, me, target, x).0, t)
  {
    WatchStatus(s, me, ReplyBlocked, t);
    SetStatusShape(s, me, ReplyBlocked);
    hide Watch, SetStatus, MsgSend;
    var q := SetStatus(s, me, ReplyBlocked);
    var c := q.threads[me].(waitData := Message(x));
    var u := WithThread(q, me, c);
    WatchFields(q, me, c, t);
    WatchJoin(s, q, u, t);
    WatchSend(u, me, target, x, true, t);
    WatchJoin(s, u, MsgSend(u, me, target, x, true).0, t);
  }

  lemma WatchReply(s: Sys, u: Pid, x: Msg, t: Pid)
    requires u in s.threads
    ensures Watch(s, MsgReply(s, u, x).0, t)
  {
    hide Watch, SetStatus;
    WatchSame(s, t);
    if s.threads[u].status == ReplyBlocked {
      WatchStatusOf(s, u, s.threads[u].(replies := s.threads[u].replies + [x]), Pending, t);
    }
  }

  lemma WatchRelease(s: Sys, w: Pid, t: Pid)
    requires w in s.threads && !Awaits(s.threads[w])
    ensures Watch(s, ReleaseSender(s, w), t)
  {
    hide Watch, SetStatus;
    WatchSame(s, t);
    WatchStatusOf(s, w, s.threads[w].(waitData := Nothing), Pending, t);
  }

  lemma WatchTake(s: Sys, me: Pid, c: Thread, w: Pid, t: Pid)
    requires me in s.threads && w in s.threads && me != w && !Awaits(s.threads[me]) && !Awaits(s.threads[w])
    requires c.flags == s.threads[me].flags && At(s, MsgWaiters(me)) != []
    ensures var u := WithThread(RemoveHead(s, MsgWaiters(me)), me, c); w in u.threads && Watch(s, ReleaseSender(u, w), t)
  {
    var q := RemoveHead(s, MsgWaiters(me));
    WatchList(s, MsgWaiters(me), At(s, MsgWaiters(me))[1..], t);
    WatchFields(q, me, c, t);
    var u := WithThread(q, me, c);
    hide Watch, ReleaseSender;
    WatchJoin(s, q, u, t);
    WatchRelease(u, w, t);
    WatchJoin(s, u, ReleaseSender(u, w), t);
  }

  lemma WatchReceive(s: Sys, me: Pid, block: bool, t: Pid)
    requires Inv(s) && CanRun(s, me)
    ensures At(s, MsgWaiters(me)) != [] ==>
              At(s, MsgWaiters(me))[0] in s.threads && At(s, MsgWaiters(me))[0] != me
    ensures Watch(s, MsgReceive(s, me, block).0, t)
  {
    HeadWaits(s, me);
    hide Watch, ReleaseSender, SetStatus, RemoveHead, ListsOk, Rest;
    var c := s.threads[me];
    WatchSame(s, t);
    if At(s, MsgWaiters(me)) == [] {
      if c.queue != [] {
        WatchFields(s, me, c.(received := c.received + [c.queue[0]], queue := c.queue[1..]), t);
      } else {
        WatchStatusOf(s, me, c.(waitData := Destination), ReceiveBlocked, t);
      }
    } else {
      var w := At(s, MsgWaiters(me))[0];
      var x := SentBy(s.threads[w]);
      if c.queue != [] {
        WatchTake(s, me, c.(received := c.received + [c.queue[0]], queue := c.queue[1..] + [x]), w, t);
      } else {
        WatchTake(s, me, c.(received := c.received + [x], waitData := Destination), w, t);
      }
    }
  }

  lemma HeadWaits(s: Sys, me: Pid)
    requires Inv(s) && CanRun(s, me)
    ensures var l := At(s, MsgWaiters(me));
            l != [] ==> l[0] in s.threads && l[0] != me && !Awaits(s.threads[l[0]])
  {
    var l := At(s, MsgWaiters(me));
    if l != [] {
      assert l[0] in l;
      ListedNotAwaiting(s, MsgWaiters(me), l[0]);
      UnlistedNotSending(s, me);
    }
  }

  lemma WatchCreate(s: Sys, p: Priority, sleeping: bool, flags: Flags, t: Pid)
    ensures Watch(s, ThreadCreate(s, p, sleeping, flags).0, t)
  {
    var pid := FreePid(s, PID_FIRST);
    WatchSame(s, t);
    if pid.Some? {
      var q := WithThread(s, pid.value, Thread(p, Stopped, flags, Nothing, [], 0, [], []));
      WatchSelf(s, q, t);
      var st := if sleeping then Sleeping else Pending;
      WatchStatus(q, pid.value, st, t);
      hide Watch, SetStatus;
      WatchJoin(s, q, SetStatus(q, pid.value, st), t);
    }
  }

  lemma WatchPriority(s: Sys, u: Pid, p: Priority, t: Pid)
    requires u in s.threads
    ensures Watch(s, ChangePriority(s, u, p), t)
  {
    ChangePriorityShape(s, u, p);
    hide ChangePriority;
  }

  lemma WatchSchedule(s: Sys, t: Pid)
    requires Inv(s) && SomebodyReady(s)
    ensures var q := At(s, RunQueue(First(s.clz, s.cache))); q != [] && q[0] in s.threads
    ensures Watch(s, SchedRun(s), t)
  {
    NextExists(s);
    SchedRunShape(s);
    hide SchedRun, ListsOk, Rest;
  }

  /** The calling thread, for the calls that can change what t waits for */
  predicate OwnCall(a: Action, t: Pid) {
    match a
    case WaitFlags(me, _, _) => me == t
    case TakeFlags(me, _) => me == t
    case _ => false
  }

  lemma WatchWaitFlags(s: Sys, me: Pid, mask: Flags, all: bool, t: Pid)
    requires me in s.threads && me != t
    ensures Watch(s, FlagsWait(s, me, mask, all), t)
  {
    var c := s.threads[me].(waitData := Mask(mask));
    SetStatusShape(WithThread(s, me, c), me, if all then FlagBlockedAll else FlagBlockedAny);
    hide SetStatus;
    WatchSelf(s, FlagsWait(s, me, mask, all), t);
  }

  lemma WatchTakeFlags(s: Sys, me: Pid, mask: Flags, t: Pid)
    requires me in s.threads && me != t
    ensures Watch(s, FlagsTake(s, me, mask).0, t)
  {
    WatchSelf(s, FlagsTake(s, me, mask).0, t);
  }

  lemma WatchUnlockThen(s: Sys, me: Pid, m: nat, t: Pid)
    requires Inv(s) && CanRun(s, me)
    ensures At(s, MutexQueue(m)) != [] ==> At(s, MutexQueue(m))[0] in s.threads
    ensures Watch(s, MutexUnlockAndSleep(s, me, m), t)
    ensures forall c: nat :: Watch(s, CondWait(s, me, c, m), t)
  {
    hide Rest, ListsOk, Watch;
    WatchUnlock(s, m, t);
    MutexUnlockKeeps(s, m);
    MutexUnlockDetached(s, m, me);
    hide MutexUnlock, SetStatus;
    var q := MutexUnlock(s, m);
    WatchStatus(q, me, Sleeping, t);
    WatchJoin(s, q, MutexUnlockAndSleep(s, me, m), t);
    forall c: nat ensures Watch(s, CondWait(s, me, c, m), t) {
      WatchBlock(q, me, CondBlocked, CondQueue(c), t);
      WatchJoin(s, q, CondWait(s, me, c, m), t);
    }
  }

  lemma WatchLock(s: Sys, me: Pid, m: nat, block: bool, t: Pid)
    requires me in s.threads && !Awaits(s.threads[me])
    ensures Watch(s, MutexLock(s, me, m, block).0, t)
  {
    WatchBlock(s, me, MutexBlocked, MutexQueue(m), t);
    WatchSame(s, t);
    hide Watch, SetStatus, AddToList;
  }

  lemma SyncWatch(s: Sys, a: Action, t: Pid)
    requires Inv(s) && Sound(s) && Enabled(s, a) && IsSync(a) && !OwnCall(a, t)
    ensures Watch(s, Apply(s, a), t)
  {
    hide ListsOk, Rest, Sound, Watch;
    match a
    case LockMutex(me, m, block) => WatchLock(s, me, m, block, t);
    case UnlockMutex(me, m) => WatchUnlock(s, m, t);
    case UnlockAndSleep(me, m) => WatchUnlockThen(s, me, m, t);
    case WaitCond(me, c, m) => WatchUnlockThen(s, me, m, t);
    case SignalCond(c, broadcast) => WatchSignal(s, c, broadcast, t);
    case SetFlags(u, mask) => WatchFlagsSet(s, u, mask, t);
    case WaitFlags(me, mask, all) => WatchWaitFlags(s, me, mask, all, t);
    case TakeFlags(me, mask) => WatchTakeFlags(s, me, mask, t);
    case ReadFlags(_) => WatchSame(s, t);
    case _ =>
  }

  lemma WatchToSelf(s: Sys, me: Pid, x: Msg, t: Pid)
    requires me in s.threads
    ensures Watch(s, MsgSendToSelf(s, me, x).0, t)
  {
    hide Watch;
    WatchQueueMsg(s, me, x.(sender := me), t);
  }

  lemma MessageWatch(s: Sys, a: Action, t: Pid)
    requires Inv(s) && Sound(s) && Enabled(s, a) && IsMessage(a)
    ensures Watch(s, Apply(s, a), t)
  {
    hide ListsOk, Rest, Sound, Watch, MsgSend, MsgSendToSelf, MsgSendInt, MsgSendReceive, MsgReply, MsgReceive;
    match a
    case Send(me, target, x, block) => WatchSend(s, me, target, x, block, t);
    case SendToSelf(me, x) => WatchToSelf(s, me, x, t);
    case SendInt(target, x) => WatchSendInt(s, target, x, t);
    case SendReceive(me, target, x) => WatchSendReceive(s, me, target, x, t);
    case Reply(u, x) => WatchReply(s, u, x, t);
    case Receive(me, block) => WatchReceive(s, me, block, t);
    case InitQueue(me, capacity) => WatchFields(s, me, s.threads[me].(queue := [], capacity := capacity), t);
    case _ =>
  }

  /** Whatever else happens, a thread that waits for flags goes on waiting or its wait is answered,
      and it loses no flag. */
  lemma OthersKeepPromises(s: Sys, a: Action, t: Pid)
    requires Inv(s) && Sound(s) && Enabled(s, a) && !OwnCall(a, t)
    ensures Watch(s, Apply(s, a), t)
  {
    hide ListsOk, Rest, Sound, Watch;
    if IsSync(a) {
      SyncWatch(s, a, t);
    } else if IsMessage(a) {
      MessageWatch(s, a, t);
    } else {
      hide SetStatus, SchedRun, Advance, ChangePriority, ThreadCreate;
      WatchSame(s, t);
      match a
      case Sleep(me) => WatchStatus(s, me, Sleeping, t);
      case Wakeup(u) =>
        if u in s.threads && s.threads[u].status == Sleeping { WatchStatus(s, u, Pending, t); }
      case Create(p, sleeping, flags) => WatchCreate(s, p, sleeping, flags, t);
      case Yield(me) => WatchYield(s, me, t);
      case SetPriority(u, p) => WatchPriority(s, u, p, t);
      case Schedule => WatchSchedule(s, t);
      case _ =>
    }
  }

  lemma WatchYield(s: Sys, me: Pid, t: Pid)
    requires me in s.threads
    ensures Watch(s, Advance(s, me), t)
  {
    WatchSame(s, t);
    hide Watch;
  }

  // ---------- runs ----------

  /** Main result, no lost wake-up. In every state of every run a thread blocked for any of its
      flags has none of them, and one blocked for all lacks at least one. */
  lemma NoLostWakeUp(states: seq<Sys>, acts: seq<Action>, n: nat, t: Pid)
    requires Run(states, acts) && n < |states| && t in states[n].threads
    ensures var c := states[n].threads[t];
            && (c.status == FlagBlockedAny ==> c.waitData.Mask? && c.flags * c.waitData.mask == {})
            && (c.status == FlagBlockedAll ==> c.waitData.Mask? && !(c.waitData.mask <= c.flags))
  {
    InvariantOfRun(states, acts, n);
    assert FlagsFit(states[n].threads[t]);
  }

  /** A call to wait makes the promise. */
  lemma WaitPromises(s: Sys, me: Pid, mask: Flags, all: bool)
    requires me in s.threads
    ensures var r := FlagsWait(s, me, mask, all); me in r.threads && Promised(r.threads[me], mask, all)
  {
    SetStatusShape(WithThread(s, me, s.threads[me].(waitData := Mask(mask))), me,
                   if all then FlagBlockedAll else FlagBlockedAny);
    hide SetStatus;
  }

  /** From its call to wait up to its own next flag call the thread keeps its promise. */
  lemma {:induction false} PromiseLasts(states: seq<Sys>, acts: seq<Action>, i: nat, n: nat, me: Pid, mask: Flags, all: bool)
    requires Run(states, acts) && i < n <= |acts| && acts[i] == WaitFlags(me, mask, all)
    requires forall k :: i < k < n ==> !OwnCall(acts[k], me)
    ensures |states| == |acts| + 1 && me in states[n].threads && Promised(states[n].threads[me], mask, all)
    decreases n
  {
    hide Run, Inv, Sound, Apply, Enabled, Promised;
    StepFacts(states, acts, n - 1);
    if i == n - 1 {
      WaitStep(states[i], acts[i], me, mask, all);
    } else {
      PromiseLasts(states, acts, i, n - 1, me, mask, all);
      hide Watch;
      OthersKeepPromises(states[n - 1], acts[n - 1], me);
      WatchMeans(states[n - 1], states[n], me, mask, all);
    }
  }

  lemma WaitStep(s: Sys, a: Action, me: Pid, mask: Flags, all: bool)
    requires Sound(s) && Enabled(s, a) && a == WaitFlags(me, mask, all)
    ensures me in Apply(s, a).threads && Promised(Apply(s, a).threads[me], mask, all)
  {
    hide FlagsWait, Promised, Sound;
    WaitPromises(s, me, mask, all);
  }

  lemma WatchMeans(s: Sys, r: Sys, t: Pid, mask: Flags, all: bool)
    requires Watch(s, r, t) && t in s.threads && Promised(s.threads[t], mask, all)
    ensures t in r.threads && Promised(r.threads[t], mask, all)
  {
  }

  /** When the thread runs again its wait is answered. */
  lemma AnsweredWhenRunning(states: seq<Sys>, acts: seq<Action>, i: nat, n: nat, me: Pid, mask: Flags, all: bool)
    requires Run(states, acts) && i < n < |acts| && acts[i] == WaitFlags(me, mask, all)
    requires forall k :: i < k < n ==> !OwnCall(acts[k], me)
    requires acts[n] == ReadFlags(me) || (acts[n].TakeFlags? && acts[n].me == me)
    ensures |states| == |acts| + 1 && me in states[n].threads
    ensures Answers(states[n].threads[me].flags, mask, all)
  {
    PromiseLasts(states, acts, i, n, me, mask, all);
    StepFacts(states, acts, n);
    hide Run, Inv, Sound, Apply;
  }

  /** Main result, wait for any. What thread_flags_wait_any returns is a non-empty part of the
      mask. */
  lemma WaitAnyReturns(states: seq<Sys>, acts: seq<Action>, i: nat, n: nat, me: Pid, mask: Flags)
    requires Run(states, acts) && i < n < |acts| && acts[i] == WaitFlags(me, mask, false)
    requires (forall k :: i < k < n ==> !OwnCall(acts[k], me)) && acts[n] == TakeFlags(me, mask)
    ensures |states| == |acts| + 1 && me in states[n].threads
    ensures var taken := FlagsTake(states[n], me, mask).1;
            taken != {} && taken <= mask && taken <= states[n].threads[me].flags
  {
    AnsweredWhenRunning(states, acts, i, n, me, mask, false);
    hide Run;
  }

  /** Main result, wait for all. What thread_flags_wait_all returns is the whole mask. */
  lemma WaitAllReturns(states: seq<Sys>, acts: seq<Action>, i: nat, n: nat, me: Pid, mask: Flags)
    requires Run(states, acts) && i < n < |acts| && acts[i] == WaitFlags(me, mask, true)
    requires (forall k :: i < k < n ==> !OwnCall(acts[k], me)) && acts[n] == TakeFlags(me, mask)
    ensures |states| == |acts| + 1 && me in states[n].threads
    ensures FlagsTake(states[n], me, mask).1 == mask
  {
    AnsweredWhenRunning(states, acts, i, n, me, mask, true);
    hide Run;
  }

  function FlagsOf(s: Sys, t: Pid): Flags {
    if t in s.threads then s.threads[t].flags else {}
  }

  predicate IsLowest(b: nat, flags: Flags) {
    b in flags && forall j: nat :: j < b ==> j !in flags
  }

  /** Between two states a flag of the mask below b was set. */
  predicate LowerArrives(s: Sys, r: Sys, me: Pid, mask: Flags, b: nat) {
    exists j: nat :: j < b && j in mask && j in FlagsOf(r, me) && j !in FlagsOf(s, me)
  }

  /** Between two flag calls of its own a thread loses no flag. */
  lemma {:induction false} FlagsGrow(states: seq<Sys>, acts: seq<Action>, j: nat, n: nat, me: Pid)
    requires Run(states, acts) && j <= n <= |acts|
    requires forall k :: j <= k < n ==> !OwnCall(acts[k], me)
    ensures |states| == |acts| + 1 && FlagsOf(states[j], me) <= FlagsOf(states[n], me)
    decreases n
  {
    hide Run, Inv, Sound, Apply, Enabled;
    if j < n {
      FlagsGrow(states, acts, j, n - 1, me);
      StepFacts(states, acts, n - 1);
      OthersKeepPromises(states[n - 1], acts[n - 1], me);
    } else {
      assert |states| == |acts| + 1 by { LongRun(states, acts); }
    }
  }

  lemma LongRun(states: seq<Sys>, acts: seq<Action>)
    requires Run(states, acts)
    ensures |states| == |acts| + 1
  {
  }

  lemma LowestIs(tmp: Flags, some: nat)
    requires some in tmp && forall b :: b in tmp ==> b < 16
    ensures IsLowest(Lowest(tmp, 0), tmp) && LowestAlone(tmp) == {Lowest(tmp, 0)}
  {
    assert some < 16;
  }

  /** b, the lowest flag of the mask at j, is still the lowest at n exactly when no lower one
      arrived in between. */
  lemma {:induction false} LowestUnlessLower(states: seq<Sys>, acts: seq<Action>, j: nat, n: nat, me: Pid, mask: Flags,
                                             b: nat)
    requires Run(states, acts) && j <= n <= |acts| && |states| == |acts| + 1
    requires (forall k :: j <= k < n ==> !OwnCall(acts[k], me)) && IsLowest(b, FlagsOf(states[j], me) * mask)
    ensures b in FlagsOf(states[n], me)
    ensures IsLowest(b, FlagsOf(states[n], me) * mask) <==>
            forall k :: j <= k < n ==> !LowerArrives(states[k], states[k + 1], me, mask, b)
    decreases n
  {
    hide Run, FlagsOf, LowerArrives, OwnCall;
    FlagsGrow(states, acts, j, n, me);
    if j < n {
      LowestUnlessLower(states, acts, j, n - 1, me, mask, b);
      FlagsGrow(states, acts, n - 1, n, me);
      OneStepLowest(states[n - 1], states[n], me, mask, b);
    }
  }

  lemma OneStepLowest(s: Sys, r: Sys, me: Pid, mask: Flags, b: nat)
    requires FlagsOf(s, me) <= FlagsOf(r, me) && b in FlagsOf(s, me) * mask
    ensures IsLowest(b, FlagsOf(r, me) * mask) <==>
            IsLowest(b, FlagsOf(s, me) * mask) && !LowerArrives(s, r, me, mask, b)
  {
    hide FlagsOf;
    var f, g := FlagsOf(s, me), FlagsOf(r, me);
    if IsLowest(b, f * mask) && !LowerArrives(s, r, me, mask, b) {
      forall j: nat | j < b ensures j !in g * mask { assert j !in f * mask; }
    }
    if IsLowest(b, g * mask) {
      forall j: nat | j < b ensures j !in f * mask { assert j !in g * mask; }
      assert forall j: nat :: j in g && j in mask ==> j in g * mask;
    }
  }

  /** Main result, wait for one. thread_flags_wait_one reads the flags, with interrupts enabled, and
      clears in a later step. What it returns is exactly the flag that was the lowest of the mask at
      the read; it is still set, and it alone is cleared. It is the lowest of the mask at that later
      moment if and only if no lower flag of the mask was set in between. */
  lemma WaitOneReturns(states: seq<Sys>, acts: seq<Action>, i: nat, j: nat, n: nat, me: Pid, mask: Flags)
    requires Run(states, acts) && i < j < n < |acts| && acts[i] == WaitFlags(me, mask, false)
    requires |states| == |acts| + 1 && acts[j] == ReadFlags(me)
    requires acts[n] == TakeFlags(me, LowestAlone(FlagsOf(states[j], me) * mask))
    requires forall k :: i < k < n ==> !OwnCall(acts[k], me)
    requires forall b :: b in mask ==> b < 16
    ensures var b, flags := Lowest(FlagsOf(states[j], me) * mask, 0), FlagsOf(states[n], me);
            && IsLowest(b, FlagsOf(states[j], me) * mask) && me in states[n].threads
            && FlagsTake(states[n], me, acts[n].mask).1 == {b} && b in flags
            && FlagsOf(states[n + 1], me) == flags - {b}
            && (IsLowest(b, flags * mask) <==>
                  forall k :: j <= k < n ==> !LowerArrives(states[k], states[k + 1], me, mask, b))
  {
    hide Run, Inv, Sound, Apply, Enabled, Lowest, LowestAlone, LowerArrives, IsLowest, OwnCall;
    AnsweredWhenRunning(states, acts, i, j, me, mask, false);
    var tmp := FlagsOf(states[j], me) * mask;
    var some :| some in tmp;
    LowestIs(tmp, some);
    StepFacts(states, acts, n);
    TakenStep(states[n], acts[n]);
    LowestUnlessLower(states, acts, j, n, me, mask, Lowest(tmp, 0));
  }

  lemma TakenStep(s: Sys, a: Action)
    requires Sound(s) && Enabled(s, a) && a.TakeFlags?
    ensures a.me in s.threads && FlagsTake(s, a.me, a.mask).1 == a.mask * FlagsOf(s, a.me)
    ensures FlagsOf(Apply(s, a), a.me) == FlagsOf(s, a.me) - a.mask
  {
    hide Sound;
  }

  /** The wait is answered, the read finds flag 1 alone, an interrupt sets flag 0, and the thread
      still runs. */
  lemma ReadThenSet(s: Sys, me: Pid)
    requires CanRun(s, me) && s.threads[me].status == Running && s.threads[me].flags == {1}
    ensures FlagsWait(s, me, {0, 1}, false) == s && LowestAlone(FlagsOf(s, me) * {0, 1}) == {1}
    ensures var r := FlagsSet(s, me, {0});
            && CanRun(r, me) && me in r.threads && FlagsOf(r, me) == {0, 1} && FlagsTake(r, me, {1}).1 == {1}
            && IsLowest(0, FlagsOf(r, me) * {0, 1})
  {
    hide LowestAlone, Lowest;
    SetWhileRunning(s, me, {0});
    assert {1} * {0, 1} == {1};
    LowestIs({1}, 1);
    hide FlagsSet;
  }

  lemma SetWhileRunning(s: Sys, me: Pid, mask: Flags)
    requires me in s.threads && s.threads[me].status == Running
    ensures FlagsSet(s, me, mask) == WithThread(s, me, s.threads[me].(flags := s.threads[me].flags + mask))
  {
  }

  /** There is such a run: the read finds flag 1 alone, an interrupt sets flag 0, and flag 1 is
      returned although flag 0 is set and in the mask. */
  lemma LowerFlagPassedOver(clz: bool, p: Priority) returns (states: seq<Sys>, acts: seq<Action>)
    ensures Run(states, acts) && |acts| == 6 && |states| == 7
    ensures acts[2] == WaitFlags(1, {0, 1}, false) && acts[3] == ReadFlags(1) && acts[4] == SetFlags(1, {0})
    ensures acts[5] == TakeFlags(1, LowestAlone(FlagsOf(states[3], 1) * {0, 1}))
    ensures 1 in states[5].threads && FlagsTake(states[5], 1, acts[5].mask).1 == {1}
    ensures IsLowest(0, FlagsOf(states[5], 1) * {0, 1})
  {
    hide Run, Inv, Sound, CanRun, LowestAlone, FlagsOf, IsLowest, FlagsWait, FlagsSet;
    states, acts := OneRuns(clz, p, {1});
    var s := states[2];
    var r := FlagsSet(s, 1, {0});
    ReadThenSet(s, 1);
    Extend(states, acts, WaitFlags(1, {0, 1}, false));
    states, acts := states + [s], acts + [WaitFlags(1, {0, 1}, false)];
    Extend(states, acts, ReadFlags(1));
    states, acts := states + [s], acts + [ReadFlags(1)];
    Extend(states, acts, SetFlags(1, {0}));
    states, acts := states + [r], acts + [SetFlags(1, {0})];
    var a := TakeFlags(1, {1});
    Extend(states, acts, a);
    states, acts := states + [Apply(r, a)], acts + [a];
  }

  /** On the 16-bit word itself: tmp & (~tmp + 1) keeps exactly the lowest bit that is set. */
  lemma LowestBitKept(tmp: bv16, bit: bv16)
    requires bit != 0 && bit & (bit - 1) == 0
    requires tmp & bit == bit && tmp & (bit - 1) == 0
    ensures tmp & (!tmp + 1) == bit
  {
  }
}
