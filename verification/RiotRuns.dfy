/** Runs of the kernel: any interleaving of thread calls, interrupt calls and scheduler runs. */
module RiotRuns {
  import opened Options
  import opened PrioList
  import opened Bitcache
  import opened RiotSystem
  import opened RiotLists
  import opened RiotInvariant
  import opened RiotSteps

  /** me is the calling thread; actions without it may also come from an interrupt. */
  datatype Action =
    | LockMutex(me: Pid, mutex: nat, block: bool)
    | UnlockMutex(me: Pid, mutex: nat)
    | UnlockAndSleep(me: Pid, mutex: nat)
    | WaitCond(me: Pid, cond: nat, mutex: nat)
    | SignalCond(cond: nat, broadcast: bool)
    | SetFlags(target: Pid, mask: Flags)
    | WaitFlags(me: Pid, mask: Flags, all: bool)
    | TakeFlags(me: Pid, mask: Flags)
    | ReadFlags(me: Pid)
    | Send(me: Pid, target: Pid, m: Msg, block: bool)
    | SendToSelf(me: Pid, m: Msg)
    | SendInt(target: Pid, m: Msg)
    | SendReceive(me: Pid, target: Pid, m: Msg)
    | Reply(target: Pid, m: Msg)
    | Receive(me: Pid, block: bool)
    | InitQueue(me: Pid, capacity: nat)
    | Sleep(me: Pid)
    | Wakeup(target: Pid)
    | Create(prio: Priority, sleeping: bool, flags: Flags)
    | Yield(me: Pid)
    | SetPriority(target: Pid, prio: Priority)
    | Schedule

  /** When a call may happen: callers run; a reply goes to a thread whose request was received;
      a queue is set up while no sender waits; waiting threads keep their priority. */
  ghost predicate Enabled(s: Sys, a: Action) {
    match a
    case SignalCond(_, _) => true
    case SetFlags(t, _) => t in s.threads
    case Send(me, target, _, _) => CanRun(s, me) && target != me
    case SendInt(_, _) => true
    case SendReceive(me, target, _) => CanRun(s, me) && target != me
    case Reply(t, _) => t in s.threads && NotSending(s, t)
    case InitQueue(me, _) => CanRun(s, me) && At(s, MsgWaiters(me)) == []
    case Wakeup(_) => true
    case Create(_, _, _) => true
    case SetPriority(t, _) =>
      t in s.threads && Detached(s, t) && (OnRunqueue(s.threads[t].status) || !MustQueue(s.threads[t].status))
    case Schedule => SomebodyReady(s)
    case _ => CanRun(s, a.me)
  }

  /** The lists name existing threads, and no thread waits to send to itself. */
  ghost predicate Sound(s: Sys) {
    && (forall pl: Place, t {:trigger t in At(s, pl)} :: t in At(s, pl) ==> t in s.threads)
    && (forall t: nat {:trigger At(s, MsgWaiters(t))} :: t in s.threads && CanRun(s, t) ==> t !in At(s, MsgWaiters(t)))
    && (SomebodyReady(s) ==>
          var q := At(s, RunQueue(First(s.clz, s.cache))); q != [] && q[0] in s.threads)
  }

  ghost function Apply(s: Sys, a: Action): Sys
    requires Sound(s) && Enabled(s, a)
  {
    assert forall pl: Place :: At(s, pl) != [] ==> At(s, pl)[0] in At(s, pl);
    match a
    case LockMutex(me, m, block) => MutexLock(s, me, m, block).0
    case UnlockMutex(me, m) => MutexUnlock(s, m)
    case UnlockAndSleep(me, m) => MutexUnlockAndSleep(s, me, m)
    case WaitCond(me, c, m) => CondWait(s, me, c, m)
    case SignalCond(c, broadcast) => CondSignal(s, c, broadcast)
    case SetFlags(t, mask) => FlagsSet(s, t, mask)
    case WaitFlags(me, mask, all) => FlagsWait(s, me, mask, all)
    case TakeFlags(me, mask) => FlagsTake(s, me, mask).0
    case ReadFlags(_) => s
    case Send(me, target, m, block) => MsgSend(s, me, target, m, block).0
    case SendToSelf(me, m) => MsgSendToSelf(s, me, m).0
    case SendInt(target, m) => MsgSendInt(s, target, m).0
    case SendReceive(me, target, m) => MsgSendReceive(s, me, target, m).0
    case Reply(t, m) => MsgReply(s, t, m).0
    case Receive(me, block) => MsgReceive(s, me, block).0
    case InitQueue(me, capacity) => MsgInitQueue(s, me, capacity)
    case Sleep(me) => ThreadSleep(s, me)
    case Wakeup(t) => ThreadWakeup(s, t)
    case Create(p, sleeping, flags) => ThreadCreate(s, p, sleeping, flags).0
    case Yield(me) => Advance(s, me)
    case SetPriority(t, p) => ChangePriority(s, t, p)
    case Schedule => SchedRun(s)
  }

  lemma InvIsSound(s: Sys)
    requires Inv(s)
    ensures Sound(s)
  {
    var home :| Placed(s, home, None);
    forall t: nat | t in s.threads && CanRun(s, t) ensures t !in At(s, MsgWaiters(t)) {
      UnlistedNotSending(s, t);
    }
    if SomebodyReady(s) { NextExists(s); }
  }

  /** One step; outside the invariant the code is not described, so anything may follow. */
  ghost predicate Step(s: Sys, a: Action, r: Sys) {
    Enabled(s, a) && (Sound(s) ==> r == Apply(s, a))
  }

  predicate IsSync(a: Action) {
    a.LockMutex? || a.UnlockMutex? || a.UnlockAndSleep? || a.WaitCond? || a.SignalCond?
    || a.SetFlags? || a.WaitFlags? || a.TakeFlags? || a.ReadFlags?
  }

  predicate IsMessage(a: Action) {
    a.Send? || a.SendToSelf? || a.SendInt? || a.SendReceive? || a.Reply? || a.Receive? || a.InitQueue?
  }

  lemma SyncStepKeeps(s: Sys, a: Action)
    requires Inv(s) && Sound(s) && Enabled(s, a) && IsSync(a)
    ensures Inv(Apply(s, a))
  {
    hide ListsOk, Rest, Sound;
    match a
    case LockMutex(me, m, block) => MutexLockKeeps(s, me, m, block);
    case UnlockMutex(me, m) => MutexUnlockKeeps(s, m);
    case UnlockAndSleep(me, m) => UnlockAndSleepKeeps(s, me, m);
    case WaitCond(me, c, m) => CondWaitKeeps(s, me, c, m);
    case SignalCond(c, broadcast) => CondSignalKeeps(s, c, broadcast);
    case SetFlags(t, mask) => FlagsSetKeeps(s, t, mask);
    case WaitFlags(me, mask, all) => FlagsWaitKeeps(s, me, mask, all);
    case TakeFlags(me, mask) => FlagsTakeKeeps(s, me, mask);
    case _ =>
  }

  lemma SendIntKeeps(s: Sys, target: Pid, m: Msg)
    requires Inv(s)
    ensures Inv(MsgSendInt(s, target, m).0)
  {
    if target in s.threads {
      if s.threads[target].status == ReceiveBlocked {
        DirectCopyKeeps(s, target, m.(sender := PID_ISR));
      } else {
        QueueMsgKeeps(s, target, m.(sender := PID_ISR));
      }
    }
  }

  lemma MessageStepKeeps(s: Sys, a: Action)
    requires Inv(s) && Sound(s) && Enabled(s, a) && IsMessage(a)
    ensures Inv(Apply(s, a))
  {
    hide ListsOk, Rest, Sound, MsgSend, MsgSendReceive, MsgReply, MsgReceive, MsgInitQueue, QueueMsg;
    match a
    case Send(me, target, m, block) => MsgSendKeeps(s, me, target, m, block);
    case SendToSelf(me, m) => QueueMsgKeeps(s, me, m.(sender := me));
    case SendInt(target, m) => SendIntKeeps(s, target, m);
    case SendReceive(me, target, m) => MsgSendReceiveKeeps(s, me, target, m);
    case Reply(t, m) => MsgReplyKeeps(s, t, m);
    case Receive(me, block) => MsgReceiveKeeps(s, me, block);
    case InitQueue(me, capacity) => MsgInitQueueKeeps(s, me, capacity);
    case _ =>
  }

  lemma StepKeeps(s: Sys, a: Action, r: Sys)
    requires Inv(s) && Step(s, a, r)
    ensures Inv(r)
  {
    InvIsSound(s);
    hide ListsOk, Rest, Sound;
    if IsSync(a) {
      SyncStepKeeps(s, a);
    } else if IsMessage(a) {
      MessageStepKeeps(s, a);
    } else {
      match a
      case Sleep(me) => ThreadSleepKeeps(s, me);
      case Wakeup(t) => ThreadWakeupKeeps(s, t);
      case Create(p, sleeping, flags) => ThreadCreateKeeps(s, p, sleeping, flags);
      case Yield(me) => AdvanceKeeps(s, me);
      case SetPriority(t, p) => ChangePriorityLists(s, t, p); ChangePriorityRest(s, t, p);
      case Schedule => SchedRunPicks(s);
      case _ =>
    }
  }

  /** The kernel at boot: no threads, no lists. */
  ghost predicate Init(s: Sys) {
    && s.threads == map[] && s.lists == map[] && s.locked == {} && s.active == None
    && s.cache == seq(32, _ => false)
  }

  ghost predicate Run(states: seq<Sys>, acts: seq<Action>) {
    && |states| == |acts| + 1
    && Init(states[0])
    && (forall i {:trigger acts[i]} :: 0 <= i < |acts| ==> Step(states[i], acts[i], states[i + 1]))
  }

  lemma InitHolds(s: Sys)
    requires Init(s)
    ensures Inv(s)
  {
    assert forall pl: Place :: At(s, pl) == [];
    assert Placed(s, map[], None);
  }

  lemma {:induction false} InvariantOfRun(states: seq<Sys>, acts: seq<Action>, n: nat)
    requires Run(states, acts) && n < |states|
    ensures Inv(states[n])
    decreases n
  {
    if n == 0 {
      InitHolds(states[0]);
    } else {
      InvariantOfRun(states, acts, n - 1);
      StepKeeps(states[n - 1], acts[n - 1], states[n]);
    }
  }

  /** Every step of a run is one of the described calls from a state that satisfies the invariant. */
  lemma StepFacts(states: seq<Sys>, acts: seq<Action>, n: nat)
    requires Run(states, acts) && n < |acts|
    ensures |states| == |acts| + 1
    ensures Inv(states[n]) && Sound(states[n]) && Enabled(states[n], acts[n])
    ensures states[n + 1] == Apply(states[n], acts[n])
  {
    InvariantOfRun(states, acts, n);
    InvIsSound(states[n]);
    hide Inv, Sound, Apply;
    assert Step(states[n], acts[n], states[n + 1]);
  }

  // ---------- what the invariant means ----------

  /** A thread's list node is linked at most once, and its status decides where. */
  ghost predicate OneListPerThread(s: Sys) {
    && (forall pl: Place :: Distinct(At(s, pl)))
    && (forall p: Place, q: Place, t :: t in At(s, p) && t in At(s, q) ==> p == q)
    && (forall t, p: nat :: t in At(s, RunQueue(p)) <==>
          t in s.threads && OnRunqueue(s.threads[t].status) && s.threads[t].priority == p)
    && (forall t :: t in s.threads && s.threads[t].status == MutexBlocked ==>
          exists m: nat :: t in At(s, MutexQueue(m)))
    && (forall t :: t in s.threads && s.threads[t].status == CondBlocked ==>
          exists c: nat :: t in At(s, CondQueue(c)))
    && (forall t :: t in s.threads && s.threads[t].status == SendBlocked ==>
          exists r: nat :: t in At(s, MsgWaiters(r)))
    && (forall t, pl: Place :: t in At(s, pl) ==> t in s.threads && Belongs(s.threads[t], pl))
  }

  lemma ListsSeparate(s: Sys)
    requires ListsOk(s)
    ensures forall pl: Place :: Distinct(At(s, pl))
    ensures forall p: Place, q: Place, t :: t in At(s, p) && t in At(s, q) ==> p == q
  {
    var home :| Placed(s, home, None);
    forall pl: Place ensures Distinct(At(s, pl)) { }
  }

  lemma SeatOf(s: Sys, home: map<Pid, Place>, t: Pid, pl: Place)
    requires Placed(s, home, None)
    ensures t in At(s, pl) <==> t in home && home[t] == pl
    ensures t in home ==> t in s.threads && Belongs(s.threads[t], home[t])
    ensures t in s.threads && MustQueue(s.threads[t].status) ==> t in home
  {
    hide Belongs, Distinct;
  }

  lemma WaitersFound(s: Sys, t: Pid)
    requires ListsOk(s) && t in s.threads
    ensures s.threads[t].status == MutexBlocked ==> exists m: nat :: t in At(s, MutexQueue(m))
    ensures s.threads[t].status == CondBlocked ==> exists c: nat :: t in At(s, CondQueue(c))
    ensures s.threads[t].status == SendBlocked ==> exists r: nat :: t in At(s, MsgWaiters(r))
  {
    var home :| Placed(s, home, None);
    if s.threads[t].status in {MutexBlocked, CondBlocked, SendBlocked} {
      assert t in home;
      SeatOf(s, home, t, home[t]);
      hide Placed;
      assert t in At(s, home[t]);
    }
  }

  lemma RunQueueMembers(s: Sys, t: Pid, p: nat)
    requires ListsOk(s)
    ensures t in At(s, RunQueue(p)) <==>
            t in s.threads && OnRunqueue(s.threads[t].status) && s.threads[t].priority == p
  {
    var home :| Placed(s, home, None);
    SeatOf(s, home, t, RunQueue(p));
  }

  /** Main result. In every state of every run each thread node is on at most one list, the
      one its status names. */
  lemma EveryRunKeepsOneList(states: seq<Sys>, acts: seq<Action>, n: nat)
    requires Run(states, acts) && n < |states|
    ensures OneListPerThread(states[n])
  {
    InvariantOfRun(states, acts, n);
    var s := states[n];
    ListsSeparate(s);
    hide ListsOk, Rest;
    forall t, p: nat
      ensures t in At(s, RunQueue(p)) <==>
              t in s.threads && OnRunqueue(s.threads[t].status) && s.threads[t].priority == p
    {
      RunQueueMembers(s, t, p);
    }
    forall t | t in s.threads
      ensures s.threads[t].status == MutexBlocked ==> exists m: nat :: t in At(s, MutexQueue(m))
      ensures s.threads[t].status == CondBlocked ==> exists c: nat :: t in At(s, CondQueue(c))
      ensures s.threads[t].status == SendBlocked ==> exists r: nat :: t in At(s, MsgWaiters(r))
    {
      WaitersFound(s, t);
    }
    forall t, pl: Place | t in At(s, pl) ensures t in s.threads && Belongs(s.threads[t], pl)
    {
      MemberStatus(s, pl, t);
    }
  }

  /** Main result, index. In every state of every run bit p of the cache is set exactly when run
      queue p is not empty, in both bit orders. */
  lemma EveryRunIndexAgrees(states: seq<Sys>, acts: seq<Action>, n: nat)
    requires Run(states, acts) && n < |states|
    ensures forall p: nat :: p < 32 ==> (Has(states[n].clz, states[n].cache, p) <==> At(states[n], RunQueue(p)) != [])
  {
    InvariantOfRun(states, acts, n);
    IndexAgrees(states[n]);
  }

  lemma IndexAgrees(s: Sys)
    requires ListsOk(s)
    ensures forall p: nat :: p < 32 ==> (Has(s.clz, s.cache, p) <==> At(s, RunQueue(p)) != [])
  {
    var home :| Placed(s, home, None);
  }

  /** Main result, scheduling. Whenever the scheduler runs in a run, the head of the most urgent
      non-empty queue becomes the one running thread, and nobody runnable is more urgent. */
  lemma EveryRunSchedulesMostUrgent(states: seq<Sys>, acts: seq<Action>, n: nat)
    requires Run(states, acts) && n < |acts| && acts[n] == Schedule
    ensures |states| == |acts| + 1
    ensures var r := states[n + 1];
            && r.active.Some? && r.active.value in r.threads
            && (forall t :: t in r.threads ==> (r.threads[t].status == Running <==> r.active == Some(t)))
            && (forall t :: t in r.threads && OnRunqueue(r.threads[t].status) ==>
                  r.threads[r.active.value].priority <= r.threads[t].priority)
            && (exists p: nat :: At(r, RunQueue(p)) != [] && At(r, RunQueue(p))[0] == r.active.value
                                 && forall q: nat :: q < p ==> At(r, RunQueue(q)) == [])
  {
    StepFacts(states, acts, n);
    SchedRunPicks(states[n]);
    Picked(states[n]);
    hide Run, Inv, Sound, SchedRun;
  }

  lemma Picked(s: Sys)
    requires Inv(s) && SomebodyReady(s)
    ensures var q := At(s, RunQueue(First(s.clz, s.cache))); q != [] && q[0] in s.threads
    ensures var r := SchedRun(s);
            && r.active.Some? && r.active.value in r.threads
            && (exists p: nat :: At(r, RunQueue(p)) != [] && At(r, RunQueue(p))[0] == r.active.value
                                 && forall q: nat :: q < p ==> At(r, RunQueue(q)) == [])
  {
    NextExists(s);
    SchedRunShape(s);
    IndexAgrees(s);
    var hit: nat :| hit < 32 && Has(s.clz, s.cache, hit);
    FirstIsMostUrgent(s.clz, s.cache, hit);
    hide SchedRun, ListsOk, Rest, First, Has;
    var r := SchedRun(s);
    var p := First(s.clz, s.cache);
    assert At(r, RunQueue(p)) == At(s, RunQueue(p));
    forall q: nat | q < p ensures At(r, RunQueue(q)) == [] { assert At(r, RunQueue(q)) == At(s, RunQueue(q)); }
  }
}
