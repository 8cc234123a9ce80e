/** The RIOT critical sections as they run: kernel tables rewritten step by step, each section
    tied to its value-level description in RiotSystem. */
module RiotKernel {
  import opened Bitcache
  import opened Options
  import opened PrioList
  import opened RiotBoot
  import opened RiotEffects
  import opened RiotFlags
  import opened RiotInvariant
  import opened RiotLists
  import opened RiotMailbox
  import opened RiotMessages
  import opened RiotMutex
  import opened RiotRuns
  import opened RiotSched
  import opened RiotSteps
  import opened RiotSystem

  class Kernel {
    const clz: bool
    var threads: map<Pid, Thread>
    var lists: map<Place, seq<Pid>>
    var locked: set<nat>
    var cache: Word
    var active: Option<Pid>

    function St(): Sys
      reads this
    {
      Sys(clz, threads, lists, locked, cache, active)
    }

    /** Boot: no threads, no lists, an empty cache */
    constructor (clz: bool)
      ensures St() == Sys(clz, map[], map[], {}, seq(32, _ => false), None)
    {
      this.clz := clz;
      threads, lists, locked, cache, active := map[], map[], {}, seq(32, _ => false), None;
    }

    // ---------- lists ----------

    /** thread_add_to_list: walk until a less urgent thread, and link the node there. */
    method ThreadAddToList(pl: Place, t: Pid)
      requires t in threads && forall u :: u in At(St(), pl) ==> u in threads
      modifies this`lists
      ensures St() == AddToList(old(St()), pl, t)
    {
      var l := At(St(), pl);
      var i := 0;
      while i < |l|
        invariant i <= |l|
        invariant forall k :: 0 <= k < i ==> Prio(St())(l[k]) <= threads[t].priority
      {
        assert l[i] in l;
        if threads[l[i]].priority > threads[t].priority { break; }
        i := i + 1;
      }
      PositionIsFirst(Prio(St()), l, threads[t].priority, i);
      lists := lists[pl := InsertAt(l, i, t)];
    }

    /** list_remove_head */
    method ListRemoveHead(pl: Place) returns (head: Option<Pid>)
      modifies this`lists
      ensures head == if At(old(St()), pl) == [] then None else Some(At(old(St()), pl)[0])
      ensures At(old(St()), pl) == [] ==> St() == old(St())
      ensures At(old(St()), pl) != [] ==> St() == RemoveHead(old(St()), pl)
    {
      var l := At(St(), pl);
      if l == [] { return None; }
      head := Some(l[0]);
      lists := lists[pl := l[1..]];
    }

    // ---------- scheduler ----------

    /** _runqueue_push: clist_rpush, then the bit */
    method RunqueuePushAt(t: Pid, p: Priority)
      modifies this`lists, this`cache
      ensures St() == RunqueuePush(old(St()), t, p)
    {
      lists := lists[RunQueue(p) := At(St(), RunQueue(p)) + [t]];
      cache := SetBit(clz, cache, p);
    }

    /** _runqueue_pop: clist_remove, then the bit when the queue became empty */
    method RunqueuePopOff(t: Pid)
      requires t in threads
      modifies this`lists, this`cache
      ensures St() == RunqueuePop(old(St()), t)
    {
      var p := threads[t].priority;
      var l := Remove(At(St(), RunQueue(p)), t);
      lists := lists[RunQueue(p) := l];
      if l == [] { cache := ClearBit(clz, cache, p); }
    }

    /** sched_set_status */
    method SchedSetStatus(t: Pid, st: Status)
      requires t in threads
      modifies this`lists, this`cache, this`threads
      ensures St() == SetStatus(old(St()), t, st)
    {
      hide RunqueuePush, RunqueuePop;
      SectionFrame(St(), t);
      if OnRunqueue(st) {
        if !OnRunqueue(threads[t].status) { RunqueuePushAt(t, threads[t].priority); }
      } else {
        if OnRunqueue(threads[t].status) { RunqueuePopOff(t); }
      }
      threads := threads[t := threads[t].(status := st)];
    }

    /** bitarithm_lsb / bitarithm_msb: the loops that find the queue to run */
    method FirstQueue() returns (p: nat)
      ensures p == First(clz, cache)
    {
      if clz {
        var k := 31;
        while k > 0 && !cache[k]
          invariant 0 <= k <= 31 && Msb(cache, 31) == Msb(cache, k)
        {
          k := k - 1;
        }
        p := 31 - k;
      } else {
        var k := 0;
        while k < 31 && !cache[k]
          invariant 0 <= k <= 31 && Lsb(cache, 0) == Lsb(cache, k)
        {
          k := k + 1;
        }
        p := k;
      }
    }

    /** sched_run with a thread to run: the head of the most urgent queue runs, alone, and nobody
        runnable is more urgent. */
    method SchedRunNow()
      requires Inv(St()) && SomebodyReady(St())
      modifies this`threads, this`active
      ensures Inv(St()) && RunsMostUrgent(old(St()), St()) && KeepsTurns(old(St()), St())
      ensures var q := At(old(St()), RunQueue(First(clz, old(cache))));
              q != [] && q[0] in old(threads) && St() == SchedRun(old(St()))
    {
      RunEffect(St());
      RunSwitches(St());
      hide Inv, SomebodyReady, RunsMostUrgent, KeepsTurns, First, SchedRun, Switched;
      var nextrq := FirstQueue();
      SwitchTo(At(St(), RunQueue(nextrq))[0]);
    }

    /** The part of sched_run behind the choice of the next thread */
    method SwitchTo(next: Pid)
      requires next in threads
      modifies this`threads, this`active
      ensures St() == Switched(old(St()), next)
    {
      var previous := active;
      threads := threads[next := threads[next].(status := Running)];
      if previous != Some(next) {
        if previous.Some? && previous.value in threads {
          if threads[previous.value].status == Running {
            threads := threads[previous.value := threads[previous.value].(status := Pending)];
          }
        }
        active := Some(next);
      }
    }

    /** sched_change_priority up to its final yield: a runnable thread goes to the end of the queue
        of its new priority, and nobody else is affected. */
    method SchedChangePriority(t: Pid, p: Priority)
      requires Inv(St()) && t in threads && RiotRuns.Enabled(St(), SetPriority(t, p))
      modifies this`lists, this`cache, this`threads
      ensures Inv(St()) && threads == old(threads)[t := old(threads)[t].(priority := p)]
      ensures St() == ChangePriority(old(St()), t, p)
      ensures OnRunqueue(threads[t].status) && p != old(threads[t].priority) ==>
                && At(St(), RunQueue(p)) == At(old(St()), RunQueue(p)) + [t]
                && t !in At(St(), RunQueue(old(threads[t].priority)))
      ensures forall pl: Place :: pl != RunQueue(p) && pl != RunQueue(old(threads[t].priority)) ==>
                At(St(), pl) == At(old(St()), pl)
    {
      PriorityEffect(St(), t, p);
      hide Inv, RiotRuns.Enabled;
      hide RunqueuePush, RunqueuePop;
      SectionFrame(St(), t);
      if threads[t].priority == p { return; }
      if OnRunqueue(threads[t].status) {
        RunqueuePopOff(t);
        RunqueuePushAt(t, p);
      }
      threads := threads[t := threads[t].(priority := p)];
    }

    /** thread_yield by the first of the most urgent threads q: the next one of them runs, and the
        caller goes to the end of the queue. */
    method ThreadYield(me: Pid, ghost p: nat, ghost q: seq<Pid>)
      requires Turn(St(), p, q) && q[0] == me
      modifies this`lists, this`threads, this`active
      ensures Turn(St(), p, q[1..] + [me])
    {
      ghost var s := St();
      hide Turn, Inv, SomebodyReady;
      TurnFacts(s, p, q);
      AfterYield(s, p, q);
      TurnsAfter(s, p, q);
      Rotate(me);
      SchedRunNow();
    }

    /** The queue part of thread_yield: sched_runq_advance */
    method Rotate(me: Pid)
      requires me in threads
      modifies this`lists
      ensures St() == Advance(old(St()), me)
    {
      var p := threads[me].priority;
      if OnRunqueue(threads[me].status) {
        var l := At(St(), RunQueue(p));
        if l != [] { lists := lists[RunQueue(p) := l[1..] + [l[0]]]; }
      }
    }

    // ---------- mutex and condition variable ----------

    /** mutex_lock_internal up to its yield */
    method MutexLockInternal(me: Pid, m: nat, block: bool) returns (ok: bool)
      requires Inv(St()) && CanRun(St(), me)
      modifies this
      ensures Inv(St()) && (ok <==> block || m !in old(locked))
      ensures me in old(threads) && (St(), ok) == MutexLock(old(St()), me, m, block)
      ensures m in locked
      ensures if m in old(locked) && block
              then
                && At(St(), MutexQueue(m)) == Insert(Prio(old(St())), At(old(St()), MutexQueue(m)), me)
                && me in threads && threads[me].status == MutexBlocked
              else threads == old(threads) && lists == old(lists)
      ensures OthersSame(old(St()), St(), me, me)
      ensures forall pl: Place :: !pl.RunQueue? && pl != MutexQueue(m) ==> At(St(), pl) == At(old(St()), pl)
    {
      ghost var s := St();
      hide SetStatus, Inv, CanRun, Insert, OthersSame, Prio, OnRunqueue;
      LockEffect(s, me, m, block);
      if m !in locked {
        locked := locked + {m};
        return true;
      }
      if !block { return false; }
      StatusFrame(St(), me, MutexBlocked, MutexQueue(m));
      SchedSetStatus(me, MutexBlocked);
      ThreadAddToList(MutexQueue(m), me);
      return true;
    }

    /** mutex_unlock up to its yield: the first waiter gets the mutex and becomes runnable, and
        without waiters the mutex is free. */
    method MutexUnlockNow(m: nat)
      requires Inv(St())
      modifies this
      ensures Inv(St()) && PassedOn(old(St()), St(), m) && Handed(old(St()), St(), m)
      ensures St() == MutexUnlock(old(St()), m)
    {
      UnlockEffect(St(), m);
      hide SetStatus, Inv, Handed, PassedOn;
      if m !in locked { return; }
      if At(St(), MutexQueue(m)) == [] {
        locked := locked - {m};
        return;
      }
      var process := ListRemoveHead(MutexQueue(m));
      SchedSetStatus(process.value, Pending);
    }

    /** mutex_unlock_and_sleep up to its yield: the first waiter gets the mutex and becomes runnable,
        the caller sleeps, and nobody else is affected. */
    method MutexUnlockSleep(me: Pid, m: nat)
      requires Inv(St()) && CanRun(St(), me)
      modifies this
      ensures Inv(St()) && PassedOn(old(St()), St(), m) && HandedOthers(old(St()), St(), m, me)
      ensures (At(old(St()), MutexQueue(m)) != [] ==> At(old(St()), MutexQueue(m))[0] in old(threads))
      ensures me in old(threads) && St() == MutexUnlockAndSleep(old(St()), me, m)
      ensures me in threads && threads[me] == old(threads[me]).(status := Sleeping) && OnNoList(St(), me)
    {
      ghost var s := St();
      UnlockSleepEffect(s, me, m);
      hide SetStatus, MutexUnlock, Inv, CanRun, PassedOn, Handed, HandedOthers, OnNoList;
      UnlockFrame(s, m);
      if m in locked {
        MutexUnlockNow(m);
      } else {
        UnlockedAlready(s, m);
      }
      SchedSetStatus(me, Sleeping);
    }

    /** cond_wait up to its yield: the first waiter gets the mutex and becomes runnable, the caller
        waits on the condition behind all at least as urgent, and nobody else is affected. */
    method CondWaitOn(me: Pid, c: nat, m: nat)
      requires Inv(St()) && CanRun(St(), me)
      modifies this
      ensures Inv(St()) && PassedOn(old(St()), St(), m) && HandedOthers(old(St()), St(), m, me)
      ensures (At(old(St()), MutexQueue(m)) != [] ==> At(old(St()), MutexQueue(m))[0] in old(threads))
      ensures me in old(threads) && St() == CondWait(old(St()), me, c, m)
      ensures me in threads && threads[me] == old(threads[me]).(status := CondBlocked)
      ensures At(St(), CondQueue(c)) == Insert(Prio(old(St())), At(old(St()), CondQueue(c)), me)
    {
      ghost var s := St();
      CondWaitEffect(s, me, c, m);
      hide SetStatus, MutexUnlock, Inv, CanRun, PassedOn, Handed, HandedOthers;
      UnlockFrame(St(), m);
      UnlockPlaces(St(), m, CondQueue(c));
      MutexUnlockNow(m);
      StatusFrame(St(), me, CondBlocked, CondQueue(c));
      SchedSetStatus(me, CondBlocked);
      ThreadAddToList(CondQueue(c), me);
    }

    /** _cond_signal: one waiter, or all of them */
    method CondSignalNow(c: nat, broadcast: bool)
      requires Inv(St())
      modifies this
      ensures Inv(St()) && Signalled(old(St()), St(), c, broadcast)
      ensures forall t :: t in At(old(St()), CondQueue(c)) ==> t in old(St()).threads
      ensures St() == CondSignal(old(St()), c, broadcast)
    {
      SignalEffect(St(), c, broadcast);
      hide SetStatus, Inv, Signalled;
      ghost var goal := CondSignal(St(), c, broadcast);
      var next := Some(0);
      while next.Some?
        invariant forall t :: t in At(St(), CondQueue(c)) ==> t in threads
        invariant next.Some? ==> CondSignal(St(), c, broadcast) == goal
        invariant next.None? ==> St() == goal
        decreases if next.Some? then 1 + |At(St(), CondQueue(c))| else 0
      {
        ghost var before := St();
        SignalTurn(before, c, broadcast);
        next := ListRemoveHead(CondQueue(c));
        if next.None? { return; }
        assert next.value in At(before, CondQueue(c));
        SchedSetStatus(next.value, Pending);
        WokenList(before, CondQueue(c));
        if !broadcast { return; }
      }
    }

    // ---------- thread flags ----------

    /** thread_flags_set_internal with _thread_flags_wake: the flags are set, and the answer tells the
        caller whether that made a waiting thread runnable, which is when it has to yield. */
    method FlagsSetInternal(t: Pid, mask: Flags) returns (woken: bool)
      requires t in threads
      modifies this`threads, this`lists, this`cache
      ensures St() == FlagsSet(old(St()), t, mask)
      ensures FlagsRaised(old(St()), St(), t, mask, woken)
    {
      SetEffect(St(), t, mask);
      hide SetStatus, FlagsRaised;
      threads := threads[t := threads[t].(flags := threads[t].flags + mask)];
      var c := threads[t];
      woken := c.waitData.Mask?
               && ((c.status == FlagBlockedAny && c.flags * c.waitData.mask != {})
                   || (c.status == FlagBlockedAll && c.flags * c.waitData.mask == c.waitData.mask));
      assert woken == FlagsSatisfied(c) by {
        assert c.waitData.Mask? ==> (c.flags * c.waitData.mask == c.waitData.mask <==> c.waitData.mask <= c.flags);
      }
      if woken { SchedSetStatus(t, Pending); }
    }

    /** The part of the wait functions before the flags are taken, up to the yield: the wait is
        answered already, or the thread blocks with its mask noted. */
    method FlagsWaitFor(me: Pid, mask: Flags, all: bool)
      requires Inv(St()) && CanRun(St(), me)
      modifies this`threads, this`lists, this`cache
      ensures Inv(St()) && me in threads && Promised(threads[me], mask, all)
      ensures me in old(threads) && St() == FlagsWait(old(St()), me, mask, all)
      ensures forall t :: Watch(old(St()), St(), t)
      ensures OthersSame(old(St()), St(), me, me) && SameBut(old(St()), St(), None)
    {
      hide SetStatus, Inv, CanRun, Watch, Promised, OthersSame, SameBut, At, OnRunqueue;
      WaitEffect(St(), me, mask, all);
      var c := threads[me];
      assert c.flags * mask == mask <==> mask <= c.flags;
      var present := if all then c.flags * mask == mask else c.flags * mask != {};
      if !present {
        threads := threads[me := c.(waitData := Mask(mask))];
        SchedSetStatus(me, if all then FlagBlockedAll else FlagBlockedAny);
      }
    }

    /** _thread_flags_clear_atomic: what is returned was set and in the mask, is set no longer, and
        what stays set was set or not in the mask; nobody else notices. */
    method FlagsClearAtomic(me: Pid, mask: Flags) returns (taken: Flags)
      requires Inv(St()) && CanRun(St(), me)
      modifies this`threads
      ensures Inv(St()) && me in threads
      ensures me in old(threads) && (St(), taken) == FlagsTake(old(St()), me, mask)
      ensures forall b :: b in taken <==> b in mask && b in old(threads[me].flags)
      ensures threads[me].flags + taken == old(threads[me].flags) && threads[me].flags * mask == {}
      ensures forall t :: t != me ==> Watch(old(St()), St(), t)
      ensures forall t :: SameMailOf(old(St()), St(), t)
    {
      ClearEffect(St(), me, mask);
      hide Inv, CanRun, Watch, SameMailOf;
      var c := threads[me];
      taken := mask * c.flags;
      threads := threads[me := c.(flags := c.flags - taken)];
      assert c.flags - taken == c.flags - mask;
    }

    // ---------- messages ----------

    /** queue_msg */
    method QueueMessage(t: Pid, m: Msg) returns (queued: bool)
      requires t in threads
      modifies this`threads, this`lists, this`cache
      ensures (St(), queued) == QueueMsg(old(St()), t, m)
    {
      hide FlagsSet;
      var c := threads[t];
      if |c.queue| >= c.capacity { return false; }
      threads := threads[t := c.(queue := c.queue + [m])];
      var woken := FlagsSetInternal(t, MSG_WAITING);
      return true;
    }

    /** The direct copy to a thread that waits in msg_receive */
    method CopyDirectly(target: Pid, m: Msg)
      requires target in threads
      modifies this`threads, this`lists, this`cache
      ensures St() == DirectCopy(old(St()), target, m)
      ensures old(Inv(St())) && old(threads[target].status) == ReceiveBlocked ==> HandedTo(old(St()), St(), target, m)
    {
      hide SetStatus, Inv, HandedTo;
      if Inv(St()) && threads[target].status == ReceiveBlocked { DirectHands(St(), target, m); }
      threads := threads[target := threads[target].(received := threads[target].received + [m])];
      SchedSetStatus(target, Pending);
    }

    /** The branch of _msg_send in which the sender goes to wait: it stops, behind all waiting senders
        at least as urgent, and its message is pending at that place. */
    method WaitToSend(me: Pid, target: Pid, m: Msg)
      requires me in threads && target in threads && target != me
      requires forall u :: u in At(St(), MsgWaiters(target)) ==> u in threads
      modifies this
      ensures var st := if old(threads)[me].status == ReplyBlocked then ReplyBlocked else SendBlocked;
              var s3 := SenderQueued(old(St()), me, target, m, st);
              target in s3.threads && St() == FlagsSet(s3, target, MSG_WAITING)
      ensures me in threads && threads[me].waitData == Message(m) && !OnRunqueue(threads[me].status)
      ensures At(St(), MsgWaiters(target)) == Insert(Prio(old(St())), At(old(St()), MsgWaiters(target)), me)
      ensures old(NotSending(St(), me)) ==>
                Refines(old(St()), St(), target, JoinAt(WaitIndex(old(St()), target, old(threads[me]).priority), m))
    {
      ghost var s := St();
      hide SenderQueued, FlagsSet, Insert, Refines, WaitIndex, NotSending, Inv, Awaits, MSG_WAITING;
      var newStatus := if threads[me].status == ReplyBlocked then ReplyBlocked else SendBlocked;
      WaitToSendEffect(s, me, target, m);
      JoinSenders(me, target, m, newStatus);
      var woken := FlagsSetInternal(target, MSG_WAITING);
    }

    /** The sender notes its message, leaves the run queue and joins the list of senders. */
    method JoinSenders(me: Pid, target: Pid, m: Msg, newStatus: Status)
      requires me in threads && forall u :: u in At(St(), MsgWaiters(target)) ==> u in threads
      modifies this
      ensures St() == SenderQueued(old(St()), me, target, m, newStatus)
    {
      hide SetStatus;
      threads := threads[me := threads[me].(waitData := Message(m))];
      assert forall pl: Place :: At(St(), pl) == At(old(St()), pl);
      StatusFrame(St(), me, newStatus, MsgWaiters(target));
      SchedSetStatus(me, newStatus);
      ThreadAddToList(MsgWaiters(target), me);
    }

    /** _msg_send up to its yield */
    method MsgSendFrom(me: Pid, target: Pid, m0: Msg, block: bool) returns (ret: int)
      requires Inv(St()) && CanRun(St(), me) && target != me
      modifies this
      ensures Inv(St()) && (ret == -1 <==> target !in old(threads))
      ensures ret == 1 <==> SendEffect(old(St()), target, old(threads[me].priority), m0.(sender := me), block) != Unchanged
      ensures forall t :: Refines(old(St()), St(), t, EffectOn(old(St()), Send(me, target, m0, block), t))
      ensures (St(), ret) == MsgSend(old(St()), me, target, m0, block)
      ensures SendOutcome(old(St()), St(), me, target, m0.(sender := me), block, ret)
    {
      SendEffects(St(), me, target, m0, block);
      SendDoes(St(), me, target, m0, block);
      hide Inv, CanRun, Refines, SendEffect, EffectOn, SendOutcome, HandedTo;
      hide SetStatus, FlagsSet, QueueMsg, DirectCopy, AddToList;
      var m := m0.(sender := me);
      if target !in threads { return -1; }
      if threads[target].status != ReceiveBlocked {
        NotQueued(St(), target, m);
        var queued := QueueMessage(target, m);
        if queued { return 1; }
        if !block { return 0; }
        WaitToSend(me, target, m);
      } else {
        CopyDirectly(target, m);
      }
      return 1;
    }

    /** msg_send_int: _msg_send_oneway. The message is handed over or joins the end, or the queue is
        full and nothing happens. */
    method MsgSendOneway(target: Pid, m0: Msg) returns (ret: int)
      requires Inv(St())
      modifies this
      ensures Inv(St()) && (ret == -1 <==> target !in old(threads))
      ensures (St(), ret) == MsgSendInt(old(St()), target, m0)
      ensures ret == 1 <==> SendEffect(old(St()), target, 0, m0.(sender := PID_ISR), false) != Unchanged
      ensures forall t :: Refines(old(St()), St(), t, EffectOn(old(St()), SendInt(target, m0), t))
      ensures SendOutcome(old(St()), St(), PID_ISR, target, m0.(sender := PID_ISR), false, ret)
    {
      OnewayEffects(St(), target, m0);
      SendIntDoes(St(), target, m0);
      hide QueueMsg, DirectCopy, Inv, Refines, SendEffect, EffectOn, HandedTo, QueuedAt;
      var m := m0.(sender := PID_ISR);
      if target !in threads { return -1; }
      if threads[target].status == ReceiveBlocked {
        CopyDirectly(target, m);
        return 1;
      }
      var queued := QueueMessage(target, m);
      ret := if queued then 1 else 0;
    }

    /** msg_send_receive up to the wait for the reply */
    method MsgSendAndReceive(me: Pid, target: Pid, m: Msg) returns (ret: int)
      requires Inv(St()) && CanRun(St(), me) && target != me
      modifies this
      ensures Inv(St()) && (ret == 1 <==> target in old(threads)) && (ret == -1 <==> target !in old(threads))
      ensures me in old(threads) && (St(), ret) == MsgSendReceive(old(St()), me, target, m)
      ensures forall t :: Refines(old(St()), St(), t, EffectOn(old(St()), SendReceive(me, target, m), t))
      ensures me in old(threads) && RequestOutcome(old(St()), St(), me, target, m.(sender := me), m, ret)
    {
      SendReceiveEffects(St(), me, target, m);
      SendReceiveDoes(St(), me, target, m);
      AwaitReplyKeeps(St(), me, m);
      AwaitReplyRuns(St(), me, m);
      hide SetStatus, MsgSend, Inv, Refines, SendEffect, EffectOn, OnNoList, RequestOutcome, SendOutcome;
      SchedSetStatus(me, ReplyBlocked);
      threads := threads[me := threads[me].(waitData := Message(m))];
      ret := MsgSendFrom(me, target, m, true);
    }

    /** msg_reply to an existing thread, up to its yield: a thread that awaits a reply gets it and
        becomes runnable, for any other -1 is returned and nothing happens. */
    method MsgReplyTo(target: Pid, reply: Msg) returns (ret: int)
      requires Inv(St()) && target in threads && NotSending(St(), target)
      modifies this
      ensures Inv(St()) && target in threads
      ensures (St(), ret) == MsgReply(old(St()), target, reply)
      ensures if old(threads[target].status) == ReplyBlocked
              then
                && ret == 1 && threads[target].replies == old(threads[target].replies) + [reply]
                && threads[target].status == Pending && target in At(St(), RunQueue(threads[target].priority))
              else ret == -1 && St() == old(St())
      ensures forall t :: SameMailOf(old(St()), St(), t)
      ensures OthersSame(old(St()), St(), target, target) && SameBut(old(St()), St(), None)
    {
      ReplyEffects(St(), target, reply);
      ReplyDoes(St(), target, reply);
      SameAsItself(St(), target);
      hide SetStatus, Inv, SameMailOf, NotSending, OthersSame, SameBut;
      if threads[target].status != ReplyBlocked { return -1; }
      threads := threads[target := threads[target].(replies := threads[target].replies + [reply])];
      SchedSetStatus(target, Pending);
      return 1;
    }

    /** Release the sender whose message was taken */
    method ReleaseWaiter(w: Pid)
      requires w in threads
      modifies this`threads, this`lists, this`cache
      ensures St() == ReleaseSender(old(St()), w)
    {
      hide SetStatus;
      if threads[w].status != ReplyBlocked {
        threads := threads[w := threads[w].(waitData := Nothing)];
        SchedSetStatus(w, Pending);
      }
    }

    /** _msg_receive up to its yield */
    method MsgReceiveBy(me: Pid, block: bool) returns (ret: int)
      requires Inv(St()) && CanRun(St(), me)
      modifies this
      ensures Inv(St()) && (ret == -1 <==> !block && Backlog(old(St()), me) == [])
      ensures me in old(threads)
      ensures At(old(St()), MsgWaiters(me)) != [] ==>
                At(old(St()), MsgWaiters(me))[0] in old(threads) && At(old(St()), MsgWaiters(me))[0] != me
      ensures (St(), ret) == MsgReceive(old(St()), me, block)
      ensures forall t :: Refines(old(St()), St(), t, EffectOn(old(St()), Receive(me, block), t))
      ensures me in old(threads) && ReceiveOutcome(old(St()), St(), me, block, ret)
    {
      hide SetStatus, ReleaseSender, Inv, CanRun, Refines, EffectOn, Backlog, ReceiveOutcome, OnRunqueue, Prio;
      ReceiveEffects(St(), me, block);
      ReceiveDoes(St(), me, block);
      var c := threads[me];
      var fromQueue := c.queue != [];
      if !block && At(St(), MsgWaiters(me)) == [] && !fromQueue { return -1; }
      var next := ListRemoveHead(MsgWaiters(me));
      if next.None? {
        if !fromQueue {
          threads := threads[me := c.(waitData := Destination)];
          SchedSetStatus(me, ReceiveBlocked);
        } else {
          threads := threads[me := c.(received := c.received + [c.queue[0]], queue := c.queue[1..])];
        }
        return 1;
      }
      var m := SentBy(threads[next.value]);
      if fromQueue {
        threads := threads[me := c.(received := c.received + [c.queue[0]], queue := c.queue[1..] + [m])];
      } else {
        threads := threads[me := c.(received := c.received + [m], waitData := Destination)];
      }
      ReleaseWaiter(next.value);
      return 1;
    }

    // ---------- threads ----------

    /** thread_wakeup up to its yield: exactly a sleeping thread becomes runnable. */
    method ThreadWakeupNow(t: Pid) returns (woken: bool)
      requires Inv(St())
      modifies this
      ensures Inv(St()) && (woken <==> t in old(threads) && old(threads)[t].status == Sleeping)
      ensures St() == ThreadWakeup(old(St()), t)
      ensures woken ==> t in threads && threads[t] == old(threads)[t].(status := Pending)
                        && t in At(St(), RunQueue(threads[t].priority))
      ensures !woken ==> St() == old(St())
      ensures forall u :: u != t && u in old(threads) ==> u in threads && threads[u] == old(threads)[u]
    {
      WakeupEffects(St(), t);
      hide SetStatus, Inv;
      if t in threads && threads[t].status == Sleeping {
        SchedSetStatus(t, Pending);
        return true;
      }
      return false;
    }

    /** The pid search of thread_create */
    method FirstFree() returns (pid: Option<Pid>)
      ensures pid == FreePid(St(), PID_FIRST)
    {
      var i := PID_FIRST;
      while i <= PID_LAST && i in threads
        invariant PID_FIRST <= i <= PID_LAST + 1
        invariant FreePid(St(), PID_FIRST) == FreePid(St(), i)
      {
        i := i + 1;
      }
      return if i > PID_LAST then None else Some(i);
    }

    /** thread_create up to its yield: the pid is the first free one */
    method ThreadCreateNow(p: Priority, sleeping: bool, flags: Flags) returns (pid: Option<Pid>)
      requires Inv(St())
      modifies this
      ensures Inv(St()) && NewThread(old(St()), St(), pid, p, sleeping, flags)
      ensures (St(), pid) == ThreadCreate(old(St()), p, sleeping, flags)
    {
      CreateEffects(St(), p, sleeping, flags);
      hide SetStatus, Inv, NewThread;
      pid := FirstFree();
      if pid.None? { return; }
      var i := pid.value;
      threads := threads[i := Thread(p, Stopped, flags, Nothing, [], 0, [], [])];
      SchedSetStatus(i, if sleeping then Sleeping else Pending);
      return Some(i);
    }
  }

  // ---------- what a call means for the threads ----------

  lemma SameAsItself(s: Sys, t: Pid)
    ensures OthersSame(s, s, t, t) && SameBut(s, s, None)
  {
  }

  /** The most urgent runnable threads are q. */
  ghost predicate Turns(s: Sys, p: nat, q: seq<Pid>) {
    Inv(s) && SomebodyReady(s) && First(s.clz, s.cache) == p && At(s, RunQueue(p)) == q
  }

  /** The first of the most urgent threads runs. */
  ghost predicate KeepsTurns(s: Sys, r: Sys) {
    forall p, q :: Turns(s, p, q) ==> Turn(r, p, q)
  }

  lemma TurnsAfter(s: Sys, p: nat, q: seq<Pid>)
    requires Turn(s, p, q)
    ensures q[0] in s.threads && Turns(Advance(s, q[0]), p, q[1..] + [q[0]])
  {
    AfterYield(s, p, q);
    hide Inv, SomebodyReady, First, Advance;
  }

  /** next runs, and the thread that ran before is set back. */
  function Switched(s: Sys, next: Pid): Sys
    requires next in s.threads
  {
    var s1 := WithThread(s, next, s.threads[next].(status := Running));
    if s.active == Some(next) then s1
    else
      var s2 :=
        if s.active.Some? && s.active.value in s1.threads && s1.threads[s.active.value].status == Running
        then WithThread(s1, s.active.value, s1.threads[s.active.value].(status := Pending))
        else s1;
      s2.(active := Some(next))
  }

  lemma RunSwitches(s: Sys)
    requires var q := At(s, RunQueue(First(s.clz, s.cache))); q != [] && q[0] in s.threads
    ensures SchedRun(s) == Switched(s, At(s, RunQueue(First(s.clz, s.cache)))[0])
  {
    hide First;
  }

  /** The head of the most urgent queue of s runs in r, alone, and nobody runnable is more urgent;
      queues and cache are as before. */
  ghost predicate RunsMostUrgent(s: Sys, r: Sys) {
    var q := At(s, RunQueue(First(s.clz, s.cache)));
    && q != [] && q[0] in r.threads && r.active == Some(q[0])
    && r.threads.Keys == s.threads.Keys && r.lists == s.lists && r.cache == s.cache
    && (forall t :: t in r.threads ==> (r.threads[t].status == Running <==> r.active == Some(t)))
    && (forall t :: t in r.threads && OnRunqueue(r.threads[t].status) ==>
          r.threads[q[0]].priority <= r.threads[t].priority)
  }

  lemma RunEffect(s: Sys)
    requires Inv(s) && SomebodyReady(s)
    ensures var q := At(s, RunQueue(First(s.clz, s.cache))); q != [] && q[0] in s.threads
    ensures Inv(SchedRun(s)) && RunsMostUrgent(s, SchedRun(s))
    ensures KeepsTurns(s, SchedRun(s))
  {
    hide ListsOk, MessagesOk, FlagsOk, MutexesOk, SomebodyReady, First, SchedRun, Turn;
    NextExists(s);
    SchedRunPicks(s);
    SchedRunShape(s);
    SameCache(s);
    forall p, l | Turns(s, p, l) ensures Turn(SchedRun(s), p, l) { AfterSchedule(s, p, l); }
  }

  lemma PriorityEffect(s: Sys, t: Pid, p: Priority)
    requires Inv(s) && t in s.threads && RiotRuns.Enabled(s, SetPriority(t, p))
    ensures var r := ChangePriority(s, t, p); var before := s.threads[t].priority;
            && Inv(r) && r.threads == s.threads[t := s.threads[t].(priority := p)]
            && (OnRunqueue(s.threads[t].status) && p != before ==>
                  At(r, RunQueue(p)) == At(s, RunQueue(p)) + [t] && t !in At(r, RunQueue(before)))
            && (forall pl: Place :: pl != RunQueue(p) && pl != RunQueue(before) ==> At(r, pl) == At(s, pl))
  {
    hide ListsOk, Rest, ChangePriority, Remove;
    ChangePriorityLists(s, t, p);
    ChangePriorityRest(s, t, p);
    ListsSeparate(s);
    PriorityPlaces(s, t, p);
  }

  lemma PriorityPlaces(s: Sys, t: Pid, p: Priority)
    requires t in s.threads && Distinct(At(s, RunQueue(s.threads[t].priority)))
    ensures var r := ChangePriority(s, t, p); var before := s.threads[t].priority;
            && r.threads == s.threads[t := s.threads[t].(priority := p)]
            && (OnRunqueue(s.threads[t].status) && p != before ==>
                  At(r, RunQueue(p)) == At(s, RunQueue(p)) + [t] && t !in At(r, RunQueue(before)))
            && (forall pl: Place :: pl != RunQueue(p) && pl != RunQueue(before) ==> At(r, pl) == At(s, pl))
  {
    hide Remove, Distinct, SetBit, ClearBit;
    RemoveElements(At(s, RunQueue(s.threads[t].priority)), t);
  }

  lemma LockEffect(s: Sys, me: Pid, m: nat, block: bool)
    requires Inv(s) && CanRun(s, me)
    ensures var (r, ok) := MutexLock(s, me, m, block);
            && Inv(r) && (ok <==> block || m !in s.locked) && m in r.locked
            && (if m in s.locked && block
                then
                  && At(r, MutexQueue(m)) == Insert(Prio(s), At(s, MutexQueue(m)), me)
                  && me in r.threads && r.threads[me].status == MutexBlocked
                else r.threads == s.threads && r.lists == s.lists)
            && OthersSame(s, r, me, me)
            && (forall pl: Place :: !pl.RunQueue? && pl != MutexQueue(m) ==> At(r, pl) == At(s, pl))
    ensures me in s.threads && forall u :: u in At(s, MutexQueue(m)) ==> u in s.threads
  {
    hide ListsOk, Rest, SetStatus, Insert, OnNoList;
    LockDoes(s, me, m, block);
    SameAsItself(s, me);
    LockShape(s, me, m, block);
    SetStatusShape(s, me, MutexBlocked);
    MembersExist(s, MutexQueue(m));
  }

  lemma MembersExist(s: Sys, pl: Place)
    requires Inv(s)
    ensures forall u :: u in At(s, pl) ==> u in s.threads
  {
    forall u | u in At(s, pl) ensures u in s.threads { MemberStatus(s, pl, u); }
  }

  /** The first waiter, if there is one, became runnable; nothing else changed for any thread. */
  ghost predicate Handed(s: Sys, r: Sys, m: nat) {
    var l := At(s, MutexQueue(m));
    if m !in s.locked || l == [] then r.threads == s.threads
    else l[0] in s.threads && r.threads == s.threads[l[0] := s.threads[l[0]].(status := Pending)]
         && l[0] in At(r, RunQueue(s.threads[l[0]].priority))
  }

  /** Once runnable, a thread is on its run queue. */
  lemma PendingQueued(r: Sys, t: Pid)
    requires Inv(r) && t in r.threads && r.threads[t].status == Pending
    ensures t in At(r, RunQueue(r.threads[t].priority))
  {
    RunQueueMembers(r, t, r.threads[t].priority);
  }

  lemma UnlockEffect(s: Sys, m: nat)
    requires Inv(s)
    ensures At(s, MutexQueue(m)) != [] ==> At(s, MutexQueue(m))[0] in s.threads
    ensures var r := MutexUnlock(s, m); Inv(r) && PassedOn(s, r, m) && Handed(s, r, m)
  {
    MutexUnlockKeeps(s, m);
    hide Inv;
    if m in s.locked {
      UnlockPassesOn(s, m);
      if At(s, MutexQueue(m)) != [] {
        SetStatusShape(RemoveHead(s, MutexQueue(m)), At(s, MutexQueue(m))[0], Pending);
        PendingQueued(MutexUnlock(s, m), At(s, MutexQueue(m))[0]);
      }
    } else {
      UnlockedAlready(s, m);
      FreeHasNoWaiters(s, m);
    }
    hide SetStatus;
  }

  lemma FreeHasNoWaiters(s: Sys, m: nat)
    requires Inv(s) && m !in s.locked
    ensures At(s, MutexQueue(m)) == []
  {
  }

  /** The same for all threads but the caller, which went on to sleep or wait */
  ghost predicate HandedOthers(s: Sys, r: Sys, m: nat, me: Pid) {
    var l := At(s, MutexQueue(m));
    forall t :: t in s.threads && t != me ==>
      && t in r.threads
      && if m in s.locked && l != [] && t == l[0]
         then r.threads[t] == s.threads[t].(status := Pending) && t in At(r, RunQueue(s.threads[t].priority))
         else r.threads[t] == s.threads[t]
  }

  lemma HandedButMe(s: Sys, q: Sys, r: Sys, m: nat, me: Pid, c: Thread)
    requires Inv(r) && Handed(s, q, m) && r.threads == q.threads[me := c]
    ensures HandedOthers(s, r, m, me)
  {
    hide Inv;
    var l := At(s, MutexQueue(m));
    if m in s.locked && l != [] && l[0] != me { PendingQueued(r, l[0]); }
  }

  /** The caller of an unlock is not one of those it wakes. */
  lemma UnlockSparesCaller(s: Sys, m: nat, me: Pid)
    requires Inv(s) && CanRun(s, me)
    ensures me in s.threads && (At(s, MutexQueue(m)) != [] ==> At(s, MutexQueue(m))[0] in s.threads)
    ensures Handed(s, MutexUnlock(s, m), m)
    ensures me in MutexUnlock(s, m).threads && MutexUnlock(s, m).threads[me] == s.threads[me]
  {
    hide ListsOk, Rest, PassedOn, MutexUnlock, OnNoList;
    UnlockEffect(s, m);
    var l := At(s, MutexQueue(m));
    if l != [] { MemberStatus(s, MutexQueue(m), l[0]); }
  }

  lemma UnlockSleepEffect(s: Sys, me: Pid, m: nat)
    requires Inv(s) && CanRun(s, me)
    ensures me in s.threads && (At(s, MutexQueue(m)) != [] ==> At(s, MutexQueue(m))[0] in s.threads)
    ensures var r := MutexUnlockAndSleep(s, me, m);
            && Inv(r) && PassedOn(s, r, m) && HandedOthers(s, r, m, me)
            && me in r.threads && r.threads[me] == s.threads[me].(status := Sleeping) && OnNoList(r, me)
  {
    hide SetStatus, MutexUnlock, PassedOn, Rest, Sound, Handed, HandedOthers;
    UnlockAndSleepKeeps(s, me, m);
    InvIsSound(s);
    var a := UnlockAndSleep(me, m);
    ReleasePassesOn(s, a, m);
    UnlockSparesCaller(s, m, me);
    SetStatusShape(MutexUnlock(s, m), me, Sleeping);
    var r := MutexUnlockAndSleep(s, me, m);
    UnlistedStatus(r, me);
    HandedButMe(s, MutexUnlock(s, m), r, m, me, r.threads[me]);
  }

  lemma CondWaitEffect(s: Sys, me: Pid, c: nat, m: nat)
    requires Inv(s) && CanRun(s, me)
    ensures me in s.threads && (At(s, MutexQueue(m)) != [] ==> At(s, MutexQueue(m))[0] in s.threads)
    ensures forall u :: u in At(s, CondQueue(c)) ==> u in s.threads
    ensures var r := CondWait(s, me, c, m);
            && Inv(r) && PassedOn(s, r, m) && HandedOthers(s, r, m, me)
            && me in r.threads && r.threads[me] == s.threads[me].(status := CondBlocked)
            && At(r, CondQueue(c)) == Insert(Prio(s), At(s, CondQueue(c)), me)
  {
    hide Inv, MutexUnlock, PassedOn, Sound, Handed, HandedOthers;
    CondWaitKeeps(s, me, c, m);
    InvIsSound(s);
    ReleasePassesOn(s, WaitCond(me, c, m), m);
    UnlockSparesCaller(s, m, me);
    MembersExist(s, CondQueue(c));
    hide CanRun;
    var q := MutexUnlock(s, m);
    JoinedCond(q, me, c);
    UnlockPlaces(s, m, CondQueue(c));
    UnlockPriorities(s, m);
    SameInsert(Prio(s), Prio(q), At(s, CondQueue(c)), me);
    HandedButMe(s, q, CondWait(s, me, c, m), m, me, s.threads[me].(status := CondBlocked));
  }

  lemma UnlockPriorities(s: Sys, m: nat)
    requires At(s, MutexQueue(m)) != [] ==> At(s, MutexQueue(m))[0] in s.threads
    ensures forall t :: Prio(MutexUnlock(s, m))(t) == Prio(s)(t)
  {
  }

  lemma SameInsert(p: nat -> nat, q: nat -> nat, l: seq<nat>, t: nat)
    requires forall u :: p(u) == q(u)
    ensures Insert(p, l, t) == Insert(q, l, t)
  {
    SamePosition(p, q, l, p(t));
  }

  lemma JoinedCond(s: Sys, me: Pid, c: nat)
    requires me in s.threads
    ensures var r := AddToList(SetStatus(s, me, CondBlocked), CondQueue(c), me);
            && r.threads == s.threads[me := s.threads[me].(status := CondBlocked)]
            && At(r, CondQueue(c)) == Insert(Prio(s), At(s, CondQueue(c)), me)
  {
    SetStatusShape(s, me, CondBlocked);
    var q := SetStatus(s, me, CondBlocked);
    hide SetStatus;
    SameInsert(Prio(q), Prio(s), At(s, CondQueue(c)), me);
  }

  /** Who still waits after a signal or a broadcast */
  function Unsignalled(l: seq<Pid>, broadcast: bool): seq<Pid> {
    if l == [] || broadcast then [] else l[1..]
  }

  /** Exactly the waiters that left the list became runnable; the others are as they were. */
  ghost predicate Signalled(s: Sys, r: Sys, c: nat, broadcast: bool) {
    && At(r, CondQueue(c)) == Unsignalled(At(s, CondQueue(c)), broadcast)
    && r.threads.Keys == s.threads.Keys
    && (forall t :: t in s.threads ==>
          r.threads[t] == if t in At(s, CondQueue(c)) && t !in At(r, CondQueue(c))
                          then s.threads[t].(status := Pending) else s.threads[t])
  }

  /** One waiter was woken. */
  lemma OneSignalled(s: Sys, c: nat)
    requires Inv(s) && At(s, CondQueue(c)) != []
    ensures var l := At(s, CondQueue(c));
            && l[0] in s.threads && Inv(WakeHead(s, CondQueue(c))) && Signalled(s, WakeHead(s, CondQueue(c)), c, false)
  {
    hide ListsOk, Rest, SetStatus, RemoveHead;
    WakeHeadKeeps(s, CondQueue(c));
    ListsSeparate(s);
    var l := At(s, CondQueue(c));
    assert l == [l[0]] + l[1..] && Distinct(l);
    WokenList(s, CondQueue(c));
    WokenThreads(s, CondQueue(c));
  }

  lemma WokenThreads(s: Sys, pl: Place)
    requires At(s, pl) != [] && At(s, pl)[0] in s.threads
    ensures WakeHead(s, pl).threads == s.threads[At(s, pl)[0] := s.threads[At(s, pl)[0]].(status := Pending)]
  {
    SetStatusShape(RemoveHead(s, pl), At(s, pl)[0], Pending);
    hide SetStatus;
  }

  /** One waiter was woken, then all the others. */
  lemma SignalledOn(s: Sys, q: Sys, r: Sys, c: nat)
    requires Signalled(s, q, c, false) && Signalled(q, r, c, true)
    ensures Signalled(s, r, c, true)
  {
    forall t | t in s.threads && t in At(q, CondQueue(c)) ensures t in At(s, CondQueue(c)) { }
  }

  lemma {:induction false} SignalEffect(s: Sys, c: nat, broadcast: bool)
    requires Inv(s)
    ensures forall t :: t in At(s, CondQueue(c)) ==> t in s.threads
    ensures var r := CondSignal(s, c, broadcast); Inv(r) && Signalled(s, r, c, broadcast)
    decreases |At(s, CondQueue(c))|
  {
    CondSignalKeeps(s, c, broadcast);
    var l := At(s, CondQueue(c));
    if l != [] {
      hide Inv, WakeHead;
      assert l[0] in l;
      OneSignalled(s, c);
      if broadcast {
        var q := WakeHead(s, CondQueue(c));
        WokenFewer(s, q, c);
        SignalEffect(q, c, broadcast);
        hide Signalled;
        SignalledOn(s, q, CondSignal(q, c, broadcast), c);
      }
    }
  }

  lemma WokenFewer(s: Sys, q: Sys, c: nat)
    requires Signalled(s, q, c, false) && At(s, CondQueue(c)) != []
    ensures |At(q, CondQueue(c))| < |At(s, CondQueue(c))|
  {
  }

  /** The flags of t are set, and woken says whether that made it runnable; nobody else changed. */
  ghost predicate FlagsRaised(s: Sys, r: Sys, t: Pid, mask: Flags, woken: bool) {
    && t in s.threads && t in r.threads && OthersSame(s, r, t, t) && SameBut(s, r, None)
    && r.threads[t] == s.threads[t].(flags := s.threads[t].flags + mask,
                                     status := if woken then Pending else s.threads[t].status)
    && (woken <==> Awaits(s.threads[t]) && OnRunqueue(r.threads[t].status))
    && (Inv(s) ==> Inv(r) && (woken ==> Ready(r, t)))
  }

  lemma SetEffect(s: Sys, t: Pid, mask: Flags)
    requires t in s.threads
    ensures FlagsRaised(s, FlagsSet(s, t, mask), t, mask, FlagsSatisfied(s.threads[t].(flags := s.threads[t].flags + mask)))
  {
    hide Inv, FlagsSet, At;
    FlagsSetShape(s, t, mask);
    if Inv(s) {
      FlagsSetKeeps(s, t, mask);
      if FlagsSet(s, t, mask).threads[t].status == Pending { PendingIsReady(FlagsSet(s, t, mask), t); }
    }
  }

  lemma WaitEffect(s: Sys, me: Pid, mask: Flags, all: bool)
    requires Inv(s) && CanRun(s, me)
    ensures me in s.threads
    ensures var r := FlagsWait(s, me, mask, all);
            && Inv(r) && me in r.threads && Promised(r.threads[me], mask, all)
            && (forall t :: Watch(s, r, t)) && OthersSame(s, r, me, me) && SameBut(s, r, None)
  {
    hide Inv, SetStatus, Watch, Promised, OnNoList;
    FlagsWaitDoes(s, me, mask, all);
    SameAsItself(s, me);
    WaitPromises(s, me, mask, all);
    hide FlagsWait;
    forall t ensures Watch(s, FlagsWait(s, me, mask, all), t) {
      if t == me { OwnWaitWatched(s, me, mask, all); } else { WatchWaitFlags(s, me, mask, all, t); }
    }
  }

  /** A running thread has not been promised anything by an earlier wait but what is answered. */
  lemma OwnWaitWatched(s: Sys, me: Pid, mask: Flags, all: bool)
    requires CanRun(s, me)
    ensures Watch(s, FlagsWait(s, me, mask, all), me)
  {
    var c := s.threads[me].(waitData := Mask(mask));
    SetStatusShape(WithThread(s, me, c), me, if all then FlagBlockedAll else FlagBlockedAny);
    hide SetStatus;
  }

  ghost predicate SameMailOf(s: Sys, r: Sys, t: Pid) {
    Refines(s, r, t, Unchanged)
  }

  lemma ClearEffect(s: Sys, me: Pid, mask: Flags)
    requires Inv(s) && CanRun(s, me)
    ensures var (r, taken) := FlagsTake(s, me, mask);
            && Inv(r) && me in r.threads
            && r == WithThread(s, me, s.threads[me].(flags := s.threads[me].flags - mask))
            && (forall t :: t != me ==> Watch(s, r, t))
            && (forall t :: SameMailOf(s, r, t))
  {
    FlagsTakeKeeps(s, me, mask);
    FlagsTakeMail(s, me, mask);
    var r := FlagsTake(s, me, mask).0;
    hide Inv, SameMail;
    forall t | t != me ensures Watch(s, r, t) { WatchTakeFlags(s, me, mask, t); }
    forall t ensures SameMailOf(s, r, t) { SameMailRefines(s, r, t); }
  }

  /** A step of the machine over mailboxes, for every thread */
  lemma StepOnAll(s: Sys, a: Action)
    requires Inv(s) && RiotRuns.Enabled(s, a)
    ensures Sound(s) && forall t :: Refines(s, RiotRuns.Apply(s, a), t, EffectOn(s, a, t))
  {
    InvIsSound(s);
    hide Inv, Sound, RiotRuns.Enabled, RiotRuns.Apply, EffectOn, Refines;
    forall t ensures Refines(s, RiotRuns.Apply(s, a), t, EffectOn(s, a, t)) { RiotMailbox.StepRefines(s, a, t); }
  }

  lemma WaitToSendEffect(s: Sys, me: Pid, target: Pid, m: Msg)
    requires me in s.threads && target in s.threads && target != me
    ensures var st := if s.threads[me].status == ReplyBlocked then ReplyBlocked else SendBlocked;
            && target in SenderQueued(s, me, target, m, st).threads
            && var r := FlagsSet(SenderQueued(s, me, target, m, st), target, MSG_WAITING);
            && me in r.threads && r.threads[me].waitData == Message(m) && r.threads[me].status == st
            && At(r, MsgWaiters(target)) == Insert(Prio(s), At(s, MsgWaiters(target)), me)
            && (NotSending(s, me) ==> Refines(s, r, target, JoinAt(WaitIndex(s, target, s.threads[me].priority), m)))
  {
    var st := if s.threads[me].status == ReplyBlocked then ReplyBlocked else SendBlocked;
    SenderQueuedShape(s, me, target, m, st);
    hide SenderQueued, Position, NotSending, Refines, WaitIndex;
    if NotSending(s, me) { WaitRefines(s, me, target, m, st, target); }
    FlagsSetShape(SenderQueued(s, me, target, m, st), target, MSG_WAITING);
    hide FlagsSet;
  }

  lemma SendEffects(s: Sys, me: Pid, target: Pid, m0: Msg, block: bool)
    requires Inv(s) && CanRun(s, me) && target != me
    ensures me in s.threads && forall u :: u in At(s, MsgWaiters(target)) ==> u in s.threads
    ensures var (r, ret) := MsgSend(s, me, target, m0, block);
            && Inv(r) && (ret == -1 <==> target !in s.threads)
            && (ret == 1 <==> SendEffect(s, target, s.threads[me].priority, m0.(sender := me), block) != Unchanged)
            && (forall t :: Refines(s, r, t, EffectOn(s, Send(me, target, m0, block), t)))
  {
    MsgSendKeeps(s, me, target, m0, block);
    StepOnAll(s, Send(me, target, m0, block));
    MembersExist(s, MsgWaiters(target));
    hide Inv, CanRun, Refines, EffectOn, Sound, WaitIndex;
    SendAnswer(s, me, target, m0, block);
  }

  lemma SendAnswer(s: Sys, me: Pid, target: Pid, m0: Msg, block: bool)
    requires me in s.threads
    ensures var ret := MsgSend(s, me, target, m0, block).1;
            && (ret == -1 <==> target !in s.threads)
            && (ret == 1 <==> SendEffect(s, target, s.threads[me].priority, m0.(sender := me), block) != Unchanged)
  {
    hide SetStatus, FlagsSet, AddToList, DirectCopy, WaitIndex;
  }

  lemma OnewayEffects(s: Sys, target: Pid, m0: Msg)
    requires Inv(s)
    ensures var (r, ret) := MsgSendInt(s, target, m0);
            && Inv(r) && (ret == -1 <==> target !in s.threads)
            && (ret == 1 <==> SendEffect(s, target, 0, m0.(sender := PID_ISR), false) != Unchanged)
            && (forall t :: Refines(s, r, t, EffectOn(s, SendInt(target, m0), t)))
  {
    SendIntKeeps(s, target, m0);
    StepOnAll(s, SendInt(target, m0));
    hide Inv, Refines, EffectOn, Sound, DirectCopy, FlagsSet;
  }

  /** The state in which msg_send_receive calls _msg_send still allows kernel calls. */
  lemma AwaitReplyRuns(s: Sys, me: Pid, m: Msg)
    requires Inv(s) && CanRun(s, me)
    ensures var s1 := SetStatus(s, me, ReplyBlocked);
            && me in s1.threads
            && var s2 := WithThread(s1, me, s1.threads[me].(waitData := Message(m)));
            CanRun(s2, me) && s2.threads.Keys == s.threads.Keys && me in s.threads
  {
    AwaitReplyKeeps(s, me, m);
    SetStatusShape(s, me, ReplyBlocked);
    hide SetStatus, ListsOk, Rest;
  }

  lemma SendReceiveEffects(s: Sys, me: Pid, target: Pid, m: Msg)
    requires Inv(s) && CanRun(s, me) && target != me
    ensures var (r, ret) := MsgSendReceive(s, me, target, m);
            && Inv(r) && (ret == 1 <==> target in s.threads) && (ret == -1 <==> target !in s.threads)
            && (forall t :: Refines(s, r, t, EffectOn(s, SendReceive(me, target, m), t)))
  {
    hide Inv, Refines, EffectOn, Sound, MsgSendReceive;
    MsgSendReceiveKeeps(s, me, target, m);
    StepOnAll(s, SendReceive(me, target, m));
    SendReceiveToNobodyStrands(s, me, target, m);
    hide Inv, Refines, EffectOn, Sound, MsgSendReceive;
  }

  lemma ReplyEffects(s: Sys, target: Pid, reply: Msg)
    requires Inv(s) && target in s.threads && NotSending(s, target)
    ensures var (r, ret) := MsgReply(s, target, reply);
            && Inv(r) && target in r.threads
            && (if s.threads[target].status == ReplyBlocked
                then
                  && ret == 1 && r.threads[target].replies == s.threads[target].replies + [reply]
                  && r.threads[target].status == Pending && target in At(r, RunQueue(r.threads[target].priority))
                else ret == -1 && r == s)
            && (forall t :: SameMailOf(s, r, t))
  {
    MsgReplyKeeps(s, target, reply);
    ReplyMail(s, target, reply);
    var r := MsgReply(s, target, reply).0;
    var c := s.threads[target].(replies := s.threads[target].replies + [reply]);
    SetStatusShape(WithThread(s, target, c), target, Pending);
    hide Inv, SameMail, SetStatus, NotSending;
    if s.threads[target].status == ReplyBlocked { PendingQueued(r, target); }
    forall t ensures SameMailOf(s, r, t) { SameMailRefines(s, r, t); }
  }

  lemma ReceiveEffects(s: Sys, me: Pid, block: bool)
    requires Inv(s) && CanRun(s, me)
    ensures me in s.threads
    ensures At(s, MsgWaiters(me)) != [] ==>
              At(s, MsgWaiters(me))[0] in s.threads && At(s, MsgWaiters(me))[0] != me
    ensures var (r, ret) := MsgReceive(s, me, block);
            && Inv(r) && (ret == -1 <==> !block && Backlog(s, me) == [])
            && (forall t :: Refines(s, r, t, EffectOn(s, Receive(me, block), t)))
  {
    hide Inv, Refines, EffectOn, Sound, MsgReceive, NotSending, Backlog;
    WaitersExist(s, me);
    MsgReceiveKeeps(s, me, block);
    StepOnAll(s, Receive(me, block));
    if Backlog(s, me) != [] { ReceiveTakesHead(s, me, block); } else { ReceiveWaits(s, me, block); }
  }

  lemma WakeupEffects(s: Sys, t: Pid)
    requires Inv(s)
    ensures Inv(ThreadWakeup(s, t))
    ensures t in s.threads && s.threads[t].status == Sleeping ==>
              && ThreadWakeup(s, t).threads == s.threads[t := s.threads[t].(status := Pending)]
              && t in At(ThreadWakeup(s, t), RunQueue(s.threads[t].priority))
  {
    ThreadWakeupKeeps(s, t);
    hide Inv;
    if t in s.threads && s.threads[t].status == Sleeping {
      SetStatusShape(s, t, Pending);
      hide SetStatus;
      PendingQueued(ThreadWakeup(s, t), t);
    }
  }

  /** No pid exactly when all are taken, and then nothing happened; otherwise a thread under a free
      pid, asleep or at the end of its run queue. */
  ghost predicate NewThread(s: Sys, r: Sys, pid: Option<Pid>, p: Priority, sleeping: bool, flags: Flags) {
    && (pid == None <==> forall i :: PID_FIRST <= i <= PID_LAST ==> i in s.threads)
    && (pid == None ==> r == s)
    && (pid.Some? ==>
          && PID_FIRST <= pid.value <= PID_LAST && pid.value !in s.threads
          && r.threads == s.threads[pid.value := Fresh(p, if sleeping then Sleeping else Pending, flags)]
          && (!sleeping ==> pid.value in At(r, RunQueue(p))))
  }

  lemma CreateEffects(s: Sys, p: Priority, sleeping: bool, flags: Flags)
    requires Inv(s)
    ensures var (r, pid) := ThreadCreate(s, p, sleeping, flags); Inv(r) && NewThread(s, r, pid, p, sleeping, flags)
  {
    hide Inv, SetStatus;
    ThreadCreateKeeps(s, p, sleeping, flags);
    var (r, pid) := ThreadCreate(s, p, sleeping, flags);
    if pid.Some? {
      var st := if sleeping then Sleeping else Pending;
      SetStatusShape(WithThread(s, pid.value, Fresh(p, Stopped, flags)), pid.value, st);
      assert r.threads == s.threads[pid.value := Fresh(p, st, flags)];
      if !sleeping { PendingQueued(r, pid.value); }
    }
  }

  // ---------- what the sections leave alone ----------

  /** The run-queue primitives do not touch the thread table. */
  lemma SectionFrame(s: Sys, t: Pid)
    requires t in s.threads
    ensures RunqueuePop(s, t).threads == s.threads
    ensures forall u: Sys, p: Priority {:trigger RunqueuePush(u, t, p)} :: RunqueuePush(u, t, p).threads == u.threads
  {
  }

  lemma StatusFrame(s: Sys, t: Pid, st: Status, pl: Place)
    requires t in s.threads && !pl.RunQueue?
    ensures SetStatus(s, t, st).threads.Keys == s.threads.Keys && At(SetStatus(s, t, st), pl) == At(s, pl)
  {
  }

  lemma UnlockFrame(s: Sys, m: nat)
    requires At(s, MutexQueue(m)) != [] ==> At(s, MutexQueue(m))[0] in s.threads
    ensures MutexUnlock(s, m).threads.Keys == s.threads.Keys
  {
  }

  lemma UnlockPlaces(s: Sys, m: nat, pl: Place)
    requires At(s, MutexQueue(m)) != [] ==> At(s, MutexQueue(m))[0] in s.threads
    requires !pl.RunQueue? && !pl.MutexQueue?
    ensures At(MutexUnlock(s, m), pl) == At(s, pl)
  {
  }

  lemma UnlockedAlready(s: Sys, m: nat)
    requires At(s, MutexQueue(m)) != [] ==> At(s, MutexQueue(m))[0] in s.threads
    requires m !in s.locked
    ensures MutexUnlock(s, m) == s
  {
  }

  lemma WokenList(s: Sys, pl: Place)
    requires !pl.RunQueue? && At(s, pl) != [] && At(s, pl)[0] in s.threads
    ensures At(WakeHead(s, pl), pl) == At(s, pl)[1..] && WakeHead(s, pl).threads.Keys == s.threads.Keys
  {
  }

  lemma SignalTurn(s: Sys, c: nat, broadcast: bool)
    requires forall t :: t in At(s, CondQueue(c)) ==> t in s.threads
    ensures var l := At(s, CondQueue(c));
            if l == [] then CondSignal(s, c, broadcast) == s
            else
              && l[0] in s.threads
              && (!broadcast ==> CondSignal(s, c, broadcast) == WakeHead(s, CondQueue(c)))
              && (broadcast ==>
                    && (forall t :: t in At(WakeHead(s, CondQueue(c)), CondQueue(c)) ==>
                          t in WakeHead(s, CondQueue(c)).threads)
                    && CondSignal(s, c, broadcast) == CondSignal(WakeHead(s, CondQueue(c)), c, broadcast))
  {
    var l := At(s, CondQueue(c));
    if l != [] {
      assert l[0] in l;
      WokenList(s, CondQueue(c));
    }
  }

  lemma NotQueued(s: Sys, t: Pid, m: Msg)
    requires t in s.threads
    ensures !QueueMsg(s, t, m).1 ==> QueueMsg(s, t, m).0 == s
  {
  }
}
