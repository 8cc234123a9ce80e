/** The semaphore code as it runs: global control-block tables rewritten step by step, each
    region tied to its value-level description in SemSystem. */
module SemKernel {
  import opened Options
  import opened PrioList
  import opened SemSystem
  import opened SemInvariant
  import opened SemEffects

  class Kernel {
    var tasks: seq<Task>
    var sems: seq<Sem>

    function St(): Sys
      reads this
    {
      Sys(tasks, sems)
    }

    method SetTask(t: Tid, c: Task)
      requires t < |tasks|
      modifies this`tasks
      ensures tasks == old(tasks)[t := c]
    {
      tasks := tasks[t := c];
    }

    method SetWaiters(q: Sid, l: seq<Tid>)
      requires q < |sems|
      modifies this`sems
      ensures sems == old(sems)[q := old(sems)[q].(waiters := l)]
    {
      sems := sems[q := sems[q].(waiters := l)];
    }

    /** LIST_FOR_EACH until a less urgent task, else the end of the list. */
    method FindPosition(l: seq<Tid>, p: nat) returns (i: nat)
      requires forall t :: t in l ==> t < |tasks|
      ensures i == Position(Prio(St()), l, p)
    {
      i := 0;
      while i < |l|
        invariant i <= |l|
        invariant forall k :: 0 <= k < i ==> Prio(St())(l[k]) <= p
      {
        assert l[i] in l;
        if p < tasks[l[i]].priority {
          PositionIsFirst(Prio(St()), l, p, i);
          return;
        }
        i := i + 1;
      }
      PositionIsFirst(Prio(St()), l, p, i);
    }

    /** OsResortSemList */
    method ResortSemList(t: Tid)
      requires t < |tasks| && tasks[t].taskPend.Some? && tasks[t].taskPend.value < |sems|
      requires forall x :: x in sems[tasks[t].taskPend.value].waiters ==> x < |tasks|
      modifies this`sems
      ensures St() == Resorted(old(St()), t)
    {
      var q := tasks[t].taskPend.value;
      var l := Remove(sems[q].waiters, t);
      RemoveSubset(sems[q].waiters, t);
      SetWaiters(q, l);
      var i := FindPosition(l, tasks[t].priority);
      SetWaiters(q, InsertAt(l, i, t));
    }

    /** OsPriorityInherit */
    method PriorityInherit(q: Sid, run: Tid)
      requires WellFormed(St()) && q < |sems| && run < |tasks|
      requires sems[q].kind == Mutex ==> sems[q].owner.Some?
      modifies this
      ensures St() == if old(sems[q].kind) == Mutex
                      then Boosted(old(St()), old(sems[q].owner.value), old(tasks[run].priority))
                      else old(St())
    {
      var newPriority := tasks[run].priority;
      if sems[q].kind != Mutex { return; }
      assert SemOk(St(), q);
      var o: nat := sems[q].owner.value;
      ghost var goal := Boosted(St(), o, newPriority);
      while tasks[o].priority > newPriority
        invariant o < |tasks| && WellFormed(St())
        invariant Boosted(St(), o, newPriority) == goal
        decreases LessUrgent(St(), newPriority)
      {
        ghost var before := St();
        TurnTables(before, o, newPriority);
        assert TaskOk(before, o);
        assert o in LessUrgent(before, newPriority) && o !in LessUrgent(Turn(before, o, newPriority), newPriority);
        if tasks[o].ready {
          Requeue(o, newPriority);
          return;
        }
        SetTask(o, tasks[o].(priority := newPriority));
        if !tasks[o].pend { return; }
        var recurSem := tasks[o].taskPend.value;
        assert SemOk(before, recurSem);
        if sems[recurSem].mode == Prior {
          ResortSemList(o);
        }
        assert St() == Turn(before, o, newPriority);
        if sems[recurSem].kind != Mutex { return; }
        NextInRange(before, o);
        o := sems[recurSem].owner.value;
      }
    }

    /** A ready task changes priority off the ready queue and goes back to its tail. */
    method Requeue(t: Tid, p: nat)
      requires t < |tasks| && tasks[t].ready
      modifies this`tasks
      ensures St() == WithPriority(old(St()), t, p)
    {
      SetTask(t, tasks[t].(ready := false));
      SetTask(t, tasks[t].(priority := p));
      SetTask(t, tasks[t].(ready := true));
    }

    /** OsSemPendListPut */
    method SemPendListPut(q: Sid, run: Tid, timeout: nat)
      requires WellFormed(St()) && q < |sems| && sems[q].used && sems[q].count == 0
      requires run < |tasks| && tasks[run].ready
      modifies this
      ensures St() == PendListPut(old(St()), q, run, timeout)
    {
      ghost var before := St();
      assert SemOk(before, q);
      Block(q, run, timeout);
      EnqueueTables(before, q, run, timeout);
      PriorityInherit(q, run);
    }

    /** The wait list with the caller on it, by urgency or at the end */
    method WaitersWith(q: Sid, run: Tid) returns (l: seq<Tid>)
      requires q < |sems| && run < |tasks| && forall x :: x in sems[q].waiters ==> x < |tasks|
      ensures l == if sems[q].mode == Prior then Insert(Prio(St()), sems[q].waiters, run) else sems[q].waiters + [run]
    {
      l := sems[q].waiters + [run];
      if sems[q].mode == Prior {
        var i := FindPosition(sems[q].waiters, tasks[run].priority);
        l := InsertAt(sems[q].waiters, i, run);
      }
    }

    /** The first half of OsSemPendListPut: leave the ready queue and join the wait list. */
    method Block(q: Sid, run: Tid, timeout: nat)
      requires q < |sems| && SemOk(St(), q) && run < |tasks|
      modifies this
      ensures St() == Enqueued(old(St()), q, run, timeout)
    {
      hide Insert, SemOk;
      ghost var before := St();
      SamePlaces(before, q, run);
      SetTask(run, tasks[run].(ready := false));
      SetTask(run, tasks[run].(taskPend := Some(q)));
      SetTask(run, tasks[run].(pend := true));
      var l := WaitersWith(q, run);
      SetWaiters(q, l);
      if timeout != WAIT_FOREVER {
        SetTask(run, tasks[run].(timeout := true));
      }
    }

    /** OsSemPendNotNeedSche */
    method SemPendNotNeedSche(q: Sid, run: Tid) returns (done: bool)
      requires q < |sems| && run < |tasks|
      modifies this
      ensures done <==> Acquired(old(St()), q, run).Some?
      ensures St() == if done then Acquired(old(St()), q, run).value else old(St())
    {
      if sems[q].kind == Mutex && sems[q].owner == Some(run) {
        sems := sems[q := sems[q].(recur := (sems[q].recur + 1) % U32_SIZE)];
        return true;
      }
      if sems[q].count > 0 {
        sems := sems[q := sems[q].(count := sems[q].count - 1)];
        sems := sems[q := sems[q].(owner := Some(run))];
        if sems[q].kind == Mutex {
          SetTask(run, tasks[run].(held := tasks[run].held + [q]));
        }
        return true;
      }
      return false;
    }

    /** PRT_SemPend up to the switch away from the caller: taken, refused with the right code, or the
        caller waits and is not ready. */
    method SemPend(q: Sid, run: Tid, timeout: nat, intActive: bool, locked: bool) returns (ret: Ret)
      requires WellFormed(St()) && run < |tasks| && tasks[run].ready
      modifies this
      ensures (St(), ret) == Pend(old(St()), q, run, timeout, intActive, locked)
      ensures PendAnswered(old(St()), q, run, timeout, intActive, locked, ret)
      ensures old(Inv(St())) ==> Inv(St()) && PendEffect(old(St()), St(), q, run, timeout, ret)
    {
      hide PendAnswered, PendEffect, Inv;
      PendAnswers(St(), q, run, timeout, intActive, locked);
      if Inv(St()) { PendDoes(St(), q, run, timeout, intActive, locked); }
      if q >= |sems| { return SemInvalid; }
      if !sems[q].used { return SemInvalid; }
      if intActive { return SemPendInterr; }
      var done := SemPendNotNeedSche(q, run);
      if done { return Ok; }
      if timeout == 0 { return SemUnavailable; }
      if locked { return SemPendInLock; }
      SemPendListPut(q, run, timeout);
      return Blocked;
    }

    /** OsGetPendTskMaxPriority */
    method GetPendTskMaxPriority(t: Tid, start: nat) returns (best: nat)
      requires WellFormed(St()) && t < |tasks|
      ensures best == BestPending(St(), tasks[t].held, start)
    {
      best := start;
      var held := tasks[t].held;
      HeldHeads(St(), t);
      hide WellFormed;
      for i := 0 to |held|
        invariant best == BestPending(St(), held[..i], start)
      {
        assert held[..i + 1][..i] == held[..i];
        var l := sems[held[i]].waiters;
        if l != [] {
          if tasks[l[0]].priority < best {
            best := tasks[l[0]].priority;
          }
        }
      }
      assert held[..|held|] == held;
    }

    /** OsPriorityRestore */
    method PriorityRestore(run: Tid) returns (changed: bool)
      requires WellFormed(St()) && run < |tasks|
      modifies this`tasks
      ensures St() == Restored(old(St()), run)
      ensures changed <==> tasks[run].priority != old(tasks[run].priority)
      ensures old(tasks[run].ready) && !old(tasks[run].pend) ==>
                (tasks[run].ready <==> !changed || (!tasks[run].suspend && !tasks[run].blocked))
    {
      if tasks[run].priority == tasks[run].origPriority { return false; }
      var maxPriority := GetPendTskMaxPriority(run, tasks[run].origPriority);
      if maxPriority == tasks[run].priority { return false; }
      var mayRun := !tasks[run].suspend && !tasks[run].blocked && !tasks[run].pend;
      SetTask(run, tasks[run].(ready := false));
      SetTask(run, tasks[run].(priority := maxPriority));
      if mayRun { SetTask(run, tasks[run].(ready := true)); }
      return true;
    }

    /** The first waiter leaves the list and becomes ready unless it is suspended. */
    method WakeFirst(q: Sid) returns (t: Tid)
      requires q < |sems| && sems[q].waiters != [] && sems[q].waiters[0] < |tasks|
      requires !tasks[sems[q].waiters[0]].ready
      modifies this
      ensures t == old(sems[q].waiters[0])
      ensures tasks == Woken(old(St()), t).tasks
      ensures sems == old(sems)[q := old(sems)[q].(waiters := old(sems[q].waiters)[1..])]
    {
      t := sems[q].waiters[0];
      SetWaiters(q, sems[q].waiters[1..]);
      if tasks[t].timeout { SetTask(t, tasks[t].(timeout := false)); }
      SetTask(t, tasks[t].(pend := false));
      SetTask(t, tasks[t].(taskPend := None));
      if !tasks[t].suspend { SetTask(t, tasks[t].(ready := true)); }
    }

    /** OsSemPendListGet */
    method SemPendListGet(q: Sid, run: Tid)
      requires WellFormed(St()) && q < |sems| && sems[q].used && sems[q].waiters != []
      requires run < |tasks| && tasks[run].ready
      requires sems[q].kind == Mutex ==> sems[q].owner == Some(run) && sems[q].recur == 0
      modifies this
      ensures old(sems[q].waiters[0]) < |old(tasks)|
      ensures St() == if old(sems[q].kind) == Mutex then Restored(HandedOver(old(St()), q, run), run)
                      else HandedOver(old(St()), q, run)
      ensures Released(old(St()), St(), q, run)
    {
      ghost var before := St();
      HandOverDoes(before, q, run);
      hide Released;
      var h := HandOverFields(before, q, run);
      assert TaskOk(before, h);
      HandOverTables(before, q, run);
      var t := WakeFirst(q);
      sems := sems[q := sems[q].(owner := Some(t))];
      if sems[q].kind == Mutex {
        SetTask(run, tasks[run].(held := Remove(tasks[run].held, q)));
        SetTask(t, tasks[t].(held := tasks[t].held + [q]));
        assert St() == HandedOver(before, q, run);
        var _ := PriorityRestore(run);
      }
    }

    /** OsSemPostIsInvalid */
    method SemPostIsInvalid(q: Sid) returns (done: bool)
      requires q < |sems|
      modifies this`sems
      ensures done <==> old(sems[q].kind) == Mutex && (old(sems[q].recur) > 0 || old(sems[q].count) == SEM_FULL)
      ensures sems == if old(sems[q].kind) == Mutex && old(sems[q].recur) > 0
                      then old(sems)[q := old(sems)[q].(recur := old(sems[q].recur) - 1)]
                      else old(sems)
    {
      if sems[q].kind == Mutex {
        if sems[q].recur > 0 {
          sems := sems[q := sems[q].(recur := sems[q].recur - 1)];
          return true;
        }
        if sems[q].count == SEM_FULL { return true; }
      }
      return false;
    }

    /** PRT_SemPost: one level of nesting less, handed to the first waiter, free, or refused with the
        right code; the caller stays ready. */
    method SemPost(q: Sid, run: Tid, intActive: bool) returns (ret: Ret)
      requires WellFormed(St()) && run < |tasks| && tasks[run].ready
      modifies this
      ensures (St(), ret) == Post(old(St()), q, run, intActive)
      ensures PostAnswered(old(St()), q, run, intActive, ret)
      ensures old(Inv(St())) ==> Inv(St()) && PostEffect(old(St()), St(), q, run, ret)
    {
      hide PostAnswered, PostEffect, Inv;
      PostAnswers(St(), q, run, intActive);
      if Inv(St()) { PostDoes(St(), q, run, intActive); }
      if q >= |sems| { return SemInvalid; }
      ghost var before := St();
      assert SemOk(before, q);
      ret := PostErrorCheck(sems[q], run, intActive);
      if ret != Ok { return; }
      var done := SemPostIsInvalid(q);
      if done { return Ok; }
      if sems[q].waiters != [] {
        assert sems[q].waiters[0] in sems[q].waiters;
        SemPendListGet(q, run);
      } else {
        FreeTables(before, q, run);
        sems := sems[q := sems[q].(count := sems[q].count + 1)];
        sems := sems[q := sems[q].(owner := None)];
        assert St() == WithSem(before, q, before.sems[q].(count := before.sems[q].count + 1, owner := None));
        if sems[q].kind == Mutex {
          SetTask(run, tasks[run].(held := Remove(tasks[run].held, q)));
          assert St() == Freed(before, q, run);
          var _ := PriorityRestore(run);
        }
      }
      return Ok;
    }

    /** PRT_TaskSetPriority: with Ok both priorities are p and nothing else changed, with any other
        answer nothing did. */
    method TaskSetPriority(t: Tid, p: nat) returns (ret: Ret)
      modifies this`tasks
      ensures (St(), ret) == SetPriority(old(St()), t, p)
      ensures old(Inv(St())) ==>
                && Inv(St()) && SetPriorityAnswered(old(St()), t, p, ret)
                && SetPriorityEffect(old(St()), St(), t, p, ret)
    {
      hide SetPriorityAnswered, SetPriorityEffect, Inv;
      if Inv(St()) { SetPriorityDoes(St(), t, p); }
      if p > PRIORITY_LOWEST { return PriorError; }
      if t >= |tasks| { return TaskIdInvalid; }
      ret := CheckPrioritySet(St(), t, p);
      if ret != Ok { return; }
      var isReady := tasks[t].ready;
      if isReady {
        Requeue(t, p);
      } else {
        SetTask(t, tasks[t].(priority := p));
      }
      SetTask(t, tasks[t].(origPriority := p));
      assert tasks == old(tasks)[t := old(tasks)[t].(priority := p, origPriority := p)];
      return Ok;
    }
  }

  /** The mutexes a task holds and their first waiters exist. */
  lemma HeldHeads(s: Sys, t: Tid)
    requires WellFormed(s) && t < |s.tasks|
    ensures forall i :: 0 <= i < |s.tasks[t].held| ==>
              && s.tasks[t].held[i] < |s.sems|
              && var l := s.sems[s.tasks[t].held[i]].waiters; l != [] ==> l[0] < |s.tasks|
  {
    var held := s.tasks[t].held;
    assert TaskOk(s, t);
    forall i | 0 <= i < |held|
      ensures held[i] < |s.sems| && var l := s.sems[held[i]].waiters; l != [] ==> l[0] < |s.tasks|
    {
      assert held[i] in held;
      var l := s.sems[held[i]].waiters;
      if l != [] { assert SemOk(s, held[i]) && l[0] in l; }
    }
  }

  /** Whoever blocks is placed by priorities, which blocking does not change. */
  lemma SamePlaces(s: Sys, q: Sid, run: Tid)
    requires q < |s.sems| && SemOk(s, q) && run < |s.tasks|
    ensures forall x :: x in s.sems[q].waiters ==> x < |s.tasks|
    ensures forall r: Sys {:trigger Insert(Prio(r), s.sems[q].waiters, run)} ::
              |r.tasks| == |s.tasks| && (forall t :: 0 <= t < |s.tasks| ==> r.tasks[t].priority == s.tasks[t].priority) ==>
                Insert(Prio(r), s.sems[q].waiters, run) == Insert(Prio(s), s.sems[q].waiters, run)
  {
    hide Position;
    forall r: Sys | |r.tasks| == |s.tasks| && (forall t :: 0 <= t < |s.tasks| ==> r.tasks[t].priority == s.tasks[t].priority)
      ensures Insert(Prio(r), s.sems[q].waiters, run) == Insert(Prio(s), s.sems[q].waiters, run)
    {
      SamePosition(Prio(s), Prio(r), s.sems[q].waiters, Prio(s)(run));
    }
  }
}
