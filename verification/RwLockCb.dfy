/** The read/write lock as the code rewrites it, tied to its value-level description in RwLock. */
module RwLockCb {
  import opened Options
  import opened PrioList
  import opened RwLock
  import opened RwLockEffects

  lemma OneMoreWoken(l: seq<Task>, n: nat)
    requires n < |l|
    ensures SetOf(l[..n + 1]) == SetOf(l[..n]) + {l[n]} && SetOf(l[..0]) == {}
  {
    assert l[..n + 1] == l[..n] + [l[n]];
  }

  /** One turn of the loop. */
  lemma LoopTurn(prio: nat -> nat, l: seq<Task>, n: nat, limit: Option<nat>)
    requires n <= |l|
    ensures n == |l| ==> WakeMore(prio, l[n..], n, limit) == 0 && !Overflows(prio, l[n..], n, limit)
    ensures n < |l| && limit.Some? && prio(l[n]) >= limit.value ==>
              WakeMore(prio, l[n..], n, limit) == 0 && !Overflows(prio, l[n..], n, limit)
    ensures n < |l| && !(limit.Some? && prio(l[n]) >= limit.value) ==>
              if n == S32_MAX then WakeMore(prio, l[n..], n, limit) == 0 && Overflows(prio, l[n..], n, limit)
              else
                && WakeMore(prio, l[n..], n, limit) == 1 + WakeMore(prio, l[n + 1..], n + 1, limit)
                && Overflows(prio, l[n..], n, limit) == Overflows(prio, l[n + 1..], n + 1, limit)
  {
    if n < |l| {
      assert l[n..][1..] == l[n + 1..];
    }
  }

  /** OsRwLockCheck: an interrupt and a locked scheduler may not wait. */
  function Refusal(valid: bool, inInterrupt: bool, locked: bool): (status: Status)
    ensures status == Ok <==> valid && !inInterrupt && !locked
    ensures status == Deadlock <==> valid && !inInterrupt && locked
    ensures status == Invalid <==> !valid || inInterrupt
  {
    if !valid || inInterrupt then Invalid else if locked then Deadlock else Ok
  }

  class ControlBlock {
    // The magic number is in place.
    var valid: bool
    var prio: seq<nat>
    var rwCount: int
    var rwOwner: Option<Task>
    var rwRead: seq<Task>
    var rwWrite: seq<Task>
    var timed: set<Task>

    function St(): Lock
      reads this
    {
      Lock(prio, rwCount, rwOwner, rwRead, rwWrite, timed)
    }

    constructor (prio: seq<nat>)
      ensures St() == Fresh(prio) && valid
    {
      valid := true;
      this.prio, rwCount, rwOwner, rwRead, rwWrite, timed := prio, 0, None, [], [], {};
    }

    /** OsRwLockPendFindPosSub: called when some waiter is at most as urgent as the caller */
    method FindPosSub(t: Task, l: seq<Task>) returns (i: nat)
      requires t < |prio| && forall x :: x in l ==> x < |prio|
      ensures i == RwLock.FindPosSub(Prio(prio), l, prio[t])
    {
      i := 0;
      while i < |l|
        invariant i <= |l|
        invariant RwLock.FindPosSub(Prio(prio), l, prio[t]) == i + RwLock.FindPosSub(Prio(prio), l[i..], prio[t])
      {
        assert l[i..][0] == l[i] && l[i] in l && l[i..][1..] == l[i + 1..];
        if prio[l[i]] < prio[t] {
          i := i + 1;
        } else if prio[l[i]] > prio[t] {
          return;
        } else {
          return i + 1;
        }
      }
    }

    /** OsRwLockPendFindPos */
    method FindPos(t: Task, l: seq<Task>) returns (i: nat)
      requires t < |prio| && forall x :: x in l ==> x < |prio|
      ensures i == RwLock.FindPos(Prio(prio), l, prio[t])
    {
      if l == [] {
        i := 0;
      } else {
        assert l[0] in l && l[|l| - 1] in l;
        if prio[l[0]] > prio[t] {
          i := 0;
        } else if prio[l[|l| - 1]] <= prio[t] {
          i := |l|;
        } else {
          i := FindPosSub(t, l);
        }
      }
    }

    /** OsRwLockPendSchedule on the read list, up to the task switch */
    method PendRead(t: Task, timeout: Timeout) returns (status: Status)
      requires t < |prio| && forall x :: x in rwRead ==> x < |prio|
      modifies this`rwRead, this`timed
      ensures (St(), status) == RwLock.PendRead(old(St()), t, timeout)
    {
      if timeout == Zero { return Invalid; }
      var i := FindPos(t, rwRead);
      if timeout != Forever { timed := timed + {t}; }
      rwRead := InsertAt(rwRead, i, t);
      return Blocked;
    }

    /** OsRwLockPendSchedule on the write list, up to the task switch */
    method PendWrite(t: Task, timeout: Timeout) returns (status: Status)
      requires t < |prio| && forall x :: x in rwWrite ==> x < |prio|
      modifies this`rwWrite, this`timed
      ensures (St(), status) == RwLock.PendWrite(old(St()), t, timeout)
    {
      if timeout == Zero { return Invalid; }
      var i := FindPos(t, rwWrite);
      if timeout != Forever { timed := timed + {t}; }
      rwWrite := InsertAt(rwWrite, i, t);
      return Blocked;
    }

    /** OsRwLockRdPend, up to the task switch */
    method RdPend(t: Task, timeout: Timeout, try: bool, inInterrupt: bool, locked: bool) returns (status: Status)
      requires t < |prio| && forall x :: x in rwRead ==> x < |prio|
      modifies this
      ensures valid == old(valid)
      ensures if Refusal(valid, inInterrupt, locked) == Ok then (St(), status) == RwLock.RdPend(old(St()), t, timeout, try)
              else St() == old(St()) && status == Refusal(valid, inInterrupt, locked)
      ensures Refusal(valid, inInterrupt, locked) == Ok && old(LockOk(St())) ==>
                RdAnswered(old(St()), t, timeout, try, status) && RdEffect(old(St()), St(), t, timeout, status)
    {
      if LockOk(St()) { RdLockDoes(St(), t, timeout, try); }
      hide RwLock.PendRead, LockOk, RdAnswered, RdEffect;
      status := Refusal(valid, inInterrupt, locked);
      if status != Ok { return; }
      if try {
        status := TryRdCheck(St(), t);
        if status != Ok { return; }
      }
      if rwCount >= 0 {
        if PriCompare(Prio(prio), t, rwWrite) {
          if rwCount == S32_MAX { return Invalid; }
          rwCount := rwCount + 1;
          return Ok;
        }
      }
      if rwOwner == Some(t) { return Invalid; }
      status := PendRead(t, timeout);
    }

    /** OsRwLockWrPend, up to the task switch */
    method WrPend(t: Task, timeout: Timeout, try: bool, inInterrupt: bool, locked: bool) returns (status: Status)
      requires t < |prio| && forall x :: x in rwWrite ==> x < |prio|
      modifies this
      ensures valid == old(valid)
      ensures if Refusal(valid, inInterrupt, locked) == Ok then (St(), status) == RwLock.WrPend(old(St()), t, timeout, try)
              else St() == old(St()) && status == Refusal(valid, inInterrupt, locked)
      ensures Refusal(valid, inInterrupt, locked) == Ok && old(LockOk(St())) ==>
                WrAnswered(old(St()), t, timeout, try, status) && WrEffect(old(St()), St(), t, timeout, status)
    {
      if LockOk(St()) { WrLockDoes(St(), t, timeout, try); }
      hide RwLock.PendWrite, LockOk, WrAnswered, WrEffect;
      status := Refusal(valid, inInterrupt, locked);
      if status != Ok { return; }
      if try {
        status := TryWrCheck(St(), t);
        if status != Ok { return; }
      }
      if rwCount == 0 {
        rwCount := -1;
        rwOwner := Some(t);
        return Ok;
      }
      if rwCount < 0 && rwOwner == Some(t) {
        if rwCount == -S32_MAX - 1 { return Invalid; }
        return Ok;
      }
      status := PendWrite(t, timeout);
    }

    /** OsRwLockPost */
    method Post() returns (status: Status, needSched: bool)
      requires ListsOk(St())
      modifies this
      ensures (St(), status) == RwLock.Post(old(St())) && valid == old(valid)
      ensures status == Ok && RwLockEffects.PassedOn(old(St()), St())
      ensures needSched == (old(rwRead) != [] || old(rwWrite) != [])
    {
      ghost var s := St();
      PostPasses(s);
      hide PassedOn;
      needSched := false;
      rwCount := 0;
      rwOwner := None;
      var mode := GetMode(Prio(prio), rwRead, rwWrite);
      if mode == NoneMode { return Ok, false; }
      if mode == WriteMode || mode == WriteFirst {
        var resumed := rwWrite[0];
        rwCount := -1;
        rwOwner := Some(resumed);
        rwWrite := rwWrite[1..];
        timed := timed - {resumed};
        return Ok, true;
      }
      status := WakeReaders(mode);
      needSched := status == Ok;
      assert status == Ok by { PostWakesExactly(s); }
    }

    /** The reader loop of OsRwLockPost: the first reader, then every more urgent one. */
    method WakeReaders(mode: Mode) returns (status: Status)
      requires mode == GetMode(Prio(prio), rwRead, rwWrite) && mode in {ReadMode, ReadFirst}
      requires forall x :: x in rwRead + rwWrite ==> x < |prio|
      modifies this`rwCount, this`rwRead, this`timed
      ensures var s := old(St());
              var k := 1 + WakeMore(Prio(s.prio), s.readWait[1..], 1, Limit(s));
              && St() == s.(count := k, readWait := s.readWait[k..], timed := s.timed - SetOf(s.readWait[..k]))
              && status == if Overflows(Prio(s.prio), s.readWait[1..], 1, Limit(s)) then Invalid else Ok
    {
      hide SetOf, WakeMore, Overflows;
      ghost var s := St();
      ghost var f := Prio(prio);
      ghost var limit := Limit(s);
      var pendedWriteTaskPri := 0;
      if mode == ReadFirst {
        assert rwWrite[0] in rwRead + rwWrite;
        pendedWriteTaskPri := prio[rwWrite[0]];
      }
      rwCount := 1;
      timed := timed - {rwRead[0]};
      rwRead := rwRead[1..];
      ghost var n := 1;
      OneMoreWoken(s.readWait, 0);
      while rwRead != []
        invariant 1 <= n <= |s.readWait| && rwCount == n && rwRead == s.readWait[n..]
        invariant timed == s.timed - SetOf(s.readWait[..n])
        invariant 1 + WakeMore(f, s.readWait[1..], 1, limit) == n + WakeMore(f, s.readWait[n..], n, limit)
        invariant Overflows(f, s.readWait[1..], 1, limit) == Overflows(f, s.readWait[n..], n, limit)
        decreases |rwRead|
      {
        LoopTurn(f, s.readWait, n, limit);
        OneMoreWoken(s.readWait, n);
        var resumed := rwRead[0];
        assert s.readWait[n] in s.readWait + s.writeWait;
        if mode == ReadFirst && prio[resumed] >= pendedWriteTaskPri { return Ok; }
        if rwCount == S32_MAX { return Invalid; }
        rwCount := rwCount + 1;
        rwRead := rwRead[1..];
        timed := timed - {resumed};
        n := n + 1;
      }
      LoopTurn(f, s.readWait, n, limit);
      return Ok;
    }

    /** OsRwLockUnlock */
    method Unlock(t: Task) returns (status: Status, needSched: bool)
      requires ListsOk(St())
      modifies this
      ensures valid == old(valid)
      ensures if valid then (St(), status) == RwLock.Unlock(old(St()), t)
              else St() == old(St()) && status == Invalid && !needSched
      ensures valid && old(LockOk(St())) ==>
                UnlockAnswered(old(St()), t, status) && UnlockEffect(old(St()), St(), status)
      ensures valid ==> (needSched <==> status == Ok && old(rwCount) <= 1 && (old(rwRead) != [] || old(rwWrite) != [])
                                        && old(rwCount) >= -1)
    {
      if LockOk(St()) { UnlockDoes(St(), t); }
      hide ListsOk, RwLock.Post, LockOk, UnlockAnswered, UnlockEffect;
      if !valid { return Invalid, false; }
      needSched := false;
      if rwCount == 0 { return NotPermitted, false; }
      if rwCount < 0 && rwOwner != Some(t) { return NotPermitted, false; }
      if rwCount > 1 {
        rwCount := rwCount - 1;
        return Ok, false;
      }
      if rwCount < -1 {
        rwCount := rwCount + 1;
        return Ok, false;
      }
      status, needSched := Post();
    }
  }
}
