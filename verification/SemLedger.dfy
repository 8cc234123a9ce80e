/** Conservation: over whole runs, what was created and released equals what was acquired and
    what is still available. */
module SemLedger {
  import opened Options
  import opened PrioList
  import opened SemSystem
  import opened SemInvariant

  predicate PendsOn(s: Sys, t: Tid, q: Sid) {
    t < |s.tasks| && s.tasks[t].pend && s.tasks[t].taskPend == Some(q)
  }

  ghost predicate SomebodyWoke(s: Sys, r: Sys, q: Sid) {
    exists t: nat :: PendsOn(s, t, q) && !PendsOn(r, t, q)
  }

  /** Acquisitions of q in one step: a pend that returned at once, or a waiter that was woken. */
  ghost function Acquisitions(s: Sys, a: Action, r: Sys, q: Sid): int
    requires WellFormed(s) && Enabled(s, a)
  {
    (if a.DoPend? && a.sem == q && Pend(s, q, a.run, a.timeout, a.intActive, a.locked).1 == Ok then 1 else 0)
    + (if SomebodyWoke(s, r, q) then 1 else 0)
  }

  /** Posts of q that were accepted. */
  ghost function Releases(s: Sys, a: Action, q: Sid): int
    requires WellFormed(s) && Enabled(s, a)
  {
    if a.DoPost? && a.sem == q && Post(s, q, a.run, a.intActive).1 == Ok then 1 else 0
  }

  ghost function Endowment(a: Action, q: Sid): int {
    if a.DoCreate? && a.sem == q then a.count else 0
  }

  /** How many more times q can be taken: its count, or for a mutex one less the nesting depth. */
  function Available(m: Sem): int {
    if m.kind == Count then m.count
    else if m.owner == None then 1
    else 0 - (m.recur as int)
  }

  ghost function Delta(s: Sys, a: Action, r: Sys, q: Sid): int
    requires WellFormed(s) && Enabled(s, a)
  {
    Endowment(a, q) + Releases(s, a, q) - Acquisitions(s, a, r, q)
  }

  /** The nesting counter is at its last value before it wraps. */
  predicate Saturated(m: Sem) {
    m.kind == Mutex && m.owner.Some? && m.recur + 1 == U32_SIZE
  }

  /** Everything the ledger looks at is the same. */
  lemma SameBooks(s: Sys, r: Sys, q: Sid)
    requires q < |s.sems| && q < |r.sems|
    requires r.sems[q].(waiters := []) == s.sems[q].(waiters := [])
    requires forall t: nat :: PendsOn(s, t, q) ==> PendsOn(r, t, q)
    ensures !SomebodyWoke(s, r, q) && Available(r.sems[q]) == Available(s.sems[q])
    ensures r.sems[q].kind == s.sems[q].kind
  {
  }

  lemma PendListPutBooks(s: Sys, q0: Sid, run: Tid, timeout: nat, q: Sid)
    requires Inv(s) && q0 < |s.sems| && s.sems[q0].used && s.sems[q0].count == 0
    requires run < |s.tasks| && s.tasks[run].ready && q < |s.sems|
    ensures var r := PendListPut(s, q0, run, timeout);
            q < |r.sems| && !SomebodyWoke(s, r, q) && Available(r.sems[q]) == Available(s.sems[q])
            && r.sems[q].kind == s.sems[q].kind
  {
    var s1 := Enqueued(s, q0, run, timeout);
    var r := PendListPut(s, q0, run, timeout);
    assert TaskOk(s, run) && SemOk(s, q0);
    assert s1.sems[q].(waiters := []) == s.sems[q].(waiters := []);
    if s.sems[q0].kind == Mutex && s.sems[q0].owner.Some? {
      EnqueueTables(s, q0, run, timeout);
      EnqueueLinks(s, q0, run, timeout);
      EnqueueOrder(s, q0, run, timeout);
      BoostKeeps(s1, s.sems[q0].owner.value, s.tasks[run].priority);
      assert r.sems[q].(waiters := []) == s1.sems[q].(waiters := []);
      forall t: nat | PendsOn(s, t, q) ensures PendsOn(r, t, q) {
        assert r.tasks[t].(priority := 0) == s1.tasks[t].(priority := 0);
        assert r.tasks[t].pend == s1.tasks[t].pend && r.tasks[t].taskPend == s1.tasks[t].taskPend;
      }
    }
    SameBooks(s, r, q);
  }

  lemma AcquireBooks(s: Sys, r: Sys, q0: Sid, run: Tid, q: Sid)
    requires Inv(s) && q0 < |s.sems| && run < |s.tasks| && s.tasks[run].ready && q < |s.sems|
    requires Acquired(s, q0, run) == Some(r)
    ensures q < |r.sems| && !SomebodyWoke(s, r, q) && r.sems[q].kind == s.sems[q].kind
    ensures q != q0 ==> Available(r.sems[q]) == Available(s.sems[q])
    ensures Available(r.sems[q0]) == Available(s.sems[q0]) - 1
            || (Saturated(s.sems[q0]) && Available(r.sems[q0]) == 0)
  {
    assert SemOk(s, q0) && SemOk(s, q);
    assert forall t: nat :: PendsOn(s, t, q) ==> PendsOn(r, t, q);
  }

  lemma PendBooks(s: Sys, a: Action, q: Sid)
    requires Inv(s) && Enabled(s, a) && a.DoPend? && q < |s.sems|
    ensures var r := Apply(s, a);
            q < |r.sems| && r.sems[q].kind == s.sems[q].kind
            && (Available(r.sems[q]) == Available(s.sems[q]) + Delta(s, a, r, q)
                || (Saturated(s.sems[q]) && Available(r.sems[q]) == 0 && Delta(s, a, r, q) == -1))
  {
    var r := Apply(s, a);
    var q0 := a.sem;
    if q0 < |s.sems| && s.sems[q0].used && !a.intActive {
      if Acquired(s, q0, a.run).Some? {
        AcquireBooks(s, r, q0, a.run, q);
      } else if a.timeout != 0 && !a.locked {
        PendListPutBooks(s, q0, a.run, a.timeout, q);
      }
    }
  }

  lemma HandOverBooks(s: Sys, q0: Sid, run: Tid, r: Sys, q: Sid)
    requires Inv(s) && q0 < |s.sems| && run < |s.tasks| && s.tasks[run].ready && q < |s.sems|
    requires s.sems[q0].used && s.sems[q0].waiters != [] && s.sems[q0].waiters[0] < |s.tasks|
    requires s.sems[q0].kind == Mutex ==> s.sems[q0].owner == Some(run) && s.sems[q0].recur == 0
    requires r == if s.sems[q0].kind == Mutex then Restored(HandedOver(s, q0, run), run) else HandedOver(s, q0, run)
    ensures q < |r.sems| && Available(r.sems[q]) == Available(s.sems[q]) && r.sems[q].kind == s.sems[q].kind
    ensures SomebodyWoke(s, r, q) <==> q == q0
  {
    assert SemOk(s, q0) && TaskOk(s, run);
    var h := HandOverFields(s, q0, run);
    var s1 := HandedOver(s, q0, run);
    assert r.sems == s1.sems && !r.tasks[h].pend;
    assert PendsOn(s, h, q0) && !PendsOn(r, h, q0);
    forall t: nat | PendsOn(s, t, q) && q != q0 ensures PendsOn(r, t, q) {
      assert t != h && t != run;
    }
  }

  lemma FreedBooks(s: Sys, q0: Sid, run: Tid, r: Sys, q: Sid)
    requires Inv(s) && q0 < |s.sems| && run < |s.tasks| && s.tasks[run].ready && q < |s.sems|
    requires s.sems[q0].used && s.sems[q0].waiters == []
    requires s.sems[q0].kind == Mutex ==> s.sems[q0].owner == Some(run) && s.sems[q0].recur == 0
    requires r == if s.sems[q0].kind == Mutex then Restored(Freed(s, q0, run), run) else Freed(s, q0, run)
    ensures q < |r.sems| && r.sems[q].kind == s.sems[q].kind && !SomebodyWoke(s, r, q)
    ensures Available(r.sems[q]) == Available(s.sems[q]) + if q == q0 then 1 else 0
  {
    assert SemOk(s, q0) && TaskOk(s, run);
    forall t: nat | PendsOn(s, t, q) ensures PendsOn(r, t, q) {
      assert t != run;
    }
  }

  lemma PostBooks(s: Sys, a: Action, q: Sid)
    requires Inv(s) && Enabled(s, a) && a.DoPost? && q < |s.sems|
    ensures var r := Apply(s, a);
            q < |r.sems| && r.sems[q].kind == s.sems[q].kind
            && Available(r.sems[q]) == Available(s.sems[q]) + Delta(s, a, r, q)
  {
    var r := Apply(s, a);
    var q0 := a.sem;
    var run := a.run;
    if q0 < |s.sems| && PostErrorCheck(s.sems[q0], run, a.intActive) == Ok {
      assert SemOk(s, q0);
      var m := s.sems[q0];
      if !(m.kind == Mutex && m.recur > 0) {
        assert !(m.kind == Mutex && m.count == SEM_FULL);
        if m.waiters != [] {
          assert m.waiters[0] in m.waiters;
          HandOverBooks(s, q0, run, r, q);
        } else {
          FreedBooks(s, q0, run, r, q);
        }
      }
    }
  }

  /** One step moves the available amount by exactly what the callers saw, except that the
      32-bit nesting counter starts again from zero after 2^32 acquisitions. */
  lemma StepBooks(s: Sys, a: Action, r: Sys, q: Sid)
    requires Inv(s) && Step(s, a, r) && q < |s.sems|
    ensures q < |r.sems|
    ensures Available(r.sems[q]) == Available(s.sems[q]) + Delta(s, a, r, q)
            || (Saturated(s.sems[q]) && Available(r.sems[q]) == 0 && Delta(s, a, r, q) == -1)
    ensures s.sems[q].kind == Mutex ==> r.sems[q].kind == Mutex
  {
    assert SemOk(s, q);
    match a
    case DoPend(_, _, _, _, _) => PendBooks(s, a, q);
    case DoPost(_, _, _) => PostBooks(s, a, q);
    case DoSetPriority(_, _) =>
    case DoCreate(q0, _, _, _) =>
    case DoEnvironment(_, _, _, _) =>
  }

  /** Total of what was created and released, less what was acquired, over the first n steps. */
  ghost function Balance(states: seq<Sys>, acts: seq<Action>, q: Sid, n: nat): int
    requires Run(states, acts) && n <= |acts|
    decreases n
  {
    if n == 0 then 0
    else
      InvariantOfRun(states, acts, n - 1);
      Balance(states, acts, q, n - 1) + Delta(states[n - 1], acts[n - 1], states[n], q)
  }

  /** Main result. In every run the balance of a semaphore is what it still has to give; for a
      mutex modulo 2^32, because of the width of its nesting counter. */
  lemma {:induction false} BalanceIsAvailable(states: seq<Sys>, acts: seq<Action>, q: Sid, n: nat)
    requires Run(states, acts) && n <= |acts| && q < |states[0].sems|
    ensures q < |states[n].sems|
    ensures exists wraps: nat ::
              && Available(states[n].sems[q]) == Balance(states, acts, q, n) + wraps * U32_SIZE
              && (states[n].sems[q].kind == Count ==> wraps == 0)
    decreases n
  {
    if n == 0 {
      assert states[0].sems[q] == UNUSED;
      assert Available(states[0].sems[q]) == Balance(states, acts, q, 0) + 0 * U32_SIZE;
    } else {
      BalanceIsAvailable(states, acts, q, n - 1);
      InvariantOfRun(states, acts, n - 1);
      var s, r := states[n - 1], states[n];
      var w: nat :| Available(s.sems[q]) == Balance(states, acts, q, n - 1) + w * U32_SIZE
                    && (s.sems[q].kind == Count ==> w == 0);
      assert Step(s, acts[n - 1], r);
      StepBooks(s, acts[n - 1], r, q);
      var w' := if Available(r.sems[q]) == Available(s.sems[q]) + Delta(s, acts[n - 1], r, q) then w else w + 1;
      assert Available(r.sems[q]) == Balance(states, acts, q, n) + w' * U32_SIZE;
    }
  }

  /** Counting semaphore: initial count plus posts less acquisitions is the count, and waiters
      exist only at zero. */
  lemma CountingConserves(states: seq<Sys>, acts: seq<Action>, q: Sid, n: nat)
    requires Run(states, acts) && n <= |acts| && q < |states[0].sems|
    ensures q < |states[n].sems|
    ensures states[n].sems[q].kind == Count ==>
              && states[n].sems[q].count == Balance(states, acts, q, n)
              && (states[n].sems[q].waiters != [] ==> Balance(states, acts, q, n) == 0)
  {
    BalanceIsAvailable(states, acts, q, n);
    InvariantOfRun(states, acts, n);
    assert SemOk(states[n], q);
  }

  /** Mutex: it is free exactly when it was released as often as acquired, and never released
      more often, in every run in which nesting stays below 2^32. */
  lemma {:induction false} MutexFreeWhenBalanced(states: seq<Sys>, acts: seq<Action>, q: Sid, n: nat)
    requires Run(states, acts) && n <= |acts| && q < |states[0].sems|
    requires forall i :: 0 <= i <= n ==> 1 - U32_SIZE <= Balance(states, acts, q, i)
    ensures q < |states[n].sems|
    ensures states[n].sems[q].kind == Mutex ==>
              && Balance(states, acts, q, n) <= 1
              && (states[n].sems[q].owner == None <==> Balance(states, acts, q, n) == 1)
  {
    BalanceIsAvailable(states, acts, q, n);
    InvariantOfRun(states, acts, n);
    assert SemOk(states[n], q);
    BalanceExact(states, acts, q, n);
  }

  lemma {:induction false} BalanceExact(states: seq<Sys>, acts: seq<Action>, q: Sid, n: nat)
    requires Run(states, acts) && n <= |acts| && q < |states[0].sems|
    requires forall i :: 0 <= i <= n ==> 1 - U32_SIZE <= Balance(states, acts, q, i)
    ensures q < |states[n].sems| && Available(states[n].sems[q]) == Balance(states, acts, q, n)
    decreases n
  {
    if n == 0 {
      assert states[0].sems[q] == UNUSED;
    } else {
      BalanceExact(states, acts, q, n - 1);
      InvariantOfRun(states, acts, n - 1);
      InvariantOfRun(states, acts, n);
      var s, r := states[n - 1], states[n];
      assert Step(s, acts[n - 1], r);
      StepBooks(s, acts[n - 1], r, q);
      assert SemOk(s, q) && SemOk(r, q);
      assert 1 - U32_SIZE <= Balance(states, acts, q, n);
    }
  }

  // ---------- the bound on nesting is needed ----------

  /** One task and one mutex that the task has taken k times */
  function Nested(k: nat): Sys {
    var free := Task(1, 1, true, false, false, false, false, None, []);
    if k == 0 then Sys([free], [Sem(true, Mutex, Prior, SEM_FULL, None, 0, [])])
    else Sys([free.(held := [0])], [Sem(true, Mutex, Prior, 0, Some(0), (k - 1) % U32_SIZE, [])])
  }

  const TAKE: Action := DoPend(0, 0, 0, false, false)
  const GIVE: Action := DoPost(0, 0, false)

  lemma TakeOnceMore(k: nat)
    requires WellFormed(Nested(k))
    ensures Enabled(Nested(k), TAKE) && Apply(Nested(k), TAKE) == Nested(k + 1)
    ensures Delta(Nested(k), TAKE, Nested(k + 1), 0) == -1
  {
    assert !SomebodyWoke(Nested(k), Nested(k + 1), 0);
    assert [] + [0 as Sid] == [0];
    if k > 0 { assert ((k - 1) % U32_SIZE + 1) % U32_SIZE == k % U32_SIZE; }
  }

  /** The counter has wrapped to zero, so one post frees the mutex. */
  lemma GiveAfterWrap()
    requires WellFormed(Nested(U32_SIZE + 1))
    ensures var s := Nested(U32_SIZE + 1);
            && Enabled(s, GIVE) && Apply(s, GIVE) == Nested(0) && Delta(s, GIVE, Nested(0), 0) == 1
  {
    var s := Nested(U32_SIZE + 1);
    assert s.sems[0].recur == 0;
    assert Remove([0], 0) == [];
    assert !SomebodyWoke(s, Nested(0), 0);
  }

  lemma {:induction false} SameBalance(states: seq<Sys>, acts: seq<Action>, a: Action, r: Sys, n: nat)
    requires Run(states, acts) && Run(states + [r], acts + [a]) && n <= |acts|
    ensures Balance(states + [r], acts + [a], 0, n) == Balance(states, acts, 0, n)
    decreases n
  {
    hide Run, Step, Delta;
    assert |states| == |acts| + 1 by { Long(states, acts); }
    if n > 0 { SameBalance(states, acts, a, r, n - 1); }
  }

  lemma Long(states: seq<Sys>, acts: seq<Action>)
    requires Run(states, acts)
    ensures |states| == |acts| + 1
  {
  }

  /** One more step at the end of a run, and its place in the books */
  lemma Extend(states: seq<Sys>, acts: seq<Action>, a: Action)
    requires Run(states, acts) && WellFormed(states[|acts|]) && Enabled(states[|acts|], a)
    ensures var s := states[|acts|];
            && Run(states + [Apply(s, a)], acts + [a])
            && Balance(states + [Apply(s, a)], acts + [a], 0, |acts| + 1)
               == Balance(states, acts, 0, |acts|) + Delta(s, a, Apply(s, a), 0)
  {
    var r := Apply(states[|acts|], a);
    assert Run(states + [r], acts + [a]) by { hide Apply, Enabled, WellFormed; }
    hide Run, Apply, Enabled, WellFormed, Delta;
    Long(states, acts);
    SameBalance(states, acts, a, r, |acts|);
  }

  /** The mutex has just been created. */
  lemma CreatedRun() returns (states: seq<Sys>, acts: seq<Action>)
    ensures Run(states, acts) && |acts| == 1 && states[1] == Nested(0) && |states[0].sems| == 1
    ensures Balance(states, acts, 0, 1) == 1
  {
    var s0 := Nested(0).(sems := [UNUSED]);
    var a := DoCreate(0, SEM_FULL, Mutex, Prior);
    InitHolds(s0);
    assert Run([s0], []) && Balance([s0], [], 0, 0) == 0;
    CreateStep(s0, a);
    hide Run, Apply, Enabled, WellFormed, Delta, Balance, Nested;
    Extend([s0], [], a);
    states, acts := [s0] + [Nested(0)], [] + [a];
  }

  lemma CreateStep(s0: Sys, a: Action)
    requires s0 == Nested(0).(sems := [UNUSED]) && a == DoCreate(0, SEM_FULL, Mutex, Prior) && WellFormed(s0)
    ensures Enabled(s0, a) && Apply(s0, a) == Nested(0) && Delta(s0, a, Nested(0), 0) == 1
  {
    assert !SomebodyWoke(s0, Nested(0), 0);
  }

  lemma {:induction false} NestedRun(k: nat) returns (states: seq<Sys>, acts: seq<Action>)
    ensures Run(states, acts) && |acts| == k + 1 && states[|acts|] == Nested(k) && |states[0].sems| == 1
    ensures Balance(states, acts, 0, |acts|) == 1 - k
    decreases k
  {
    hide Run, Apply, Enabled, Balance, Delta, Nested;
    if k == 0 {
      states, acts := CreatedRun();
    } else {
      states, acts := NestedRun(k - 1);
      Long(states, acts);
      InvariantOfRun(states, acts, |acts|);
      TakeOnceMore(k - 1);
      Extend(states, acts, TAKE);
      states, acts := states + [Nested(k)], acts + [TAKE];
    }
  }

  /** Why nesting must stay in range: there is a run in which a mutex is taken 2^32 + 1 times, given
      back once, and free although the balance says that it is still held 2^32 times. */
  lemma NestingWraps() returns (states: seq<Sys>, acts: seq<Action>)
    ensures Run(states, acts) && 0 < |acts| && |states[0].sems| == 1
    ensures var s := states[|acts|];
            && 0 < |s.sems| && s.sems[0].kind == Mutex && s.sems[0].owner == None
            && Balance(states, acts, 0, |acts|) == 1 - U32_SIZE
  {
    states, acts := NestedRun(U32_SIZE + 1);
    InvariantOfRun(states, acts, |acts|);
    hide Run, Apply, Enabled, Balance, Delta;
    Long(states, acts);
    GiveAfterWrap();
    Extend(states, acts, GIVE);
    states, acts := states + [Nested(0)], acts + [GIVE];
  }
}
