/** What every locked region of the semaphore code keeps, and what follows for whole runs. */
module SemInvariant {
  import opened Options
  import opened PrioList
  import opened SemSystem

  // ---------- paths in the wait-for graph ----------

  /** Paths to t survive when links are only added, or redirected away from a task that is
      itself not waiting. */
  lemma {:induction false} IterKept(s: Sys, r: Sys, away: Tid, u: Tid, t: Tid, k: nat)
    requires Iter(s, u, k) == Some(t)
    requires forall x: nat :: Next(s, x).Some? && Next(s, x).value != away ==> Next(r, x) == Next(s, x)
    requires t != away || forall x: nat :: Next(s, x).Some? ==> Next(r, x) == Next(s, x)
    requires t != away ==> Next(s, away) == None
    ensures Iter(r, u, k) == Some(t)
    decreases k
  {
    if k > 0 {
      var n := Next(s, u).value;
      assert t != away ==> Iter(s, away, k - 1) == (if k == 1 then Some(away) else None);
      IterKept(s, r, away, n, t, k - 1);
    }
  }

  lemma {:induction false} IterSnoc(s: Sys, u: Tid, w: Tid, t: Tid, k: nat)
    requires Iter(s, u, k) == Some(w) && Next(s, w) == Some(t)
    ensures Iter(s, u, k + 1) == Some(t)
    decreases k
  {
    if k > 0 { IterSnoc(s, Next(s, u).value, w, t, k - 1); }
  }

  lemma {:induction false} IterJoin(s: Sys, u: Tid, w: Tid, t: Tid, k: nat, j: nat)
    requires Iter(s, u, k) == Some(w) && Iter(s, w, j) == Some(t)
    ensures Iter(s, u, k + j) == Some(t)
    decreases k
  {
    if k > 0 { IterJoin(s, Next(s, u).value, w, t, k - 1, j); }
  }

  /** Along a chain of owners urgency never drops. */
  lemma {:induction false} ChainOrdered(s: Sys, u: Tid, t: Tid, k: nat)
    requires WellFormed(s) && Ordered(s) && u < |s.tasks| && Iter(s, u, k) == Some(t)
    ensures t < |s.tasks| && s.tasks[t].priority <= s.tasks[u].priority
    decreases k
  {
    if k > 0 {
      var n := Next(s, u).value;
      NextInRange(s, u);
      assert Prio(s)(n) <= Prio(s)(u);
      ChainOrdered(s, n, t, k - 1);
    }
  }

  lemma NextInRange(s: Sys, u: Tid)
    requires WellFormed(s) && Next(s, u).Some?
    ensures u < |s.tasks| && Next(s, u).value < |s.tasks|
    ensures u in s.sems[s.tasks[u].taskPend.value].waiters
    ensures s.tasks[u].taskPend.value in s.tasks[Next(s, u).value].held
  {
    assert TaskOk(s, u);
    assert SemOk(s, s.tasks[u].taskPend.value);
  }

  /** The meaning of the invariant: the current priority of t is the best base priority among
      t itself and all tasks that are transitively blocked on mutexes t holds. */
  ghost predicate Effective(s: Sys, t: Tid)
    requires t < |s.tasks|
  {
    && (forall u: nat :: u < |s.tasks| && Reaches(s, u, t) ==>
          s.tasks[t].priority <= s.tasks[u].origPriority)
    && (exists u: nat :: u < |s.tasks| && Reaches(s, u, t) && s.tasks[t].priority == s.tasks[u].origPriority)
  }

  lemma PriorityIsEffective(s: Sys, t: Tid)
    requires Inv(s) && t < |s.tasks|
    ensures Effective(s, t)
  {
    forall u: nat | u < |s.tasks| && Reaches(s, u, t)
      ensures s.tasks[t].priority <= s.tasks[u].origPriority
    {
      var k: nat :| Iter(s, u, k) == Some(t);
      ChainOrdered(s, u, t, k);
    }
    assert Supported(s, t);
    var u: nat, k: nat :| SupportedBy(s, t, u, k);
    assert Reaches(s, u, t);
  }

  // ---------- boosting ----------

  /** Taking o out of its list and putting it back by its new priority orders the list. */
  lemma ResortedList(s: Sys, s1: Sys, q: Sid, o: Tid)
    requires q < |s.sems| && SemOk(s, q) && s.sems[q].mode == Prior && o in s.sems[q].waiters
    requires |s1.tasks| == |s.tasks|
    requires forall t :: 0 <= t < |s.tasks| && t != o ==> s1.tasks[t].priority == s.tasks[t].priority
    ensures var l := Insert(Prio(s1), Remove(s.sems[q].waiters, o), o);
            && Distinct(l) && Sorted(Prio(s1), l)
            && (forall t :: t in l <==> t in s.sems[q].waiters)
  {
    var w := s.sems[q].waiters;
    var l := Remove(w, o);
    RemoveElements(w, o);
    RemoveSorted(Prio(s), w, o);
    SortedFrame(Prio(s), Prio(s1), l);
    InsertElements(Prio(s1), l, o);
    InsertSorted(Prio(s1), l, o);
  }

  /** A task changed priority: only that of o, and its wait list was put in order again. */
  lemma BoostOneKeepsTables(s: Sys, r: Sys, q: Sid, o: Tid, p: nat)
    requires WellFormed(s) && o < |s.tasks| && s.tasks[o].pend && s.tasks[o].taskPend == Some(q)
    requires q < |s.sems|
    requires r == if s.sems[q].mode == Prior then Resorted(WithPriority(s, o, p), o) else WithPriority(s, o, p)
    ensures WellFormed(r)
  {
    assert SemOk(s, q) && TaskOk(s, o);
    var l := r.sems[q].waiters;
    if s.sems[q].mode == Prior {
      ResortedList(s, WithPriority(s, o, p), q, o);
      SortedFrame(Prio(WithPriority(s, o, p)), Prio(r), l);
    }
    assert r.sems == s.sems[q := s.sems[q].(waiters := l)];
    assert r.tasks == s.tasks[o := s.tasks[o].(priority := p)];
    forall x | 0 <= x < |r.sems| ensures SemOk(r, x) {
      assert SemOk(s, x);
      if x != q { SortedElsewhere(s, r, o, x); }
    }
    forall t | 0 <= t < |r.tasks| ensures TaskOk(r, t) {
      assert TaskOk(s, t);
    }
  }

  /** Lists that do not hold o stay sorted when only the priority of o changes. */
  lemma SortedElsewhere(s: Sys, r: Sys, o: Tid, x: Sid)
    requires x < |s.sems| && o < |s.tasks| && |r.tasks| == |s.tasks|
    requires SemOk(s, x) && s.tasks[o].taskPend != Some(x)
    requires forall t :: 0 <= t < |s.tasks| && t != o ==> r.tasks[t].priority == s.tasks[t].priority
    ensures s.sems[x].mode == Prior ==> Sorted(Prio(r), s.sems[x].waiters)
  {
    if s.sems[x].mode == Prior {
      SortedFrame(Prio(s), Prio(r), s.sems[x].waiters);
    }
  }

  /** Ordered, but the tasks that wait on o may already be as urgent as p. */
  ghost predicate OrderedExcept(s: Sys, o: Tid, p: nat) {
    && (forall t :: 0 <= t < |s.tasks| ==> s.tasks[t].priority <= s.tasks[t].origPriority)
    && (forall w: nat :: Next(s, w).Some? ==> OwnerUrgent(s, w, o, p))
  }

  ghost predicate OwnerUrgent(s: Sys, w: Tid, o: Tid, p: nat)
    requires Next(s, w).Some?
  {
    var t := Next(s, w).value;
    Prio(s)(t) <= Prio(s)(w) || (t == o && p <= Prio(s)(w))
  }

  /** Only priorities less urgent than p, of tasks on the chain from o, became p. */
  ghost predicate BoostedFrom(s: Sys, r: Sys, o: Tid, p: nat) {
    && |r.tasks| == |s.tasks| && |r.sems| == |s.sems|
    && (forall q :: 0 <= q < |s.sems| ==> r.sems[q].(waiters := []) == s.sems[q].(waiters := []))
    && (forall t :: 0 <= t < |s.tasks| ==> r.tasks[t].(priority := 0) == s.tasks[t].(priority := 0))
    && (forall t :: 0 <= t < |s.tasks| ==>
          r.tasks[t].priority == s.tasks[t].priority
          || (r.tasks[t].priority == p && p < s.tasks[t].priority && Reaches(s, o, t)))
  }

  lemma SameNext(s: Sys, r: Sys, o: Tid, p: nat)
    requires BoostedFrom(s, r, o, p)
    ensures forall x: nat :: Next(r, x) == Next(s, x)
  {
    forall x: nat ensures Next(r, x) == Next(s, x) {
      if x < |s.tasks| {
        assert r.tasks[x].(priority := 0) == s.tasks[x].(priority := 0);
        assert r.tasks[x].taskPend == s.tasks[x].taskPend;
        if s.tasks[x].taskPend.Some? && s.tasks[x].taskPend.value < |s.sems| {
          var q := s.tasks[x].taskPend.value;
          assert r.sems[q].(waiters := []) == s.sems[q].(waiters := []);
        }
      }
    }
  }

  /** One turn of the walk: the tables stay well formed. */
  lemma TurnTables(s: Sys, o: Tid, p: nat)
    requires WellFormed(s) && o < |s.tasks|
    ensures WellFormed(Turn(s, o, p)) && |Turn(s, o, p).sems| == |s.sems|
    ensures forall q :: 0 <= q < |s.sems| ==>
              Turn(s, o, p).sems[q].(waiters := []) == s.sems[q].(waiters := [])
  {
    assert TaskOk(s, o);
    var r := Turn(s, o, p);
    if s.tasks[o].pend {
      BoostOneKeepsTables(s, r, s.tasks[o].taskPend.value, o, p);
    } else {
      forall x | 0 <= x < |r.sems| ensures SemOk(r, x) {
        assert SemOk(s, x);
        if s.sems[x].mode == Prior { SortedFrame(Prio(s), Prio(r), s.sems[x].waiters); }
      }
      forall t | 0 <= t < |r.tasks| ensures TaskOk(r, t) { assert TaskOk(s, t); }
    }
  }

  lemma TurnShape(s: Sys, o: Tid, p: nat)
    requires WellFormed(s) && o < |s.tasks| && p < s.tasks[o].priority
    ensures BoostedFrom(s, Turn(s, o, p), o, p)
  {
    TurnTables(s, o, p);
    assert Iter(s, o, 0) == Some(o);
  }

  /** After the turn only the waiters on the next owner may be out of order. */
  lemma BoostStep(s: Sys, o: Tid, p: nat) returns (r: Sys)
    requires WellFormed(s) && OrderedExcept(s, o, p) && o < |s.tasks| && p < s.tasks[o].priority
    ensures WellFormed(r) && BoostedFrom(s, r, o, p) && r.tasks[o].priority == p
    ensures Next(s, o).None? ==> Ordered(r) && r == Boosted(s, o, p)
    ensures Next(s, o).Some? ==>
              var n := Next(s, o).value;
              OrderedExcept(r, n, p) && n < |s.tasks| && LessUrgent(r, p) < LessUrgent(s, p)
              && Boosted(s, o, p) == Boosted(r, n, p)
  {
    r := Turn(s, o, p);
    TurnTables(s, o, p);
    TurnShape(s, o, p);
    SameNext(s, r, o, p);
    TurnOrder(s, r, o, p);
    assert o in LessUrgent(s, p) && o !in LessUrgent(r, p);
    assert TaskOk(s, o);
    if Next(s, o).Some? { NextInRange(s, o); }
  }

  lemma TurnOrder(s: Sys, r: Sys, o: Tid, p: nat)
    requires WellFormed(s) && OrderedExcept(s, o, p) && o < |s.tasks| && p < s.tasks[o].priority
    requires r.tasks == s.tasks[o := s.tasks[o].(priority := p)]
    requires forall x: nat :: Next(r, x) == Next(s, x)
    ensures forall w: nat :: Next(r, w).Some? ==>
              OwnerUrgent(r, w, if Next(s, o).Some? then Next(s, o).value else o, p)
    ensures Next(s, o).None? ==> Ordered(r)
  {
    forall w: nat | Next(r, w).Some?
      ensures OwnerUrgent(r, w, if Next(s, o).Some? then Next(s, o).value else o, p)
      ensures Next(s, o).None? ==> Prio(r)(Next(r, w).value) <= Prio(r)(w)
    {
      assert Next(r, w) == Next(s, w);
      NextInRange(s, w);
      assert OwnerUrgent(s, w, o, p);
    }
  }

  /** OsPriorityInherit on any wait-for graph, deadlock cycles included: afterwards no owner is
      less urgent than its waiters, the lists are in order, and nothing else changed. */
  lemma {:induction false} BoostKeeps(s: Sys, o: Tid, p: nat)
    requires WellFormed(s) && OrderedExcept(s, o, p) && o < |s.tasks|
    ensures var r := Boosted(s, o, p); WellFormed(r) && Ordered(r) && BoostedFrom(s, r, o, p)
    decreases LessUrgent(s, p)
  {
    if p < s.tasks[o].priority {
      var r := BoostStep(s, o, p);
      if Next(s, o).Some? {
        var n := Next(s, o).value;
        BoostKeeps(r, n, p);
        BoostedFromJoin(s, r, Boosted(r, n, p), o, p);
      }
    }
  }

  lemma BoostedFromJoin(s: Sys, r: Sys, z: Sys, o: Tid, p: nat)
    requires BoostedFrom(s, r, o, p) && Next(s, o).Some? && BoostedFrom(r, z, Next(s, o).value, p)
    ensures BoostedFrom(s, z, o, p)
  {
    SameNext(s, r, o, p);
    var n := Next(s, o).value;
    forall t | 0 <= t < |s.tasks| && z.tasks[t].priority != s.tasks[t].priority
      ensures z.tasks[t].priority == p && p < s.tasks[t].priority && Reaches(s, o, t)
    {
      if z.tasks[t].priority != r.tasks[t].priority {
        var k: nat :| Iter(r, n, k) == Some(t);
        IterSame(s, r, n, t, k);
        assert Iter(s, o, k + 1) == Some(t);
      }
    }
    forall t | 0 <= t < |s.tasks| ensures z.tasks[t].(priority := 0) == s.tasks[t].(priority := 0) {
      assert z.tasks[t].(priority := 0) == r.tasks[t].(priority := 0);
    }
    forall q | 0 <= q < |s.sems| ensures z.sems[q].(waiters := []) == s.sems[q].(waiters := []) {
      assert z.sems[q].(waiters := []) == r.sems[q].(waiters := []);
    }
  }

  lemma {:induction false} IterSame(s: Sys, r: Sys, u: Tid, t: Tid, k: nat)
    requires forall x: nat :: Next(r, x) == Next(s, x)
    ensures Iter(r, u, k) == Iter(s, u, k)
    decreases k
  {
    if k > 0 && Next(s, u).Some? { IterSame(s, r, Next(s, u).value, t, k - 1); }
  }

  /** The walk in closed form: exactly the chain of owners above o is lifted to at least p. */
  lemma InheritLiftsChain(s: Sys, o: Tid, p: nat, t: Tid)
    requires WellFormed(s) && OrderedExcept(s, o, p) && o < |s.tasks| && t < |s.tasks|
    ensures |Boosted(s, o, p).tasks| == |s.tasks|
    ensures Boosted(s, o, p).tasks[t].priority ==
            if Reaches(s, o, t) && p < s.tasks[t].priority then p else s.tasks[t].priority
  {
    var r := Boosted(s, o, p);
    BoostKeeps(s, o, p);
    SameNext(s, r, o, p);
    if Reaches(s, o, t) {
      var k: nat :| Iter(s, o, k) == Some(t);
      IterSame(s, r, o, t, k);
      BoostReachesOwner(s, o, p);
      ChainOrdered(r, o, t, k);
    }
  }

  lemma BoostReachesOwner(s: Sys, o: Tid, p: nat)
    requires WellFormed(s) && OrderedExcept(s, o, p) && o < |s.tasks|
    ensures o < |Boosted(s, o, p).tasks| && Boosted(s, o, p).tasks[o].priority <= p
  {
    if p < s.tasks[o].priority {
      var r := BoostStep(s, o, p);
      if Next(s, o).Some? { BoostKeeps(r, Next(s, o).value, p); }
    }
  }

  // ---------- what each step keeps ----------

  ghost predicate AllSupported(s: Sys) {
    forall t :: 0 <= t < |s.tasks| ==> Supported(s, t)
  }

  ghost predicate SamePriorities(s: Sys, r: Sys) {
    && |r.tasks| == |s.tasks|
    && (forall t :: 0 <= t < |s.tasks| ==>
          r.tasks[t].priority == s.tasks[t].priority && r.tasks[t].origPriority == s.tasks[t].origPriority)
  }

  /** Steps that touch neither priorities nor links keep the priority invariant. */
  lemma CarryOver(s: Sys, r: Sys)
    requires WellFormed(s) && Ordered(s) && AllSupported(s)
    requires SamePriorities(s, r) && forall x: nat :: Next(r, x) == Next(s, x)
    ensures Ordered(r) && AllSupported(r)
  {
    forall w: nat | Next(r, w).Some? ensures Prio(r)(Next(r, w).value) <= Prio(r)(w) {
      assert Next(s, w).Some?;
      NextInRange(s, w);
    }
    forall t | 0 <= t < |r.tasks| ensures Supported(r, t) {
      assert Supported(s, t);
      var u: nat, k: nat :| SupportedBy(s, t, u, k);
      IterSame(s, r, u, t, k);
      assert SupportedBy(r, t, u, k);
    }
  }

  /** A semaphore that was not written is still in order when its waiters and owner are. */
  lemma SemFrame(s: Sys, r: Sys, x: Sid)
    requires x < |s.sems| && x < |r.sems| && SemOk(s, x) && r.sems[x] == s.sems[x]
    requires |r.tasks| == |s.tasks|
    requires forall t :: 0 <= t < |s.tasks| ==> r.tasks[t].priority == s.tasks[t].priority
    requires forall t :: t in s.sems[x].waiters ==> r.tasks[t].pend && r.tasks[t].taskPend == Some(x)
    requires s.sems[x].kind == Mutex && s.sems[x].owner.Some? ==> x in r.tasks[s.sems[x].owner.value].held
    ensures SemOk(r, x)
  {
    SortedSame(s, r, x);
  }

  lemma AcquireTables(s: Sys, r: Sys, q: Sid, run: Tid)
    requires WellFormed(s) && q < |s.sems| && s.sems[q].used && run < |s.tasks| && s.tasks[run].ready
    requires Acquired(s, q, run) == Some(r)
    ensures WellFormed(r)
  {
    assert SemOk(s, q) && TaskOk(s, run);
    assert |r.tasks| == |s.tasks|;
    forall x | 0 <= x < |r.sems| ensures SemOk(r, x) {
      assert SemOk(s, x);
      if x != q { SemFrame(s, r, x); } else { AcquireSem(s, r, q, run); }
    }
    hide MutexOk;
    forall t | 0 <= t < |r.tasks| ensures TaskOk(r, t) {
      assert TaskOk(s, t);
      AcquireTask(s, r, q, run, t);
    }
  }

  lemma AcquireTask(s: Sys, r: Sys, q: Sid, run: Tid, t: Tid)
    requires q < |s.sems| && SemOk(s, q) && s.sems[q].used && run < |s.tasks| && s.tasks[run].ready
    requires t < |s.tasks| && TaskOk(s, t) && Acquired(s, q, run) == Some(r)
    ensures t < |r.tasks| && TaskOk(r, t)
  {
    if t == run { AppendElements(s.tasks[t].held, q); }
  }

  lemma AcquireSem(s: Sys, r: Sys, q: Sid, run: Tid)
    requires q < |s.sems| && SemOk(s, q) && s.sems[q].used && run < |s.tasks| && s.tasks[run].ready
    requires Acquired(s, q, run) == Some(r)
    ensures SemOk(r, q)
  {
    SortedSame(s, r, q);
  }

  lemma AcquireKeeps(s: Sys, q: Sid, run: Tid)
    requires Inv(s) && q < |s.sems| && s.sems[q].used && run < |s.tasks| && s.tasks[run].ready
    requires Acquired(s, q, run).Some?
    ensures Inv(Acquired(s, q, run).value)
  {
    var r := Acquired(s, q, run).value;
    AcquireTables(s, r, q, run);
    assert SemOk(s, q);
    forall x: nat ensures Next(r, x) == Next(s, x) {
      if x < |s.tasks| { assert TaskOk(s, x); }
    }
    CarryOver(s, r);
  }

  lemma SortedSame(s: Sys, r: Sys, x: Sid)
    requires x < |s.sems| && SemOk(s, x) && |r.tasks| == |s.tasks|
    requires forall t :: 0 <= t < |s.tasks| ==> r.tasks[t].priority == s.tasks[t].priority
    ensures s.sems[x].mode == Prior ==> Sorted(Prio(r), s.sems[x].waiters)
  {
    if s.sems[x].mode == Prior { SortedFrame(Prio(s), Prio(r), s.sems[x].waiters); }
  }

  lemma EnqueueList(s: Sys, r: Sys, q: Sid, run: Tid, timeout: nat)
    requires q < |s.sems| && SemOk(s, q) && run < |s.tasks| && run !in s.sems[q].waiters
    requires r == Enqueued(s, q, run, timeout)
    ensures Distinct(r.sems[q].waiters)
    ensures forall t :: t in r.sems[q].waiters <==> t == run || t in s.sems[q].waiters
    ensures s.sems[q].mode == Prior ==> Sorted(Prio(r), r.sems[q].waiters)
  {
    hide Position, InsertAt;
    var m := s.sems[q];
    if m.mode == Prior {
      InsertElements(Prio(s), m.waiters, run);
      InsertSorted(Prio(s), m.waiters, run);
      SortedFrame(Prio(s), Prio(r), Insert(Prio(s), m.waiters, run));
    } else {
      AppendElements(m.waiters, run);
    }
  }

  lemma EnqueueTables(s: Sys, q: Sid, run: Tid, timeout: nat)
    requires WellFormed(s) && q < |s.sems| && s.sems[q].used && run < |s.tasks| && s.tasks[run].ready
    requires s.sems[q].count == 0
    ensures WellFormed(Enqueued(s, q, run, timeout))
  {
    var r := Enqueued(s, q, run, timeout);
    assert SemOk(s, q) && TaskOk(s, run);
    assert run !in s.sems[q].waiters;
    EnqueueList(s, r, q, run, timeout);
    EnqueueSem(s, r, q, run, timeout);
    forall x | 0 <= x < |r.sems| && x != q ensures SemOk(r, x) {
      assert SemOk(s, x);
      assert run !in s.sems[x].waiters;
      SemFrame(s, r, x);
    }
    forall t | 0 <= t < |r.tasks| ensures TaskOk(r, t) { assert TaskOk(s, t); }
  }

  lemma EnqueueSem(s: Sys, r: Sys, q: Sid, run: Tid, timeout: nat)
    requires q < |s.sems| && SemOk(s, q) && s.sems[q].used && run < |s.tasks| && run !in s.sems[q].waiters
    requires s.sems[q].count == 0 && r == Enqueued(s, q, run, timeout)
    ensures SemOk(r, q)
  {
    EnqueueList(s, r, q, run, timeout);
    var l := r.sems[q].waiters;
    assert r.sems[q] == s.sems[q].(waiters := l);
    assert forall t :: 0 <= t < |s.tasks| ==> r.tasks[t].held == s.tasks[t].held;
    if s.sems[q].kind == Mutex { assert MutexOk(r, q); }
  }

  /** Blocking adds one link, from the running task to the owner; all others stay. */
  lemma EnqueueLinks(s: Sys, q: Sid, run: Tid, timeout: nat)
    requires WellFormed(s) && q < |s.sems| && run < |s.tasks| && s.tasks[run].ready
    ensures var r := Enqueued(s, q, run, timeout);
            Next(s, run) == None
            && (forall x: nat :: x != run ==> Next(r, x) == Next(s, x))
            && Next(r, run) == if s.sems[q].kind == Mutex then s.sems[q].owner else None
  {
    assert TaskOk(s, run);
  }

  lemma EnqueueSupport(s: Sys, q: Sid, run: Tid, timeout: nat)
    requires Inv(s) && q < |s.sems| && run < |s.tasks| && s.tasks[run].ready
    ensures AllSupported(Enqueued(s, q, run, timeout))
  {
    var r := Enqueued(s, q, run, timeout);
    EnqueueLinks(s, q, run, timeout);
    forall t | 0 <= t < |r.tasks| ensures Supported(r, t) {
      assert Supported(s, t);
      var u: nat, k: nat :| SupportedBy(s, t, u, k);
      IterKept(s, r, |s.tasks|, u, t, k);
      assert SupportedBy(r, t, u, k);
    }
  }

  /** A lifted task has the priority of the task that just blocked behind it. */
  lemma BoostSupport(s: Sys, r: Sys, run: Tid, o: Tid)
    requires run < |s.tasks| && AllSupported(s) && Next(s, run) == Some(o)
    requires BoostedFrom(s, r, o, s.tasks[run].priority)
    ensures AllSupported(r)
  {
    SameNext(s, r, o, s.tasks[run].priority);
    forall t | 0 <= t < |r.tasks| ensures Supported(r, t) {
      if r.tasks[t].priority == s.tasks[t].priority {
        assert Supported(s, t);
        var u: nat, k: nat :| SupportedBy(s, t, u, k);
        IterSame(s, r, u, t, k);
        assert r.tasks[u].(priority := 0) == s.tasks[u].(priority := 0);
        assert SupportedBy(r, t, u, k);
      } else {
        assert Supported(s, run);
        var u: nat, k: nat :| SupportedBy(s, run, u, k);
        var j: nat :| Iter(s, o, j) == Some(t);
        assert Iter(s, run, j + 1) == Some(t);
        IterJoin(s, u, run, t, k, j + 1);
        IterSame(s, r, u, t, k + (j + 1));
        assert r.tasks[u].(priority := 0) == s.tasks[u].(priority := 0);
        assert SupportedBy(r, t, u, k + (j + 1));
      }
    }
  }

  lemma EnqueueOrder(s: Sys, q: Sid, run: Tid, timeout: nat)
    requires Inv(s) && q < |s.sems| && run < |s.tasks| && s.tasks[run].ready
    ensures var r := Enqueued(s, q, run, timeout);
            if Next(r, run).Some? then OrderedExcept(r, Next(r, run).value, s.tasks[run].priority) else Ordered(r)
  {
    var r := Enqueued(s, q, run, timeout);
    EnqueueLinks(s, q, run, timeout);
    assert forall x: nat :: Prio(r)(x) == Prio(s)(x);
    forall w: nat | Next(r, w).Some? && w != run ensures Prio(r)(Next(r, w).value) <= Prio(r)(w) {
      assert Next(s, w).Some?;
    }
  }

  /** OsSemPendListPut keeps the invariant. */
  lemma PendListPutKeeps(s: Sys, q: Sid, run: Tid, timeout: nat)
    requires Inv(s) && q < |s.sems| && s.sems[q].used && run < |s.tasks| && s.tasks[run].ready
    requires s.sems[q].count == 0
    ensures Inv(PendListPut(s, q, run, timeout))
  {
    var s1 := Enqueued(s, q, run, timeout);
    assert SemOk(s, q);
    EnqueueTables(s, q, run, timeout);
    EnqueueLinks(s, q, run, timeout);
    EnqueueSupport(s, q, run, timeout);
    EnqueueOrder(s, q, run, timeout);
    if Next(s1, run).Some? {
      var o := Next(s1, run).value;
      BoostKeeps(s1, o, s.tasks[run].priority);
      BoostSupport(s1, Boosted(s1, o, s.tasks[run].priority), run, o);
    }
  }

  lemma PendKeeps(s: Sys, q: Sid, run: Tid, timeout: nat, intActive: bool, locked: bool)
    requires Inv(s) && run < |s.tasks| && s.tasks[run].ready
    ensures Inv(Pend(s, q, run, timeout, intActive, locked).0)
  {
    if q < |s.sems| && s.sems[q].used && !intActive {
      if Acquired(s, q, run).Some? {
        AcquireKeeps(s, q, run);
      } else if timeout != 0 && !locked {
        PendListPutKeeps(s, q, run, timeout);
      }
    }
  }

  // ---------- post ----------

  /** OsGetPendTskMaxPriority finds the best of the start value and of all tasks that wait on
      the held mutexes, not only of the first in each list. */
  lemma {:induction false} BestPendingIsBest(s: Sys, held: seq<Sid>, start: nat)
    requires forall q :: q in held ==> q < |s.sems| && Sorted(Prio(s), s.sems[q].waiters)
    ensures BestPending(s, held, start) <= start
    ensures forall q, w :: q in held && w in s.sems[q].waiters ==> BestPending(s, held, start) <= Prio(s)(w)
    ensures BestPending(s, held, start) == start
            || exists q :: q in held && s.sems[q].waiters != []
                           && BestPending(s, held, start) == Prio(s)(s.sems[q].waiters[0])
  {
    if held != [] {
      var rest := held[..|held| - 1];
      var q := held[|held| - 1];
      assert q in held && forall x :: x in rest ==> x in held;
      BestPendingIsBest(s, rest, start);
      assert held == rest + [q];
      forall w | w in s.sems[q].waiters ensures BestPending(s, held, start) <= Prio(s)(w) {
        var i :| 0 <= i < |s.sems[q].waiters| && s.sems[q].waiters[i] == w;
        assert Prio(s)(s.sems[q].waiters[0]) <= Prio(s)(w);
      }
    }
  }

  /** What OsPriorityRestore leaves as the priority of the running task. */
  lemma RestoreValue(s: Sys, run: Tid)
    requires WellFormed(s) && run < |s.tasks|
    ensures var r := Restored(s, run); var c := s.tasks[run];
            && |r.tasks| == |s.tasks| && r.sems == s.sems
            && (forall t :: 0 <= t < |s.tasks| && t != run ==> r.tasks[t] == s.tasks[t])
            && r.tasks[run].(priority := 0, ready := true) == c.(priority := 0, ready := true)
            && (r.tasks[run].priority == c.priority
                || forall q, w :: q in c.held && q < |s.sems| && w in s.sems[q].waiters ==>
                     r.tasks[run].priority <= Prio(s)(w))
            && (r.tasks[run].priority == c.origPriority
                || exists q :: q in c.held && q < |s.sems| && s.sems[q].waiters != []
                               && r.tasks[run].priority == Prio(s)(s.sems[q].waiters[0]))
            && (r.tasks[run].priority <= c.origPriority || r.tasks[run].priority == c.priority)
  {
    var c := s.tasks[run];
    assert TaskOk(s, run);
    forall q | q in c.held ensures Sorted(Prio(s), s.sems[q].waiters) { assert SemOk(s, q); }
    BestPendingIsBest(s, c.held, c.origPriority);
  }

  /** The restored priority is again that of a task in the way of which the running task is. */
  lemma RestoreSupport(s: Sys, run: Tid)
    requires WellFormed(s) && run < |s.tasks| && !s.tasks[run].pend
    requires forall t :: 0 <= t < |s.tasks| && t != run ==> Supported(s, t)
    requires forall x: nat :: Next(Restored(s, run), x) == Next(s, x)
    ensures run < |Restored(s, run).tasks| && Supported(Restored(s, run), run)
  {
    var r := Restored(s, run);
    RestoreValue(s, run);
    if r.tasks[run].priority == r.tasks[run].origPriority {
      assert SupportedBy(r, run, run, 0);
    } else {
      assert TaskOk(s, run);
      var q :| q in s.tasks[run].held && s.sems[q].waiters != []
               && r.tasks[run].priority == Prio(s)(s.sems[q].waiters[0]);
      assert SemOk(s, q);
      var w := s.sems[q].waiters[0];
      assert w in s.sems[q].waiters;
      assert Supported(s, w);
      var u: nat, k: nat :| SupportedBy(s, w, u, k);
      IterSnoc(s, u, w, run, k);
      IterSame(s, r, u, run, k + 1);
      assert SupportedBy(r, run, u, k + 1);
    }
  }

  /** OsPriorityRestore turns "everybody but the running task is exact" into the invariant. */
  lemma RestoreKeeps(s: Sys, run: Tid)
    requires WellFormed(s) && Ordered(s) && run < |s.tasks| && !s.tasks[run].pend
    requires forall t :: 0 <= t < |s.tasks| && t != run ==> Supported(s, t)
    ensures Inv(Restored(s, run))
  {
    var r := Restored(s, run);
    RestoreTables(s, run);
    RestoreValue(s, run);
    forall x: nat ensures Next(r, x) == Next(s, x) { }
    forall w: nat | Next(r, w).Some? ensures Prio(r)(Next(r, w).value) <= Prio(r)(w) {
      NextInRange(s, w);
    }
    forall t | 0 <= t < |r.tasks| ensures Supported(r, t) {
      if t != run {
        assert Supported(s, t);
        var u: nat, k: nat :| SupportedBy(s, t, u, k);
        IterSame(s, r, u, t, k);
        assert SupportedBy(r, t, u, k);
      } else {
        RestoreSupport(s, run);
      }
    }
  }

  lemma RestoreTables(s: Sys, run: Tid)
    requires WellFormed(s) && run < |s.tasks| && !s.tasks[run].pend
    ensures WellFormed(Restored(s, run))
  {
    var r := Restored(s, run);
    forall x | 0 <= x < |r.sems| ensures SemOk(r, x) {
      assert SemOk(s, x);
      if s.sems[x].mode == Prior { SortedFrame(Prio(s), Prio(r), s.sems[x].waiters); }
    }
    forall t | 0 <= t < |r.tasks| ensures TaskOk(r, t) { assert TaskOk(s, t); }
  }

  /** The hand-off in terms of the fields it writes. */
  lemma HandOverFields(s: Sys, q: Sid, run: Tid) returns (h: Tid)
    requires WellFormed(s) && q < |s.sems| && run < |s.tasks| && s.tasks[run].ready
    requires s.sems[q].waiters != []
    ensures h == s.sems[q].waiters[0] && h < |s.tasks| && h != run && s.tasks[h].pend
    ensures s.tasks[h].taskPend == Some(q)
    ensures var r := HandedOver(s, q, run);
            && |r.tasks| == |s.tasks|
            && r.sems == s.sems[q := s.sems[q].(waiters := s.sems[q].waiters[1..], owner := Some(h))]
            && (forall t :: 0 <= t < |s.tasks| && t != h && t != run ==> r.tasks[t] == s.tasks[t])
            && r.tasks[h] == s.tasks[h].(timeout := false, pend := false, taskPend := None,
                 ready := !s.tasks[h].suspend,
                 held := if s.sems[q].kind == Mutex then s.tasks[h].held + [q] else s.tasks[h].held)
            && r.tasks[run] == s.tasks[run].(
                 held := if s.sems[q].kind == Mutex then Remove(s.tasks[run].held, q) else s.tasks[run].held)
  {
    h := s.sems[q].waiters[0];
    assert SemOk(s, q) && TaskOk(s, run);
    assert h in s.sems[q].waiters;
    assert TaskOk(s, h);
  }

  /** The hand-off: the first waiter owns the semaphore, the lists agree again. */
  lemma HandOverTables(s: Sys, q: Sid, run: Tid)
    requires WellFormed(s) && q < |s.sems| && run < |s.tasks| && s.tasks[run].ready
    requires s.sems[q].waiters != [] && s.sems[q].used
    requires s.sems[q].kind == Mutex ==> s.sems[q].owner == Some(run) && s.sems[q].recur == 0
    ensures s.sems[q].waiters[0] < |s.tasks| && s.sems[q].waiters[0] != run
    ensures WellFormed(HandedOver(s, q, run))
    ensures SamePriorities(s, HandedOver(s, q, run))
  {
    var h := HandOverFields(s, q, run);
    var r := HandedOver(s, q, run);
    assert SamePriorities(s, r);
    assert SemOk(s, q) && TaskOk(s, run) && TaskOk(s, h);
    forall x | 0 <= x < |r.sems| ensures SemOk(r, x) { HandOverSem(s, r, q, run, h, x); }
    forall t | 0 <= t < |r.tasks| ensures TaskOk(r, t) { HandOverTask(s, r, q, run, h, t); }
  }

  ghost predicate HandOverShape(s: Sys, r: Sys, q: Sid, run: Tid, h: Tid) {
    && q < |s.sems| && run < |s.tasks| && h < |s.tasks| && h != run && !s.tasks[run].pend
    && s.sems[q].waiters != [] && h == s.sems[q].waiters[0] && s.tasks[h].pend && s.tasks[h].taskPend == Some(q)
    && s.sems[q].used
    && (s.sems[q].kind == Mutex ==> s.sems[q].owner == Some(run) && s.sems[q].recur == 0)
    && |r.tasks| == |s.tasks|
    && r.sems == s.sems[q := s.sems[q].(waiters := s.sems[q].waiters[1..], owner := Some(h))]
    && (forall t :: 0 <= t < |s.tasks| && t != h && t != run ==> r.tasks[t] == s.tasks[t])
    && r.tasks[h] == s.tasks[h].(timeout := false, pend := false, taskPend := None,
         ready := !s.tasks[h].suspend,
         held := if s.sems[q].kind == Mutex then s.tasks[h].held + [q] else s.tasks[h].held)
    && r.tasks[run] == s.tasks[run].(
         held := if s.sems[q].kind == Mutex then Remove(s.tasks[run].held, q) else s.tasks[run].held)
  }

  lemma HandOverSem(s: Sys, r: Sys, q: Sid, run: Tid, h: Tid, x: Sid)
    requires WellFormed(s) && HandOverShape(s, r, q, run, h) && x < |s.sems|
    ensures SemOk(r, x)
  {
    assert SemOk(s, x) && SemOk(s, q);
    HandOverWaiters(s, r, q, run, h, x);
    HandOverMutex(s, r, q, run, h, x);
  }

  /** The waiters that are left still wait where they did. */
  lemma HandOverWaiters(s: Sys, r: Sys, q: Sid, run: Tid, h: Tid, x: Sid)
    requires WellFormed(s) && HandOverShape(s, r, q, run, h) && x < |s.sems|
    ensures Distinct(r.sems[x].waiters) && (s.sems[x].mode == Prior ==> Sorted(Prio(r), r.sems[x].waiters))
    ensures forall t :: t in r.sems[x].waiters ==>
              t in s.sems[x].waiters && t < |r.tasks| && r.tasks[t].pend && r.tasks[t].taskPend == Some(x)
  {
    assert SemOk(s, x);
    SortedSame(s, r, x);
    if x == q {
      FirstLeaves(s.sems[q].waiters);
    }
  }

  lemma FirstLeaves(w: seq<nat>)
    requires Distinct(w) && w != []
    ensures Distinct(w[1..]) && forall t :: t in w[1..] ==> t in w && t != w[0]
  {
  }

  lemma HandOverMutex(s: Sys, r: Sys, q: Sid, run: Tid, h: Tid, x: Sid)
    requires WellFormed(s) && HandOverShape(s, r, q, run, h) && x < |s.sems|
    ensures s.sems[x].kind == Mutex ==> MutexOk(r, x)
  {
    assert SemOk(s, x) && SemOk(s, q) && TaskOk(s, run);
    RemoveElements(s.tasks[run].held, q);
  }

  lemma HandOverTask(s: Sys, r: Sys, q: Sid, run: Tid, h: Tid, t: Tid)
    requires WellFormed(s) && HandOverShape(s, r, q, run, h) && t < |s.tasks|
    ensures TaskOk(r, t)
  {
    assert TaskOk(s, t) && TaskOk(s, run) && TaskOk(s, h) && SemOk(s, q);
    RemoveElements(s.tasks[run].held, q);
    if t != h && s.tasks[t].pend && s.tasks[t].taskPend == Some(q) {
      var w := s.sems[q].waiters;
      assert w == [h] + w[1..];
    }
  }

  lemma FreeTables(s: Sys, q: Sid, run: Tid)
    requires WellFormed(s) && q < |s.sems| && run < |s.tasks| && s.sems[q].used && s.sems[q].waiters == []
    requires s.sems[q].kind == Mutex ==> s.sems[q].owner == Some(run) && s.sems[q].recur == 0
    requires s.sems[q].kind == Count ==> s.sems[q].count < SEM_COUNT_MAX
    ensures WellFormed(Freed(s, q, run))
    ensures SamePriorities(s, Freed(s, q, run))
  {
    var r := Freed(s, q, run);
    assert SemOk(s, q) && TaskOk(s, run);
    RemoveElements(s.tasks[run].held, q);
    forall x | 0 <= x < |r.sems| ensures SemOk(r, x) {
      assert SemOk(s, x);
      if x != q { SemFrame(s, r, x); }
    }
    forall t | 0 <= t < |r.tasks| ensures TaskOk(r, t) { assert TaskOk(s, t); }
  }

  /** Links into tasks other than the releasing one stay; the remaining waiters now wait for h. */
  lemma HandOverLinks(s: Sys, q: Sid, run: Tid)
    requires WellFormed(s) && q < |s.sems| && run < |s.tasks| && s.tasks[run].ready
    requires s.sems[q].waiters != [] && s.sems[q].kind == Mutex && s.sems[q].owner == Some(run)
    requires s.sems[q].recur == 0
    ensures s.sems[q].waiters[0] < |s.tasks|
    ensures var r := HandedOver(s, q, run); var h := s.sems[q].waiters[0];
            forall x: nat :: Next(r, x) ==
              if x == h then None
              else if x in s.sems[q].waiters then Some(h)
              else Next(s, x)
    ensures forall x :: x in s.sems[q].waiters ==> Next(s, x) == Some(run)
  {
    var m := s.sems[q];
    var h := m.waiters[0];
    assert SemOk(s, q);
    assert h in m.waiters;
    var r := HandedOver(s, q, run);
    forall x: nat ensures Next(r, x) ==
              if x == h then None else if x in s.sems[q].waiters then Some(h) else Next(s, x) {
      if x < |s.tasks| { assert TaskOk(s, x); }
    }
  }

  /** Everybody but the releasing task keeps its reason to have its priority. */
  lemma SupportAway(s: Sys, r: Sys, run: Tid, t: Tid)
    requires WellFormed(s) && AllSupported(s) && run < |s.tasks| && !s.tasks[run].pend
    requires t < |s.tasks| && t != run && SamePriorities(s, r)
    requires forall x: nat :: Next(s, x).Some? && Next(s, x).value != run ==> Next(r, x) == Next(s, x)
    ensures Supported(r, t)
  {
    assert Supported(s, t);
    var u: nat, k: nat :| SupportedBy(s, t, u, k);
    IterKept(s, r, run, u, t, k);
    assert SupportedBy(r, t, u, k);
  }

  /** After the hand-off the new owner is at least as urgent as the remaining waiters. */
  lemma HandOverOrder(s: Sys, q: Sid, run: Tid)
    requires Inv(s) && q < |s.sems| && run < |s.tasks| && s.tasks[run].ready
    requires s.sems[q].used && s.sems[q].waiters != []
    requires s.sems[q].kind == Mutex && s.sems[q].owner == Some(run) && s.sems[q].recur == 0
    ensures s.sems[q].waiters[0] < |s.tasks|
    ensures Ordered(HandedOver(s, q, run))
  {
    var m := s.sems[q];
    HandOverTables(s, q, run);
    HandOverLinks(s, q, run);
    assert SemOk(s, q);
    var r := HandedOver(s, q, run);
    forall w: nat | Next(r, w).Some? ensures Prio(r)(Next(r, w).value) <= Prio(r)(w) {
      if w in m.waiters {
        var i :| 0 <= i < |m.waiters| && m.waiters[i] == w;
        assert Prio(s)(m.waiters[0]) <= Prio(s)(w);
      } else {
        NextInRange(s, w);
      }
    }
  }

  /** A counting semaphore takes no part in inheritance. */
  lemma CountPostKeeps(s: Sys, q: Sid, run: Tid, r: Sys)
    requires Inv(s) && q < |s.sems| && run < |s.tasks| && s.tasks[run].ready
    requires s.sems[q].used && s.sems[q].kind == Count && s.sems[q].count < SEM_COUNT_MAX
    requires s.sems[q].waiters != [] ==> s.sems[q].waiters[0] < |s.tasks|
    requires r == if s.sems[q].waiters != [] then HandedOver(s, q, run) else Freed(s, q, run)
    ensures Inv(r)
  {
    assert SemOk(s, q);
    if s.sems[q].waiters != [] {
      assert s.sems[q].waiters[0] in s.sems[q].waiters;
      HandOverTables(s, q, run);
    } else {
      FreeTables(s, q, run);
    }
    forall x: nat ensures Next(r, x) == Next(s, x) {
      if x < |s.tasks| { assert TaskOk(s, x); }
    }
    CarryOver(s, r);
  }

  lemma MutexPostKeeps(s: Sys, q: Sid, run: Tid, r: Sys)
    requires Inv(s) && q < |s.sems| && run < |s.tasks| && s.tasks[run].ready
    requires s.sems[q].used && s.sems[q].kind == Mutex && s.sems[q].owner == Some(run) && s.sems[q].recur == 0
    requires s.sems[q].waiters != [] ==> s.sems[q].waiters[0] < |s.tasks|
    requires r == if s.sems[q].waiters != [] then HandedOver(s, q, run) else Freed(s, q, run)
    ensures |r.tasks| == |s.tasks| && Inv(Restored(r, run))
  {
    assert SemOk(s, q) && TaskOk(s, run);
    if s.sems[q].waiters != [] {
      HandOverTables(s, q, run);
      HandOverLinks(s, q, run);
      HandOverOrder(s, q, run);
    } else {
      FreeTables(s, q, run);
      forall x: nat ensures Next(r, x) == Next(s, x) {
        if x < |s.tasks| { assert TaskOk(s, x); }
      }
      CarryOver(s, r);
    }
    forall t | 0 <= t < |r.tasks| && t != run ensures Supported(r, t) {
      SupportAway(s, r, run, t);
    }
    RestoreKeeps(r, run);
  }

  /** PRT_SemPost keeps the invariant. */
  lemma PostKeeps(s: Sys, q: Sid, run: Tid, intActive: bool)
    requires Inv(s) && run < |s.tasks| && s.tasks[run].ready
    ensures Inv(Post(s, q, run, intActive).0)
  {
    if q < |s.sems| && PostErrorCheck(s.sems[q], run, intActive) == Ok {
      var m := s.sems[q];
      assert SemOk(s, q);
      assert m.waiters != [] ==> m.waiters[0] in m.waiters;
      if m.kind == Mutex && m.recur > 0 {
        RecursiveReleaseKeeps(s, q);
      } else if m.kind == Mutex && m.count == SEM_FULL {
      } else {
        var s1 := if m.waiters != [] then HandedOver(s, q, run) else Freed(s, q, run);
        if m.kind == Mutex { MutexPostKeeps(s, q, run, s1); } else { CountPostKeeps(s, q, run, s1); }
      }
    }
  }

  lemma RecursiveReleaseKeeps(s: Sys, q: Sid)
    requires Inv(s) && q < |s.sems| && s.sems[q].kind == Mutex && s.sems[q].recur > 0
    ensures Inv(WithSem(s, q, s.sems[q].(recur := s.sems[q].recur - 1)))
  {
    var r := WithSem(s, q, s.sems[q].(recur := s.sems[q].recur - 1));
    forall x | 0 <= x < |r.sems| ensures SemOk(r, x) {
      assert SemOk(s, x);
      SortedSame(s, r, x);
    }
    forall t | 0 <= t < |r.tasks| ensures TaskOk(r, t) { assert TaskOk(s, t); }
    forall x: nat ensures Next(r, x) == Next(s, x) { }
    CarryOver(s, r);
  }

  // ---------- priority change, creation, environment ----------

  /** What the guard of PRT_TaskSetPriority lets through keeps the invariant. */
  lemma SetPriorityKeeps(s: Sys, t: Tid, p: nat)
    requires Inv(s)
    ensures Inv(SetPriority(s, t, p).0)
  {
    if p <= PRIORITY_LOWEST && t < |s.tasks| && CheckPrioritySet(s, t, p) == Ok {
      var c := s.tasks[t];
      var r := SetPriority(s, t, p).0;
      SetPriorityTables(s, t, p);
      assert TaskOk(s, t);
      forall x: nat ensures Next(r, x) == Next(s, x) { }
      forall q | q in c.held ensures Sorted(Prio(s), s.sems[q].waiters) { assert SemOk(s, q); }
      BestPendingIsBest(s, c.held, c.origPriority);
      forall w: nat | Next(r, w).Some? ensures Prio(r)(Next(r, w).value) <= Prio(r)(w) {
        NextInRange(s, w);
        assert w != t;
      }
      SetPrioritySupport(s, r, t, p);
    }
  }

  lemma SetPriorityTables(s: Sys, t: Tid, p: nat)
    requires WellFormed(s) && t < |s.tasks| && CheckPrioritySet(s, t, p) == Ok
    ensures WellFormed(WithTask(s, t, s.tasks[t].(priority := p, origPriority := p)))
  {
    var r := WithTask(s, t, s.tasks[t].(priority := p, origPriority := p));
    forall x | 0 <= x < |r.sems| ensures SemOk(r, x) {
      assert SemOk(s, x);
      if s.sems[x].mode == Prior {
        assert t !in s.sems[x].waiters;
        SortedFrame(Prio(s), Prio(r), s.sems[x].waiters);
      }
    }
    forall y | 0 <= y < |r.tasks| ensures TaskOk(r, y) { assert TaskOk(s, y); }
  }

  lemma SetPrioritySupport(s: Sys, r: Sys, t: Tid, p: nat)
    requires AllSupported(s) && t < |s.tasks| && Next(s, t) == None
    requires r == WithTask(s, t, s.tasks[t].(priority := p, origPriority := p))
    requires forall x: nat :: Next(r, x) == Next(s, x)
    ensures AllSupported(r)
  {
    forall y | 0 <= y < |r.tasks| ensures Supported(r, y) {
      if y == t {
        assert SupportedBy(r, t, t, 0);
      } else {
        assert Supported(s, y);
        var u: nat, k: nat :| SupportedBy(s, y, u, k);
        assert u == t ==> Iter(s, u, k) == (if k == 0 then Some(t) else None);
        IterSame(s, r, u, y, k);
        assert SupportedBy(r, y, u, k);
      }
    }
  }

  /** The guard is needed: writing a better priority into a task that waits on a mutex leaves
      the owner of that mutex less urgent than its waiter. */
  lemma UncheckedPriorityBreaks(s: Sys, t: Tid, p: nat)
    requires Inv(s) && Next(s, t).Some?
    requires p < Prio(s)(Next(s, t).value) && Next(s, t).value != t
    ensures t < |s.tasks| && CheckPrioritySet(s, t, p) != Ok
    ensures !Ordered(WithTask(s, t, s.tasks[t].(priority := p, origPriority := p)))
  {
    NextInRange(s, t);
    var r := WithTask(s, t, s.tasks[t].(priority := p, origPriority := p));
    assert Next(r, t) == Next(s, t);
    assert Prio(r)(Next(r, t).value) > Prio(r)(t);
  }

  lemma CreateKeeps(s: Sys, q: Sid, count: nat, kind: Kind, mode: Mode)
    requires Inv(s) && Enabled(s, DoCreate(q, count, kind, mode))
    ensures Inv(Created(s, q, count, kind, mode))
  {
    var r := Created(s, q, count, kind, mode);
    assert SemOk(s, q);
    forall x | 0 <= x < |r.sems| ensures SemOk(r, x) {
      assert SemOk(s, x);
      SortedSame(s, r, x);
    }
    forall t | 0 <= t < |r.tasks| ensures TaskOk(r, t) {
      assert TaskOk(s, t);
      assert forall x :: x in s.tasks[t].held ==> MutexOk(s, x) by {
        forall x | x in s.tasks[t].held ensures MutexOk(s, x) { assert SemOk(s, x); }
      }
    }
    forall x: nat ensures Next(r, x) == Next(s, x) {
      if x < |s.tasks| { assert TaskOk(s, x); }
    }
    CarryOver(s, r);
  }

  lemma EnvironmentKeeps(s: Sys, t: Tid, ready: bool, suspend: bool, blocked: bool)
    requires Inv(s) && Enabled(s, DoEnvironment(t, ready, suspend, blocked))
    ensures Inv(Environment(s, t, ready, suspend, blocked))
  {
    var r := Environment(s, t, ready, suspend, blocked);
    forall x | 0 <= x < |r.sems| ensures SemOk(r, x) {
      assert SemOk(s, x);
      SortedSame(s, r, x);
    }
    forall y | 0 <= y < |r.tasks| ensures TaskOk(r, y) { assert TaskOk(s, y); }
    forall x: nat ensures Next(r, x) == Next(s, x) { }
    CarryOver(s, r);
  }

  // ---------- runs ----------

  lemma InitHolds(s: Sys)
    requires Init(s)
    ensures Inv(s)
  {
    forall t | 0 <= t < |s.tasks| ensures Supported(s, t) {
      assert SupportedBy(s, t, t, 0);
    }
  }

  lemma StepKeeps(s: Sys, a: Action, r: Sys)
    requires Inv(s) && Step(s, a, r)
    ensures Inv(r)
  {
    match a
    case DoPend(run, q, timeout, irq, locked) => PendKeeps(s, q, run, timeout, irq, locked);
    case DoPost(run, q, irq) => PostKeeps(s, q, run, irq);
    case DoSetPriority(t, p) => SetPriorityKeeps(s, t, p);
    case DoCreate(q, count, kind, mode) => CreateKeeps(s, q, count, kind, mode);
    case DoEnvironment(t, ready, suspend, blocked) => EnvironmentKeeps(s, t, ready, suspend, blocked);
  }

  lemma {:induction false} InvariantOfRun(states: seq<Sys>, acts: seq<Action>, n: nat)
    requires Run(states, acts) && n < |states|
    ensures Inv(states[n])
    decreases n
  {
    if n == 0 {
      InitHolds(states[0]);
    } else {
      InvariantOfRun(states, acts, n - 1);
      StepKeeps(states[n - 1], acts[n - 1], states[n]);
    }
  }

  /** Main result. In every state of every run, deadlocks included, the priority of each task
      is the best base priority among itself and everything transitively blocked on its mutexes. */
  lemma EveryRunInherits(states: seq<Sys>, acts: seq<Action>, n: nat, t: Tid)
    requires Run(states, acts) && n < |states| && t < |states[n].tasks|
    ensures Effective(states[n], t)
  {
    InvariantOfRun(states, acts, n);
    PriorityIsEffective(states[n], t);
  }

  lemma {:induction false} LastHop(s: Sys, u: Tid, t: Tid, k: nat) returns (w: Tid)
    requires k > 0 && Iter(s, u, k) == Some(t)
    ensures Iter(s, u, k - 1) == Some(w) && Next(s, w) == Some(t)
    decreases k
  {
    if k == 1 {
      w := u;
    } else {
      w := LastHop(s, Next(s, u).value, t, k - 1);
    }
  }

  /** The same one link at a time: the best of the base priority and of those who wait directly. */
  ghost predicate BestOfWaiters(s: Sys, t: Tid)
    requires t < |s.tasks|
  {
    && s.tasks[t].priority <= s.tasks[t].origPriority
    && (forall w: nat :: Next(s, w) == Some(t) ==> s.tasks[t].priority <= Prio(s)(w))
    && (s.tasks[t].priority == s.tasks[t].origPriority
        || exists w: nat :: Next(s, w) == Some(t) && s.tasks[t].priority == Prio(s)(w))
  }

  lemma InvIsBest(s: Sys, t: Tid)
    requires Inv(s) && t < |s.tasks|
    ensures BestOfWaiters(s, t)
  {
    assert Supported(s, t);
    var u: nat, k: nat :| SupportedBy(s, t, u, k);
    if k > 0 {
      var w := LastHop(s, u, t, k);
      NextInRange(s, w);
      ChainOrdered(s, u, w, k - 1);
    }
  }

  /** Main result, one link. In every state of every run the current priority of a task equals the
      best of its base priority and the current priorities of all tasks waiting on its mutexes. */
  lemma EveryRunBestOfWaiters(states: seq<Sys>, acts: seq<Action>, n: nat, t: Tid)
    requires Run(states, acts) && n < |states| && t < |states[n].tasks|
    ensures BestOfWaiters(states[n], t)
  {
    InvariantOfRun(states, acts, n);
    InvIsBest(states[n], t);
  }

  /** Main result, no inversion. In every state of every run an owner is at least as urgent as
      every task that is transitively blocked on it. */
  lemma EveryOwnerUrgent(states: seq<Sys>, acts: seq<Action>, n: nat, u: Tid, t: Tid)
    requires Run(states, acts) && n < |states| && Reaches(states[n], u, t) && u < |states[n].tasks|
    ensures t < |states[n].tasks| && states[n].tasks[t].priority <= states[n].tasks[u].priority
  {
    InvariantOfRun(states, acts, n);
    var k: nat :| Iter(states[n], u, k) == Some(t);
    ChainOrdered(states[n], u, t, k);
  }

  /** Main result, tables. In every state of every run a mutex has count one exactly when nobody
      owns it; then nobody waits for it and it is on no held list, and otherwise it is on exactly
      its owner's. Waiters of any semaphore mean count zero, and priority-mode lists are in order. */
  lemma EveryRunKeepsTables(states: seq<Sys>, acts: seq<Action>, n: nat, q: Sid)
    requires Run(states, acts) && n < |states| && q < |states[n].sems| && states[n].sems[q].used
    ensures var s, m := states[n], states[n].sems[q];
            && (m.kind == Mutex ==>
                  && (m.count == SEM_FULL <==> m.owner == None) && m.count <= SEM_FULL
                  && (m.owner == None ==> m.waiters == [])
                  && (forall t: nat :: t < |s.tasks| ==> (q in s.tasks[t].held <==> m.owner == Some(t))))
            && (m.waiters != [] ==> m.count == 0)
            && (m.mode == Prior ==> Sorted(Prio(s), m.waiters))
  {
    InvariantOfRun(states, acts, n);
    var s := states[n];
    assert SemOk(s, q);
    forall t: nat | t < |s.tasks| && s.sems[q].kind == Mutex
      ensures q in s.tasks[t].held <==> s.sems[q].owner == Some(t)
    {
      assert TaskOk(s, t);
    }
  }
}
