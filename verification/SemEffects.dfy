/** What the callers of the semaphore services see: every answer, when it is given, and what the call
    does to readiness, holdings and wait lists. */
module SemEffects {
  import opened Options
  import opened PrioList
  import opened SemSystem
  import opened SemInvariant

  // ---------- answers ----------

  predicate Exists(s: Sys, q: Sid) {
    q < |s.sems| && s.sems[q].used
  }

  /** run can take q without waiting: a mutex it owns already, or anything that is left. */
  predicate Obtainable(s: Sys, q: Sid, run: Tid) {
    q < |s.sems| && ((s.sems[q].kind == Mutex && s.sems[q].owner == Some(run)) || s.sems[q].count > 0)
  }

  /** The answers of PRT_SemPend, each with its condition */
  ghost predicate PendAnswered(s: Sys, q: Sid, run: Tid, timeout: nat, intActive: bool, locked: bool, ret: Ret) {
    && (ret == SemInvalid <==> !Exists(s, q))
    && (ret == SemPendInterr <==> Exists(s, q) && intActive)
    && (ret == Ok <==> Exists(s, q) && !intActive && Obtainable(s, q, run))
    && (ret == SemUnavailable <==> Exists(s, q) && !intActive && !Obtainable(s, q, run) && timeout == 0)
    && (ret == SemPendInLock <==> Exists(s, q) && !intActive && !Obtainable(s, q, run) && timeout != 0 && locked)
    && (ret == Blocked <==> Exists(s, q) && !intActive && !Obtainable(s, q, run) && timeout != 0 && !locked)
  }

  /** The answers of PRT_SemPost, each with its condition; the release of a free mutex is refused
      because nobody owns it. */
  ghost predicate PostAnswered(s: Sys, q: Sid, run: Tid, intActive: bool, ret: Ret) {
    var there := Exists(s, q);
    && (ret == SemInvalid <==> !there)
    && (ret == SemOverflow <==> there && s.sems[q].kind == Count && s.sems[q].count >= SEM_COUNT_MAX)
    && (ret == MutexPostInterr <==> there && s.sems[q].kind == Mutex && intActive)
    && (ret == MutexNotOwnerPost <==>
          there && s.sems[q].kind == Mutex && !intActive && s.sems[q].owner != Some(run))
    && (ret == Ok <==>
          there && if s.sems[q].kind == Count then s.sems[q].count < SEM_COUNT_MAX
                   else !intActive && s.sems[q].owner == Some(run))
  }

  /** t waits, on a mutex or on a semaphore that wakes by priority. */
  predicate WaitsOnMutex(s: Sys, t: Tid) {
    exists q :: 0 <= q < |s.sems| && t in s.sems[q].waiters && s.sems[q].kind == Mutex
  }

  predicate WaitsByPriority(s: Sys, t: Tid) {
    exists q :: 0 <= q < |s.sems| && t in s.sems[q].waiters && s.sems[q].kind == Count && s.sems[q].mode == Prior
  }

  predicate OwnsMutex(s: Sys, t: Tid) {
    exists q :: 0 <= q < |s.sems| && s.sems[q].kind == Mutex && s.sems[q].owner == Some(t)
  }

  /** p is as urgent as the base priority of t and as everybody who waits on a mutex of t. */
  ghost predicate UrgentEnough(s: Sys, t: Tid, p: nat)
    requires t < |s.tasks|
  {
    && p <= s.tasks[t].origPriority
    && forall q, w ::
         0 <= q < |s.sems| && s.sems[q].kind == Mutex && s.sems[q].owner == Some(t) && w in s.sems[q].waiters ==>
           p <= Prio(s)(w)
  }

  /** The answers of PRT_TaskSetPriority, each with its condition */
  ghost predicate SetPriorityAnswered(s: Sys, t: Tid, p: nat, ret: Ret) {
    var lifted := t < |s.tasks| && s.tasks[t].priority != s.tasks[t].origPriority;
    var may := p <= PRIORITY_LOWEST && t < |s.tasks| && !lifted;
    && (ret == PriorError <==> p > PRIORITY_LOWEST)
    && (ret == TaskIdInvalid <==> p <= PRIORITY_LOWEST && t >= |s.tasks|)
    && (ret == PriorityInherit <==> p <= PRIORITY_LOWEST && lifted)
    && (ret == PendMutex <==> may && WaitsOnMutex(s, t))
    && (ret == PendPrior <==> may && WaitsByPriority(s, t))
    && (ret == PriorLowerThanPendTask <==>
          may && !WaitsOnMutex(s, t) && !WaitsByPriority(s, t) && OwnsMutex(s, t) && !UrgentEnough(s, t, p))
    && (ret == Ok <==>
          may && !WaitsOnMutex(s, t) && !WaitsByPriority(s, t) && (OwnsMutex(s, t) ==> UrgentEnough(s, t, p)))
  }

  // ---------- effects ----------

  /** How often t has taken mutex q and not yet released it */
  function Nesting(m: Sem, t: Tid): nat {
    if m.kind == Mutex && m.owner == Some(t) then m.recur + 1 else 0
  }

  ghost predicate SameSizes(s: Sys, r: Sys) {
    |r.tasks| == |s.tasks| && |r.sems| == |s.sems|
  }

  /** The caller has q, once more than before; nothing else changed. */
  ghost predicate Took(s: Sys, r: Sys, q: Sid, run: Tid) {
    && SameSizes(s, r) && q < |s.sems| && run < |s.tasks|
    && (forall x :: 0 <= x < |s.sems| && x != q ==> r.sems[x] == s.sems[x])
    && (forall t :: 0 <= t < |s.tasks| ==> r.tasks[t].(held := []) == s.tasks[t].(held := []))
    && (forall t :: 0 <= t < |s.tasks| && t != run ==> r.tasks[t] == s.tasks[t])
    && r.sems[q].kind == s.sems[q].kind && r.sems[q].mode == s.sems[q].mode && r.sems[q].waiters == s.sems[q].waiters
    && r.sems[q].used && r.sems[q].owner == Some(run)
    && (if s.sems[q].kind == Mutex
        then
          && Nesting(r.sems[q], run) == Nesting(s.sems[q], run) % U32_SIZE + 1
          && q in r.tasks[run].held
        else r.sems[q].count == s.sems[q].count - 1 && r.tasks == s.tasks && r.sems[q].recur == s.sems[q].recur)
  }

  /** The caller waits on q and is not ready. The others keep their state, their holdings and, unless
      they were lifted, their order; the caller stands behind everybody at least as urgent. */
  ghost predicate WaitsNow(s: Sys, r: Sys, q: Sid, run: Tid, timeout: nat) {
    && SameSizes(s, r) && q < |s.sems| && run < |s.tasks|
    && (forall t :: 0 <= t < |s.tasks| && t != run ==> r.tasks[t] == s.tasks[t].(priority := r.tasks[t].priority))
    && r.tasks[run] == s.tasks[run].(ready := false, pend := true, taskPend := Some(q),
                                     timeout := s.tasks[run].timeout || timeout != WAIT_FOREVER)
    && (forall x :: 0 <= x < |s.sems| ==> r.sems[x] == s.sems[x].(waiters := r.sems[x].waiters))
    && (forall x, t :: 0 <= x < |s.sems| ==>
          (t in r.sems[x].waiters <==> t in s.sems[x].waiters || (x == q && t == run)))
    && (forall x :: 0 <= x < |s.sems| && s.sems[x].mode == Fifo ==>
          r.sems[x].waiters == if x == q then s.sems[x].waiters + [run] else s.sems[x].waiters)
    && (s.sems[q].mode == Prior ==>
          forall w :: w in s.sems[q].waiters && Prio(s)(w) <= Prio(s)(run) ==> Before(r.sems[q].waiters, w, run))
    && (forall x, a, b :: 0 <= x < |s.sems| && Before(s.sems[x].waiters, a, b) && Unlifted(s, r, a) && Unlifted(s, r, b) ==>
          Before(r.sems[x].waiters, a, b))
  }

  predicate Unlifted(s: Sys, r: Sys, t: Tid) {
    Prio(r)(t) == Prio(s)(t)
  }

  /** What a pend with this answer did */
  ghost predicate PendEffect(s: Sys, r: Sys, q: Sid, run: Tid, timeout: nat, ret: Ret) {
    match ret
    case Ok => Took(s, r, q, run)
    case Blocked => WaitsNow(s, r, q, run, timeout)
    case _ => r == s
  }

  /** The first waiter: it has q, waits no more and is ready unless it is suspended. */
  ghost predicate GotIt(s: Sys, r: Sys, q: Sid, h: Tid) {
    && q < |s.sems| && q < |r.sems| && h < |s.tasks| && h < |r.tasks|
    && r.tasks[h] == s.tasks[h].(pend := false, taskPend := None, timeout := false, ready := !s.tasks[h].suspend,
                                 held := r.tasks[h].held)
    && r.sems[q].owner == Some(h)
  }

  /** The releasing task is ready as before, unless it had to change its priority while it was being
      suspended or blocked; it holds what it held but for q. */
  ghost predicate PosterEffect(s: Sys, r: Sys, q: Sid, run: Tid) {
    && run < |s.tasks| && run < |r.tasks|
    && r.tasks[run] == s.tasks[run].(priority := r.tasks[run].priority, ready := r.tasks[run].ready,
                                     held := r.tasks[run].held)
    && (r.tasks[run].ready <==>
          r.tasks[run].priority == s.tasks[run].priority || (!s.tasks[run].suspend && !s.tasks[run].blocked))
    && (forall x :: x in r.tasks[run].held <==>
          x in s.tasks[run].held && !(x == q && q < |s.sems| && q < |r.sems| && r.sems[q].owner != Some(run)))
  }

  /** One level of nesting less, or the first waiter has q, or q is free, or its count is one more. */
  ghost predicate Released(s: Sys, r: Sys, q: Sid, run: Tid) {
    && SameSizes(s, r) && q < |s.sems| && run < |s.tasks|
    && (forall x :: 0 <= x < |s.sems| && x != q ==> r.sems[x] == s.sems[x])
    && r.sems[q].used && r.sems[q].kind == s.sems[q].kind && r.sems[q].mode == s.sems[q].mode
    && var m, n := s.sems[q], r.sems[q];
    if m.kind == Mutex && m.recur > 0 then
      r.tasks == s.tasks && n == m.(recur := n.recur) && Nesting(n, run) == Nesting(m, run) - 1
    else if m.waiters != [] then
      && n == m.(waiters := m.waiters[1..], owner := Some(m.waiters[0])) && GotIt(s, r, q, m.waiters[0])
      && m.waiters[0] != run && PosterEffect(s, r, q, run)
      && (forall t :: 0 <= t < |s.tasks| && t != run && t != m.waiters[0] ==> r.tasks[t] == s.tasks[t])
      && (m.kind == Count ==> r.tasks[run] == s.tasks[run] && r.tasks[m.waiters[0]].held == s.tasks[m.waiters[0]].held)
    else
      && n == m.(count := m.count + 1, owner := None) && PosterEffect(s, r, q, run)
      && (forall t :: 0 <= t < |s.tasks| && t != run ==> r.tasks[t] == s.tasks[t])
      && (m.kind == Count ==> r.tasks == s.tasks)
  }

  ghost predicate PostEffect(s: Sys, r: Sys, q: Sid, run: Tid, ret: Ret) {
    if ret == Ok then Released(s, r, q, run) else r == s
  }

  /** Both priorities of t are p, and nothing else changed. */
  ghost predicate SetPriorityEffect(s: Sys, r: Sys, t: Tid, p: nat, ret: Ret) {
    if ret != Ok then r == s
    else
      && r.sems == s.sems && SameSizes(s, r) && t < |s.tasks|
      && r.tasks[t] == s.tasks[t].(priority := p, origPriority := p)
      && forall u :: 0 <= u < |s.tasks| && u != t ==> r.tasks[u] == s.tasks[u]
  }

  // ---------- pend ----------

  /** PRT_SemPend gives each answer exactly when its condition holds. */
  lemma PendAnswers(s: Sys, q: Sid, run: Tid, timeout: nat, intActive: bool, locked: bool)
    requires run < |s.tasks|
    ensures PendAnswered(s, q, run, timeout, intActive, locked, Pend(s, q, run, timeout, intActive, locked).1)
  {
    hide PendListPut;
  }

  lemma AcquiredTook(s: Sys, q: Sid, run: Tid)
    requires WellFormed(s) && q < |s.sems| && s.sems[q].used && run < |s.tasks| && Acquired(s, q, run).Some?
    ensures Took(s, Acquired(s, q, run).value, q, run)
  {
    assert SemOk(s, q);
    hide WellFormed, SemOk;
  }

  /** From s to r only tasks less urgent than p were lifted, and only they may have changed order. */
  ghost predicate Reordered(s: Sys, r: Sys, p: nat) {
    && SameSizes(s, r)
    && (forall t :: 0 <= t < |s.tasks| ==> r.tasks[t] == s.tasks[t].(priority := r.tasks[t].priority))
    && (forall t: nat :: Unlifted(s, r, t) || (Prio(s)(t) > p && Prio(r)(t) <= p))
    && (forall x :: 0 <= x < |s.sems| ==> r.sems[x] == s.sems[x].(waiters := r.sems[x].waiters))
    && (forall x :: 0 <= x < |s.sems| ==> ListReordered(s, r, s.sems[x], r.sems[x].waiters))
  }

  ghost predicate ListReordered(s: Sys, r: Sys, m: Sem, l: seq<Tid>) {
    && (forall t :: t in l <==> t in m.waiters)
    && (m.mode == Fifo ==> l == m.waiters)
    && (forall a, b :: Before(m.waiters, a, b) && Unlifted(s, r, a) && Unlifted(s, r, b) ==> Before(l, a, b))
  }

  lemma ReorderedJoin(s: Sys, r: Sys, z: Sys, p: nat)
    requires Reordered(s, r, p) && Reordered(r, z, p)
    ensures Reordered(s, z, p)
  {
    forall t: nat ensures Unlifted(s, z, t) || (Prio(s)(t) > p && Prio(z)(t) <= p) {
      assert Unlifted(s, r, t) || (Prio(s)(t) > p && Prio(r)(t) <= p);
    }
    hide Before;
    forall x | 0 <= x < |s.sems| ensures ListReordered(s, z, s.sems[x], z.sems[x].waiters) {
      assert ListReordered(s, r, s.sems[x], r.sems[x].waiters) && ListReordered(r, z, r.sems[x], z.sems[x].waiters);
      forall a, b | Before(s.sems[x].waiters, a, b) && Unlifted(s, z, a) && Unlifted(s, z, b)
        ensures Before(z.sems[x].waiters, a, b)
      {
        assert Unlifted(s, r, a) && Unlifted(s, r, b);
      }
    }
  }

  /** Taking o out and putting it back by urgency moves nobody else. */
  lemma ResortKeepsOrder(prio: nat -> nat, l: seq<nat>, o: nat, a: nat, b: nat)
    requires Before(l, a, b) && a != o && b != o
    ensures Before(Insert(prio, Remove(l, o), o), a, b)
  {
    RemoveKeepsOrder(l, o, a, b);
    hide *;
    InsertKeepsOrder(prio, Remove(l, o), o, a, b);
  }

  lemma TurnReorders(s: Sys, o: Tid, p: nat)
    requires WellFormed(s) && o < |s.tasks| && p < s.tasks[o].priority
    ensures Reordered(s, Turn(s, o, p), p)
  {
    assert TaskOk(s, o);
    if s.tasks[o].pend && s.sems[s.tasks[o].taskPend.value].mode == Prior {
      WaitListOk(s, s.tasks[o].taskPend.value);
      hide WellFormed, TaskOk;
      ResortReorders(s, o, p, s.tasks[o].taskPend.value);
    } else {
      hide WellFormed, TaskOk;
    }
  }

  lemma ResortReorders(s: Sys, o: Tid, p: nat, q: Sid)
    requires o < |s.tasks| && p < s.tasks[o].priority && !s.tasks[o].ready && s.tasks[o].pend
    requires q < |s.sems| && s.tasks[o].taskPend == Some(q) && s.sems[q].mode == Prior
    requires Distinct(s.sems[q].waiters) && o in s.sems[q].waiters
    ensures Reordered(s, Turn(s, o, p), p)
  {
    var r, s1 := Turn(s, o, p), WithPriority(s, o, p);
    var l := s.sems[q].waiters;
    var n := Insert(Prio(s1), Remove(l, o), o);
    ResortMembers(s, q, o, s1);
    assert r.sems == s.sems[q := s.sems[q].(waiters := n)] && r.tasks == s1.tasks;
    assert !Unlifted(s, r, o);
    hide Turn, Before, Insert, Remove, Distinct;
    forall a, b | Before(l, a, b) && Unlifted(s, r, a) && Unlifted(s, r, b) ensures Before(n, a, b) {
      ResortKeepsOrder(Prio(s1), l, o, a, b);
    }
  }

  lemma WaitListOk(s: Sys, q: Sid)
    requires WellFormed(s) && q < |s.sems|
    ensures SemOk(s, q) && Distinct(s.sems[q].waiters)
  {
  }

  lemma ResortMembers(s: Sys, q: Sid, o: Tid, s1: Sys)
    requires q < |s.sems| && Distinct(s.sems[q].waiters) && o in s.sems[q].waiters
    ensures forall t :: t in Insert(Prio(s1), Remove(s.sems[q].waiters, o), o) <==> t in s.sems[q].waiters
  {
    RemoveElements(s.sems[q].waiters, o);
    InsertElements(Prio(s1), Remove(s.sems[q].waiters, o), o);
  }

  lemma {:induction false} BoostReorders(s: Sys, o: Tid, p: nat)
    requires WellFormed(s)
    ensures Reordered(s, Boosted(s, o, p), p)
    decreases LessUrgent(s, p)
  {
    hide WellFormed, Reordered, Turn;
    NothingReordered(s, p);
    if o < |s.tasks| && s.tasks[o].priority > p {
      var s1 := Turn(s, o, p);
      TurnTables(s, o, p);
      TurnReorders(s, o, p);
      assert o in LessUrgent(s, p) && o !in LessUrgent(s1, p);
      if !s.tasks[o].ready && Next(s, o).Some? {
        BoostReorders(s1, Next(s, o).value, p);
        ReorderedJoin(s, s1, Boosted(s1, Next(s, o).value, p), p);
      }
    }
  }

  lemma NothingReordered(s: Sys, p: nat)
    ensures Reordered(s, s, p)
  {
  }

  /** Before the inheritance the caller is the only one that moved. */
  lemma EnqueuedWaits(s: Sys, q: Sid, run: Tid, timeout: nat)
    requires WellFormed(s) && q < |s.sems| && run < |s.tasks| && s.tasks[run].ready
    ensures WaitsNow(s, Enqueued(s, q, run, timeout), q, run, timeout)
  {
    var r := Enqueued(s, q, run, timeout);
    var l := s.sems[q].waiters;
    assert TaskOk(s, run) && SemOk(s, q);
    assert run !in l;
    hide WellFormed, SemOk, TaskOk, Before;
    InsertElements(Prio(s), l, run);
    if s.sems[q].mode == Prior {
      forall a, b | Before(l, a, b) ensures Before(Insert(Prio(s), l, run), a, b) { InsertKeepsOrder(Prio(s), l, run, a, b); }
      forall w | w in l && Prio(s)(w) <= Prio(s)(run) ensures Before(Insert(Prio(s), l, run), w, run) {
        BehindUrgent(s, l, run, w);
      }
    } else {
      forall a, b | Before(l, a, b) ensures Before(l + [run], a, b) { AppendedOrder(l, run, a, b); }
    }
  }

  lemma AppendedOrder(l: seq<nat>, x: nat, a: nat, b: nat)
    requires Before(l, a, b)
    ensures Before(l + [x], a, b)
  {
    var i, j :| 0 <= i < j < |l| && l[i] == a && l[j] == b;
    assert (l + [x])[i] == a && (l + [x])[j] == b;
  }

  lemma BehindUrgent(s: Sys, l: seq<nat>, run: Tid, w: Tid)
    requires w in l && Prio(s)(w) <= Prio(s)(run) && Sorted(Prio(s), l)
    ensures Before(Insert(Prio(s), l, run), w, run)
  {
    var k := Position(Prio(s), l, Prio(s)(run));
    var i :| 0 <= i < |l| && l[i] == w;
    assert i < k;
    var r := Insert(Prio(s), l, run);
    assert r[i] == w && r[k] == run;
  }

  lemma WaitsThenLifted(s: Sys, s1: Sys, r: Sys, q: Sid, run: Tid, timeout: nat)
    requires WaitsNow(s, s1, q, run, timeout) && Reordered(s1, r, Prio(s)(run)) && SamePriorities(s, s1)
    ensures WaitsNow(s, r, q, run, timeout)
  {
    hide Before;
    var p := Prio(s)(run);
    assert Unlifted(s1, r, run);
    forall w | w in s.sems[q].waiters && Prio(s)(w) <= p && s.sems[q].mode == Prior
      ensures Before(r.sems[q].waiters, w, run)
    {
      assert Before(s1.sems[q].waiters, w, run) && Unlifted(s1, r, w) && Unlifted(s1, r, run);
      assert ListReordered(s1, r, s1.sems[q], r.sems[q].waiters);
    }
    forall x, a, b | 0 <= x < |s.sems| && Before(s.sems[x].waiters, a, b) && Unlifted(s, r, a) && Unlifted(s, r, b)
      ensures Before(r.sems[x].waiters, a, b)
    {
      assert ListReordered(s1, r, s1.sems[x], r.sems[x].waiters);
      assert Unlifted(s, s1, a) && Unlifted(s, s1, b);
      assert Unlifted(s1, r, a) && Unlifted(s1, r, b);
    }
    forall x, t | 0 <= x < |s.sems|
      ensures t in r.sems[x].waiters <==> t in s.sems[x].waiters || (x == q && t == run)
    {
      assert ListReordered(s1, r, s1.sems[x], r.sems[x].waiters);
    }
    forall x | 0 <= x < |s.sems| && s.sems[x].mode == Fifo
      ensures r.sems[x].waiters == if x == q then s.sems[x].waiters + [run] else s.sems[x].waiters
    {
      assert ListReordered(s1, r, s1.sems[x], r.sems[x].waiters);
    }
  }

  lemma PutWaits(s: Sys, q: Sid, run: Tid, timeout: nat)
    requires WellFormed(s) && q < |s.sems| && s.sems[q].used && s.sems[q].count == 0
    requires run < |s.tasks| && s.tasks[run].ready
    ensures WaitsNow(s, PendListPut(s, q, run, timeout), q, run, timeout)
  {
    var s1 := Enqueued(s, q, run, timeout);
    EnqueuedWaits(s, q, run, timeout);
    EnqueueTables(s, q, run, timeout);
    assert SamePriorities(s, s1);
    hide WellFormed, WaitsNow, Enqueued, Reordered;
    if s.sems[q].kind == Mutex && s.sems[q].owner.Some? {
      BoostReorders(s1, s.sems[q].owner.value, s.tasks[run].priority);
      WaitsThenLifted(s, s1, Boosted(s1, s.sems[q].owner.value, s.tasks[run].priority), q, run, timeout);
    }
  }

  /** Main result, pend. Each answer is given exactly when its condition holds. With Ok the caller has
      the semaphore once more and nobody else notices; with Blocked it waits, behind everybody at least
      as urgent, is not ready, and every other task keeps its readiness and holdings; any other answer
      changes nothing. */
  lemma PendDoes(s: Sys, q: Sid, run: Tid, timeout: nat, intActive: bool, locked: bool)
    requires Inv(s) && run < |s.tasks| && s.tasks[run].ready
    ensures var (r, ret) := Pend(s, q, run, timeout, intActive, locked);
            Inv(r) && PendAnswered(s, q, run, timeout, intActive, locked, ret) && PendEffect(s, r, q, run, timeout, ret)
  {
    PendKeeps(s, q, run, timeout, intActive, locked);
    PendAnswers(s, q, run, timeout, intActive, locked);
    hide Inv, PendListPut, Took, WaitsNow, PendAnswered;
    TablesOf(s);
    if q < |s.sems| && s.sems[q].used && !intActive {
      if Acquired(s, q, run).Some? {
        AcquiredTook(s, q, run);
      } else if timeout != 0 && !locked {
        PutWaits(s, q, run, timeout);
      }
    }
  }

  lemma TablesOf(s: Sys)
    requires Inv(s)
    ensures WellFormed(s)
  {
  }

  // ---------- post ----------

  lemma PostAnswers(s: Sys, q: Sid, run: Tid, intActive: bool)
    requires WellFormed(s) && run < |s.tasks|
    ensures PostAnswered(s, q, run, intActive, Post(s, q, run, intActive).1)
  {
    if q < |s.sems| { assert SemOk(s, q); }
    hide WellFormed, SemOk, HandedOver, Freed, Restored;
  }

  /** Restoring moves at most the priority and the readiness of the releasing task. */
  lemma RestoredDoes(s: Sys, run: Tid)
    requires run < |s.tasks| && s.tasks[run].ready && !s.tasks[run].pend
    ensures var r, c := Restored(s, run), s.tasks[run];
            && r == s.(tasks := s.tasks[run := r.tasks[run]]) && |r.tasks| == |s.tasks|
            && r.tasks[run] == c.(priority := r.tasks[run].priority, ready := r.tasks[run].ready)
            && (r.tasks[run].ready <==> r.tasks[run].priority == c.priority || (!c.suspend && !c.blocked))
  {
    assert s.tasks == s.tasks[run := s.tasks[run]];
    hide BestPending;
  }

  lemma HandOverDoes(s: Sys, q: Sid, run: Tid)
    requires WellFormed(s) && q < |s.sems| && run < |s.tasks| && s.tasks[run].ready
    requires s.sems[q].waiters != [] && s.sems[q].used
    requires s.sems[q].kind == Mutex ==> s.sems[q].owner == Some(run) && s.sems[q].recur == 0
    ensures s.sems[q].waiters[0] < |s.tasks|
    ensures Released(s, if s.sems[q].kind == Mutex then Restored(HandedOver(s, q, run), run) else HandedOver(s, q, run), q, run)
  {
    var h := HandOverFields(s, q, run);
    var s1 := HandedOver(s, q, run);
    assert TaskOk(s, run);
    RemoveElements(s.tasks[run].held, q);
    hide WellFormed, TaskOk, HandedOver, Restored, Released;
    if s.sems[q].kind == Mutex {
      RestoredDoes(s1, run);
      HandedReleases(s, s1, Restored(s1, run), q, run, h);
    } else {
      CountReleases(s, s1, q, run, h);
    }
  }

  lemma HandedReleases(s: Sys, s1: Sys, r: Sys, q: Sid, run: Tid, h: Tid)
    requires HandOverShape(s, s1, q, run, h) && s.sems[q].kind == Mutex
    requires forall x :: x in s1.tasks[run].held <==> x in s.tasks[run].held && x != q
    requires |r.tasks| == |s1.tasks| && r == s1.(tasks := s1.tasks[run := r.tasks[run]])
    requires r.tasks[run] == s1.tasks[run].(priority := r.tasks[run].priority, ready := r.tasks[run].ready)
    requires r.tasks[run].ready <==>
               r.tasks[run].priority == s.tasks[run].priority || (!s.tasks[run].suspend && !s.tasks[run].blocked)
    ensures Released(s, r, q, run)
  {
    assert r.tasks[h] == s1.tasks[h] && r.sems == s1.sems;
    assert GotIt(s, r, q, h);
    assert PosterEffect(s, r, q, run);
    hide GotIt, PosterEffect;
  }

  lemma CountReleases(s: Sys, s1: Sys, q: Sid, run: Tid, h: Tid)
    requires HandOverShape(s, s1, q, run, h) && s.sems[q].kind == Count && s.tasks[run].ready
    requires q !in s.tasks[run].held
    ensures Released(s, s1, q, run)
  {
    assert s1.tasks[run] == s.tasks[run];
    assert GotIt(s, s1, q, h);
    assert PosterEffect(s, s1, q, run);
    hide GotIt, PosterEffect;
  }

  lemma FreeDoes(s: Sys, q: Sid, run: Tid)
    requires WellFormed(s) && q < |s.sems| && run < |s.tasks| && s.tasks[run].ready
    requires s.sems[q].waiters == [] && s.sems[q].used
    requires s.sems[q].kind == Mutex ==> s.sems[q].owner == Some(run) && s.sems[q].recur == 0
    ensures Released(s, if s.sems[q].kind == Mutex then Restored(Freed(s, q, run), run) else Freed(s, q, run), q, run)
  {
    assert TaskOk(s, run) && SemOk(s, q);
    RemoveElements(s.tasks[run].held, q);
    var s1 := Freed(s, q, run);
    hide WellFormed, TaskOk, SemOk, Restored, Released;
    if s.sems[q].kind == Mutex {
      RestoredDoes(s1, run);
      FreedReleases(s, s1, Restored(s1, run), q, run);
    } else {
      assert s1.tasks[run] == s.tasks[run];
      FreedReleases(s, s1, s1, q, run);
    }
  }

  lemma FreedReleases(s: Sys, s1: Sys, r: Sys, q: Sid, run: Tid)
    requires q < |s.sems| && run < |s.tasks| && s.tasks[run].ready && s.sems[q].waiters == [] && s.sems[q].used
    requires s.sems[q].kind == Mutex ==> s.sems[q].recur == 0
    requires s1.sems == s.sems[q := s.sems[q].(count := s.sems[q].count + 1, owner := None)]
    requires |s1.tasks| == |s.tasks| && s1.tasks == s.tasks[run := s.tasks[run].(held := s1.tasks[run].held)]
    requires forall x :: x in s1.tasks[run].held <==> x in s.tasks[run].held && x != q
    requires |r.tasks| == |s1.tasks| && r == s1.(tasks := s1.tasks[run := r.tasks[run]])
    requires r.tasks[run] == s1.tasks[run].(priority := r.tasks[run].priority, ready := r.tasks[run].ready)
    requires r.tasks[run].ready <==>
               r.tasks[run].priority == s.tasks[run].priority || (!s.tasks[run].suspend && !s.tasks[run].blocked)
    requires s.sems[q].kind == Count ==> r.tasks == s.tasks
    ensures Released(s, r, q, run)
  {
    assert r.sems == s1.sems;
    assert PosterEffect(s, r, q, run);
    hide PosterEffect;
  }

  /** Main result, post. Each answer is given exactly when its condition holds. With Ok one level of
      nesting is gone, or the first waiter has the semaphore and is ready unless suspended, or it is
      free, or its count is one more; the releasing task stays ready unless it was being suspended or
      blocked while its priority changed, and nobody else changes. Any other answer changes nothing. */
  lemma PostDoes(s: Sys, q: Sid, run: Tid, intActive: bool)
    requires Inv(s) && run < |s.tasks| && s.tasks[run].ready
    ensures var (r, ret) := Post(s, q, run, intActive);
            Inv(r) && PostAnswered(s, q, run, intActive, ret) && PostEffect(s, r, q, run, ret)
  {
    PostKeeps(s, q, run, intActive);
    PostAnswers(s, q, run, intActive);
    hide Inv, Released, PostAnswered;
    TablesOf(s);
    if q < |s.sems| && PostErrorCheck(s.sems[q], run, intActive) == Ok {
      PostBranches(s, q, run, intActive);
    }
  }

  lemma PostBranches(s: Sys, q: Sid, run: Tid, intActive: bool)
    requires WellFormed(s) && run < |s.tasks| && s.tasks[run].ready
    requires q < |s.sems| && PostErrorCheck(s.sems[q], run, intActive) == Ok
    ensures var (r, ret) := Post(s, q, run, intActive); ret == Ok && Released(s, r, q, run)
  {
    var m := s.sems[q];
    assert SemOk(s, q);
    assert m.waiters != [] ==> m.waiters[0] in m.waiters;
    if m.kind == Mutex && m.recur > 0 {
      hide WellFormed, SemOk;
    } else {
      if m.waiters != [] { HandOverDoes(s, q, run); } else { FreeDoes(s, q, run); }
      hide Released, HandedOver, Freed, Restored;
    }
  }

  // ---------- priority change ----------

  /** What is held is what is owned, and what is waited for is where one waits. */
  lemma GuardMeans(s: Sys, t: Tid)
    requires WellFormed(s) && t < |s.tasks|
    ensures s.tasks[t].held != [] <==> OwnsMutex(s, t)
    ensures var c := s.tasks[t];
            && (WaitsOnMutex(s, t) <==> c.pend && c.taskPend.Some? && c.taskPend.value < |s.sems|
                                        && s.sems[c.taskPend.value].kind == Mutex)
            && (WaitsByPriority(s, t) <==> c.pend && c.taskPend.Some? && c.taskPend.value < |s.sems|
                                           && s.sems[c.taskPend.value].kind == Count
                                           && s.sems[c.taskPend.value].mode == Prior)
  {
    var c := s.tasks[t];
    assert TaskOk(s, t);
    if c.held != [] { assert c.held[0] in c.held; }
    forall q | 0 <= q < |s.sems| && t in s.sems[q].waiters ensures c.pend && c.taskPend == Some(q) { assert SemOk(s, q); }
    forall q | 0 <= q < |s.sems| && s.sems[q].kind == Mutex && s.sems[q].owner == Some(t) ensures q in c.held {
      assert SemOk(s, q);
    }
  }

  /** The guard looks at the first waiters only, and that is enough. */
  lemma BestMeans(s: Sys, t: Tid, p: nat)
    requires WellFormed(s) && t < |s.tasks|
    ensures p <= BestPending(s, s.tasks[t].held, s.tasks[t].origPriority) <==> UrgentEnough(s, t, p)
  {
    var c := s.tasks[t];
    assert TaskOk(s, t);
    forall q | q in c.held ensures q < |s.sems| && Sorted(Prio(s), s.sems[q].waiters) { assert SemOk(s, q); }
    BestPendingIsBest(s, c.held, c.origPriority);
    forall q | 0 <= q < |s.sems| && s.sems[q].kind == Mutex && s.sems[q].owner == Some(t) ensures q in c.held {
      assert SemOk(s, q);
    }
    hide WellFormed, BestPending, Sorted;
    if UrgentEnough(s, t, p) && BestPending(s, c.held, c.origPriority) != c.origPriority {
      var q :| q in c.held && s.sems[q].waiters != []
               && BestPending(s, c.held, c.origPriority) == Prio(s)(s.sems[q].waiters[0]);
      assert s.sems[q].waiters[0] in s.sems[q].waiters;
    }
  }

  /** Main result, priority change. Each answer is given exactly when its condition on the fields and
      wait lists holds; Ok sets both priorities and nothing else, any other answer changes nothing. */
  lemma SetPriorityDoes(s: Sys, t: Tid, p: nat)
    requires Inv(s)
    ensures var (r, ret) := SetPriority(s, t, p);
            Inv(r) && SetPriorityAnswered(s, t, p, ret) && SetPriorityEffect(s, r, t, p, ret)
  {
    SetPriorityKeeps(s, t, p);
    hide Inv;
    TablesOf(s);
    if t < |s.tasks| {
      GuardMeans(s, t);
      BestMeans(s, t, p);
    }
    hide WellFormed, BestPending, UrgentEnough, WaitsOnMutex, WaitsByPriority, OwnsMutex;
  }

  // ---------- creation ----------

  /** A new semaphore is free, with the count, kind and wake-up order asked for; nothing else changes. */
  lemma CreateDoes(s: Sys, q: Sid, count: nat, kind: Kind, mode: Mode)
    requires Inv(s) && Enabled(s, DoCreate(q, count, kind, mode))
    ensures var r := Created(s, q, count, kind, mode);
            && Inv(r) && r.tasks == s.tasks && SameSizes(s, r)
            && (forall x :: 0 <= x < |s.sems| && x != q ==> r.sems[x] == s.sems[x])
            && r.sems[q] == Sem(true, kind, mode, count, None, 0, [])
  {
    CreateKeeps(s, q, count, kind, mode);
    assert SemOk(s, q);
  }

  // ---------- runs ----------

  /** Every task that is neither waiting nor suspended nor blocked is ready. */
  ghost predicate NobodyLost(s: Sys) {
    forall t :: 0 <= t < |s.tasks| ==> !Lost(s.tasks[t])
  }

  predicate Lost(c: Task) {
    !c.pend && !c.suspend && !c.blocked && !c.ready
  }

  lemma PendLosesNobody(s: Sys, r: Sys, q: Sid, run: Tid, timeout: nat, ret: Ret)
    requires NobodyLost(s) && PendEffect(s, r, q, run, timeout, ret)
    ensures NobodyLost(r)
  {
    if ret == Ok {
      forall t | 0 <= t < |r.tasks| ensures !Lost(r.tasks[t]) {
        assert r.tasks[t].(held := []) == s.tasks[t].(held := []);
        assert Lost(r.tasks[t]) == Lost(r.tasks[t].(held := [])) && Lost(s.tasks[t]) == Lost(s.tasks[t].(held := []));
      }
    } else if ret == Blocked {
      forall t | 0 <= t < |r.tasks| ensures !Lost(r.tasks[t]) { assert !Lost(s.tasks[t]); }
    }
  }

  lemma PostLosesNobody(s: Sys, r: Sys, q: Sid, run: Tid, ret: Ret)
    requires NobodyLost(s) && PostEffect(s, r, q, run, ret)
    ensures NobodyLost(r)
  {
    if ret == Ok {
      forall t | 0 <= t < |r.tasks| ensures !Lost(r.tasks[t]) { assert !Lost(s.tasks[t]); }
    }
  }

  lemma StepLosesNobody(s: Sys, a: Action)
    requires Inv(s) && WellFormed(s) && Enabled(s, a) && !a.DoEnvironment? && NobodyLost(s)
    ensures NobodyLost(Apply(s, a))
  {
    match a
    case DoPend(run, q, timeout, irq, locked) =>
      PendDoes(s, q, run, timeout, irq, locked);
      hide *;
      PendLosesNobody(s, Pend(s, q, run, timeout, irq, locked).0, q, run, timeout, Pend(s, q, run, timeout, irq, locked).1);
    case DoPost(run, q, irq) =>
      PostDoes(s, q, run, irq);
      hide *;
      PostLosesNobody(s, Post(s, q, run, irq).0, q, run, Post(s, q, run, irq).1);
    case DoSetPriority(t, p) => hide Inv, WellFormed, CheckPrioritySet;
    case DoCreate(q, count, kind, mode) => hide Inv, WellFormed;
    case _ =>
  }

  /** Main result, readiness. In every run no semaphore service and no priority change leaves a task
      off the ready queue that is neither waiting nor suspended nor blocked: if that never happens by
      other means, it never happens. */
  lemma {:induction false} EveryRunLosesNobody(states: seq<Sys>, acts: seq<Action>, n: nat)
    requires Run(states, acts) && n <= |acts| < |states| && NobodyLost(states[0])
    requires forall i :: 0 <= i < n && acts[i].DoEnvironment? && NobodyLost(states[i]) ==> NobodyLost(states[i + 1])
    ensures NobodyLost(states[n])
    decreases n
  {
    if n > 0 {
      EveryRunLosesNobody(states, acts, n - 1);
      InvariantOfRun(states, acts, n - 1);
      assert Step(states[n - 1], acts[n - 1], states[n]);
      TablesOf(states[n - 1]);
      hide Inv, WellFormed, Run, NobodyLost, Apply;
      if !acts[n - 1].DoEnvironment? { StepLosesNobody(states[n - 1], acts[n - 1]); }
    }
  }
}
