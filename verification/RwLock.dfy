/** The QSemOS read/write lock: one signed count and two wait lists in order of urgency. */
module RwLock {
  import opened Options
  import opened PrioList

  type Task = nat

  const S32_MAX: int := 0x7FFF_FFFF

  datatype Status = Ok | Invalid | Busy | NotPermitted | Blocked | Deadlock
  datatype Mode = NoneMode | ReadMode | WriteMode | WriteFirst | ReadFirst
  datatype Timeout = Zero | Ticks | Forever

  /** `prio` holds the priority of every task control block; `timed` the waiters with a timer. */
  datatype Lock = Lock(
    prio: seq<nat>,
    count: int,
    owner: Option<Task>,
    readWait: seq<Task>,
    writeWait: seq<Task>,
    timed: set<Task>)

  function Prio(prio: seq<nat>): nat -> nat {
    (t: nat) => if t < |prio| then prio[t] else 0
  }

  /** OsRwLockGetMode */
  function GetMode(prio: nat -> nat, readWait: seq<Task>, writeWait: seq<Task>): Mode {
    if readWait == [] && writeWait == [] then NoneMode
    else if writeWait == [] then ReadMode
    else if readWait == [] then WriteMode
    else if prio(writeWait[0]) <= prio(readWait[0]) then WriteFirst
    else ReadFirst
  }

  /** OsRwLockPendFindPosSub: the loop stops at the first waiter that is not more urgent, and
      steps behind it when it is as urgent. */
  function FindPosSub(prio: nat -> nat, l: seq<Task>, p: nat): (i: nat)
    ensures i <= |l|
  {
    if l == [] then 0
    else if prio(l[0]) < p then 1 + FindPosSub(prio, l[1..], p)
    else if prio(l[0]) > p then 0
    else 1
  }

  /** OsRwLockPendFindPos: the index the caller is inserted at */
  function FindPos(prio: nat -> nat, l: seq<Task>, p: nat): (i: nat)
    ensures i <= |l|
  {
    if l == [] then 0
    else if prio(l[0]) > p then 0
    else if prio(l[|l| - 1]) <= p then |l|
    else FindPosSub(prio, l, p)
  }

  /** OsRwlockPriCompare */
  predicate PriCompare(prio: nat -> nat, t: Task, l: seq<Task>) {
    l == [] || prio(t) < prio(l[0])
  }

  /** OsRwLockPendSchedule up to the task switch, on the read list */
  function PendRead(s: Lock, t: Task, timeout: Timeout): (Lock, Status) {
    if timeout == Zero then (s, Invalid)
    else (s.(readWait := InsertAt(s.readWait, FindPos(Prio(s.prio), s.readWait, Prio(s.prio)(t)), t),
             timed := if timeout == Ticks then s.timed + {t} else s.timed), Blocked)
  }

  function PendWrite(s: Lock, t: Task, timeout: Timeout): (Lock, Status) {
    if timeout == Zero then (s, Invalid)
    else (s.(writeWait := InsertAt(s.writeWait, FindPos(Prio(s.prio), s.writeWait, Prio(s.prio)(t)), t),
             timed := if timeout == Ticks then s.timed + {t} else s.timed), Blocked)
  }

  /** OsRwLockTryRdCheck */
  function TryRdCheck(s: Lock, t: Task): Status {
    if s.owner == Some(t) then Invalid
    else if s.count >= 0 && !PriCompare(Prio(s.prio), t, s.writeWait) then Busy
    else if s.count < 0 then Busy
    else Ok
  }

  /** OsRwLockRdPend on a valid lock */
  function RdPend(s: Lock, t: Task, timeout: Timeout, try: bool): (Lock, Status) {
    if try && TryRdCheck(s, t) != Ok then (s, TryRdCheck(s, t))
    else if s.count >= 0 && PriCompare(Prio(s.prio), t, s.writeWait) then
      if s.count == S32_MAX then (s, Invalid) else (s.(count := s.count + 1), Ok)
    else if s.owner == Some(t) then (s, Invalid)
    else PendRead(s, t, timeout)
  }

  /** OsRwlockTryWrCheck */
  function TryWrCheck(s: Lock, t: Task): Status {
    if s.count > 0 then Busy
    else if s.count < 0 && s.owner != Some(t) then Busy
    else Ok
  }

  /** OsRwLockWrPend on a valid lock */
  function WrPend(s: Lock, t: Task, timeout: Timeout, try: bool): (Lock, Status) {
    if try && TryWrCheck(s, t) != Ok then (s, TryWrCheck(s, t))
    else if s.count == 0 then (s.(count := -1, owner := Some(t)), Ok)
    else if s.count < 0 && s.owner == Some(t) then
      if s.count == -S32_MAX - 1 then (s, Invalid) else (s, Ok)
    else PendWrite(s, t, timeout)
  }

  /** How many more readers the loop of OsRwLockPost wakes: all of them, or those more urgent
      than the limit, unless the count is at its maximum. */
  function WakeMore(prio: nat -> nat, rest: seq<Task>, count: int, limit: Option<nat>): (k: nat)
    ensures k <= |rest|
  {
    if rest == [] then 0
    else if limit.Some? && prio(rest[0]) >= limit.value then 0
    else if count == S32_MAX then 0
    else 1 + WakeMore(prio, rest[1..], count + 1, limit)
  }

  /** The loop ended because the count was at its maximum. */
  predicate Overflows(prio: nat -> nat, rest: seq<Task>, count: int, limit: Option<nat>) {
    if rest == [] then false
    else if limit.Some? && prio(rest[0]) >= limit.value then false
    else if count == S32_MAX then true
    else Overflows(prio, rest[1..], count + 1, limit)
  }

  function Limit(s: Lock): Option<nat> {
    if s.writeWait == [] then None else Some(Prio(s.prio)(s.writeWait[0]))
  }

  function SetOf(l: seq<Task>): set<Task> {
    set t | t in l
  }

  /** OsRwLockPost */
  function Post(s: Lock): (Lock, Status) {
    var s0 := s.(count := 0, owner := None);
    match GetMode(Prio(s.prio), s.readWait, s.writeWait)
    case NoneMode => (s0, Ok)
    case WriteMode => (WokenWriter(s0), Ok)
    case WriteFirst => (WokenWriter(s0), Ok)
    case _ =>
      var k := 1 + WakeMore(Prio(s.prio), s.readWait[1..], 1, Limit(s));
      (s0.(count := k, readWait := s.readWait[k..], timed := s.timed - SetOf(s.readWait[..k])),
       if Overflows(Prio(s.prio), s.readWait[1..], 1, Limit(s)) then Invalid else Ok)
  }

  function WokenWriter(s0: Lock): Lock {
    if s0.writeWait == [] then s0
    else s0.(count := -1, owner := Some(s0.writeWait[0]), writeWait := s0.writeWait[1..], timed := s0.timed - {s0.writeWait[0]})
  }

  /** OsRwLockUnlock on a valid lock */
  function Unlock(s: Lock, t: Task): (Lock, Status) {
    if s.count == 0 then (s, NotPermitted)
    else if s.count < 0 && s.owner != Some(t) then (s, NotPermitted)
    else if s.count > 1 then (s.(count := s.count - 1), Ok)
    else if s.count < -1 then (s.(count := s.count + 1), Ok)
    else Post(s)
  }

  /** A timer expires: the waiter leaves its list. */
  function Expire(s: Lock, t: Task): Lock {
    s.(readWait := Remove(s.readWait, t), writeWait := Remove(s.writeWait, t), timed := s.timed - {t})
  }

  function Fresh(prio: seq<nat>): Lock {
    Lock(prio, 0, None, [], [], {})
  }

  // ---------- the insert position ----------

  /** In a sorted list the loop stops where the list stays sorted. */
  lemma {:induction false} FindPosSubBetween(prio: nat -> nat, l: seq<Task>, p: nat)
    requires Sorted(prio, l)
    ensures var i := FindPosSub(prio, l, p);
            && (forall k :: 0 <= k < i ==> prio(l[k]) <= p)
            && (forall k :: i <= k < |l| ==> prio(l[k]) >= p)
  {
    if l != [] && prio(l[0]) < p {
      assert Sorted(prio, l[1..]) by { forall a, b | 0 <= a < b < |l| - 1 ensures prio(l[1..][a]) <= prio(l[1..][b]) { } }
      FindPosSubBetween(prio, l[1..], p);
      var i := FindPosSub(prio, l, p);
      forall k | i <= k < |l| ensures prio(l[k]) >= p { assert l[k] == l[1..][k - 1]; }
    }
  }

  lemma FindPosBetween(prio: nat -> nat, l: seq<Task>, p: nat)
    requires Sorted(prio, l)
    ensures var i := FindPos(prio, l, p);
            && (forall k :: 0 <= k < i ==> prio(l[k]) <= p)
            && (forall k :: i <= k < |l| ==> prio(l[k]) >= p)
  {
    FindPosSubBetween(prio, l, p);
  }

  lemma BetweenSorted(prio: nat -> nat, l: seq<Task>, i: nat, t: Task)
    requires Sorted(prio, l) && i <= |l|
    requires forall k :: 0 <= k < i ==> prio(l[k]) <= prio(t)
    requires forall k :: i <= k < |l| ==> prio(l[k]) >= prio(t)
    ensures Sorted(prio, InsertAt(l, i, t))
  {
    var r := InsertAt(l, i, t);
    forall a, b | 0 <= a < b < |r| ensures prio(r[a]) <= prio(r[b]) {
      if a != i && b != i {
        assert r[a] == l[if a < i then a else a - 1] && r[b] == l[if b < i then b else b - 1];
      }
    }
  }

  /** Inserting at the chosen position keeps the list in order of urgency. */
  lemma FindPosSorted(prio: nat -> nat, l: seq<Task>, t: Task)
    requires Sorted(prio, l)
    ensures Sorted(prio, InsertAt(l, FindPos(prio, l, prio(t)), t))
  {
    FindPosBetween(prio, l, prio(t));
    BetweenSorted(prio, l, FindPos(prio, l, prio(t)), t);
  }

  predicate TwoEquals(prio: nat -> nat, l: seq<Task>, p: nat) {
    exists i, j :: 0 <= i < j < |l| && prio(l[i]) == p && prio(l[j]) == p
  }

  /** The loop stops before the last waiter that is as urgent exactly when there are two. */
  lemma {:induction false} FindPosSubFifo(prio: nat -> nat, l: seq<Task>, p: nat)
    requires Sorted(prio, l)
    ensures FindPosSub(prio, l, p) == Position(prio, l, p) <==> !TwoEquals(prio, l, p)
  {
    if l == [] || prio(l[0]) > p {
      assert !TwoEquals(prio, l, p);
    } else {
      var r := l[1..];
      assert Sorted(prio, r) by { forall a, b | 0 <= a < b < |r| ensures prio(r[a]) <= prio(r[b]) { } }
      if prio(l[0]) < p {
        FindPosSubFifo(prio, r, p);
        TwoEqualsTail(prio, l, p);
      } else if r != [] && prio(r[0]) == p {
        assert prio(l[0]) == p && prio(l[1]) == p;
        assert Position(prio, l, p) >= 2;
      } else {
        forall j | 1 <= j < |l| ensures prio(l[j]) != p { assert prio(r[0]) <= prio(r[j - 1]); }
      }
    }
  }

  lemma TwoEqualsTail(prio: nat -> nat, l: seq<Task>, p: nat)
    requires l != [] && prio(l[0]) != p
    ensures TwoEquals(prio, l, p) <==> TwoEquals(prio, l[1..], p)
  {
    var r := l[1..];
    if TwoEquals(prio, l, p) {
      var i, j :| 0 <= i < j < |l| && prio(l[i]) == p && prio(l[j]) == p;
      assert prio(r[i - 1]) == p && prio(r[j - 1]) == p;
    }
    if TwoEquals(prio, r, p) {
      var i, j :| 0 <= i < j < |r| && prio(r[i]) == p && prio(r[j]) == p;
      assert prio(l[i + 1]) == p && prio(l[j + 1]) == p;
    }
  }

  /** First come, first served among equals, exactly when the last waiter is no less urgent than
      the newcomer or fewer than two waiters are as urgent as it. */
  lemma FifoExactlyWhen(prio: nat -> nat, l: seq<Task>, p: nat)
    requires Sorted(prio, l)
    ensures FindPos(prio, l, p) == Position(prio, l, p)
            <==> l == [] || prio(l[|l| - 1]) <= p || !TwoEquals(prio, l, p)
  {
    FindPosSubFifo(prio, l, p);
    if l != [] && prio(l[|l| - 1]) <= p {
      PositionIsFirst(prio, l, p, |l|);
    }
  }

  /** Two waiters of priority 5 and one of 9: a third of priority 5 overtakes the second. */
  lemma NotAlwaysFifo()
    ensures var l := [0, 1, 2]; var prio := Prio([5, 5, 9, 5]);
            Sorted(prio, l) && InsertAt(l, FindPos(prio, l, 5), 3) == [0, 3, 1, 2]
  {
    var l := [0, 1, 2]; var prio := Prio([5, 5, 9, 5]);
    assert prio(0) == 5 && prio(1) == 5 && prio(2) == 9;
    assert FindPosSub(prio, l, 5) == 1;
  }

  // ---------- who holds the lock ----------

  /** The lock and who was let in: a reader once for each hold, a writer at most once. */
  datatype Sys = Sys(lock: Lock, readers: multiset<Task>, writers: set<Task>)

  predicate Waits(s: Lock, t: Task) {
    t in s.readWait || t in s.writeWait
  }

  datatype Action =
    | RdLock(task: Task, timeout: Timeout, try: bool)
    | WrLock(task: Task, timeout: Timeout, try: bool)
    | Release(task: Task)
    | TimeOut(task: Task)
    | SetPriority(task: Task, prio: nat)

  /** Callers run; in read mode only a holder releases; waiting tasks keep their priority. */
  predicate Enabled(s: Sys, a: Action) {
    match a
    case RdLock(t, _, _) => t < |s.lock.prio| && !Waits(s.lock, t)
    case WrLock(t, _, _) => t < |s.lock.prio| && !Waits(s.lock, t)
    case Release(t) => t < |s.lock.prio| && !Waits(s.lock, t) && (s.lock.count > 0 ==> t in s.readers)
    case TimeOut(t) => t in s.lock.timed && Waits(s.lock, t)
    case SetPriority(t, _) => t < |s.lock.prio| && !Waits(s.lock, t)
  }

  /** The tasks that left a wait list from its front. */
  function Gone(before: seq<Task>, after: seq<Task>): seq<Task> {
    if |after| <= |before| then before[..|before| - |after|] else []
  }

  /** Who holds the lock after an unlock by t that turned s into r. */
  function Handover(s: Sys, t: Task, r: Lock): Sys {
    Sys(r,
        (if s.lock.count > 0 then s.readers - multiset{t} else s.readers)
          + multiset(Gone(s.lock.readWait, r.readWait)),
        (if s.lock.count < 0 then s.writers - {t} else s.writers)
          + SetOf(Gone(s.lock.writeWait, r.writeWait)))
  }

  function Apply(s: Sys, a: Action): Sys
    requires Enabled(s, a)
  {
    match a
    case RdLock(t, timeout, try) =>
      var (r, status) := RdPend(s.lock, t, timeout, try);
      Sys(r, if status == Ok then s.readers + multiset{t} else s.readers, s.writers)
    case WrLock(t, timeout, try) =>
      var (r, status) := WrPend(s.lock, t, timeout, try);
      Sys(r, s.readers, if status == Ok then s.writers + {t} else s.writers)
    case Release(t) =>
      var (r, status) := Unlock(s.lock, t);
      if status == NotPermitted then s else Handover(s, t, r)
    case TimeOut(t) => s.(lock := Expire(s.lock, t))
    case SetPriority(t, p) => s.(lock := s.lock.(prio := s.lock.prio[t := p]))
  }

  // ---------- the invariant ----------

  ghost predicate ListOk(prio: seq<nat>, l: seq<Task>) {
    Distinct(l) && Sorted(Prio(prio), l) && forall t :: t in l ==> t < |prio|
  }

  predicate HoldersOk(count: int, owner: Option<Task>, readers: multiset<Task>, writers: set<Task>) {
    if owner.Some?
    then count == -1 && writers == {owner.value} && readers == multiset{}
    else 0 <= count <= S32_MAX && count == |readers| && writers == {}
  }

  ghost predicate ListsOk(s: Lock) {
    && |s.prio| <= S32_MAX
    && ListOk(s.prio, s.readWait) && ListOk(s.prio, s.writeWait)
    && (forall t :: t in s.readWait ==> t !in s.writeWait)
    && (s.count == 0 ==> s.readWait == [] && s.writeWait == [])
  }

  ghost predicate Inv(s: Sys) {
    ListsOk(s.lock) && HoldersOk(s.lock.count, s.lock.owner, s.readers, s.writers)
  }

  /** While readers hold the lock, a reader waits only behind a writer at least as urgent. */
  ghost predicate ReadersBehindWriter(s: Lock) {
    s.count > 0 && s.readWait != [] ==>
      s.writeWait != [] && Prio(s.prio)(s.writeWait[0]) <= Prio(s.prio)(s.readWait[0])
  }

  // ---------- what unlocking wakes ----------

  function Upto(n: nat): (r: set<nat>)
    ensures |r| == n && forall t: nat :: t in r <==> t < n
  {
    if n == 0 then {} else Upto(n - 1) + {n - 1}
  }

  lemma {:induction false} DistinctCount(l: seq<Task>)
    requires Distinct(l)
    ensures |SetOf(l)| == |l|
  {
    if l == [] {
      assert SetOf(l) == {};
    } else {
      DistinctCount(l[1..]);
      assert SetOf(l) == SetOf(l[1..]) + {l[0]};
    }
  }

  lemma SubsetCount(a: set<Task>, b: set<Task>)
    requires a <= b
    ensures |a| <= |b|
  {
    assert b == a + (b - a);
  }

  /** No list is longer than the number of tasks. */
  lemma ListFits(prio: seq<nat>, l: seq<Task>)
    requires ListOk(prio, l)
    ensures |l| <= |prio|
  {
    DistinctCount(l);
    SubsetCount(SetOf(l), Upto(|prio|));
  }

  /** With fewer waiters than the counter can count, the loop stops exactly at the first reader
      that is not more urgent than the limit. */
  lemma {:induction false} WakeMoreExact(prio: nat -> nat, rest: seq<Task>, count: nat, limit: Option<nat>)
    requires count + |rest| <= S32_MAX
    ensures !Overflows(prio, rest, count, limit)
    ensures var k := WakeMore(prio, rest, count, limit);
            && (forall i :: 0 <= i < k ==> limit.None? || prio(rest[i]) < limit.value)
            && (k < |rest| ==> limit.Some? && prio(rest[k]) >= limit.value)
  {
    if rest != [] && !(limit.Some? && prio(rest[0]) >= limit.value) {
      WakeMoreExact(prio, rest[1..], count + 1, limit);
      var k := WakeMore(prio, rest, count, limit);
      forall i | 0 <= i < k ensures limit.None? || prio(rest[i]) < limit.value {
        if i > 0 { assert rest[i] == rest[1..][i - 1]; }
      }
    }
  }

  /** How many readers an unlock wakes. */
  function Woken(s: Lock): nat {
    if GetMode(Prio(s.prio), s.readWait, s.writeWait) in {ReadMode, ReadFirst}
    then 1 + WakeMore(Prio(s.prio), s.readWait[1..], 1, Limit(s)) else 0
  }

  /** A reader is woken exactly when it is more urgent than the first waiting writer. */
  lemma WokenExact(s: Lock)
    requires ListsOk(s)
    ensures Woken(s) <= |s.readWait|
    ensures forall i :: 0 <= i < |s.readWait| ==>
              (i < Woken(s) <==> Limit(s).None? || Prio(s.prio)(s.readWait[i]) < Limit(s).value)
    ensures Woken(s) > 0 ==> !Overflows(Prio(s.prio), s.readWait[1..], 1, Limit(s))
    ensures Woken(s) == 0 ==> (s.writeWait == [] ==> s.readWait == [])
  {
    ListFits(s.prio, s.readWait);
    var prio := Prio(s.prio);
    var l := s.readWait;
    var k := Woken(s);
    if k > 0 {
      WakeMoreExact(prio, l[1..], 1, Limit(s));
      forall i | 0 <= i < |l| ensures i < k <==> Limit(s).None? || prio(l[i]) < Limit(s).value {
        if i < k {
          if i > 0 { assert l[i] == l[1..][i - 1]; }
        } else {
          assert l[k] == l[1..][k - 1];
          assert prio(l[k]) <= prio(l[i]);
        }
      }
    } else {
      forall i | 0 <= i < |l| ensures !(Limit(s).None? || prio(l[i]) < Limit(s).value) {
        assert prio(l[0]) <= prio(l[i]);
      }
    }
  }

  /** Main result, unlock. The last release wakes exactly the readers more urgent than the first
      waiting writer, all of them when no writer waits, and otherwise exactly that writer. */
  lemma PostWakesExactly(s: Lock)
    requires ListsOk(s)
    ensures var (r, status) := Post(s);
            && status == Ok && r.prio == s.prio
            && (forall i :: 0 <= i < |s.readWait| ==>
                  (i < Woken(s) <==> s.writeWait == [] || Prio(s.prio)(s.readWait[i]) < Prio(s.prio)(s.writeWait[0])))
            && Woken(s) <= |s.readWait| && r.readWait == s.readWait[Woken(s)..]
            && (if Woken(s) == 0 && s.writeWait != []
                then r.writeWait == s.writeWait[1..] && r.owner == Some(s.writeWait[0]) && r.count == -1
                else r.writeWait == s.writeWait && r.owner == None && r.count == Woken(s))
  {
    WokenExact(s);
    hide ListsOk, WakeMore, Overflows, Prio, SetOf;
  }

  // ---------- every step keeps the invariant ----------

  lemma JoinOk(prio: seq<nat>, l: seq<Task>, t: Task)
    requires ListOk(prio, l) && t < |prio| && t !in l
    ensures var i := FindPos(Prio(prio), l, Prio(prio)(t));
            && ListOk(prio, InsertAt(l, i, t))
            && (forall x :: x in InsertAt(l, i, t) <==> x in l || x == t)
            && (InsertAt(l, i, t)[0] == t || (l != [] && InsertAt(l, i, t)[0] == l[0]))
            && (l != [] ==> Prio(prio)(InsertAt(l, i, t)[0]) <= Prio(prio)(l[0]))
  {
    var i := FindPos(Prio(prio), l, Prio(prio)(t));
    FindPosBetween(Prio(prio), l, Prio(prio)(t));
    FindPosSorted(Prio(prio), l, t);
    InsertAtElements(l, i, t);
  }

  lemma DropOk(prio: seq<nat>, l: seq<Task>, k: nat)
    requires ListOk(prio, l) && k <= |l|
    ensures ListOk(prio, l[k..]) && forall t :: t in l[k..] ==> t in l
    ensures forall t :: t in l[..k] ==> t !in l[k..]
  {
    var r := l[k..];
    forall a, b | 0 <= a < b < |r| ensures Prio(prio)(r[a]) <= Prio(prio)(r[b]) && r[a] != r[b] {
      assert r[a] == l[a + k] && r[b] == l[b + k];
    }
    assert forall t :: t in r ==> t in l;
  }

  lemma RemoveOk(prio: seq<nat>, l: seq<Task>, t: Task)
    requires ListOk(prio, l)
    ensures ListOk(prio, Remove(l, t)) && forall x :: x in Remove(l, t) <==> x in l && x != t
    ensures Remove(l, t) != [] ==> l != [] && Prio(prio)(l[0]) <= Prio(prio)(Remove(l, t)[0])
  {
    RemoveElements(l, t);
    RemoveSorted(Prio(prio), l, t);
    if Remove(l, t) != [] {
      var h := Remove(l, t)[0];
      assert h in Remove(l, t);
      var k :| 0 <= k < |l| && l[k] == h;
    }
  }

  lemma SetPrioOk(prio: seq<nat>, l: seq<Task>, t: Task, p: nat)
    requires ListOk(prio, l) && t < |prio| && t !in l
    ensures ListOk(prio[t := p], l)
    ensures l != [] ==> Prio(prio[t := p])(l[0]) == Prio(prio)(l[0])
  {
    SortedFrame(Prio(prio), Prio(prio[t := p]), l);
  }

  lemma PendReadKeeps(s: Lock, t: Task, timeout: Timeout)
    requires ListsOk(s) && t < |s.prio| && !Waits(s, t) && s.count != 0
    ensures ListsOk(PendRead(s, t, timeout).0)
    ensures ReadersBehindWriter(s) && (s.count > 0 ==> !PriCompare(Prio(s.prio), t, s.writeWait)) ==>
              ReadersBehindWriter(PendRead(s, t, timeout).0)
  {
    hide ListOk, FindPos, InsertAt, Prio;
    JoinOk(s.prio, s.readWait, t);
  }

  lemma PendWriteKeeps(s: Lock, t: Task, timeout: Timeout)
    requires ListsOk(s) && t < |s.prio| && !Waits(s, t) && s.count != 0
    ensures ListsOk(PendWrite(s, t, timeout).0)
    ensures ReadersBehindWriter(s) ==> ReadersBehindWriter(PendWrite(s, t, timeout).0)
  {
    hide ListOk, FindPos, InsertAt, Prio;
    JoinOk(s.prio, s.writeWait, t);
  }

  lemma RdLockKeeps(s: Sys, t: Task, timeout: Timeout, try: bool)
    requires Inv(s) && Enabled(s, RdLock(t, timeout, try))
    ensures Inv(Apply(s, RdLock(t, timeout, try)))
    ensures ReadersBehindWriter(s.lock) ==> ReadersBehindWriter(Apply(s, RdLock(t, timeout, try)).lock)
  {
    hide ListOk, PendRead, Prio, ListsOk, HoldersOk, ReadersBehindWriter;
    RdLockLists(s.lock, t, timeout, try);
    RdLockHolders(s, t, timeout, try);
  }

  /** The caller joins the read list only while somebody holds the lock, and behind a writer. */
  lemma RdPendCases(s: Lock, t: Task, timeout: Timeout, try: bool)
    ensures var (r, status) := RdPend(s, t, timeout, try);
            || r == s
            || (r == s.(count := s.count + 1) && 0 <= s.count != S32_MAX && PriCompare(Prio(s.prio), t, s.writeWait))
            || (r == PendRead(s, t, timeout).0 && (s.count >= 0 ==> !PriCompare(Prio(s.prio), t, s.writeWait)))
  {
    hide PendRead, PriCompare, Prio;
  }

  lemma RdLockLists(s: Lock, t: Task, timeout: Timeout, try: bool)
    requires ListsOk(s) && t < |s.prio| && !Waits(s, t)
    ensures ListsOk(RdPend(s, t, timeout, try).0)
    ensures ReadersBehindWriter(s) ==> ReadersBehindWriter(RdPend(s, t, timeout, try).0)
  {
    hide ListOk, PendRead, RdPend, Prio;
    RdPendCases(s, t, timeout, try);
    if s.count != 0 { PendReadKeeps(s, t, timeout); }
  }

  lemma RdLockHolders(s: Sys, t: Task, timeout: Timeout, try: bool)
    requires Inv(s) && Enabled(s, RdLock(t, timeout, try))
    ensures var r := Apply(s, RdLock(t, timeout, try)); HoldersOk(r.lock.count, r.lock.owner, r.readers, r.writers)
  {
    hide ListsOk, PendRead, Prio, PriCompare;
    SameHolders(s.lock, t, timeout);
  }

  lemma SameHolders(s: Lock, t: Task, timeout: Timeout)
    ensures PendRead(s, t, timeout).0.count == s.count && PendRead(s, t, timeout).0.owner == s.owner
    ensures PendWrite(s, t, timeout).0.count == s.count && PendWrite(s, t, timeout).0.owner == s.owner
    ensures PendRead(s, t, timeout).1 != Ok && PendWrite(s, t, timeout).1 != Ok
  {
  }

  lemma WrLockKeeps(s: Sys, t: Task, timeout: Timeout, try: bool)
    requires Inv(s) && Enabled(s, WrLock(t, timeout, try))
    ensures Inv(Apply(s, WrLock(t, timeout, try)))
    ensures ReadersBehindWriter(s.lock) ==> ReadersBehindWriter(Apply(s, WrLock(t, timeout, try)).lock)
  {
    hide ListOk, PendWrite, Prio;
    if s.lock.count != 0 { PendWriteKeeps(s.lock, t, timeout); }
    SameHolders(s.lock, t, timeout);
  }

  /** The lists after the lock was passed on. */
  lemma PostLists(s: Lock)
    requires ListsOk(s)
    ensures ListsOk(Post(s).0) && ReadersBehindWriter(Post(s).0)
  {
    hide Post, Woken, ListOk, Prio;
    PostWakesExactly(s);
    var k := Woken(s);
    ListsDrop(s, k);
    if k < |s.readWait| { assert s.readWait[k..][0] == s.readWait[k]; }
  }

  lemma ListsDrop(s: Lock, k: nat)
    requires ListsOk(s) && k <= |s.readWait|
    ensures ListOk(s.prio, s.readWait[k..]) && (forall t :: t in s.readWait[k..] ==> t in s.readWait)
    ensures s.writeWait != [] ==> ListOk(s.prio, s.writeWait[1..]) && forall t :: t in s.writeWait[1..] ==> t in s.writeWait
  {
    hide ListOk;
    DropOk(s.prio, s.readWait, k);
    if s.writeWait != [] { DropOk(s.prio, s.writeWait, 1); }
  }

  /** Who left the lists when the lock was passed on. */
  lemma PostGone(s: Lock)
    requires ListsOk(s)
    ensures var r := Post(s).0;
            && Woken(s) <= |s.readWait| <= S32_MAX
            && Gone(s.readWait, r.readWait) == s.readWait[..Woken(s)]
            && (if Woken(s) == 0 && s.writeWait != []
                then r.count == -1 && r.owner == Some(s.writeWait[0]) && Gone(s.writeWait, r.writeWait) == [s.writeWait[0]]
                else r.count == Woken(s) && r.owner == None && Gone(s.writeWait, r.writeWait) == [])
  {
    PostWakesExactly(s);
    ListFits(s.prio, s.readWait);
    hide Post, Woken, ListOk, Prio;
  }

  /** The last holder is gone and the lock is passed on. */
  lemma PostKeeps(s: Sys, t: Task)
    requires ListsOk(s.lock) && s.lock.count != 0
    requires s.lock.count > 0 ==> s.readers == multiset{t} && s.writers == {}
    requires s.lock.count < 0 ==> s.readers == multiset{} && s.writers == {t}
    ensures Inv(Handover(s, t, Post(s.lock).0))
    ensures ReadersBehindWriter(Post(s.lock).0)
  {
    hide Post, Woken, ListsOk, Prio, Gone;
    PostLists(s.lock);
    PostGone(s.lock);
    var h := Handover(s, t, Post(s.lock).0);
    assert SetOf([]) == {};
    if h.lock.owner.Some? {
      assert SetOf([h.lock.owner.value]) == {h.lock.owner.value};
    }
  }

  lemma ReleaseKeeps(s: Sys, t: Task)
    requires Inv(s) && Enabled(s, Release(t))
    ensures Inv(Apply(s, Release(t)))
    ensures ReadersBehindWriter(s.lock) ==> ReadersBehindWriter(Apply(s, Release(t)).lock)
  {
    hide ListOk, Post;
    var c := s.lock.count;
    if c == 0 || (c < 0 && s.lock.owner != Some(t)) {
    } else if c > 1 {
      assert Gone(s.lock.readWait, s.lock.readWait) == [] && Gone(s.lock.writeWait, s.lock.writeWait) == [];
    } else {
      if c == 1 { OnlyOne(s.readers, t); }
      PostKeeps(s, t);
    }
  }

  lemma OnlyOne(m: multiset<Task>, t: Task)
    requires |m| == 1 && t in m
    ensures m == multiset{t}
  {
    assert m == multiset{t} + (m - multiset{t});
    assert |m - multiset{t}| == 0;
  }

  lemma TimeOutKeeps(s: Sys, t: Task)
    requires Inv(s) && Enabled(s, TimeOut(t))
    ensures Inv(Apply(s, TimeOut(t)))
    ensures ReadersBehindWriter(s.lock) && t !in s.lock.writeWait ==>
              ReadersBehindWriter(Apply(s, TimeOut(t)).lock)
  {
    hide ListOk, Remove, Prio, HoldersOk;
    RemoveOk(s.lock.prio, s.lock.readWait, t);
    RemoveOk(s.lock.prio, s.lock.writeWait, t);
  }

  lemma SetPriorityKeeps(s: Sys, t: Task, p: nat)
    requires Inv(s) && Enabled(s, SetPriority(t, p))
    ensures Inv(Apply(s, SetPriority(t, p)))
    ensures ReadersBehindWriter(s.lock) ==> ReadersBehindWriter(Apply(s, SetPriority(t, p)).lock)
  {
    SetPrioOk(s.lock.prio, s.lock.readWait, t, p);
    SetPrioOk(s.lock.prio, s.lock.writeWait, t, p);
    hide ListOk;
  }

  /** The timer of a waiting writer. */
  predicate WriterGivesUp(s: Sys, a: Action) {
    a.TimeOut? && a.task in s.lock.writeWait
  }

  lemma StepKeeps(s: Sys, a: Action)
    requires Inv(s) && Enabled(s, a)
    ensures Inv(Apply(s, a))
    ensures ReadersBehindWriter(s.lock) && !WriterGivesUp(s, a) ==> ReadersBehindWriter(Apply(s, a).lock)
  {
    hide Inv, Apply;
    match a
    case RdLock(t, timeout, try) => RdLockKeeps(s, t, timeout, try);
    case WrLock(t, timeout, try) => WrLockKeeps(s, t, timeout, try);
    case Release(t) => ReleaseKeeps(s, t);
    case TimeOut(t) => TimeOutKeeps(s, t);
    case SetPriority(t, p) => SetPriorityKeeps(s, t, p);
  }

  // ---------- runs ----------

  predicate Step(s: Sys, a: Action, r: Sys) {
    Enabled(s, a) && r == Apply(s, a)
  }

  ghost predicate Run(states: seq<Sys>, acts: seq<Action>) {
    && |states| == |acts| + 1
    && (exists prio: seq<nat> :: |prio| <= S32_MAX && states[0] == Sys(Fresh(prio), multiset{}, {}))
    && (forall i {:trigger acts[i]} :: 0 <= i < |acts| ==> Step(states[i], acts[i], states[i + 1]))
  }

  lemma FirstOk(states: seq<Sys>, acts: seq<Action>)
    requires Run(states, acts)
    ensures Inv(states[0])
  {
  }

  lemma {:induction false} InvariantOfRun(states: seq<Sys>, acts: seq<Action>, n: nat)
    requires Run(states, acts) && n < |states|
    ensures Inv(states[n])
    decreases n
  {
    hide Inv, Apply, Enabled, ReadersBehindWriter;
    FirstOk(states, acts);
    if n > 0 {
      InvariantOfRun(states, acts, n - 1);
      assert Step(states[n - 1], acts[n - 1], states[n]);
      StepKeeps(states[n - 1], acts[n - 1]);
    }
  }

  /** Main result, exclusion. In every state of every run the count is -1 with exactly one writer
      and no reader inside, or it is the number of reads held with no writer inside; nobody waits
      while it is 0; and both wait lists are in order of urgency. */
  lemma EveryRunExcludes(states: seq<Sys>, acts: seq<Action>, n: nat)
    requires Run(states, acts) && n < |states|
    ensures var s := states[n];
            && (if s.lock.count == -1
                then |s.writers| == 1 && s.readers == multiset{} && s.lock.owner.Some? && s.lock.owner.value in s.writers
                else s.lock.count == |s.readers| && s.writers == {} && s.lock.owner == None)
            && (s.lock.count == 0 ==> s.lock.readWait == [] && s.lock.writeWait == [])
            && Sorted(Prio(s.lock.prio), s.lock.readWait) && Sorted(Prio(s.lock.prio), s.lock.writeWait)
  {
    InvariantOfRun(states, acts, n);
  }

  /** Main result, waiting readers. In a run in which no waiting writer gives up, every reader
      that waits while readers hold the lock waits behind a writer that is at least as urgent. */
  lemma {:induction false} ReadersWaitForWritersOnly(states: seq<Sys>, acts: seq<Action>, n: nat)
    requires Run(states, acts) && n < |states|
    requires forall i :: 0 <= i < |acts| ==> !WriterGivesUp(states[i], acts[i])
    ensures ReadersBehindWriter(states[n].lock)
    ensures states[n].lock.count > 0 ==>
              forall r :: r in states[n].lock.readWait ==>
                exists w :: w in states[n].lock.writeWait && Prio(states[n].lock.prio)(w) <= Prio(states[n].lock.prio)(r)
    decreases n
  {
    hide Run, Inv, ReadersBehindWriter, WriterGivesUp;
    InvariantOfRun(states, acts, n);
    StartsUnlocked(states, acts);
    if n > 0 {
      ReadersWaitForWritersOnly(states, acts, n - 1);
      InvariantOfRun(states, acts, n - 1);
      OneMoreStep(states, acts, n);
    }
    EachBehind(states[n]);
  }

  /** The first waiting writer gives up while readers hold the lock and a reader waits that is more
      urgent than the next writer, if there is one. */
  predicate StrandsReader(s: Lock, a: Action) {
    && a.TimeOut? && s.count > 0 && s.readWait != []
    && s.writeWait != [] && s.writeWait[0] == a.task
    && (|s.writeWait| == 1 || Prio(s.prio)(s.writeWait[1]) > Prio(s.prio)(s.readWait[0]))
  }

  lemma WritersAfter(l: seq<Task>, t: Task)
    requires l != []
    ensures l[0] == t ==> Remove(l, t) == l[1..]
    ensures l[0] != t ==> Remove(l, t) != [] && Remove(l, t)[0] == l[0]
  {
  }

  lemma TimeOutBreaks(s: Sys, t: Task)
    requires Inv(s) && Enabled(s, TimeOut(t)) && ReadersBehindWriter(s.lock)
    ensures ReadersBehindWriter(Apply(s, TimeOut(t)).lock) <==> !StrandsReader(s.lock, TimeOut(t))
  {
    TimeOutKeeps(s, t);
    if t in s.lock.writeWait {
      assert t !in s.lock.readWait && Remove(s.lock.readWait, t) == s.lock.readWait;
      WritersAfter(s.lock.writeWait, t);
    }
    hide Remove, ListOk, Prio;
  }

  /** Exactly one kind of step leaves a reader waiting behind nobody it must wait for. */
  lemma StepStrandsExactly(s: Sys, a: Action)
    requires Inv(s) && Enabled(s, a) && ReadersBehindWriter(s.lock)
    ensures ReadersBehindWriter(Apply(s, a).lock) <==> !StrandsReader(s.lock, a)
  {
    hide Inv, Apply, Enabled, ReadersBehindWriter;
    if a.TimeOut? { TimeOutBreaks(s, a.task); } else { StepKeeps(s, a); }
  }

  /** Main result, the exact condition. In every state up to n a reader that waits while readers hold
      the lock waits behind a writer at least as urgent, if and only if no step before n was the
      timeout of a first writer that leaves a more urgent reader in front. */
  lemma {:induction false} ReadersBehindWriterExactly(states: seq<Sys>, acts: seq<Action>, n: nat)
    requires Run(states, acts) && n <= |acts|
    ensures |states| == |acts| + 1
    ensures (forall k :: 0 <= k <= n ==> ReadersBehindWriter(states[k].lock)) <==>
            (forall i :: 0 <= i < n ==> !StrandsReader(states[i].lock, acts[i]))
    decreases n
  {
    hide Run, Inv, ReadersBehindWriter, StrandsReader, Apply, Enabled;
    StartsUnlocked(states, acts);
    if n > 0 {
      ReadersBehindWriterExactly(states, acts, n - 1);
      InvariantOfRun(states, acts, n - 1);
      StepAt(states, acts, n - 1);
      if ReadersBehindWriter(states[n - 1].lock) { StepStrandsExactly(states[n - 1], acts[n - 1]); }
    }
  }

  lemma StepAt(states: seq<Sys>, acts: seq<Action>, n: nat)
    requires Run(states, acts) && n < |acts|
    ensures |states| == |acts| + 1 && Enabled(states[n], acts[n]) && states[n + 1] == Apply(states[n], acts[n])
  {
    hide Enabled, Apply;
    assert Step(states[n], acts[n], states[n + 1]);
  }

  lemma StartsUnlocked(states: seq<Sys>, acts: seq<Action>)
    requires Run(states, acts)
    ensures |states| == |acts| + 1 && ReadersBehindWriter(states[0].lock)
  {
  }

  lemma OneMoreStep(states: seq<Sys>, acts: seq<Action>, n: nat)
    requires Run(states, acts) && 0 < n < |states| && Inv(states[n - 1])
    requires ReadersBehindWriter(states[n - 1].lock) && !WriterGivesUp(states[n - 1], acts[n - 1])
    ensures ReadersBehindWriter(states[n].lock)
  {
    assert Step(states[n - 1], acts[n - 1], states[n]);
    hide Inv, Apply, Enabled, ReadersBehindWriter;
    StepKeeps(states[n - 1], acts[n - 1]);
  }

  lemma EachBehind(sys: Sys)
    requires Inv(sys) && ReadersBehindWriter(sys.lock)
    ensures sys.lock.count > 0 ==>
              forall r :: r in sys.lock.readWait ==>
                exists w :: w in sys.lock.writeWait && Prio(sys.lock.prio)(w) <= Prio(sys.lock.prio)(r)
  {
    var s := sys.lock;
    if s.count > 0 {
      forall r | r in s.readWait ensures exists w :: w in s.writeWait && Prio(s.prio)(w) <= Prio(s.prio)(r) {
        var k :| 0 <= k < |s.readWait| && s.readWait[k] == r;
        assert Prio(s.prio)(s.readWait[0]) <= Prio(s.prio)(r);
        assert s.writeWait[0] in s.writeWait;
      }
    }
  }

  /** Without that assumption it fails: reader 0 holds the lock, writer 1 and reader 2 wait, the
      writer gives up, and reader 2 goes on waiting behind nobody. */
  lemma GivingUpStrandsReader()
    ensures var s0 := Sys(Fresh([5, 5, 5]), multiset{}, {});
            && Enabled(s0, RdLock(0, Forever, false))
            && var s1 := Apply(s0, RdLock(0, Forever, false));
            && Enabled(s1, WrLock(1, Ticks, false))
            && var s2 := Apply(s1, WrLock(1, Ticks, false));
            && Enabled(s2, RdLock(2, Forever, false))
            && var s3 := Apply(s2, RdLock(2, Forever, false));
            && Enabled(s3, TimeOut(1))
            && var s4 := Apply(s3, TimeOut(1));
            && s4.lock.count == 1 && s4.lock.readWait == [2] && s4.lock.writeWait == []
  {
    var s0 := Sys(Fresh([5, 5, 5]), multiset{}, {});
    var s1 := Apply(s0, RdLock(0, Forever, false));
    var s2 := Apply(s1, WrLock(1, Ticks, false));
    assert s2.lock.writeWait == [1];
    var s3 := Apply(s2, RdLock(2, Forever, false));
    assert s3.lock.readWait == [2];
  }

  /** A writer that locks again is not counted: one release frees the lock for whoever waits. */
  lemma RelockIsNotCounted(s: Sys, t: Task, timeout: Timeout, try: bool)
    requires Inv(s) && s.lock.owner == Some(t) && !Waits(s.lock, t)
    ensures WrPend(s.lock, t, timeout, try) == (s.lock, Ok)
    ensures Unlock(s.lock, t).1 == Ok && Unlock(s.lock, t).0.owner != Some(t)
  {
    PostWakesExactly(s.lock);
  }
}
