/** What the callers of the read/write lock see: every answer, when it is given, and who holds the lock
    and who waits afterwards. */
module RwLockEffects {
  import opened Options
  import opened PrioList
  import opened RwLock

  // ---------- answers ----------

  /** Readers get in while no writer holds the lock and none as urgent as them waits. */
  predicate MayRead(s: Lock, t: Task) {
    s.count >= 0 && (s.writeWait == [] || Prio(s.prio)(t) < Prio(s.prio)(s.writeWait[0]))
  }

  /** Writers get in when nobody holds the lock, or when they hold it already. */
  predicate MayWrite(s: Lock, t: Task) {
    s.count == 0 || s.owner == Some(t)
  }

  /** The answers to a read lock and to a try, each with its condition */
  predicate RdAnswered(s: Lock, t: Task, timeout: Timeout, try: bool, status: Status) {
    && (status == Ok <==> MayRead(s, t) && s.count < S32_MAX)
    && (status == Busy <==> try && !MayRead(s, t) && s.owner != Some(t))
    && (status == Blocked <==> !try && !MayRead(s, t) && s.owner != Some(t) && timeout != Zero)
    && (status == Invalid <==>
          s.owner == Some(t) || (MayRead(s, t) && s.count == S32_MAX)
          || (!try && !MayRead(s, t) && timeout == Zero))
  }

  /** The answers to a write lock and to a try, each with its condition */
  predicate WrAnswered(s: Lock, t: Task, timeout: Timeout, try: bool, status: Status) {
    && (status == Ok <==> MayWrite(s, t))
    && (status == Busy <==> try && !MayWrite(s, t))
    && (status == Blocked <==> !try && !MayWrite(s, t) && timeout != Zero)
    && (status == Invalid <==> !try && !MayWrite(s, t) && timeout == Zero)
  }

  /** An unlock is refused exactly when nobody holds the lock or another task writes. */
  predicate UnlockAnswered(s: Lock, t: Task, status: Status) {
    && (status == NotPermitted <==> s.count == 0 || (s.count < 0 && s.owner != Some(t)))
    && (status == Ok <==> s.count > 0 || s.owner == Some(t))
  }

  // ---------- effects ----------

  /** t joined list l where r is in order of urgency and nobody else moved. */
  ghost predicate Joined(s: Lock, l: seq<Task>, r: seq<Task>, t: Task) {
    && Sorted(Prio(s.prio), r)
    && exists i: nat :: i <= |l| && r == InsertAt(l, i, t) && i == FindPos(Prio(s.prio), l, Prio(s.prio)(t))
  }

  ghost predicate Timed(s: Lock, r: Lock, t: Task, timeout: Timeout) {
    forall x :: x in r.timed <==> x in s.timed || (x == t && timeout == Ticks)
  }

  ghost predicate RdEffect(s: Lock, r: Lock, t: Task, timeout: Timeout, status: Status) {
    match status
    case Ok => r == s.(count := s.count + 1)
    case Blocked =>
      r == s.(readWait := r.readWait, timed := r.timed) && Joined(s, s.readWait, r.readWait, t) && Timed(s, r, t, timeout)
    case _ => r == s
  }

  ghost predicate WrEffect(s: Lock, r: Lock, t: Task, timeout: Timeout, status: Status) {
    match status
    case Ok => if s.owner == Some(t) then r == s else r == s.(count := -1, owner := Some(t))
    case Blocked =>
      r == s.(writeWait := r.writeWait, timed := r.timed) && Joined(s, s.writeWait, r.writeWait, t) && Timed(s, r, t, timeout)
    case _ => r == s
  }

  /** The first k waiting readers are exactly those more urgent than the first waiting writer. */
  predicate ReadersFirst(s: Lock, k: nat) {
    && k <= |s.readWait|
    && forall i :: 0 <= i < |s.readWait| ==>
         (i < k <==> s.writeWait == [] || Prio(s.prio)(s.readWait[i]) < Prio(s.prio)(s.writeWait[0]))
  }

  /** The lock passed on: to the readers more urgent than the first waiting writer, or else to that
      writer, or to nobody. Whoever got it has no timer any more. */
  ghost predicate PassedOn(s: Lock, r: Lock) {
    exists k: nat {:trigger ReadersFirst(s, k)} ::
      && ReadersFirst(s, k)
      && if k == 0 && s.writeWait != []
         then r == s.(count := -1, owner := Some(s.writeWait[0]), writeWait := s.writeWait[1..],
                      timed := s.timed - {s.writeWait[0]})
         else r == s.(count := k, owner := None, readWait := s.readWait[k..], timed := r.timed)
              && forall x :: x in r.timed <==> x in s.timed && x !in s.readWait[..k]
  }

  ghost predicate UnlockEffect(s: Lock, r: Lock, status: Status) {
    if status == NotPermitted then r == s
    else if s.count > 1 then r == s.(count := s.count - 1)
    else PassedOn(s, r)
  }

  /** What the invariant says of the lock alone */
  ghost predicate LockOk(s: Lock) {
    ListsOk(s) && -1 <= s.count <= S32_MAX && (s.owner.Some? <==> s.count == -1)
  }

  lemma InvLockOk(s: Sys)
    requires Inv(s)
    ensures LockOk(s.lock)
  {
    hide ListsOk;
  }

  // ---------- proofs ----------

  lemma JoinsInOrder(s: Lock, l: seq<Task>, t: Task)
    requires Sorted(Prio(s.prio), l)
    ensures Joined(s, l, InsertAt(l, FindPos(Prio(s.prio), l, Prio(s.prio)(t)), t), t)
  {
    FindPosSorted(Prio(s.prio), l, t);
    hide FindPos, InsertAt, Sorted;
  }

  /** Where a newcomer goes: behind the last waiter when that is at least as urgent; otherwise behind
      the more urgent waiters and the first as urgent as it. */
  lemma FindPosMeans(prio: nat -> nat, l: seq<Task>, p: nat)
    requires Sorted(prio, l)
    ensures l != [] && prio(l[|l| - 1]) <= p ==> FindPos(prio, l, p) == |l|
    ensures l != [] && prio(l[|l| - 1]) > p ==>
              exists m: nat :: m < |l| && (forall k :: 0 <= k < m ==> prio(l[k]) < p) && prio(l[m]) >= p
                               && FindPos(prio, l, p) == if prio(l[m]) == p then m + 1 else m
  {
    if l != [] && prio(l[|l| - 1]) > p {
      var m := SubMeans(prio, l, p);
    }
    if l != [] && prio(l[|l| - 1]) <= p { assert prio(l[0]) <= prio(l[|l| - 1]) || |l| == 1; }
  }

  lemma {:induction false} SubMeans(prio: nat -> nat, l: seq<Task>, p: nat) returns (m: nat)
    requires l != [] && prio(l[|l| - 1]) > p
    ensures m < |l| && (forall k :: 0 <= k < m ==> prio(l[k]) < p) && prio(l[m]) >= p
    ensures FindPosSub(prio, l, p) == if prio(l[m]) == p then m + 1 else m
  {
    if prio(l[0]) >= p {
      m := 0;
    } else {
      m := SubMeans(prio, l[1..], p);
      m := m + 1;
      forall k | 0 <= k < m ensures prio(l[k]) < p { if k > 0 { assert l[k] == l[1..][k - 1]; } }
    }
  }

  /** Main result, read lock. Each answer is given exactly when its condition holds: Ok counts one more
      hold, Blocked puts the caller on the read list in order of urgency, anything else changes nothing. */
  lemma RdLockDoes(s: Lock, t: Task, timeout: Timeout, try: bool)
    requires LockOk(s) && t < |s.prio|
    ensures var (r, status) := RdPend(s, t, timeout, try);
            RdAnswered(s, t, timeout, try, status) && RdEffect(s, r, t, timeout, status)
  {
    JoinsInOrder(s, s.readWait, t);
    hide Joined, FindPos, InsertAt, Prio, ListOk;
  }

  /** Main result, write lock. Ok makes the caller the owner, Blocked puts it on the write list in order of
      urgency, anything else changes nothing. */
  lemma WrLockDoes(s: Lock, t: Task, timeout: Timeout, try: bool)
    requires LockOk(s) && t < |s.prio|
    ensures var (r, status) := WrPend(s, t, timeout, try);
            WrAnswered(s, t, timeout, try, status) && WrEffect(s, r, t, timeout, status)
  {
    JoinsInOrder(s, s.writeWait, t);
    hide Joined, FindPos, InsertAt, Prio, ListOk;
  }

  lemma PostPasses(s: Lock)
    requires ListsOk(s)
    ensures Post(s).1 == Ok && PassedOn(s, Post(s).0)
  {
    PostWakesExactly(s);
    assert ReadersFirst(s, Woken(s));
    WokenExact(s);
    hide ListsOk, WakeMore, Overflows, Prio, ReadersFirst;
  }

  /** Main result, unlock. It is refused exactly when nobody holds the lock or another task writes.
      Otherwise one hold less remains, or the last one is passed on to exactly the readers more urgent
      than the first waiting writer, to that writer when there are none, or to nobody. */
  lemma UnlockDoes(s: Lock, t: Task)
    requires LockOk(s)
    ensures var (r, status) := Unlock(s, t);
            UnlockAnswered(s, t, status) && UnlockEffect(s, r, status)
  {
    PostPasses(s);
    hide ListsOk, Post, PassedOn;
  }

  /** Who left the list and holds the lock now */
  predicate Left(before: seq<Task>, after: seq<Task>, x: Task) {
    x in before && x !in after
  }

  /** Main result, holders. A holder that unlocks gets Ok; afterwards everybody holds the lock as often
      as before, less one hold of the caller, plus one for each waiter that left its list. */
  lemma UnlockHolders(s: Sys, t: Task)
    requires Inv(s) && Enabled(s, Release(t)) && (t in s.readers || t in s.writers)
    ensures Unlock(s.lock, t).1 == Ok
    ensures var r := Apply(s, Release(t));
            && Inv(r)
            && (forall x :: r.readers[x] == s.readers[x] - (if x == t && t in s.readers then 1 else 0)
                                            + (if Left(s.lock.readWait, r.lock.readWait, x) then 1 else 0))
            && (forall x :: x in r.writers <==>
                  (x in s.writers && x != t) || Left(s.lock.writeWait, r.lock.writeWait, x))
  {
    hide UnlockEffect, PassedOn, ReadersFirst, Unlock, Inv, Handover, LockOk;
    InvLockOk(s);
    UnlockDoes(s.lock, t);
    ReleaseKeeps(s, t);
    HoldMode(s, t);
    var r := Unlock(s.lock, t).0;
    var k, j := Passing(s.lock, r, Unlock(s.lock, t).1);
    HandoverMeans(s, t, r, k, j);
  }

  /** Who holds the lock after the first k readers and the first j writers left their lists */
  lemma HandoverMeans(s: Sys, t: Task, r: Lock, k: nat, j: nat)
    requires ListOk(s.lock.prio, s.lock.readWait) && ListOk(s.lock.prio, s.lock.writeWait)
    requires k <= |s.lock.readWait| && j <= |s.lock.writeWait|
    requires r.readWait == s.lock.readWait[k..] && r.writeWait == s.lock.writeWait[j..]
    requires s.lock.count > 0 ==> t in s.readers && t !in s.writers
    requires s.lock.count < 0 ==> t !in s.readers
    requires s.lock.count != 0
    ensures Handover(s, t, r).lock == r
    ensures forall x :: Handover(s, t, r).readers[x] == s.readers[x] - (if x == t && t in s.readers then 1 else 0)
                                                        + (if Left(s.lock.readWait, r.readWait, x) then 1 else 0)
    ensures forall x :: x in Handover(s, t, r).writers <==>
              (x in s.writers && x != t) || Left(s.lock.writeWait, r.writeWait, x)
  {
    LeftFromFront(s.lock.prio, s.lock.readWait, k);
    LeftFromFront(s.lock.prio, s.lock.writeWait, j);
    hide Left, ListOk, Gone;
  }

  lemma HoldMode(s: Sys, t: Task)
    requires Inv(s) && (t in s.readers || t in s.writers)
    ensures s.lock.count > 0 <==> t in s.readers
    ensures s.lock.count < 0 <==> t in s.writers
    ensures s.lock.count > 0 || s.lock.owner == Some(t)
    ensures ListOk(s.lock.prio, s.lock.readWait) && ListOk(s.lock.prio, s.lock.writeWait)
    ensures s.lock.count > 0 ==> s.writers == {}
    ensures s.lock.count < 0 ==> s.readers == multiset{}
  {
  }

  /** Both lists lost a part in front. */
  lemma Passing(s: Lock, r: Lock, status: Status) returns (k: nat, j: nat)
    requires UnlockEffect(s, r, status)
    ensures k <= |s.readWait| && r.readWait == s.readWait[k..]
    ensures j <= |s.writeWait| && r.writeWait == s.writeWait[j..]
  {
    k, j := 0, 0;
    if status != NotPermitted && s.count <= 1 {
      var n: nat := ReadersLeft(s, r);
      if n == 0 && s.writeWait != [] { j := 1; } else { k := n; }
    }
  }

  lemma ReadersLeft(s: Lock, r: Lock) returns (k: nat)
    requires PassedOn(s, r)
    ensures k <= |s.readWait|
    ensures if k == 0 && s.writeWait != [] then r.readWait == s.readWait && r.writeWait == s.writeWait[1..]
            else r.readWait == s.readWait[k..] && r.writeWait == s.writeWait
  {
    k :| ReadersFirst(s, k)
         && if k == 0 && s.writeWait != []
            then r == s.(count := -1, owner := Some(s.writeWait[0]), writeWait := s.writeWait[1..],
                         timed := s.timed - {s.writeWait[0]})
            else r == s.(count := k, owner := None, readWait := s.readWait[k..], timed := r.timed)
                 && forall x :: x in r.timed <==> x in s.timed && x !in s.readWait[..k];
  }

  lemma LeftFromFront(prio: seq<nat>, l: seq<Task>, k: nat)
    requires ListOk(prio, l) && k <= |l|
    ensures Gone(l, l[k..]) == l[..k]
    ensures forall x :: Left(l, l[k..], x) <==> x in l[..k]
    ensures forall x :: multiset(l[..k])[x] == if x in l[..k] then 1 else 0
  {
    assert l == l[..k] + l[k..];
    DropOk(prio, l, k);
    OnceEach(l[..k]);
  }

  lemma {:induction false} OnceEach(l: seq<Task>)
    requires Distinct(l)
    ensures forall x :: multiset(l)[x] == if x in l then 1 else 0
  {
    if l != [] {
      OnceEach(l[1..]);
      assert l == [l[0]] + l[1..];
    }
  }

  /** When its timer expires a waiter leaves its list; nothing else changes. */
  lemma ExpireDoes(s: Sys, t: Task)
    requires Inv(s) && Enabled(s, TimeOut(t))
    ensures var r := Apply(s, TimeOut(t));
            && r == s.(lock := s.lock.(readWait := r.lock.readWait, writeWait := r.lock.writeWait, timed := r.lock.timed))
            && !Waits(r.lock, t) && r.lock.timed == s.lock.timed - {t}
            && (forall a, b :: Before(s.lock.readWait, a, b) && a != t && b != t ==> Before(r.lock.readWait, a, b))
            && (forall a, b :: Before(s.lock.writeWait, a, b) && a != t && b != t ==> Before(r.lock.writeWait, a, b))
            && |r.lock.readWait| + |r.lock.writeWait| == |s.lock.readWait| + |s.lock.writeWait| - 1
  {
    var l, w := s.lock.readWait, s.lock.writeWait;
    RemoveElements(l, t);
    RemoveElements(w, t);
    forall a, b | Before(l, a, b) && a != t && b != t ensures Before(Remove(l, t), a, b) { RemoveKeepsOrder(l, t, a, b); }
    forall a, b | Before(w, a, b) && a != t && b != t ensures Before(Remove(w, t), a, b) { RemoveKeepsOrder(w, t, a, b); }
    hide Before, Remove, HoldersOk;
  }
}
