/** One list node per thread: whatever the kernel does, a thread is on at most one list, and
    its status says on which kind. */
module RiotLists {
  import opened Options
  import opened PrioList
  import opened Bitcache
  import opened RiotSystem

  /** The status a thread must have to be on a list. */
  predicate Belongs(c: Thread, pl: Place) {
    match pl
    case RunQueue(p) => OnRunqueue(c.status) && c.priority == p
    case MutexQueue(_) => c.status == MutexBlocked
    case CondQueue(_) => c.status == CondBlocked
    case MsgWaiters(_) => c.status == SendBlocked || c.status == ReplyBlocked
  }

  /** These states are only left through the list the thread is on. */
  predicate MustQueue(st: Status) {
    OnRunqueue(st) || st == MutexBlocked || st == CondBlocked || st == SendBlocked
  }

  /** home tells for each thread node the one list it is linked into. */
  ghost predicate Linked(s: Sys, home: map<Pid, Place>) {
    && (forall pl: Place, t {:trigger t in At(s, pl)} :: t in At(s, pl) ==> t in home && home[t] == pl)
    && (forall t {:trigger t in home} :: t in home ==> t in At(s, home[t]))
    && (forall pl: Place {:trigger Distinct(At(s, pl))} :: Distinct(At(s, pl)))
  }

  ghost predicate StatusFits(s: Sys, home: map<Pid, Place>) {
    forall t :: t in home ==> t in s.threads && Belongs(s.threads[t], home[t])
  }

  /** Nobody but the floating thread x, which is between two lists, is missing from a list. */
  ghost predicate NobodyLost(s: Sys, home: map<Pid, Place>, x: Option<Pid>) {
    && (forall t :: t in s.threads && Some(t) != x && MustQueue(s.threads[t].status) ==> t in home)
    && (x.Some? ==> x.value in s.threads && x.value !in home)
  }

  ghost predicate WaitersSorted(s: Sys) {
    forall pl: Place {:trigger Sorted(Prio(s), At(s, pl))} :: !pl.RunQueue? ==> Sorted(Prio(s), At(s, pl))
  }

  ghost predicate CacheAgrees(s: Sys) {
    forall p: nat :: p < 32 ==> (Has(s.clz, s.cache, p) <==> At(s, RunQueue(p)) != [])
  }

  ghost predicate Seated(s: Sys, home: map<Pid, Place>, x: Option<Pid>) {
    Linked(s, home) && StatusFits(s, home) && NobodyLost(s, home, x)
  }

  ghost predicate Placed(s: Sys, home: map<Pid, Place>, x: Option<Pid>) {
    Seated(s, home, x) && WaitersSorted(s) && CacheAgrees(s)
  }

  /** The list invariant. */
  ghost predicate ListsOk(s: Sys) {
    exists home: map<Pid, Place> :: Placed(s, home, None)
  }

  // ---------- one list changes ----------

  /** r differs from s in one list and at most in one thread, which keeps its priority. */
  ghost predicate OneMove(s: Sys, r: Sys, pl: Place, t: Pid) {
    && (forall q: Place :: q != pl ==> At(r, q) == At(s, q))
    && t in s.threads && r.threads.Keys == s.threads.Keys
    && (forall u :: u in s.threads && u != t ==> r.threads[u] == s.threads[u])
    && r.threads[t].priority == s.threads[t].priority
  }

  lemma SamePrio(s: Sys, r: Sys, pl: Place, t: Pid)
    requires OneMove(s, r, pl, t)
    ensures forall u: nat :: Prio(r)(u) == Prio(s)(u)
  {
  }

  lemma SortedAfterMove(s: Sys, r: Sys, pl: Place, t: Pid)
    requires OneMove(s, r, pl, t) && WaitersSorted(s)
    requires !pl.RunQueue? ==> Sorted(Prio(s), At(r, pl))
    ensures WaitersSorted(r)
  {
    SamePrio(s, r, pl, t);
    forall q: Place | !q.RunQueue? ensures Sorted(Prio(r), At(r, q)) {
      assert q != pl ==> Sorted(Prio(s), At(s, q));
      SortedFrame(Prio(s), Prio(r), At(r, q));
    }
  }

  /** t leaves its list. */
  lemma LinkedOff(s: Sys, r: Sys, home: map<Pid, Place>, pl: Place, t: Pid)
    requires Linked(s, home) && OneMove(s, r, pl, t) && t in home && home[t] == pl
    requires Distinct(At(r, pl)) && forall u :: u in At(r, pl) <==> u in At(s, pl) && u != t
    ensures Linked(r, home - {t})
  {
    forall q: Place ensures Distinct(At(r, q)) {
      assert Distinct(At(s, q));
    }
  }

  /** t joins a list. */
  lemma LinkedOn(s: Sys, r: Sys, home: map<Pid, Place>, pl: Place, t: Pid)
    requires Linked(s, home) && OneMove(s, r, pl, t) && t !in home
    requires Distinct(At(r, pl)) && forall u :: u in At(r, pl) <==> u in At(s, pl) || u == t
    ensures Linked(r, home[t := pl])
  {
    forall q: Place ensures Distinct(At(r, q)) {
      assert Distinct(At(s, q));
    }
  }

  lemma CacheAfterMove(s: Sys, r: Sys, p: nat)
    requires CacheAgrees(s) && p < 32 && r.clz == s.clz
    requires forall q: Place :: q != RunQueue(p) ==> At(r, q) == At(s, q)
    requires forall q: nat :: q < 32 && q != p ==> (Has(r.clz, r.cache, q) <==> Has(s.clz, s.cache, q))
    requires Has(r.clz, r.cache, p) <==> At(r, RunQueue(p)) != []
    ensures CacheAgrees(r)
  {
  }

  /** t left its list and floats. */
  lemma Floats(s: Sys, r: Sys, home: map<Pid, Place>, pl: Place, t: Pid)
    requires Seated(s, home, None) && OneMove(s, r, pl, t) && t in home && home[t] == pl
    requires Distinct(At(r, pl)) && forall u :: u in At(r, pl) <==> u in At(s, pl) && u != t
    ensures Seated(r, home - {t}, Some(t))
  {
    LinkedOff(s, r, home, pl, t);
  }

  /** The floating thread t joined a list. */
  lemma Lands(s: Sys, r: Sys, home: map<Pid, Place>, pl: Place, t: Pid)
    requires Seated(s, home, Some(t)) && OneMove(s, r, pl, t) && Belongs(r.threads[t], pl)
    requires Distinct(At(r, pl)) && forall u :: u in At(r, pl) <==> u in At(s, pl) || u == t
    ensures Seated(r, home[t := pl], None)
  {
    LinkedOn(s, r, home, pl, t);
  }

  /** A runnable thread leaves its run queue for a state off the run queue. */
  lemma PopFloats(s: Sys, home: map<Pid, Place>, t: Pid, st: Status)
    requires Placed(s, home, None) && t in s.threads && OnRunqueue(s.threads[t].status) && !OnRunqueue(st)
    ensures Placed(SetStatus(s, t, st), home - {t}, Some(t))
  {
    var p := s.threads[t].priority;
    var pl := RunQueue(p);
    var r := SetStatus(s, t, st);
    assert t in home && home[t] == pl;
    assert t in At(s, pl);
    assert At(r, pl) == Remove(At(s, pl), t);
    assert OneMove(s, r, pl, t);
    assert Distinct(At(s, pl));
    RemoveElements(At(s, pl), t);
    assert CacheAgrees(r) by { CacheAfterMove(s, r, p); }
    SortedAfterMove(s, r, pl, t);
    Floats(s, r, home, pl, t);
  }

  /** A floating thread joins a wait list. */
  lemma JoinLands(s: Sys, home: map<Pid, Place>, t: Pid, pl: Place)
    requires Placed(s, home, Some(t)) && !pl.RunQueue? && Belongs(s.threads[t], pl)
    ensures Placed(AddToList(s, pl, t), home[t := pl], None)
  {
    var l := At(s, pl);
    var r := AddToList(s, pl, t);
    assert t !in l && Distinct(l) && Sorted(Prio(s), l);
    assert At(r, pl) == Insert(Prio(s), l, t);
    assert OneMove(s, r, pl, t);
    assert CacheAgrees(r);
    InsertElements(Prio(s), l, t);
    assert WaitersSorted(r) by {
      InsertSorted(Prio(s), l, t);
      SortedAfterMove(s, r, pl, t);
    }
    Lands(s, r, home, pl, t);
  }

  /** The head of a wait list leaves it. */
  lemma HeadFloats(s: Sys, home: map<Pid, Place>, pl: Place)
    requires Placed(s, home, None) && !pl.RunQueue? && At(s, pl) != []
    ensures At(s, pl)[0] in s.threads && Belongs(s.threads[At(s, pl)[0]], pl)
    ensures Placed(RemoveHead(s, pl), home - {At(s, pl)[0]}, Some(At(s, pl)[0]))
  {
    var l := At(s, pl);
    var h := l[0];
    var r := RemoveHead(s, pl);
    assert h in l && home[h] == pl && Distinct(l);
    assert At(r, pl) == l[1..];
    assert OneMove(s, r, pl, h);
    assert CacheAgrees(r);
    TailElements(l);
    assert WaitersSorted(r) by {
      assert Sorted(Prio(s), l);
      SortedAfterMove(s, r, pl, h);
    }
    Floats(s, r, home, pl, h);
  }

  lemma TailElements(l: seq<nat>)
    requires Distinct(l) && l != []
    ensures Distinct(l[1..]) && forall u :: u in l[1..] <==> u in l && u != l[0]
  {
    assert l == [l[0]] + l[1..];
  }

  /** A floating thread becomes runnable. */
  lemma PushLands(s: Sys, home: map<Pid, Place>, t: Pid)
    requires Placed(s, home, Some(t)) && !OnRunqueue(s.threads[t].status)
    ensures Placed(SetStatus(s, t, Pending), home[t := RunQueue(s.threads[t].priority)], None)
  {
    var p := s.threads[t].priority;
    var pl := RunQueue(p);
    var r := SetStatus(s, t, Pending);
    assert t !in At(s, pl) && Distinct(At(s, pl));
    assert At(r, pl) == At(s, pl) + [t];
    assert OneMove(s, r, pl, t);
    AppendElements(At(s, pl), t);
    assert CacheAgrees(r) by { CacheAfterMove(s, r, p); }
    SortedAfterMove(s, r, pl, t);
    Lands(s, r, home, pl, t);
  }

  /** A floating thread needs no list when its state needs none. */
  lemma NoListNeeded(s: Sys, home: map<Pid, Place>, t: Pid)
    requires Placed(s, home, Some(t)) && !MustQueue(s.threads[t].status)
    ensures Placed(s, home, None)
  {
  }

  /** Changing a thread's other fields, or its status within what its place allows, does not
      concern the lists. */
  lemma FieldsFrame(s: Sys, home: map<Pid, Place>, t: Pid, c: Thread, x: Option<Pid>)
    requires Placed(s, home, x) && t in s.threads && c.priority == s.threads[t].priority
    requires t in home ==> Belongs(c, home[t])
    requires Some(t) != x && MustQueue(c.status) ==> t in home
    ensures Placed(WithThread(s, t, c), home, x)
  {
    var r := WithThread(s, t, c);
    assert forall q: Place :: At(r, q) == At(s, q);
    forall q: Place ensures Distinct(At(r, q)) {
      assert Distinct(At(s, q));
    }
    assert Linked(r, home);
    assert CacheAgrees(r);
    assert WaitersSorted(r) by { SortedAfterMove(s, r, RunQueue(0), t); }
  }
}
