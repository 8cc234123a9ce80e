/** The kernel invariant and its preservation by every critical section. */
module RiotInvariant {
  import opened Options
  import opened PrioList
  import opened RiotSystem
  import opened RiotLists

  // ---------- invariants besides the lists ----------

  ghost predicate MailboxOk(s: Sys, t: Pid)
    requires t in s.threads
  {
    var c := s.threads[t];
    && |c.queue| <= c.capacity
    && (At(s, MsgWaiters(t)) != [] ==> |c.queue| == c.capacity)
    && (c.status == ReceiveBlocked ==> c.queue == [] && At(s, MsgWaiters(t)) == [])
  }

  /** w waits to hand its message to the existing thread t. */
  predicate Carries(s: Sys, t: Pid, w: Pid) {
    t in s.threads && w in s.threads && s.threads[w].waitData.Message?
  }

  /** Waiters exist only when the queue is full or absent, each carries its message, and nobody
      is blocked in receive while something is pending. */
  ghost predicate MessagesOk(s: Sys) {
    && (forall t :: t in s.threads ==> MailboxOk(s, t))
    && (forall t: nat, w {:trigger w in At(s, MsgWaiters(t))} :: w in At(s, MsgWaiters(t)) ==> Carries(s, t, w))
  }

  predicate FlagsFit(c: Thread) {
    (c.status == FlagBlockedAny || c.status == FlagBlockedAll) ==> c.waitData.Mask? && !FlagsSatisfied(c)
  }

  /** No lost wake-up: a thread that waits for flags does not have them. */
  ghost predicate FlagsOk(s: Sys) {
    forall t :: t in s.threads ==> FlagsFit(s.threads[t])
  }

  ghost predicate MutexesOk(s: Sys) {
    forall m: nat :: At(s, MutexQueue(m)) != [] ==> m in s.locked
  }

  /** Only the active thread is RUNNING. */
  ghost predicate RunningOk(s: Sys) {
    && (forall t :: t in s.threads && s.threads[t].status == Running ==> s.active == Some(t))
    && (s.active.Some? ==> s.active.value in s.threads)
  }

  ghost predicate Rest(s: Sys) {
    MessagesOk(s) && FlagsOk(s) && MutexesOk(s) && RunningOk(s)
  }

  ghost predicate Inv(s: Sys) {
    ListsOk(s) && Rest(s)
  }

  // ---------- the lists, with their witness hidden ----------

  /** A thread that may execute kernel calls: running, or awaiting a reply that can never come
      because its msg_send_receive named a missing thread. */
  ghost predicate CanRun(s: Sys, me: Pid) {
    && s.active == Some(me) && me in s.threads
    && (s.threads[me].status == Running || (s.threads[me].status == ReplyBlocked && OnNoList(s, me)))
  }

  /** The thread waits on no list: it is runnable, or linked nowhere. */
  ghost predicate Detached(s: Sys, t: Pid)
    requires t in s.threads
  {
    OnRunqueue(s.threads[t].status) || OnNoList(s, t)
  }

  ghost predicate OnNoList(s: Sys, t: Pid) {
    forall pl: Place {:trigger t in At(s, pl)} :: t !in At(s, pl)
  }

  lemma WakeHeadOk(s: Sys, pl: Place)
    requires ListsOk(s) && !pl.RunQueue? && At(s, pl) != []
    ensures At(s, pl)[0] in s.threads && Belongs(s.threads[At(s, pl)[0]], pl)
    ensures ListsOk(WakeHead(s, pl))
  {
    var home :| Placed(s, home, None);
    HeadFloats(s, home, pl);
    var h := At(s, pl)[0];
    PushLands(RemoveHead(s, pl), home - {h}, h);
  }

  lemma BlockOk(s: Sys, t: Pid, st: Status, pl: Place)
    requires ListsOk(s) && t in s.threads && !OnRunqueue(st) && !pl.RunQueue?
    requires Detached(s, t)
    requires Belongs(s.threads[t].(status := st), pl)
    ensures ListsOk(AddToList(SetStatus(s, t, st), pl, t))
  {
    var home :| Placed(s, home, None);
    var h2 := FloatOff(s, home, t, st);
    JoinLands(SetStatus(s, t, st), h2, t, pl);
  }

  /** Going off the run queue, from a run queue or from no list at all, leaves t floating. */
  lemma FloatOff(s: Sys, home: map<Pid, Place>, t: Pid, st: Status) returns (home': map<Pid, Place>)
    requires Placed(s, home, None) && t in s.threads && !OnRunqueue(st)
    requires Detached(s, t)
    ensures Placed(SetStatus(s, t, st), home', Some(t))
  {
    if OnRunqueue(s.threads[t].status) {
      PopFloats(s, home, t, st);
      home' := home - {t};
    } else {
      FloatsFree(s, home, t);
      FieldsFrame(s, home, t, s.threads[t].(status := st), Some(t));
      home' := home;
    }
  }

  /** A thread on no list may be taken as floating. */
  lemma FloatsFree(s: Sys, home: map<Pid, Place>, t: Pid)
    requires Placed(s, home, None) && t in s.threads && OnNoList(s, t)
    ensures Placed(s, home, Some(t))
  {
  }

  lemma StopOk(s: Sys, t: Pid, st: Status)
    requires ListsOk(s) && t in s.threads && !MustQueue(st)
    requires Detached(s, t)
    ensures ListsOk(SetStatus(s, t, st))
  {
    var home :| Placed(s, home, None);
    var h2 := FloatOff(s, home, t, st);
    NoListNeeded(SetStatus(s, t, st), h2, t);
  }

  lemma ReadyOk(s: Sys, t: Pid)
    requires ListsOk(s) && t in s.threads && !OnRunqueue(s.threads[t].status) && OnNoList(s, t)
    ensures ListsOk(SetStatus(s, t, Pending))
  {
    var home :| Placed(s, home, None);
    FloatsFree(s, home, t);
    PushLands(s, home, t);
  }

  lemma FieldsOk(s: Sys, t: Pid, c: Thread)
    requires ListsOk(s) && t in s.threads
    requires c.priority == s.threads[t].priority
    requires c.status == s.threads[t].status || (OnRunqueue(c.status) && OnRunqueue(s.threads[t].status))
    ensures ListsOk(WithThread(s, t, c))
  {
    var home :| Placed(s, home, None);
    FieldsFrame(s, home, t, c, None);
    assert Placed(WithThread(s, t, c), home, None);
  }

  /** A status that fits no list means the thread is on none. */
  lemma UnlistedStatus(s: Sys, t: Pid)
    requires ListsOk(s) && t in s.threads
    requires !MustQueue(s.threads[t].status) && s.threads[t].status != ReplyBlocked
    ensures OnNoList(s, t)
  {
    var home :| Placed(s, home, None);
  }

  lemma MemberStatus(s: Sys, pl: Place, t: Pid)
    requires ListsOk(s) && t in At(s, pl)
    ensures t in s.threads && Belongs(s.threads[t], pl)
  {
    var home :| Placed(s, home, None);
  }

  /** What sched_set_status leaves alone. */
  lemma SetStatusShape(s: Sys, t: Pid, st: Status)
    requires t in s.threads
    ensures var r := SetStatus(s, t, st);
            && r.threads == s.threads[t := s.threads[t].(status := st)]
            && (forall pl: Place :: !pl.RunQueue? ==> At(r, pl) == At(s, pl))
            && r.locked == s.locked && r.active == s.active && r.clz == s.clz
  {
  }

  // ---------- wake-ups ----------

  /** r differs from s at most in thread t and in run queues. */
  ghost predicate OnlyThread(s: Sys, r: Sys, t: Pid) {
    && t in s.threads && r.threads.Keys == s.threads.Keys
    && (forall u :: u in s.threads && u != t ==> r.threads[u] == s.threads[u])
    && (forall pl: Place :: !pl.RunQueue? ==> At(r, pl) == At(s, pl))
    && r.locked == s.locked && r.active == s.active
  }

  ghost predicate NotSending(s: Sys, t: Pid) {
    forall x: nat {:trigger t in At(s, MsgWaiters(x))} :: t !in At(s, MsgWaiters(x))
  }

  lemma MessagesFrame(s: Sys, r: Sys, t: Pid)
    requires MessagesOk(s) && OnlyThread(s, r, t) && MailboxOk(r, t)
    requires (s.threads[t].waitData.Message? ==> r.threads[t].waitData.Message?) || NotSending(s, t)
    ensures MessagesOk(r)
  {
    forall u | u in r.threads ensures MailboxOk(r, u) {
      assert MailboxOk(s, u);
    }
    forall x: nat, w | w in At(r, MsgWaiters(x)) ensures Carries(r, x, w) {
      assert At(r, MsgWaiters(x)) == At(s, MsgWaiters(x));
      assert Carries(s, x, w);
    }
  }

  /** Changing one thread keeps the other invariants when its own parts of them hold. */
  lemma OneThread(s: Sys, r: Sys, t: Pid)
    requires Rest(s) && OnlyThread(s, r, t) && MailboxOk(r, t) && FlagsFit(r.threads[t])
    requires (s.threads[t].waitData.Message? ==> r.threads[t].waitData.Message?) || NotSending(s, t)
    requires r.threads[t].status == Running ==> s.active == Some(t)
    ensures Rest(r)
  {
    MessagesFrame(s, r, t);
    assert forall u :: u in r.threads && u != t ==> FlagsFit(r.threads[u]);
  }

  /** A blocked thread outside all lists becomes runnable. */
  lemma ReadyKeeps(s: Sys, t: Pid)
    requires Inv(s) && t in s.threads && !OnRunqueue(s.threads[t].status) && OnNoList(s, t)
    ensures Inv(SetStatus(s, t, Pending))
  {
    ReadyOk(s, t);
    SetStatusShape(s, t, Pending);
    assert MailboxOk(s, t);
    hide ListsOk, Rest, SetStatus, OnNoList;
    OneThread(s, SetStatus(s, t, Pending), t);
  }

  /** Taking the head off a list only weakens what lists must satisfy. */
  lemma RestDrop(s: Sys, pl: Place)
    requires Rest(s) && At(s, pl) != []
    ensures Rest(RemoveHead(s, pl))
  {
    var r := RemoveHead(s, pl);
    AtWithList(s, pl, At(s, pl)[1..]);
    forall u | u in r.threads ensures MailboxOk(r, u) { assert MailboxOk(s, u); }
    forall x: nat, w | w in At(r, MsgWaiters(x)) ensures Carries(r, x, w) {
      assert w in At(s, MsgWaiters(x));
      assert Carries(s, x, w);
    }
  }

  lemma AtWithList(s: Sys, pl: Place, l: seq<Pid>)
    ensures forall q: Place :: At(WithList(s, pl, l), q) == if q == pl then l else At(s, q)
  {
  }

  ghost predicate MayJoin(s: Sys, pl: Place, t: Pid) {
    match pl
    case RunQueue(_) => false
    case MutexQueue(m) => m in s.locked
    case CondQueue(_) => true
    case MsgWaiters(x) =>
      && x in s.threads && t in s.threads && s.threads[t].waitData.Message?
      && |s.threads[x].queue| == s.threads[x].capacity && s.threads[x].status != ReceiveBlocked
  }

  lemma RestJoin(s: Sys, pl: Place, t: Pid)
    requires Rest(s) && MayJoin(s, pl, t)
    ensures Rest(AddToList(s, pl, t))
  {
    var r := AddToList(s, pl, t);
    AtWithList(s, pl, Insert(Prio(s), At(s, pl), t));
    InsertElements(Prio(s), At(s, pl), t);
    forall u | u in r.threads ensures MailboxOk(r, u) { assert MailboxOk(s, u); }
    forall x: nat, w | w in At(r, MsgWaiters(x)) ensures Carries(r, x, w) {
      if w in At(s, MsgWaiters(x)) { assert Carries(s, x, w); }
    }
  }

  /** Waking the first waiter of a list keeps the invariant. */
  lemma WakeHeadKeeps(s: Sys, pl: Place)
    requires Inv(s) && !pl.RunQueue? && At(s, pl) != []
    ensures At(s, pl)[0] in s.threads && Belongs(s.threads[At(s, pl)[0]], pl)
    ensures Inv(WakeHead(s, pl))
  {
    hide ListsOk, Rest, WakeHead;
    WakeHeadOk(s, pl);
    RestDrop(s, pl);
    WakeHeadRest(s, pl);
  }

  lemma WakeHeadRest(s: Sys, pl: Place)
    requires At(s, pl) != [] && Rest(RemoveHead(s, pl)) && At(s, pl)[0] in s.threads
    requires !OnRunqueue(s.threads[At(s, pl)[0]].status)
    ensures Rest(WakeHead(s, pl))
  {
    var h := At(s, pl)[0];
    var s1 := RemoveHead(s, pl);
    SetStatusShape(s1, h, Pending);
    assert MailboxOk(s1, h);
    hide Rest, SetStatus, RemoveHead;
    OneThread(s1, SetStatus(s1, h, Pending), h);
  }

  /** sched_set_status links at most its own thread. */
  lemma SetStatusMembers(s: Sys, t: Pid, st: Status)
    requires t in s.threads
    ensures var r := SetStatus(s, t, st);
            forall q: Place, u :: u in At(r, q) ==> u in At(s, q) || u == t
  {
    var p := s.threads[t].priority;
    RemoveSubset(At(s, RunQueue(p)), t);
  }

  /** A thread that waits on no list still does not after somebody else was woken. */
  lemma WakeHeadDetached(s: Sys, pl: Place, me: Pid)
    requires At(s, pl) != [] && At(s, pl)[0] in s.threads
    requires me in s.threads && Detached(s, me) && me != At(s, pl)[0]
    ensures me in WakeHead(s, pl).threads && Detached(WakeHead(s, pl), me)
    ensures WakeHead(s, pl).threads[me] == s.threads[me]
    ensures WakeHead(s, pl).active == s.active && WakeHead(s, pl).locked == s.locked
  {
    var h := At(s, pl)[0];
    var s1 := RemoveHead(s, pl);
    AtWithList(s, pl, At(s, pl)[1..]);
    SetStatusMembers(s1, h, Pending);
    var r := WakeHead(s, pl);
    forall q: Place | OnNoList(s, me) ensures me !in At(r, q) {
      assert me !in At(s, q);
    }
  }

  lemma BlockRest(s: Sys, me: Pid, st: Status, pl: Place)
    requires Rest(s) && me in s.threads && MayJoin(s, pl, me)
    requires !OnRunqueue(st) && st != ReceiveBlocked && st != FlagBlockedAny && st != FlagBlockedAll
    requires pl.MsgWaiters? ==> pl.receiver != me
    ensures Rest(AddToList(SetStatus(s, me, st), pl, me))
  {
    var s1 := SetStatus(s, me, st);
    SetStatusShape(s, me, st);
    assert MailboxOk(s, me);
    OneThread(s, s1, me);
    RestJoin(s1, pl, me);
  }

  /** A detached thread blocks on a list. */
  lemma BlockKeeps(s: Sys, me: Pid, st: Status, pl: Place)
    requires Inv(s) && me in s.threads && Detached(s, me) && !OnRunqueue(st) && MayJoin(s, pl, me)
    requires Belongs(s.threads[me].(status := st), pl)
    requires pl.MsgWaiters? ==> pl.receiver != me
    ensures Inv(AddToList(SetStatus(s, me, st), pl, me))
  {
    BlockOk(s, me, st, pl);
    BlockRest(s, me, st, pl);
  }

  /** A detached thread stops in a state that needs no list. */
  lemma StopKeeps(s: Sys, me: Pid, st: Status)
    requires Inv(s) && me in s.threads && Detached(s, me) && !MustQueue(st)
    requires MailboxOk(s.(threads := s.threads[me := s.threads[me].(status := st)]), me)
    requires FlagsFit(s.threads[me].(status := st))
    ensures Inv(SetStatus(s, me, st))
  {
    hide ListsOk, Rest, SetStatus, OnNoList;
    StopOk(s, me, st);
    SetStatusShape(s, me, st);
    assert MailboxOk(SetStatus(s, me, st), me);
    OneThread(s, SetStatus(s, me, st), me);
  }

  /** A change of a thread's other fields. */
  lemma FieldsKeep(s: Sys, t: Pid, c: Thread)
    requires Inv(s) && t in s.threads
    requires c.priority == s.threads[t].priority && c.status == s.threads[t].status
    requires MailboxOk(WithThread(s, t, c), t) && FlagsFit(c)
    requires (s.threads[t].waitData.Message? ==> c.waitData.Message?) || NotSending(s, t)
    ensures Inv(WithThread(s, t, c))
  {
    hide ListsOk, MessagesOk, FlagsOk, MutexesOk, NotSending, MailboxOk, FlagsFit;
    FieldsOk(s, t, c);
    OneThread(s, WithThread(s, t, c), t);
  }

  lemma UnlistedNotSending(s: Sys, t: Pid)
    requires ListsOk(s) && t in s.threads
    requires Detached(s, t)
    ensures NotSending(s, t)
  {
    forall x: nat | t in At(s, MsgWaiters(x)) ensures false { MemberStatus(s, MsgWaiters(x), t); }
  }
}
