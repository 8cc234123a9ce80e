/** Run queues are first come, first served. */
module RiotQueues {
  import opened Options
  import opened PrioList
  import opened RiotSystem
  import opened RiotLists
  import opened RiotInvariant
  import opened RiotSteps
  import opened RiotRuns
  import opened RiotEffects

  // ---------- vocabulary ----------

  /** n begins with l. */
  predicate Starts(l: seq<Pid>, n: seq<Pid>) {
    |l| <= |n| && n[..|l|] == l
  }

  predicate Runnable(r: Sys, t: Pid) {
    t in r.threads && OnRunqueue(r.threads[t].status)
  }

  /** A run queue is what it was, less the active thread when that has stopped, followed by those that became
      runnable. */
  ghost predicate QueueFollows(s: Sys, r: Sys, p: nat) {
    var l := At(s, RunQueue(p));
    Starts(if s.active.Some? && !Runnable(r, s.active.value) then Remove(l, s.active.value) else l, At(r, RunQueue(p)))
  }

  /** Threads only joined run queues, at the end. */
  ghost predicate Grown(s: Sys, r: Sys) {
    forall p: nat :: Starts(At(s, RunQueue(p)), At(r, RunQueue(p)))
  }

  /** t left, then threads joined at the end. */
  ghost predicate LeftBy(s: Sys, r: Sys, t: Pid) {
    forall p: nat :: Starts(Remove(At(s, RunQueue(p)), t), At(r, RunQueue(p)))
  }

  lemma {:induction false} StartsRemoved(l: seq<Pid>, n: seq<Pid>, t: Pid)
    requires Starts(l, n)
    ensures Starts(Remove(l, t), Remove(n, t))
  {
    if l != [] && l[0] != t {
      assert n[1..][..|l[1..]|] == l[1..];
      StartsRemoved(l[1..], n[1..], t);
    }
  }

  lemma StartsJoin(l: seq<Pid>, n: seq<Pid>, m: seq<Pid>)
    requires Starts(l, n) && Starts(n, m)
    ensures Starts(l, m)
  {
    assert m[..|l|] == n[..|l|];
  }

  lemma GrownJoin(s: Sys, r: Sys, z: Sys)
    requires Grown(s, r) && Grown(r, z)
    ensures Grown(s, z)
  {
    hide Starts, At;
    forall p: nat ensures Starts(At(s, RunQueue(p)), At(z, RunQueue(p))) {
      StartsJoin(At(s, RunQueue(p)), At(r, RunQueue(p)), At(z, RunQueue(p)));
    }
  }

  lemma LeftThenGrown(s: Sys, r: Sys, z: Sys, t: Pid)
    requires LeftBy(s, r, t) && Grown(r, z)
    ensures LeftBy(s, z, t)
  {
    hide Starts, At, Remove;
    forall p: nat ensures Starts(Remove(At(s, RunQueue(p)), t), At(z, RunQueue(p))) {
      StartsJoin(Remove(At(s, RunQueue(p)), t), At(r, RunQueue(p)), At(z, RunQueue(p)));
    }
  }

  lemma GrownThenLeft(s: Sys, r: Sys, z: Sys, t: Pid)
    requires Grown(s, r) && LeftBy(r, z, t)
    ensures LeftBy(s, z, t)
  {
    hide Starts, At, Remove;
    forall p: nat ensures Starts(Remove(At(s, RunQueue(p)), t), At(z, RunQueue(p))) {
      StartsRemoved(At(s, RunQueue(p)), At(r, RunQueue(p)), t);
      StartsJoin(Remove(At(s, RunQueue(p)), t), Remove(At(r, RunQueue(p)), t), At(z, RunQueue(p)));
    }
  }

  lemma SameQueues(s: Sys, r: Sys)
    requires forall p: nat :: At(r, RunQueue(p)) == At(s, RunQueue(p))
    ensures Grown(s, r)
  {
  }

  /** Waking puts a thread at the end of its queue. */
  lemma StatusGrows(s: Sys, t: Pid, st: Status)
    requires t in s.threads && (OnRunqueue(st) || !OnRunqueue(s.threads[t].status))
    ensures Grown(s, SetStatus(s, t, st))
  {
  }

  /** Stopping takes a thread out of the one queue it can be in. */
  lemma StatusLeaves(s: Sys, t: Pid, st: Status)
    requires t in s.threads && !OnRunqueue(st)
    requires forall p: nat :: t in At(s, RunQueue(p)) ==> OnRunqueue(s.threads[t].status) && p == s.threads[t].priority
    ensures LeftBy(s, SetStatus(s, t, st), t)
  {
  }

  lemma FlagsGrow(s: Sys, t: Pid, mask: Flags)
    requires t in s.threads
    ensures Grown(s, FlagsSet(s, t, mask))
  {
    var c := s.threads[t].(flags := s.threads[t].flags + mask);
    var s1 := WithThread(s, t, c);
    SameQueues(s, s1);
    if FlagsSatisfied(c) {
      StatusGrows(s1, t, Pending);
      hide Grown, SetStatus;
      GrownJoin(s, s1, SetStatus(s1, t, Pending));
    }
  }

  lemma WakeGrows(s: Sys, pl: Place)
    requires !pl.RunQueue? && At(s, pl) != [] && At(s, pl)[0] in s.threads
    ensures Grown(s, WakeHead(s, pl))
  {
    SameQueues(s, RemoveHead(s, pl));
    StatusGrows(RemoveHead(s, pl), At(s, pl)[0], Pending);
    GrownJoin(s, RemoveHead(s, pl), WakeHead(s, pl));
  }

  // ---------- one call ----------

  lemma FromGrown(s: Sys, r: Sys)
    requires Grown(s, r) && Inv(r)
    ensures forall p: nat :: QueueFollows(s, r, p)
  {
    hide ListsOk, Rest;
    forall p: nat ensures QueueFollows(s, r, p) {
      var l := At(s, RunQueue(p));
      assert Starts(l, At(r, RunQueue(p)));
      if s.active.Some? && !Runnable(r, s.active.value) {
        RunQueueMembers(r, s.active.value, p);
        assert s.active.value !in At(r, RunQueue(p))[..|l|];
      }
    }
  }

  lemma FromLeft(s: Sys, r: Sys, me: Pid)
    requires LeftBy(s, r, me) && s.active == Some(me) && !Runnable(r, me)
    ensures forall p: nat :: QueueFollows(s, r, p)
  {
  }

  /** The caller leaves the only run queue it can be in. */
  lemma CallerLeaves(s: Sys, me: Pid, st: Status)
    requires Inv(s) && me in s.threads && !OnRunqueue(st)
    ensures LeftBy(s, SetStatus(s, me, st), me)
  {
    forall p: nat ensures me in At(s, RunQueue(p)) ==> OnRunqueue(s.threads[me].status) && p == s.threads[me].priority {
      RunQueueMembers(s, me, p);
    }
    hide Inv, SetStatus;
    StatusLeaves(s, me, st);
  }

  /** Changing fields other than status and priority first makes no difference. */
  lemma CallerLeavesWith(s: Sys, me: Pid, c: Thread, st: Status)
    requires Inv(s) && me in s.threads && !OnRunqueue(st)
    requires c.status == s.threads[me].status && c.priority == s.threads[me].priority
    ensures LeftBy(s, SetStatus(WithThread(s, me, c), me, st), me)
  {
    CallerLeaves(s, me, st);
    hide *;
    FieldsSameQueues(s, me, c, st);
    LeftThenGrown(s, SetStatus(s, me, st), SetStatus(WithThread(s, me, c), me, st), me);
  }

  lemma FieldsSameQueues(s: Sys, me: Pid, c: Thread, st: Status)
    requires me in s.threads && c.status == s.threads[me].status && c.priority == s.threads[me].priority
    ensures Grown(SetStatus(s, me, st), SetStatus(WithThread(s, me, c), me, st))
  {
    SameQueues(SetStatus(s, me, st), SetStatus(WithThread(s, me, c), me, st));
  }

  lemma ThenJoins(s: Sys, r: Sys, me: Pid, pl: Place)
    requires LeftBy(s, r, me) && !pl.RunQueue?
    ensures LeftBy(s, AddToList(r, pl, me), me)
  {
    SameQueues(r, AddToList(r, pl, me));
    hide LeftBy, AddToList;
    LeftThenGrown(s, r, AddToList(r, pl, me), me);
  }

  lemma UnlockGrows(s: Sys, m: nat)
    requires At(s, MutexQueue(m)) != [] ==> At(s, MutexQueue(m))[0] in s.threads
    ensures Grown(s, MutexUnlock(s, m))
  {
    SameQueues(s, s.(locked := s.locked - {m}));
    SameQueues(s, s);
    if m in s.locked && At(s, MutexQueue(m)) != [] { WakeGrows(s, MutexQueue(m)); }
  }

  lemma {:induction false} SignalGrows(s: Sys, c: nat, broadcast: bool)
    requires forall t :: t in At(s, CondQueue(c)) ==> t in s.threads
    ensures Grown(s, CondSignal(s, c, broadcast))
    decreases |At(s, CondQueue(c))|
  {
    var l := At(s, CondQueue(c));
    SameQueues(s, s);
    if l != [] {
      assert l[0] in l;
      var s1 := WakeHead(s, CondQueue(c));
      WakeGrows(s, CondQueue(c));
      WakeHeadShape(s, CondQueue(c));
      hide WakeHead, Grown;
      if broadcast {
        SignalGrows(s1, c, broadcast);
        GrownJoin(s, s1, CondSignal(s1, c, broadcast));
      }
    }
  }

  /** The thread woken is last on its run queue; the others keep their priority. */
  lemma WakeHeadJoins(s: Sys, pl: Place)
    requires ListsOk(s) && !pl.RunQueue? && At(s, pl) != []
    ensures At(s, pl)[0] in s.threads
    ensures var h, r := At(s, pl)[0], WakeHead(s, pl);
            && At(r, RunQueue(s.threads[h].priority)) == At(s, RunQueue(s.threads[h].priority)) + [h]
            && (forall t :: t in s.threads ==> t in r.threads && r.threads[t].priority == s.threads[t].priority)
  {
    WakeHeadOk(s, pl);
    hide *;
    HeadJoins(s, pl);
  }

  lemma HeadJoins(s: Sys, pl: Place)
    requires !pl.RunQueue? && At(s, pl) != [] && At(s, pl)[0] in s.threads
    requires Belongs(s.threads[At(s, pl)[0]], pl)
    ensures var h, r := At(s, pl)[0], WakeHead(s, pl);
            && At(r, RunQueue(s.threads[h].priority)) == At(s, RunQueue(s.threads[h].priority)) + [h]
            && (forall t :: t in s.threads ==> t in r.threads && r.threads[t].priority == s.threads[t].priority)
  {
  }

  /** A broadcast puts every waiter on the run queue of its priority. */
  lemma {:induction false} BroadcastWakes(s: Sys, c: nat, t: Pid)
    requires Inv(s) && t in At(s, CondQueue(c))
    ensures t in s.threads && forall x :: x in At(s, CondQueue(c)) ==> x in s.threads
    ensures t in At(CondSignal(s, c, true), RunQueue(s.threads[t].priority))
    decreases |At(s, CondQueue(c))|
  {
    hide ListsOk, Rest, WakeHead, At;
    var l, s1 := FirstWoken(s, c);
    CondMembers(s, c);
    SignalGrows(s1, c, true);
    var p := s.threads[t].priority;
    assert Starts(At(s1, RunQueue(p)), At(CondSignal(s1, c, true), RunQueue(p)));
    if t == l[0] {
      InPrefix(At(s1, RunQueue(p)), At(CondSignal(s1, c, true), RunQueue(p)), |At(s, RunQueue(p))|);
    } else {
      BroadcastWakes(s1, c, t);
    }
  }

  lemma InPrefix(l: seq<Pid>, n: seq<Pid>, i: nat)
    requires Starts(l, n) && i < |l|
    ensures l[i] == n[i] && l[i] in n
  {
    assert n[..|l|][i] == n[i];
  }

  /** What a broadcast does first */
  lemma FirstWoken(s: Sys, c: nat) returns (l: seq<Pid>, s1: Sys)
    requires Inv(s) && At(s, CondQueue(c)) != []
    ensures l == At(s, CondQueue(c)) && l[0] in s.threads && (forall x :: x in l ==> x in s.threads)
    ensures s1 == WakeHead(s, CondQueue(c)) && Inv(s1) && At(s1, CondQueue(c)) == l[1..]
    ensures (forall x :: x in l[1..] ==> x in s1.threads) && CondSignal(s, c, true) == CondSignal(s1, c, true)
    ensures At(s1, RunQueue(s.threads[l[0]].priority)) == At(s, RunQueue(s.threads[l[0]].priority)) + [l[0]]
    ensures forall t :: t in s.threads ==> t in s1.threads && s1.threads[t].priority == s.threads[t].priority
  {
    hide ListsOk, Rest, WakeHead;
    CondMembers(s, c);
    l := At(s, CondQueue(c));
    assert l[0] in l;
    s1 := WakeHead(s, CondQueue(c));
    WakeHeadKeeps(s, CondQueue(c));
    WakeHeadJoins(s, CondQueue(c));
    WakeHeadShape(s, CondQueue(c));
  }

  /** Main result, broadcast. Waiters of the same priority are put on their run queue in the order in which
      they waited. */
  lemma {:induction false} BroadcastInOrder(s: Sys, c: nat, x: Pid, y: Pid)
    requires Inv(s) && Before(At(s, CondQueue(c)), x, y)
    ensures x in s.threads && y in s.threads && forall t :: t in At(s, CondQueue(c)) ==> t in s.threads
    ensures s.threads[x].priority == s.threads[y].priority ==>
              Before(At(CondSignal(s, c, true), RunQueue(s.threads[x].priority)), x, y)
    decreases |At(s, CondQueue(c))|
  {
    hide ListsOk, Rest, WakeHead, At, CondSignal;
    var l, s1 := FirstWoken(s, c);
    CondMembers(s, c);
    var r, p := CondSignal(s, c, true), s.threads[x].priority;
    BeforeMembers(l, x, y);
    if s.threads[y].priority == p {
      if x == l[0] {
        var k := |At(s, RunQueue(p))|;
        SignalGrows(s1, c, true);
        assert Starts(At(s1, RunQueue(p)), At(r, RunQueue(p)));
        InPrefix(At(s1, RunQueue(p)), At(r, RunQueue(p)), k);
        BroadcastWakes(s, c, y);
        YetToWake(s, s1, c, y);
        LaterIsBehind(At(s1, RunQueue(p)), At(r, RunQueue(p)), k, y);
      } else {
        TailBefore(l, x, y);
        BroadcastInOrder(s1, c, x, y);
      }
    }
  }

  lemma TailBefore(l: seq<Pid>, x: Pid, y: Pid)
    requires Before(l, x, y) && x != l[0]
    ensures Before(l[1..], x, y)
  {
    var i, j :| 0 <= i < j < |l| && l[i] == x && l[j] == y;
    assert l[1..][i - 1] == x && l[1..][j - 1] == y;
  }

  lemma LaterIsBehind(l: seq<Pid>, n: seq<Pid>, i: nat, y: Pid)
    requires Starts(l, n) && i < |l| && y !in l && y in n
    ensures Before(n, n[i], y)
  {
    forall k | 0 <= k < |l| ensures n[k] == l[k] { InPrefix(l, n, k); }
    var j :| 0 <= j < |n| && n[j] == y;
  }

  /** Behind the first waiter nobody is runnable yet. */
  lemma YetToWake(s: Sys, s1: Sys, c: nat, y: Pid)
    requires Inv(s1) && |At(s, CondQueue(c))| > 0 && At(s1, CondQueue(c)) == At(s, CondQueue(c))[1..]
    requires Before(At(s, CondQueue(c)), At(s, CondQueue(c))[0], y)
    ensures forall p: nat :: y !in At(s1, RunQueue(p))
  {
    var l := At(s, CondQueue(c));
    var i, j :| 0 <= i < j < |l| && l[i] == l[0] && l[j] == y;
    assert l[1..][j - 1] == y;
    ListsSeparate(s1);
  }

  lemma WakeHeadShape(s: Sys, pl: Place)
    requires !pl.RunQueue? && At(s, pl) != [] && At(s, pl)[0] in s.threads
    ensures At(WakeHead(s, pl), pl) == At(s, pl)[1..] && WakeHead(s, pl).threads.Keys == s.threads.Keys
  {
  }

  /** Fields first, then ready */
  lemma WithThenReady(s: Sys, t: Pid, c: Thread)
    requires t in s.threads
    ensures Grown(s, SetStatus(WithThread(s, t, c), t, Pending))
  {
    SameQueues(s, WithThread(s, t, c));
    StatusGrows(WithThread(s, t, c), t, Pending);
    hide Grown, SetStatus;
    GrownJoin(s, WithThread(s, t, c), SetStatus(WithThread(s, t, c), t, Pending));
  }

  lemma QueueGrows(s: Sys, t: Pid, m: Msg)
    requires t in s.threads
    ensures Grown(s, QueueMsg(s, t, m).0)
  {
    var c := s.threads[t];
    var s1 := WithThread(s, t, c.(queue := c.queue + [m]));
    SameQueues(s, s1);
    SameQueues(s, s);
    FlagsGrow(s1, t, MSG_WAITING);
    hide Grown, FlagsSet;
    GrownJoin(s, s1, FlagsSet(s1, t, MSG_WAITING));
  }

  /** A send leaves the caller where it is when the message is handed over or queued, and takes it off its
      queue when it has to wait. */
  lemma SendLists(s: Sys, me: Pid, target: Pid, m0: Msg, block: bool)
    requires Inv(s) && me in s.threads
    ensures var r := MsgSend(s, me, target, m0, block).0;
            Grown(s, r) || (LeftBy(s, r, me) && me in r.threads && target in s.threads
                            && (target != me ==> !OnRunqueue(r.threads[me].status)))
  {
    hide ListsOk, Rest, SetStatus, FlagsSet, QueueMsg, AddToList, Grown, LeftBy;
    var m := m0.(sender := me);
    NothingGrows(s);
    if target in s.threads {
      if s.threads[target].status == ReceiveBlocked {
        WithThenReady(s, target, s.threads[target].(received := s.threads[target].received + [m]));
      } else {
        QueueGrows(s, target, m);
        if !QueueMsg(s, target, m).1 && block {
          RefusedWhenFull(s, target, m);
          SenderLeaves(s, me, target, m);
        }
      }
    }
  }

  lemma NothingGrows(s: Sys)
    ensures Grown(s, s)
  {
  }

  lemma SenderLeaves(s: Sys, me: Pid, target: Pid, m: Msg)
    requires Inv(s) && me in s.threads && target in s.threads
    ensures var st := if s.threads[me].status == ReplyBlocked then ReplyBlocked else SendBlocked;
            var s3 := AddToList(SetStatus(WithThread(s, me, s.threads[me].(waitData := Message(m))), me, st),
                                MsgWaiters(target), me);
            && target in s3.threads
            && var r := FlagsSet(s3, target, MSG_WAITING);
            LeftBy(s, r, me) && me in r.threads && (target != me ==> r.threads[me].status == st)
  {
    var st := if s.threads[me].status == ReplyBlocked then ReplyBlocked else SendBlocked;
    var s2 := WithThread(s, me, s.threads[me].(waitData := Message(m)));
    CallerLeavesWith(s, me, s.threads[me].(waitData := Message(m)), st);
    SetStatusShape(s2, me, st);
    hide Inv, SetStatus, LeftBy, FlagsSet;
    ThenJoins(s, SetStatus(s2, me, st), me, MsgWaiters(target));
    var s3 := AddToList(SetStatus(s2, me, st), MsgWaiters(target), me);
    FlagsGrow(s3, target, MSG_WAITING);
    FlagsSetShape(s3, target, MSG_WAITING);
    LeftThenGrown(s, s3, FlagsSet(s3, target, MSG_WAITING), me);
  }

  // ---------- every call ----------

  lemma LockFollows(s: Sys, me: Pid, m: nat, block: bool)
    requires Inv(s) && CanRun(s, me)
    ensures me in s.threads
    ensures forall p: nat :: QueueFollows(s, MutexLock(s, me, m, block).0, p)
  {
    MutexLockKeeps(s, me, m, block);
    var r := MutexLock(s, me, m, block).0;
    if m in s.locked && block {
      CallerLeaves(s, me, MutexBlocked);
      SetStatusShape(s, me, MutexBlocked);
      hide Inv, SetStatus, LeftBy, QueueFollows;
      ThenJoins(s, SetStatus(s, me, MutexBlocked), me, MutexQueue(m));
      FromLeft(s, r, me);
    } else {
      SameQueues(s, r);
      hide Inv, QueueFollows;
      FromGrown(s, r);
    }
  }

  /** Unlocking first and stopping then */
  lemma UnlockThenStop(s: Sys, me: Pid, m: nat, st: Status)
    requires Inv(s) && CanRun(s, me) && !OnRunqueue(st)
    requires At(s, MutexQueue(m)) != [] ==> At(s, MutexQueue(m))[0] in s.threads
    ensures var s1 := MutexUnlock(s, m);
            && me in s1.threads && LeftBy(s, SetStatus(s1, me, st), me)
            && me in SetStatus(s1, me, st).threads && SetStatus(s1, me, st).threads[me].status == st
  {
    var s1 := MutexUnlock(s, m);
    MutexUnlockKeeps(s, m);
    UnlockGrows(s, m);
    assert me in s1.threads by { hide SetStatus; if At(s, MutexQueue(m)) != [] { WakeHeadShape(s, MutexQueue(m)); } }
    hide Inv, MutexUnlock, SetStatus, LeftBy, Grown;
    CallerLeaves(s1, me, st);
    SetStatusShape(s1, me, st);
    GrownThenLeft(s, s1, SetStatus(s1, me, st), me);
  }

  lemma FlagsWaitFollows(s: Sys, me: Pid, mask: Flags, all: bool)
    requires Inv(s) && CanRun(s, me)
    ensures me in s.threads
    ensures forall p: nat :: QueueFollows(s, FlagsWait(s, me, mask, all), p)
  {
    var c := s.threads[me].(waitData := Mask(mask));
    var st := if all then FlagBlockedAll else FlagBlockedAny;
    CallerLeavesWith(s, me, c, st);
    SetStatusShape(WithThread(s, me, c), me, st);
    NothingGrows(s);
    var r := FlagsWait(s, me, mask, all);
    hide ListsOk, Rest, SetStatus, LeftBy, QueueFollows, Grown;
    if r == s { FromGrown(s, r); } else { FromLeft(s, r, me); }
  }

  lemma UnlockFollows(s: Sys, m: nat)
    requires Inv(s)
    ensures At(s, MutexQueue(m)) != [] ==> At(s, MutexQueue(m))[0] in s.threads
    ensures forall p: nat :: QueueFollows(s, MutexUnlock(s, m), p)
  {
    hide ListsOk, Rest, MutexUnlock, Grown, QueueFollows;
    MutexUnlockKeeps(s, m);
    UnlockGrows(s, m);
    FromGrown(s, MutexUnlock(s, m));
  }

  lemma UnlockAndSleepFollows(s: Sys, me: Pid, m: nat)
    requires Inv(s) && CanRun(s, me)
    ensures At(s, MutexQueue(m)) != [] ==> At(s, MutexQueue(m))[0] in s.threads
    ensures forall p: nat :: QueueFollows(s, MutexUnlockAndSleep(s, me, m), p)
  {
    hide ListsOk, Rest, MutexUnlock, LeftBy, QueueFollows, SetStatus;
    MutexUnlockKeeps(s, m);
    UnlockThenStop(s, me, m, Sleeping);
    FromLeft(s, MutexUnlockAndSleep(s, me, m), me);
  }

  lemma CondWaitFollows(s: Sys, me: Pid, c: nat, m: nat)
    requires Inv(s) && CanRun(s, me)
    ensures At(s, MutexQueue(m)) != [] ==> At(s, MutexQueue(m))[0] in s.threads
    ensures forall p: nat :: QueueFollows(s, CondWait(s, me, c, m), p)
  {
    hide ListsOk, Rest, MutexUnlock, LeftBy, QueueFollows, SetStatus;
    MutexUnlockKeeps(s, m);
    UnlockThenStop(s, me, m, CondBlocked);
    ThenJoins(s, SetStatus(MutexUnlock(s, m), me, CondBlocked), me, CondQueue(c));
    FromLeft(s, CondWait(s, me, c, m), me);
  }

  lemma SignalFollows(s: Sys, c: nat, broadcast: bool)
    requires Inv(s)
    ensures forall t :: t in At(s, CondQueue(c)) ==> t in s.threads
    ensures forall p: nat :: QueueFollows(s, CondSignal(s, c, broadcast), p)
  {
    hide ListsOk, Rest, CondSignal, Grown, QueueFollows;
    CondSignalKeeps(s, c, broadcast);
    SignalGrows(s, c, broadcast);
    FromGrown(s, CondSignal(s, c, broadcast));
  }

  lemma FlagsSetFollows(s: Sys, t: Pid, mask: Flags)
    requires Inv(s) && t in s.threads
    ensures forall p: nat :: QueueFollows(s, FlagsSet(s, t, mask), p)
  {
    hide ListsOk, Rest, FlagsSet, Grown, QueueFollows;
    FlagsSetKeeps(s, t, mask);
    FlagsGrow(s, t, mask);
    FromGrown(s, FlagsSet(s, t, mask));
  }

  /** Calls that change fields of the caller alone */
  lemma FieldsFollow(s: Sys, r: Sys)
    requires Inv(r) && r.lists == s.lists
    ensures forall p: nat :: QueueFollows(s, r, p)
  {
    hide Inv, QueueFollows;
    SameQueues(s, r);
    FromGrown(s, r);
  }

  lemma SyncFollows(s: Sys, a: Action)
    requires Inv(s) && Sound(s) && Enabled(s, a) && IsSync(a)
    ensures forall p: nat :: QueueFollows(s, Apply(s, a), p)
  {
    hide ListsOk, Rest, Sound, QueueFollows, SetStatus, OnNoList, MutexUnlock, CondSignal, FlagsSet, FlagsWait, MutexLock;
    SyncStepKeeps(s, a);
    match a
    case LockMutex(me, m, block) => LockFollows(s, me, m, block);
    case UnlockMutex(me, m) => UnlockFollows(s, m);
    case UnlockAndSleep(me, m) => UnlockAndSleepFollows(s, me, m);
    case WaitCond(me, c, m) => CondWaitFollows(s, me, c, m);
    case SignalCond(c, broadcast) => SignalFollows(s, c, broadcast);
    case SetFlags(t, mask) => FlagsSetFollows(s, t, mask);
    case WaitFlags(me, mask, all) => FlagsWaitFollows(s, me, mask, all);
    case TakeFlags(me, mask) => FieldsFollow(s, Apply(s, a));
    case ReadFlags(_) => FieldsFollow(s, Apply(s, a));
  }

  lemma QueuesSame(s: Sys, r: Sys)
    requires forall pl: Place :: At(r, pl) == At(s, pl)
    ensures Grown(s, r)
  {
  }

  lemma SendFollows(s: Sys, me: Pid, target: Pid, m: Msg, block: bool)
    requires Inv(s) && CanRun(s, me) && target != me
    ensures forall p: nat :: QueueFollows(s, MsgSend(s, me, target, m, block).0, p)
  {
    SendLists(s, me, target, m, block);
    MsgSendKeeps(s, me, target, m, block);
    var r := MsgSend(s, me, target, m, block).0;
    hide Inv, MsgSend, LeftBy, Grown, QueueFollows;
    if Grown(s, r) { FromGrown(s, r); } else { FromLeft(s, r, me); }
  }

  /** Who is on no run queue cannot leave one. */
  lemma LeftIsGrown(s: Sys, r: Sys, me: Pid)
    requires Inv(s) && !Runnable(s, me) && LeftBy(s, r, me)
    ensures Grown(s, r)
  {
    forall p: nat ensures Starts(At(s, RunQueue(p)), At(r, RunQueue(p))) {
      RunQueueMembers(s, me, p);
      assert Starts(Remove(At(s, RunQueue(p)), me), At(r, RunQueue(p)));
    }
  }

  lemma SendReceiveFollows(s: Sys, me: Pid, target: Pid, m: Msg)
    requires Inv(s) && CanRun(s, me) && target != me
    ensures me in s.threads
    ensures forall p: nat :: QueueFollows(s, MsgSendReceive(s, me, target, m).0, p)
  {
    AwaitReplyKeeps(s, me, m);
    AwaitingShape(s, me, m);
    CallerLeaves(s, me, ReplyBlocked);
    SendReceiveDoes(s, me, target, m);
    var s1 := SetStatus(s, me, ReplyBlocked);
    var s2 := WithThread(s1, me, s1.threads[me].(waitData := Message(m)));
    SameLists(s1, s2);
    QueuesSame(s1, s2);
    SendLists(s2, me, target, m, true);
    var r := MsgSend(s2, me, target, m, true).0;
    assert r == MsgSendReceive(s, me, target, m).0;
    hide Inv, MsgSend, MsgSendReceive, LeftBy, Grown, QueueFollows, SetStatus;
    if !Grown(s2, r) { LeftIsGrown(s2, r, me); }
    LeftThenGrown(s, s1, s2, me);
    LeftThenGrown(s, s2, r, me);
    FromLeft(s, r, me);
  }

  lemma ReceiveFollows(s: Sys, me: Pid, block: bool)
    requires Inv(s) && CanRun(s, me)
    ensures me in s.threads
    ensures At(s, MsgWaiters(me)) != [] ==> At(s, MsgWaiters(me))[0] in s.threads && At(s, MsgWaiters(me))[0] != me
    ensures forall p: nat :: QueueFollows(s, MsgReceive(s, me, block).0, p)
  {
    hide ListsOk, Rest, QueueFollows, MsgReceive;
    ReceiveDoes(s, me, block);
    if At(s, MsgWaiters(me)) != [] {
      ReceiveWaiterGrows(s, me, block);
      hide Grown;
      FromGrown(s, MsgReceive(s, me, block).0);
    } else {
      ReceiveAloneFollows(s, me, block);
    }
  }

  lemma ReceiveAloneFollows(s: Sys, me: Pid, block: bool)
    requires Inv(s) && CanRun(s, me) && At(s, MsgWaiters(me)) == [] && Inv(MsgReceive(s, me, block).0)
    ensures forall p: nat :: QueueFollows(s, MsgReceive(s, me, block).0, p)
  {
    hide ListsOk, Rest, QueueFollows, SetStatus, LeftBy;
    var c, r := s.threads[me], MsgReceive(s, me, block).0;
    if c.queue == [] && block {
      CallerLeavesWith(s, me, c.(waitData := Destination), ReceiveBlocked);
      SetStatusShape(WithThread(s, me, c.(waitData := Destination)), me, ReceiveBlocked);
      FromLeft(s, r, me);
    } else {
      FieldsFollow(s, r);
    }
  }

  lemma ReceiveWaiterGrows(s: Sys, me: Pid, block: bool)
    requires me in s.threads && At(s, MsgWaiters(me)) != []
    requires At(s, MsgWaiters(me))[0] in s.threads && At(s, MsgWaiters(me))[0] != me
    ensures Grown(s, MsgReceive(s, me, block).0)
  {
    var w, c := At(s, MsgWaiters(me))[0], s.threads[me];
    var m := SentBy(s.threads[w]);
    var c1 :=
      if c.queue != []
      then c.(received := c.received + [c.queue[0]], queue := c.queue[1..] + [m])
      else c.(received := c.received + [m], waitData := Destination);
    var s1 := WithThread(RemoveHead(s, MsgWaiters(me)), me, c1);
    SameQueues(s, s1);
    SameQueues(s1, s1);
    WithThenReady(s1, w, s1.threads[w].(waitData := Nothing));
    hide Grown, SetStatus;
    GrownJoin(s, s1, ReleaseSender(s1, w));
  }

  lemma SendToSelfFollows(s: Sys, me: Pid, m: Msg)
    requires Inv(s) && CanRun(s, me)
    ensures me in s.threads
    ensures forall p: nat :: QueueFollows(s, MsgSendToSelf(s, me, m).0, p)
  {
    hide ListsOk, Rest, QueueMsg, Grown, QueueFollows;
    QueueMsgKeeps(s, me, m.(sender := me));
    QueueGrows(s, me, m.(sender := me));
    FromGrown(s, QueueMsg(s, me, m.(sender := me)).0);
  }

  lemma SendIntFollows(s: Sys, target: Pid, m0: Msg)
    requires Inv(s)
    ensures forall p: nat :: QueueFollows(s, MsgSendInt(s, target, m0).0, p)
  {
    hide ListsOk, Rest, QueueMsg, Grown, QueueFollows, SetStatus;
    var m := m0.(sender := PID_ISR);
    NothingGrows(s);
    if target in s.threads {
      QueueGrows(s, target, m);
      WithThenReady(s, target, s.threads[target].(received := s.threads[target].received + [m]));
    }
    SendIntKeeps(s, target, m0);
    FromGrown(s, MsgSendInt(s, target, m0).0);
  }

  lemma ReplyFollows(s: Sys, t: Pid, m: Msg)
    requires Inv(s) && t in s.threads && NotSending(s, t)
    ensures forall p: nat :: QueueFollows(s, MsgReply(s, t, m).0, p)
  {
    hide ListsOk, Rest, Grown, QueueFollows, SetStatus, NotSending;
    MsgReplyKeeps(s, t, m);
    NothingGrows(s);
    WithThenReady(s, t, s.threads[t].(replies := s.threads[t].replies + [m]));
    FromGrown(s, MsgReply(s, t, m).0);
  }

  lemma MessageFollows(s: Sys, a: Action)
    requires Inv(s) && Sound(s) && Enabled(s, a) && IsMessage(a)
    ensures forall p: nat :: QueueFollows(s, Apply(s, a), p)
  {
    hide ListsOk, Rest, Sound, QueueFollows, OnNoList, NotSending, MsgSend, MsgSendReceive, MsgReceive, MsgReply, MsgSendInt,
         MsgSendToSelf, QueueMsg;
    MessageStepKeeps(s, a);
    match a
    case Send(me, target, m, block) => SendFollows(s, me, target, m, block);
    case SendToSelf(me, m) => SendToSelfFollows(s, me, m);
    case SendInt(target, m) => SendIntFollows(s, target, m);
    case SendReceive(me, target, m) => SendReceiveFollows(s, me, target, m);
    case Reply(t, m) => ReplyFollows(s, t, m);
    case Receive(me, block) => ReceiveFollows(s, me, block);
    case InitQueue(me, capacity) => FieldsFollow(s, Apply(s, a));
  }

  lemma CreateGrows(s: Sys, p: Priority, sleeping: bool, flags: Flags)
    ensures Grown(s, ThreadCreate(s, p, sleeping, flags).0)
  {
    NothingGrows(s);
    var pid := FreePid(s, PID_FIRST);
    if pid.Some? {
      var s1 := WithThread(s, pid.value, Thread(p, Stopped, flags, Nothing, [], 0, [], []));
      SameQueues(s, s1);
      var st := if sleeping then Sleeping else Pending;
      StatusGrows(s1, pid.value, st);
      hide Grown, SetStatus;
      GrownJoin(s, s1, SetStatus(s1, pid.value, st));
    }
  }

  lemma ThreadFollows(s: Sys, a: Action)
    requires Inv(s) && Sound(s) && Enabled(s, a) && Inv(Apply(s, a)) && (a.Wakeup? || a.Create? || a.Schedule? || a.Sleep?)
    ensures forall p: nat :: QueueFollows(s, Apply(s, a), p)
  {
    hide ListsOk, Sound, QueueFollows, OnNoList, Grown, SetStatus, ThreadCreate, LeftBy;
    var r := Apply(s, a);
    NothingGrows(s);
    match a
    case Sleep(me) => CallerLeaves(s, me, Sleeping); SetStatusShape(s, me, Sleeping); FromLeft(s, r, me);
    case Wakeup(t) => if t in s.threads { StatusGrows(s, t, Pending); } FromGrown(s, r);
    case Create(p, sleeping, flags) => CreateGrows(s, p, sleeping, flags); FromGrown(s, r);
    case Schedule => NextExists(s); SchedRunShape(s); FieldsFollow(s, r);
  }

  /** Main result, one call. Every call but a yield and a change of priority leaves each run queue in order,
      takes at most the active thread out of it, and puts those that became runnable at its end. */
  lemma StepFollows(s: Sys, a: Action)
    requires Inv(s) && Sound(s) && Enabled(s, a) && !a.Yield? && !a.SetPriority?
    ensures Inv(Apply(s, a)) && forall p: nat :: QueueFollows(s, Apply(s, a), p)
  {
    hide Inv, Sound, QueueFollows, Enabled, Apply;
    StepKeeps(s, a, Apply(s, a));
    if IsSync(a) {
      SyncFollows(s, a);
    } else if IsMessage(a) {
      MessageFollows(s, a);
    } else {
      ThreadFollows(s, a);
    }
  }

  /** A change of priority leaves the order of all others alone and puts the thread at the end of its new queue. */
  lemma ChangeFollows(s: Sys, t: Pid, p: Priority, q: nat)
    requires Inv(s) && t in s.threads && p != s.threads[t].priority
    ensures At(ChangePriority(s, t, p), RunQueue(q)) ==
            if q == p && Runnable(s, t) then At(s, RunQueue(q)) + [t] else Remove(At(s, RunQueue(q)), t)
  {
    RunQueueMembers(s, t, q);
    RunQueueMembers(s, t, p);
    hide *;
    ChangedQueue(s, t, p, q);
  }

  lemma ChangedQueue(s: Sys, t: Pid, p: Priority, q: nat)
    requires t in s.threads && p != s.threads[t].priority
    requires forall x: nat :: x == q || x == p ==>
               (t in At(s, RunQueue(x)) <==> OnRunqueue(s.threads[t].status) && s.threads[t].priority == x)
    ensures At(ChangePriority(s, t, p), RunQueue(q)) ==
            if q == p && Runnable(s, t) then At(s, RunQueue(q)) + [t] else Remove(At(s, RunQueue(q)), t)
  {
  }

  // ---------- runs ----------

  lemma {:induction false} StartsKeepsOrder(l: seq<Pid>, n: seq<Pid>, a: Pid, b: Pid)
    requires Starts(l, n) && Before(l, a, b)
    ensures Before(n, a, b)
  {
    var i, j :| 0 <= i < j < |l| && l[i] == a && l[j] == b;
    assert n[..|l|][i] == a && n[..|l|][j] == b;
  }

  /** The head of queue p is sent to its end. */
  ghost predicate SendsBack(s: Sys, a: Action, p: nat, x: Pid) {
    a.Yield? && a.me in s.threads && s.threads[a.me].priority == p && At(s, RunQueue(p)) != [] && At(s, RunQueue(p))[0] == x
  }

  lemma StepKeepsTurn(s: Sys, a: Action, p: nat, x: Pid, y: Pid)
    requires Inv(s) && Sound(s) && Enabled(s, a) && Before(At(s, RunQueue(p)), x, y) && !SendsBack(s, a, p, x)
    requires x in At(Apply(s, a), RunQueue(p)) && y in At(Apply(s, a), RunQueue(p))
    ensures Before(At(Apply(s, a), RunQueue(p)), x, y)
  {
    hide ListsOk, Rest, Sound, Before, OnNoList;
    if a.Yield? {
      AdvanceTurn(s, a.me, p, x, y);
    } else if a.SetPriority? {
      ChangeTurn(s, a.target, a.prio, p, x, y);
    } else {
      hide Apply, Enabled, Starts;
      StepFollows(s, a);
      FollowsTurn(s, Apply(s, a), p, x, y);
    }
  }

  lemma FollowsTurn(s: Sys, r: Sys, p: nat, x: Pid, y: Pid)
    requires Inv(r) && QueueFollows(s, r, p) && Before(At(s, RunQueue(p)), x, y)
    requires x in At(r, RunQueue(p)) && y in At(r, RunQueue(p))
    ensures Before(At(r, RunQueue(p)), x, y)
  {
    var l := At(s, RunQueue(p));
    if s.active.Some? && !Runnable(r, s.active.value) {
      RunQueueMembers(r, x, p);
      RunQueueMembers(r, y, p);
      hide Inv, Before, Starts, At;
      RemoveKeepsOrder(l, s.active.value, x, y);
      StartsKeepsOrder(Remove(l, s.active.value), At(r, RunQueue(p)), x, y);
    } else {
      hide Inv, Before, Starts, At;
      StartsKeepsOrder(l, At(r, RunQueue(p)), x, y);
    }
  }

  lemma ChangeTurn(s: Sys, t: Pid, q: Priority, p: nat, x: Pid, y: Pid)
    requires Inv(s) && t in s.threads && Before(At(s, RunQueue(p)), x, y)
    requires x in At(ChangePriority(s, t, q), RunQueue(p)) && y in At(ChangePriority(s, t, q), RunQueue(p))
    ensures Before(At(ChangePriority(s, t, q), RunQueue(p)), x, y)
  {
    var l := At(s, RunQueue(p));
    if q != s.threads[t].priority {
      ChangeFollows(s, t, q, p);
      ListsSeparate(s);
      RunQueueMembers(s, x, p);
      RunQueueMembers(s, y, p);
      hide Inv, At, ChangePriority;
      BeforeAppended(l, t, x, y);
      RemoveElements(l, t);
      BeforeMembers(l, x, y);
      hide Before, Distinct;
      if t != x && t != y { RemoveKeepsOrder(l, t, x, y); }
    }
  }

  lemma BeforeMembers(l: seq<Pid>, x: Pid, y: Pid)
    requires Before(l, x, y)
    ensures x in l && y in l
  {
  }

  lemma BeforeAppended(l: seq<Pid>, t: Pid, x: Pid, y: Pid)
    requires Before(l, x, y)
    ensures Before(l + [t], x, y)
  {
    var i, j :| 0 <= i < j < |l| && l[i] == x && l[j] == y;
    assert (l + [t])[i] == x && (l + [t])[j] == y;
  }

  lemma AdvanceTurn(s: Sys, me: Pid, p: nat, x: Pid, y: Pid)
    requires me in s.threads && Before(At(s, RunQueue(p)), x, y) && !SendsBack(s, Yield(me), p, x)
    ensures Before(At(Advance(s, me), RunQueue(p)), x, y)
  {
    var l, n := At(s, RunQueue(p)), At(Advance(s, me), RunQueue(p));
    var i, j :| 0 <= i < j < |l| && l[i] == x && l[j] == y;
    if s.threads[me].priority == p && OnRunqueue(s.threads[me].status) {
      assert n[i - 1] == x && n[j - 1] == y;
    }
  }

  /** Main result, first come, first served. From any state of any run on: while x and y stay on run queue p and
      no yield sends x to its end, x stays in front of y. */
  lemma {:induction false} FirstComeFirstServed(states: seq<Sys>, acts: seq<Action>, j: nat, n: nat, p: nat, x: Pid, y: Pid)
    requires Run(states, acts) && j <= n <= |acts| < |states| && Before(At(states[j], RunQueue(p)), x, y)
    requires forall i :: j <= i <= n ==> x in At(states[i], RunQueue(p)) && y in At(states[i], RunQueue(p))
    requires forall i :: j <= i < n ==> !SendsBack(states[i], acts[i], p, x)
    ensures Before(At(states[n], RunQueue(p)), x, y)
    decreases n
  {
    hide Run, Inv, Sound, Enabled, Apply, Before, SendsBack, At;
    if j < n {
      FirstComeFirstServed(states, acts, j, n - 1, p, x, y);
      StepFacts(states, acts, n - 1);
      StepKeepsTurn(states[n - 1], acts[n - 1], p, x, y);
    }
  }
}
