/** Message passing refines one pending sequence per receiver: the queue, then the messages of
    the waiting senders. */
module RiotMessages {
  import opened Options
  import opened PrioList
  import opened Bitcache
  import opened RiotSystem
  import opened RiotLists
  import opened RiotInvariant
  import opened RiotSteps
  import opened RiotRuns

  function MsgOf(s: Sys, w: Pid): Msg {
    if w in s.threads then SentBy(s.threads[w]) else Msg(0, 0, 0)
  }

  function Texts(s: Sys, l: seq<Pid>): (r: seq<Msg>)
    ensures |r| == |l|
    ensures forall i :: 0 <= i < |l| ==> r[i] == MsgOf(s, l[i])
  {
    if l == [] then [] else [MsgOf(s, l[0])] + Texts(s, l[1..])
  }

  function Queue(s: Sys, t: Pid): seq<Msg> {
    if t in s.threads then s.threads[t].queue else []
  }

  function Received(s: Sys, t: Pid): seq<Msg> {
    if t in s.threads then s.threads[t].received else []
  }

  /** Everything accepted for t and not yet handed to it, next first. */
  function Backlog(s: Sys, t: Pid): seq<Msg> {
    Queue(s, t) + Texts(s, At(s, MsgWaiters(t)))
  }

  // ---------- steps that do not concern the mail ----------

  /** Same queues, deliveries, waiting senders and messages of waiting senders. */
  ghost predicate SameMail(s: Sys, r: Sys) {
    && (forall t: nat {:trigger Queue(r, t)} :: Queue(r, t) == Queue(s, t))
    && (forall t: nat {:trigger Received(r, t)} :: Received(r, t) == Received(s, t))
    && (forall x: nat {:trigger At(r, MsgWaiters(x))} :: At(r, MsgWaiters(x)) == At(s, MsgWaiters(x)))
    && (forall x: nat, w {:trigger w in At(s, MsgWaiters(x))} ::
          w in At(s, MsgWaiters(x)) ==> MsgOf(r, w) == MsgOf(s, w))
  }

  lemma SameTexts(s: Sys, r: Sys, l: seq<Pid>)
    requires forall w :: w in l ==> MsgOf(r, w) == MsgOf(s, w)
    ensures Texts(r, l) == Texts(s, l)
  {
  }

  lemma SameMailPending(s: Sys, r: Sys, t: Pid)
    requires SameMail(s, r)
    ensures Backlog(r, t) == Backlog(s, t) && Received(r, t) == Received(s, t)
  {
    SameTexts(s, r, At(s, MsgWaiters(t)));
    assert Queue(r, t) == Queue(s, t);
  }

  lemma SameMailJoin(s: Sys, m: Sys, r: Sys)
    requires SameMail(s, m) && SameMail(m, r)
    ensures SameMail(s, r)
  {
    forall t: nat ensures Queue(r, t) == Queue(s, t) { assert Queue(m, t) == Queue(s, t); }
    forall t: nat ensures Received(r, t) == Received(s, t) { assert Received(m, t) == Received(s, t); }
    forall x: nat ensures At(r, MsgWaiters(x)) == At(s, MsgWaiters(x)) {
      assert At(m, MsgWaiters(x)) == At(s, MsgWaiters(x));
    }
    forall x: nat, w | w in At(s, MsgWaiters(x)) ensures MsgOf(r, w) == MsgOf(s, w) {
      assert At(m, MsgWaiters(x)) == At(s, MsgWaiters(x));
      assert w in At(m, MsgWaiters(x));
    }
  }

  /** One thread changed, but not its mail. */
  lemma OnlyThreadMail(s: Sys, r: Sys, t: Pid)
    requires OnlyThread(s, r, t)
    requires r.threads[t].queue == s.threads[t].queue && r.threads[t].received == s.threads[t].received
    requires r.threads[t].waitData == s.threads[t].waitData || NotSending(s, t)
    ensures SameMail(s, r)
  {
    forall x: nat ensures At(r, MsgWaiters(x)) == At(s, MsgWaiters(x)) { }
  }

  lemma SetStatusMail(s: Sys, t: Pid, st: Status)
    requires t in s.threads
    ensures SameMail(s, SetStatus(s, t, st))
  {
    SetStatusShape(s, t, st);
    OnlyThreadMail(s, SetStatus(s, t, st), t);
  }

  lemma OtherListMail(s: Sys, pl: Place, l: seq<Pid>)
    requires !pl.MsgWaiters?
    ensures SameMail(s, WithList(s, pl, l))
  {
    AtWithList(s, pl, l);
  }

  lemma WakeHeadMail(s: Sys, pl: Place)
    requires !pl.MsgWaiters? && At(s, pl) != [] && At(s, pl)[0] in s.threads
    ensures SameMail(s, WakeHead(s, pl))
  {
    OtherListMail(s, pl, At(s, pl)[1..]);
    SetStatusMail(RemoveHead(s, pl), At(s, pl)[0], Pending);
    SameMailJoin(s, RemoveHead(s, pl), WakeHead(s, pl));
  }

  lemma BlockMail(s: Sys, me: Pid, st: Status, pl: Place)
    requires me in s.threads && !pl.MsgWaiters?
    ensures SameMail(s, AddToList(SetStatus(s, me, st), pl, me))
  {
    var s1 := SetStatus(s, me, st);
    SetStatusMail(s, me, st);
    OtherListMail(s1, pl, Insert(Prio(s1), At(s1, pl), me));
    SameMailJoin(s, s1, AddToList(s1, pl, me));
  }

  lemma MutexUnlockMail(s: Sys, m: nat)
    requires At(s, MutexQueue(m)) != [] ==> At(s, MutexQueue(m))[0] in s.threads
    ensures SameMail(s, MutexUnlock(s, m))
  {
    if m in s.locked && At(s, MutexQueue(m)) != [] { WakeHeadMail(s, MutexQueue(m)); }
  }

  lemma {:induction false} CondSignalMail(s: Sys, c: nat, broadcast: bool)
    requires Inv(s)
    requires forall t :: t in At(s, CondQueue(c)) ==> t in s.threads
    ensures SameMail(s, CondSignal(s, c, broadcast))
    decreases |At(s, CondQueue(c))|
  {
    hide ListsOk, Rest;
    var l := At(s, CondQueue(c));
    if l != [] {
      assert l[0] in l;
      var s1 := WakeHead(s, CondQueue(c));
      WakeHeadMail(s, CondQueue(c));
      if broadcast {
        WakeHeadKeeps(s, CondQueue(c));
        CondMembers(s1, c);
        CondSignalMail(s1, c, broadcast);
        SameMailJoin(s, s1, CondSignal(s1, c, broadcast));
      }
    }
  }

  lemma FlagsSetMail(s: Sys, t: Pid, mask: Flags)
    requires t in s.threads
    ensures SameMail(s, FlagsSet(s, t, mask))
  {
    FlagsSetShape(s, t, mask);
    OnlyThreadMail(s, FlagsSet(s, t, mask), t);
  }

  lemma FlagsWaitMail(s: Sys, me: Pid, mask: Flags, all: bool)
    requires me in s.threads && NotSending(s, me)
    ensures SameMail(s, FlagsWait(s, me, mask, all))
  {
    var c := s.threads[me].(waitData := Mask(mask));
    SetStatusShape(WithThread(s, me, c), me, if all then FlagBlockedAll else FlagBlockedAny);
    OnlyThreadMail(s, FlagsWait(s, me, mask, all), me);
  }

  lemma UnlockThenMail(s: Sys, me: Pid, m: nat)
    requires Inv(s) && CanRun(s, me)
    ensures At(s, MutexQueue(m)) != [] ==> At(s, MutexQueue(m))[0] in s.threads
    ensures SameMail(s, MutexUnlockAndSleep(s, me, m))
    ensures forall c: nat :: SameMail(s, CondWait(s, me, c, m))
  {
    hide Rest, ListsOk, SameMail;
    MutexUnlockKeeps(s, m);
    MutexUnlockMail(s, m);
    MutexUnlockDetached(s, m, me);
    var s1 := MutexUnlock(s, m);
    SetStatusMail(s1, me, Sleeping);
    SameMailJoin(s, s1, MutexUnlockAndSleep(s, me, m));
    forall c: nat ensures SameMail(s, CondWait(s, me, c, m)) {
      BlockMail(s1, me, CondBlocked, CondQueue(c));
      SameMailJoin(s, s1, CondWait(s, me, c, m));
    }
  }

  lemma SameMailSelf(s: Sys, r: Sys)
    requires r.threads == s.threads && r.lists == s.lists
    ensures SameMail(s, r)
  {
    assert forall pl: Place :: At(r, pl) == At(s, pl);
  }

  lemma LockMail(s: Sys, me: Pid, m: nat, block: bool)
    requires me in s.threads
    ensures SameMail(s, MutexLock(s, me, m, block).0)
  {
    if m in s.locked && block {
      BlockMail(s, me, MutexBlocked, MutexQueue(m));
    } else {
      SameMailSelf(s, MutexLock(s, me, m, block).0);
    }
  }

  lemma FlagsTakeMail(s: Sys, me: Pid, mask: Flags)
    requires me in s.threads
    ensures SameMail(s, FlagsTake(s, me, mask).0)
  {
    OnlyThreadMail(s, FlagsTake(s, me, mask).0, me);
  }

  lemma SyncMail(s: Sys, a: Action)
    requires Inv(s) && Sound(s) && Enabled(s, a) && IsSync(a)
    ensures SameMail(s, Apply(s, a))
  {
    hide Rest, ListsOk, SameMail, Sound;
    match a
    case LockMutex(me, m, block) => LockMail(s, me, m, block);
    case UnlockMutex(me, m) => MutexUnlockKeeps(s, m); MutexUnlockMail(s, m);
    case UnlockAndSleep(me, m) => UnlockThenMail(s, me, m);
    case WaitCond(me, c, m) => UnlockThenMail(s, me, m);
    case SignalCond(c, broadcast) => CondMembers(s, c); CondSignalMail(s, c, broadcast);
    case SetFlags(t, mask) => FlagsSetMail(s, t, mask);
    case WaitFlags(me, mask, all) => UnlistedNotSending(s, me); FlagsWaitMail(s, me, mask, all);
    case TakeFlags(me, mask) => FlagsTakeMail(s, me, mask);
    case ReadFlags(_) => SameMailSelf(s, s);
    case _ =>
  }

  lemma ReplyMail(s: Sys, t: Pid, m: Msg)
    requires t in s.threads
    ensures SameMail(s, MsgReply(s, t, m).0)
  {
    if s.threads[t].status == ReplyBlocked {
      var c := s.threads[t].(replies := s.threads[t].replies + [m]);
      SetStatusShape(WithThread(s, t, c), t, Pending);
      OnlyThreadMail(s, MsgReply(s, t, m).0, t);
    } else {
      SameMailSelf(s, s);
    }
  }

  lemma NewThreadMail(s: Sys, s1: Sys, t: Pid)
    requires MessagesOk(s) && t !in s.threads && t in s1.threads && s1 == WithThread(s, t, s1.threads[t])
    requires s1.threads[t].queue == [] && s1.threads[t].received == []
    ensures SameMail(s, s1)
  {
    assert forall pl: Place :: At(s1, pl) == At(s, pl);
    forall x: nat, w | w in At(s, MsgWaiters(x)) ensures MsgOf(s1, w) == MsgOf(s, w) {
      assert Carries(s, x, w);
    }
  }

  lemma CreateMail(s: Sys, p: Priority, sleeping: bool, flags: Flags)
    requires Inv(s)
    ensures SameMail(s, ThreadCreate(s, p, sleeping, flags).0)
  {
    var pid := FreePid(s, PID_FIRST);
    if pid.None? {
      SameMailSelf(s, s);
    } else {
      var s1 := WithThread(s, pid.value, Thread(p, Stopped, flags, Nothing, [], 0, [], []));
      NewThreadMail(s, s1, pid.value);
      hide SameMail, ListsOk, Rest;
      var st := if sleeping then Sleeping else Pending;
      SetStatusMail(s1, pid.value, st);
      SameMailJoin(s, s1, SetStatus(s1, pid.value, st));
    }
  }

  lemma SchedRunMail(s: Sys)
    requires Inv(s) && SomebodyReady(s)
    ensures var q := At(s, RunQueue(First(s.clz, s.cache))); q != [] && q[0] in s.threads
    ensures SameMail(s, SchedRun(s))
  {
    NextExists(s);
    SchedRunShape(s);
    hide ListsOk, Rest;
    StatusOnlyMail(s, SchedRun(s));
  }

  lemma StatusOnlyMail(s: Sys, r: Sys)
    requires r.threads.Keys == s.threads.Keys && r.lists == s.lists
    requires forall t :: t in s.threads ==>
               r.threads[t] == s.threads[t] || r.threads[t] == s.threads[t].(status := r.threads[t].status)
    ensures SameMail(s, r)
  {
    assert forall pl: Place :: At(r, pl) == At(s, pl);
  }

  /** Which calls accepted a message for t in this step. */
  ghost function Accepted(s: Sys, a: Action, t: Pid): multiset<Msg> {
    if !(Sound(s) && Enabled(s, a)) then multiset{} else
    match a
    case Send(me, target, m, block) =>
      if target == t && MsgSend(s, me, target, m, block).1 == 1 then multiset{m.(sender := me)} else multiset{}
    case SendToSelf(me, m) =>
      if me == t && MsgSendToSelf(s, me, m).1 == 1 then multiset{m.(sender := me)} else multiset{}
    case SendInt(target, m) =>
      if target == t && MsgSendInt(s, target, m).1 == 1 then multiset{m.(sender := PID_ISR)} else multiset{}
    case SendReceive(me, target, m) =>
      if target == t && MsgSendReceive(s, me, target, m).1 == 1 then multiset{m.(sender := me)} else multiset{}
    case _ => multiset{}
  }

  /** Messages that a new msg_init_queue forgets. */
  ghost function Forgotten(s: Sys, a: Action, t: Pid): multiset<Msg> {
    if a.InitQueue? && a.me == t then multiset(Queue(s, t)) else multiset{}
  }

  /** Mail of t: what was handed over and what is still pending. */
  ghost function Mail(s: Sys, t: Pid): multiset<Msg> {
    multiset(Received(s, t)) + multiset(Backlog(s, t))
  }

  /** The step of msg_receive that takes a waiting sender off the list. */
  lemma TakeWaiterShape(s: Sys, me: Pid, c1: Thread, w: Pid)
    requires me in s.threads && At(s, MsgWaiters(me)) != [] && At(s, MsgWaiters(me))[0] == w
    requires w in s.threads && w != me
    ensures var r := ReleaseSender(WithThread(RemoveHead(s, MsgWaiters(me)), me, c1), w);
            && r.threads.Keys == s.threads.Keys && r.threads[me] == c1
            && (forall t :: t in s.threads && t != me && t != w ==> r.threads[t] == s.threads[t])
            && r.threads[w].queue == s.threads[w].queue && r.threads[w].received == s.threads[w].received
            && At(r, MsgWaiters(me)) == At(s, MsgWaiters(me))[1..]
            && (forall x: nat :: x != me ==> At(r, MsgWaiters(x)) == At(s, MsgWaiters(x)))
  {
    var s1 := RemoveHead(s, MsgWaiters(me));
    AtWithList(s, MsgWaiters(me), At(s, MsgWaiters(me))[1..]);
    var s2 := WithThread(s1, me, c1);
    assert forall pl: Place :: At(s2, pl) == At(s1, pl);
    if s2.threads[w].status != ReplyBlocked {
      SetStatusShape(WithThread(s2, w, s2.threads[w].(waitData := Nothing)), w, Pending);
    }
  }

  function AfterTake(c: Thread, m: Msg): Thread {
    if c.queue != []
    then c.(received := c.received + [c.queue[0]], queue := c.queue[1..] + [m])
    else c.(received := c.received + [m], waitData := Destination)
  }

  lemma TextsTail(s: Sys, r: Sys, l: seq<Pid>)
    requires l != [] && forall w :: w in l[1..] ==> MsgOf(r, w) == MsgOf(s, w)
    ensures Texts(s, l) == [MsgOf(s, l[0])] + Texts(r, l[1..])
  {
    SameTexts(s, r, l[1..]);
  }

  lemma ReceiveFromWaiter(s: Sys, me: Pid, block: bool)
    requires ListsOk(s) && me in s.threads && At(s, MsgWaiters(me)) != [] && NotSending(s, me)
    ensures At(s, MsgWaiters(me))[0] in s.threads && At(s, MsgWaiters(me))[0] != me
    ensures var r := MsgReceive(s, me, block).0; var w := At(s, MsgWaiters(me))[0];
            && r == ReleaseSender(WithThread(RemoveHead(s, MsgWaiters(me)), me,
                                             AfterTake(s.threads[me], MsgOf(s, w))), w)
            && Texts(s, At(s, MsgWaiters(me))) == [MsgOf(s, w)] + Texts(r, At(r, MsgWaiters(me)))
            && At(r, MsgWaiters(me)) == At(s, MsgWaiters(me))[1..]
            && me in r.threads && r.threads[me] == AfterTake(s.threads[me], MsgOf(s, w))
  {
    var l := At(s, MsgWaiters(me));
    var w := l[0];
    assert w in l;
    MemberStatus(s, MsgWaiters(me), w);
    ListsSeparate(s);
    hide ListsOk;
    TailElements(l);
    var c1 := AfterTake(s.threads[me], MsgOf(s, w));
    TakeWaiterShape(s, me, c1, w);
    var r := MsgReceive(s, me, block).0;
    forall x | x in l[1..] ensures MsgOf(r, x) == MsgOf(s, x) {
      assert x in l && x != w && x != me;
    }
    TextsTail(s, r, l);
  }

  lemma WaiterTaken(s: Sys, me: Pid, block: bool)
    requires ListsOk(s) && me in s.threads && At(s, MsgWaiters(me)) != [] && NotSending(s, me)
    ensures At(s, MsgWaiters(me))[0] in s.threads && At(s, MsgWaiters(me))[0] != me
    ensures var r := MsgReceive(s, me, block).0;
            && Backlog(s, me) != []
            && Received(r, me) == Received(s, me) + [Backlog(s, me)[0]] && Backlog(r, me) == Backlog(s, me)[1..]
  {
    ReceiveFromWaiter(s, me, block);
    hide ListsOk, MsgReceive, ReleaseSender, RemoveHead, Texts;
    var r := MsgReceive(s, me, block).0;
    var w := At(s, MsgWaiters(me))[0];
    Shifted(Queue(s, me), MsgOf(s, w), Texts(r, At(r, MsgWaiters(me))));
  }

  /** Queue and waiting messages move up by one. */
  lemma Shifted(q: seq<Msg>, m: Msg, rest: seq<Msg>)
    ensures q != [] ==> (q + ([m] + rest))[1..] == (q[1..] + [m]) + rest && (q + ([m] + rest))[0] == q[0]
    ensures q == [] ==> (q + ([m] + rest))[1..] == q + rest && (q + ([m] + rest))[0] == m
  {
  }

  lemma WaitersExist(s: Sys, me: Pid)
    requires Inv(s) && CanRun(s, me)
    ensures At(s, MsgWaiters(me)) != [] ==>
              At(s, MsgWaiters(me))[0] in s.threads && At(s, MsgWaiters(me))[0] != me
    ensures NotSending(s, me)
  {
    UnlistedNotSending(s, me);
    if At(s, MsgWaiters(me)) != [] {
      MemberStatus(s, MsgWaiters(me), At(s, MsgWaiters(me))[0]);
      assert At(s, MsgWaiters(me))[0] in At(s, MsgWaiters(me));
    }
  }

  /** msg_receive by a thread with mail removes exactly the head of its pending sequence. */
  lemma ReceiveTakesHead(s: Sys, me: Pid, block: bool)
    requires Inv(s) && CanRun(s, me) && Backlog(s, me) != []
    ensures At(s, MsgWaiters(me)) != [] ==>
              At(s, MsgWaiters(me))[0] in s.threads && At(s, MsgWaiters(me))[0] != me
    ensures MsgReceive(s, me, block).1 == 1
    ensures var r := MsgReceive(s, me, block).0;
            Received(r, me) == Received(s, me) + [Backlog(s, me)[0]] && Backlog(r, me) == Backlog(s, me)[1..]
  {
    WaitersExist(s, me);
    hide ListsOk, Rest;
    if At(s, MsgWaiters(me)) != [] {
      WaiterTaken(s, me, block);
    } else {
      assert At(MsgReceive(s, me, block).0, MsgWaiters(me)) == [];
    }
  }

  lemma EmptyOthers(s: Sys, me: Pid, block: bool, t: Pid)
    requires me in s.threads && At(s, MsgWaiters(me)) == [] && NotSending(s, me) && t != me
    ensures var r := MsgReceive(s, me, block).0;
            Received(r, t) == Received(s, t) && Backlog(r, t) == Backlog(s, t)
  {
    var r := MsgReceive(s, me, block).0;
    var s1 := WithThread(s, me, s.threads[me].(waitData := Destination));
    SetStatusShape(s1, me, ReceiveBlocked);
    assert At(s1, MsgWaiters(t)) == At(s, MsgWaiters(t)) && At(r, MsgWaiters(t)) == At(s, MsgWaiters(t));
    SameTexts(s, r, At(s, MsgWaiters(t)));
  }

  /** Receiving does not touch anybody else's mail. */
  lemma ReceiveOthers(s: Sys, me: Pid, block: bool, t: Pid)
    requires Inv(s) && CanRun(s, me) && t != me
    ensures At(s, MsgWaiters(me)) != [] ==>
              At(s, MsgWaiters(me))[0] in s.threads && At(s, MsgWaiters(me))[0] != me
    ensures var r := MsgReceive(s, me, block).0;
            Received(r, t) == Received(s, t) && Backlog(r, t) == Backlog(s, t)
  {
    WaitersExist(s, me);
    if At(s, MsgWaiters(me)) != [] {
      TakenOthers(s, me, block, t);
    } else {
      EmptyOthers(s, me, block, t);
    }
  }

  lemma TakenOthers(s: Sys, me: Pid, block: bool, t: Pid)
    requires ListsOk(s) && me in s.threads && At(s, MsgWaiters(me)) != [] && NotSending(s, me) && t != me
    ensures At(s, MsgWaiters(me))[0] in s.threads && At(s, MsgWaiters(me))[0] != me
    ensures var r := MsgReceive(s, me, block).0;
            Received(r, t) == Received(s, t) && Backlog(r, t) == Backlog(s, t)
  {
    hide ListsOk, MsgReceive, ReleaseSender, RemoveHead;
    ReceiveFromWaiter(s, me, block);
    ListsSeparate(s);
    var r := MsgReceive(s, me, block).0;
    var w := At(s, MsgWaiters(me))[0];
    TakeWaiterShape(s, me, AfterTake(s.threads[me], MsgOf(s, w)), w);
    assert w in At(s, MsgWaiters(me));
    assert w !in At(s, MsgWaiters(t)) && me !in At(s, MsgWaiters(t));
    SameTexts(s, r, At(s, MsgWaiters(t)));
  }

  /** Without mail a blocking receive waits with nothing pending, and a trying one returns -1. */
  lemma ReceiveWaits(s: Sys, me: Pid, block: bool)
    requires Inv(s) && CanRun(s, me) && Backlog(s, me) == []
    ensures At(s, MsgWaiters(me)) == []
    ensures var (r, ret) := MsgReceive(s, me, block);
            && me in r.threads && Backlog(r, me) == [] && Received(r, me) == Received(s, me)
            && (if block then ret == 1 && r.threads[me].status == ReceiveBlocked else ret == -1 && r == s)
  {
    assert |Texts(s, At(s, MsgWaiters(me)))| == 0;
    SetStatusShape(WithThread(s, me, s.threads[me].(waitData := Destination)), me, ReceiveBlocked);
    assert At(MsgReceive(s, me, block).0, MsgWaiters(me)) == [];
  }

  // ---------- sending ----------

  lemma QueueMsgShape(s: Sys, t: Pid, m: Msg)
    requires t in s.threads
    ensures var (r, queued) := QueueMsg(s, t, m);
            && OnlyThread(s, r, t)
            && (queued <==> |s.threads[t].queue| < s.threads[t].capacity)
            && r.threads[t].queue == s.threads[t].queue + (if queued then [m] else [])
            && r.threads[t].received == s.threads[t].received
            && r.threads[t].waitData == s.threads[t].waitData
  {
    var c := s.threads[t].(queue := s.threads[t].queue + [m]);
    FlagsSetShape(WithThread(s, t, c), t, MSG_WAITING);
    assert forall pl: Place :: At(WithThread(s, t, c), pl) == At(s, pl);
  }

  /** A queued message becomes the last pending one of its receiver, since nobody waits then. */
  lemma QueueAppends(s: Sys, target: Pid, m: Msg, t: Pid)
    requires MessagesOk(s) && target in s.threads && QueueMsg(s, target, m).1
    ensures var r := QueueMsg(s, target, m).0;
            && Received(r, t) == Received(s, t)
            && Backlog(r, t) == if t == target then Backlog(s, t) + [m] else Backlog(s, t)
  {
    var r := QueueMsg(s, target, m).0;
    QueueMsgShape(s, target, m);
    assert MailboxOk(s, target);
    assert At(r, MsgWaiters(t)) == At(s, MsgWaiters(t));
    SameTexts(s, r, At(s, MsgWaiters(t)));
    if t == target {
      assert At(s, MsgWaiters(t)) == [];
    }
  }

  /** A message for a thread that waits in receive is handed over at once. */
  lemma DirectDelivers(s: Sys, target: Pid, m: Msg, t: Pid)
    requires target in s.threads
    ensures var r := DirectCopy(s, target, m);
            && Received(r, t) == (if t == target then Received(s, t) + [m] else Received(s, t))
            && Backlog(r, t) == Backlog(s, t)
  {
    var c := s.threads[target].(received := s.threads[target].received + [m]);
    var r := DirectCopy(s, target, m);
    SetStatusShape(WithThread(s, target, c), target, Pending);
    assert At(WithThread(s, target, c), MsgWaiters(t)) == At(s, MsgWaiters(t));
    SameTexts(s, r, At(s, MsgWaiters(t)));
  }

  lemma TextsInsert(s: Sys, r: Sys, l: seq<Pid>, i: nat, x: Pid)
    requires i <= |l| && forall w :: w in l ==> MsgOf(r, w) == MsgOf(s, w)
    ensures Texts(r, InsertAt(l, i, x)) == Texts(s, l)[..i] + [MsgOf(r, x)] + Texts(s, l)[i..]
  {
  }

  /** What the state looks like when the sender has joined the waiters. */
  lemma SenderQueuedShape(s: Sys, me: Pid, target: Pid, m: Msg, st: Status)
    requires me in s.threads
    ensures var r := SenderQueued(s, me, target, m, st);
            && r.threads == s.threads[me := s.threads[me].(waitData := Message(m), status := st)]
            && (forall x: nat :: x != target ==> At(r, MsgWaiters(x)) == At(s, MsgWaiters(x)))
            && At(r, MsgWaiters(target)) ==
               InsertAt(At(s, MsgWaiters(target)),
                        Position(Prio(s), At(s, MsgWaiters(target)), s.threads[me].priority), me)
  {
    hide SetStatus, WithThread, Insert, InsertAt, Position, AddToList, At, Prio;
    SenderBlocked(s, me, m, st);
    var s3 := SetStatus(WithThread(s, me, s.threads[me].(waitData := Message(m))), me, st);
    AddToListShape(s3, MsgWaiters(target), me);
    InsertedAt(s, s3, At(s, MsgWaiters(target)), me);
  }

  /** The sender has noted its message and left the run queue, and is not yet on a wait list. */
  lemma SenderBlocked(s: Sys, me: Pid, m: Msg, st: Status)
    requires me in s.threads
    ensures var s2 := WithThread(s, me, s.threads[me].(waitData := Message(m)));
            && me in s2.threads
            && SetStatus(s2, me, st).threads
               == s.threads[me := s.threads[me].(waitData := Message(m), status := st)]
            && (forall x: nat :: At(SetStatus(s2, me, st), MsgWaiters(x)) == At(s, MsgWaiters(x)))
  {
    var s2 := WithThread(s, me, s.threads[me].(waitData := Message(m)));
    SetStatusShape(s2, me, st);
    assert forall x: nat :: At(s2, MsgWaiters(x)) == At(s, MsgWaiters(x));
    hide SetStatus;
    assert SetStatus(s2, me, st).threads
           == s.threads[me := s.threads[me].(waitData := Message(m), status := st)];
  }

  lemma AddToListShape(s: Sys, pl: Place, t: Pid)
    ensures var r := AddToList(s, pl, t);
            && r.threads == s.threads
            && (forall q: Place :: At(r, q) == if q == pl then Insert(Prio(s), At(s, pl), t) else At(s, q))
  {
    AtWithList(s, pl, Insert(Prio(s), At(s, pl), t));
  }

  lemma InsertedAt(s: Sys, r: Sys, l: seq<Pid>, me: Pid)
    requires me in s.threads && r.threads.Keys == s.threads.Keys
    requires forall t :: t in s.threads ==> r.threads[t].priority == s.threads[t].priority
    ensures Insert(Prio(r), l, me) == InsertAt(l, Position(Prio(s), l, s.threads[me].priority), me)
  {
    SamePosition(Prio(s), Prio(r), l, s.threads[me].priority);
  }

  lemma SenderQueuedBoxes(s: Sys, me: Pid, target: Pid, m: Msg, st: Status, t: Pid)
    requires me in s.threads
    ensures Received(SenderQueued(s, me, target, m, st), t) == Received(s, t)
    ensures Queue(SenderQueued(s, me, target, m, st), t) == Queue(s, t)
  {
    SenderQueuedShape(s, me, target, m, st);
    hide SenderQueued;
  }

  lemma SenderQueuedTexts(s: Sys, me: Pid, target: Pid, m: Msg, st: Status)
    requires me in s.threads && NotSending(s, me)
    ensures Texts(SenderQueued(s, me, target, m, st), At(SenderQueued(s, me, target, m, st), MsgWaiters(target)))
            == WithInserted(Texts(s, At(s, MsgWaiters(target))), true,
                            Position(Prio(s), At(s, MsgWaiters(target)), s.threads[me].priority), m)
  {
    var r := SenderQueued(s, me, target, m, st);
    var l := At(s, MsgWaiters(target));
    assert me !in l;
    SenderQueuedShape(s, me, target, m, st);
    hide SenderQueued, Texts, WithInserted, NotSending;
    SendersSay(s, r, me, m, st, l);
    TextsInserted(s, r, l, Position(Prio(s), l, s.threads[me].priority), me, m);
  }

  lemma SenderQueuedElsewhere(s: Sys, me: Pid, target: Pid, m: Msg, st: Status, t: Pid)
    requires me in s.threads && NotSending(s, me) && t != target
    ensures Texts(SenderQueued(s, me, target, m, st), At(SenderQueued(s, me, target, m, st), MsgWaiters(t)))
            == Texts(s, At(s, MsgWaiters(t)))
  {
    var r := SenderQueued(s, me, target, m, st);
    var l := At(s, MsgWaiters(t));
    assert me !in l;
    SenderQueuedShape(s, me, target, m, st);
    hide SenderQueued, Texts, NotSending, Position;
    SendersSay(s, r, me, m, st, l);
    SameTexts(s, r, l);
  }

  lemma TextsInserted(s: Sys, r: Sys, l: seq<Pid>, i: nat, x: Pid, m: Msg)
    requires i <= |l| && (forall w :: w in l ==> MsgOf(r, w) == MsgOf(s, w)) && MsgOf(r, x) == m
    ensures Texts(r, InsertAt(l, i, x)) == WithInserted(Texts(s, l), true, i, m)
  {
    TextsInsert(s, r, l, i, x);
  }

  lemma SendersSay(s: Sys, r: Sys, me: Pid, m: Msg, st: Status, l: seq<Pid>)
    requires me in s.threads && me !in l
    requires r.threads == s.threads[me := s.threads[me].(waitData := Message(m), status := st)]
    ensures MsgOf(r, me) == m && forall w :: w in l ==> MsgOf(r, w) == MsgOf(s, w)
  {
  }

  function WithInserted(texts: seq<Msg>, here: bool, i: nat, m: Msg): seq<Msg> {
    if here && i <= |texts| then texts[..i] + [m] + texts[i..] else texts
  }

  /** With the queue full or absent the message takes its sender's place among the waiters. */
  lemma SenderWaits(s: Sys, me: Pid, target: Pid, m: Msg, st: Status)
    requires me in s.threads && target in s.threads && NotSending(s, me)
    ensures var r := FlagsSet(SenderQueued(s, me, target, m, st), target, MSG_WAITING);
            && Received(r, target) == Received(s, target)
            && Backlog(r, target) ==
               Queue(s, target) + WithInserted(Texts(s, At(s, MsgWaiters(target))), true,
                                    Position(Prio(s), At(s, MsgWaiters(target)), s.threads[me].priority), m)
  {
    var s4 := SenderQueued(s, me, target, m, st);
    SenderQueuedBoxes(s, me, target, m, st, target);
    SenderQueuedTexts(s, me, target, m, st);
    SenderQueuedShape(s, me, target, m, st);
    hide SenderQueued, WithInserted, Texts, Position;
    FlagsSetMail(s4, target, MSG_WAITING);
    hide FlagsSet;
    SameMailPending(s4, FlagsSet(s4, target, MSG_WAITING), target);
  }

  lemma SenderWaitsElsewhere(s: Sys, me: Pid, target: Pid, m: Msg, st: Status, t: Pid)
    requires me in s.threads && target in s.threads && NotSending(s, me) && t != target
    ensures var r := FlagsSet(SenderQueued(s, me, target, m, st), target, MSG_WAITING);
            Received(r, t) == Received(s, t) && Backlog(r, t) == Backlog(s, t)
  {
    var s4 := SenderQueued(s, me, target, m, st);
    SenderQueuedBoxes(s, me, target, m, st, t);
    SenderQueuedElsewhere(s, me, target, m, st, t);
    SenderQueuedShape(s, me, target, m, st);
    hide SenderQueued, Texts;
    FlagsSetMail(s4, target, MSG_WAITING);
    hide FlagsSet;
    SameMailPending(s4, FlagsSet(s4, target, MSG_WAITING), t);
  }

  // ---------- conservation ----------

  ghost predicate Gains(s: Sys, r: Sys, t: Pid, gain: multiset<Msg>) {
    Mail(r, t) == Mail(s, t) + gain
  }

  lemma SameMailGains(s: Sys, r: Sys, t: Pid)
    requires SameMail(s, r)
    ensures Gains(s, r, t, multiset{})
  {
    SameMailPending(s, r, t);
  }

  lemma ReceiveConserves(s: Sys, me: Pid, block: bool, t: Pid)
    requires Inv(s) && CanRun(s, me)
    ensures At(s, MsgWaiters(me)) != [] ==>
              At(s, MsgWaiters(me))[0] in s.threads && At(s, MsgWaiters(me))[0] != me
    ensures Gains(s, MsgReceive(s, me, block).0, t, multiset{})
  {
    hide ListsOk, Rest, MsgReceive, NotSending, Backlog, Received;
    WaitersExist(s, me);
    if t != me {
      ReceiveOthers(s, me, block, t);
    } else if Backlog(s, me) != [] {
      ReceiveTakesHead(s, me, block);
      HeadMoves(s, MsgReceive(s, me, block).0, me);
    } else {
      ReceiveWaits(s, me, block);
    }
  }

  lemma HeadMoves(s: Sys, r: Sys, t: Pid)
    requires Backlog(s, t) != []
    requires Received(r, t) == Received(s, t) + [Backlog(s, t)[0]] && Backlog(r, t) == Backlog(s, t)[1..]
    ensures Gains(s, r, t, multiset{})
  {
    hide Received, Backlog;
    var b := Backlog(s, t);
    assert b == [b[0]] + b[1..];
  }

  lemma InsertedCount(texts: seq<Msg>, i: nat, m: Msg)
    requires i <= |texts|
    ensures multiset(WithInserted(texts, true, i, m)) == multiset(texts) + multiset{m}
  {
    assert texts == texts[..i] + texts[i..];
  }

  ghost function For(t: Pid, target: Pid, m: Msg): multiset<Msg> {
    if t == target then multiset{m} else multiset{}
  }

  lemma QueueConserves(s: Sys, target: Pid, m: Msg, t: Pid)
    requires MessagesOk(s) && target in s.threads && QueueMsg(s, target, m).1
    ensures Gains(s, QueueMsg(s, target, m).0, t, For(t, target, m))
  {
    QueueAppends(s, target, m, t);
  }

  lemma DirectConserves(s: Sys, target: Pid, m: Msg, t: Pid)
    requires target in s.threads
    ensures Gains(s, DirectCopy(s, target, m), t, For(t, target, m))
  {
    DirectDelivers(s, target, m, t);
  }

  lemma WaitConserves(s: Sys, me: Pid, target: Pid, m: Msg, st: Status, t: Pid)
    requires me in s.threads && target in s.threads && NotSending(s, me)
    ensures Gains(s, FlagsSet(SenderQueued(s, me, target, m, st), target, MSG_WAITING), t, For(t, target, m))
  {
    hide SenderQueued, FlagsSet, WithInserted, Texts, NotSending;
    if t == target {
      SenderWaits(s, me, target, m, st);
      InsertedCount(Texts(s, At(s, MsgWaiters(t))), Position(Prio(s), At(s, MsgWaiters(t)), s.threads[me].priority), m);
    } else {
      SenderWaitsElsewhere(s, me, target, m, st, t);
    }
  }

  /** A send that answers 1 added exactly its message to the mail of its target; any other
      answer added nothing. */
  lemma SendConserves(s: Sys, me: Pid, target: Pid, m0: Msg, block: bool, t: Pid)
    requires MessagesOk(s) && me in s.threads && NotSending(s, me)
    ensures Gains(s, MsgSend(s, me, target, m0, block).0, t,
                  if MsgSend(s, me, target, m0, block).1 == 1 then For(t, target, m0.(sender := me))
                  else multiset{})
  {
    hide MessagesOk, Mail, DirectCopy, FlagsSet;
    var m := m0.(sender := me);
    if target in s.threads {
      if s.threads[target].status != ReceiveBlocked {
        QueueMsgShape(s, target, m);
        if QueueMsg(s, target, m).1 {
          QueueConserves(s, target, m, t);
        } else if block {
          var st := if s.threads[me].status == ReplyBlocked then ReplyBlocked else SendBlocked;
          WaitConserves(s, me, target, m, st, t);
        } else {
          NothingGained(s, t);
        }
      } else {
        DirectConserves(s, target, m, t);
      }
    } else {
      NothingGained(s, t);
    }
  }

  lemma NothingGained(s: Sys, t: Pid)
    ensures Gains(s, s, t, multiset{})
  {
  }

  lemma AwaitReplyMail(s: Sys, me: Pid, m: Msg)
    requires me in s.threads && NotSending(s, me)
    ensures var s1 := SetStatus(s, me, ReplyBlocked);
            me in s1.threads
            && SameMail(s, WithThread(s1, me, s1.threads[me].(waitData := Message(m))))
  {
    var s1 := SetStatus(s, me, ReplyBlocked);
    SetStatusShape(s, me, ReplyBlocked);
    var s2 := WithThread(s1, me, s1.threads[me].(waitData := Message(m)));
    assert forall pl: Place :: At(s2, pl) == At(s1, pl);
    OnlyThreadMail(s, s2, me);
  }

  lemma SendReceiveConserves(s: Sys, me: Pid, target: Pid, m: Msg, t: Pid)
    requires Inv(s) && CanRun(s, me)
    ensures Gains(s, MsgSendReceive(s, me, target, m).0, t,
                  if MsgSendReceive(s, me, target, m).1 == 1 then For(t, target, m.(sender := me))
                  else multiset{})
  {
    AwaitReplyKeeps(s, me, m);
    UnlistedNotSending(s, me);
    AwaitReplyMail(s, me, m);
    hide ListsOk, FlagsOk, MutexesOk, RunningOk, MessagesOk, SetStatus, MsgSend, SameMail, CanRun;
    var s1 := SetStatus(s, me, ReplyBlocked);
    var s2 := WithThread(s1, me, s1.threads[me].(waitData := Message(m)));
    assert NotSending(s2, me);
    SendConserves(s2, me, target, m, true, t);
    SameMailPending(s, s2, t);
  }

  lemma ToSelfConserves(s: Sys, me: Pid, m: Msg, t: Pid)
    requires MessagesOk(s) && me in s.threads
    ensures Gains(s, MsgSendToSelf(s, me, m).0, t,
                  if MsgSendToSelf(s, me, m).1 == 1 then For(t, me, m.(sender := me)) else multiset{})
  {
    hide MessagesOk;
    if QueueMsg(s, me, m.(sender := me)).1 {
      QueueConserves(s, me, m.(sender := me), t);
    } else {
      NothingGained(s, t);
    }
  }

  lemma IntConserves(s: Sys, target: Pid, m0: Msg, t: Pid)
    requires MessagesOk(s)
    ensures Gains(s, MsgSendInt(s, target, m0).0, t,
                  if MsgSendInt(s, target, m0).1 == 1 then For(t, target, m0.(sender := PID_ISR)) else multiset{})
  {
    hide MessagesOk, Mail, DirectCopy;
    var m := m0.(sender := PID_ISR);
    if target in s.threads {
      if s.threads[target].status == ReceiveBlocked {
        DirectConserves(s, target, m, t);
      } else if QueueMsg(s, target, m).1 {
        QueueConserves(s, target, m, t);
      } else {
        NothingGained(s, t);
      }
    } else {
      NothingGained(s, t);
    }
  }

  lemma InitQueueForgets(s: Sys, me: Pid, capacity: nat, t: Pid)
    requires me in s.threads && At(s, MsgWaiters(me)) == [] && NotSending(s, me)
    ensures Mail(s, t) == Mail(MsgInitQueue(s, me, capacity), t)
                          + (if t == me then multiset(Queue(s, t)) else multiset{})
  {
    var r := MsgInitQueue(s, me, capacity);
    assert At(r, MsgWaiters(t)) == At(s, MsgWaiters(t));
    SameTexts(s, r, At(s, MsgWaiters(t)));
    hide Texts, MsgInitQueue, NotSending;
    if t == me {
      assert Texts(s, At(s, MsgWaiters(t))) == [];
      EmptiedMail(Received(s, t), Queue(s, t));
    }
  }

  lemma EmptiedMail(received: seq<Msg>, queue: seq<Msg>)
    ensures multiset(received) + multiset(queue + []) == multiset(received) + multiset([] + []) + multiset(queue)
  {
    assert queue + [] == queue;
  }

  lemma ThreadActionMail(s: Sys, a: Action)
    requires Inv(s) && Sound(s) && Enabled(s, a) && !IsSync(a) && !IsMessage(a)
    ensures SameMail(s, Apply(s, a))
  {
    hide ListsOk, Rest, SameMail, Sound;
    match a
    case Sleep(me) => SetStatusMail(s, me, Sleeping);
    case Wakeup(t) =>
      if t in s.threads && s.threads[t].status == Sleeping { SetStatusMail(s, t, Pending); } else { SameMailSelf(s, s); }
    case Create(p, sleeping, flags) => CreateMail(s, p, sleeping, flags);
    case Yield(me) =>
      var p := s.threads[me].priority;
      var l := At(s, RunQueue(p));
      if OnRunqueue(s.threads[me].status) && l != [] { OtherListMail(s, RunQueue(p), l[1..] + [l[0]]); }
      else { SameMailSelf(s, s); }
    case SetPriority(t, p) =>
      ChangePriorityShape(s, t, p);
      OnlyThreadMail(s, ChangePriority(s, t, p), t);
    case Schedule => SchedRunMail(s);
    case _ =>
  }

  /** Each step adds to the mail of t exactly the messages that were accepted for it. */
  lemma StepConserves(s: Sys, a: Action, r: Sys, t: Pid)
    requires Inv(s) && Sound(s) && Step(s, a, r)
    ensures Mail(r, t) + Forgotten(s, a, t) == Mail(s, t) + Accepted(s, a, t)
  {
    hide ListsOk, Rest, Sound, Mail, Apply, Enabled, SameMail;
    if IsSync(a) {
      SyncMail(s, a);
      SameMailGains(s, r, t);
    } else if !IsMessage(a) {
      ThreadActionMail(s, a);
      SameMailGains(s, r, t);
    } else {
      MessageConserves(s, a, t);
    }
  }

  predicate IsSend(a: Action) {
    a.Send? || a.SendToSelf? || a.SendInt? || a.SendReceive?
  }

  lemma SendActionConserves(s: Sys, a: Action, t: Pid)
    requires Inv(s) && Sound(s) && Enabled(s, a) && IsSend(a)
    ensures Gains(s, Apply(s, a), t, Accepted(s, a, t))
  {
    hide ListsOk, FlagsOk, MutexesOk, RunningOk, MessagesOk, Sound, Gains, MsgSend, MsgSendInt, MsgSendToSelf,
      MsgSendReceive;
    match a
    case Send(me, target, m, block) => UnlistedNotSending(s, me); SendConserves(s, me, target, m, block, t);
    case SendToSelf(me, m) => ToSelfConserves(s, me, m, t);
    case SendInt(target, m) => IntConserves(s, target, m, t);
    case SendReceive(me, target, m) => SendReceiveConserves(s, me, target, m, t);
    case _ =>
  }

  lemma GainsMeans(s: Sys, r: Sys, t: Pid, gain: multiset<Msg>)
    requires Gains(s, r, t, gain)
    ensures Mail(r, t) + multiset{} == Mail(s, t) + gain
  {
  }

  lemma MessageConserves(s: Sys, a: Action, t: Pid)
    requires Inv(s) && Sound(s) && Enabled(s, a) && IsMessage(a)
    ensures Mail(Apply(s, a), t) + Forgotten(s, a, t) == Mail(s, t) + Accepted(s, a, t)
  {
    hide ListsOk, Rest, Sound, Mail, Gains, SameMail, MsgReceive, MsgReply, MsgInitQueue;
    if IsSend(a) {
      hide Apply, Accepted;
      SendActionConserves(s, a, t);
      GainsMeans(s, Apply(s, a), t, Accepted(s, a, t));
    } else {
      match a
      case Reply(u, m) =>
        ReplyMail(s, u, m);
        SameMailGains(s, MsgReply(s, u, m).0, t);
        GainsMeans(s, MsgReply(s, u, m).0, t, multiset{});
      case Receive(me, block) =>
        ReceiveConserves(s, me, block, t);
        GainsMeans(s, MsgReceive(s, me, block).0, t, multiset{});
      case InitQueue(me, capacity) =>
        UnlistedNotSending(s, me);
        InitQueueForgets(s, me, capacity, t);
        Padded(Mail(s, t));
      case _ =>
    }
  }

  lemma Padded(a: multiset<Msg>)
    ensures a + multiset{} == a
  {
  }

  ghost function AcceptedIn(states: seq<Sys>, acts: seq<Action>, t: Pid, n: nat): multiset<Msg>
    requires n <= |states| && n <= |acts|
  {
    if n == 0 then multiset{}
    else AcceptedIn(states, acts, t, n - 1) + Accepted(states[n - 1], acts[n - 1], t)
  }

  ghost function ForgottenIn(states: seq<Sys>, acts: seq<Action>, t: Pid, n: nat): multiset<Msg>
    requires n <= |states| && n <= |acts|
  {
    if n == 0 then multiset{}
    else ForgottenIn(states, acts, t, n - 1) + Forgotten(states[n - 1], acts[n - 1], t)
  }

  lemma MailOfStep(states: seq<Sys>, acts: seq<Action>, t: Pid, n: nat)
    requires Run(states, acts) && n < |acts|
    ensures Inv(states[n]) && Sound(states[n]) && Step(states[n], acts[n], states[n + 1])
    ensures Mail(states[n + 1], t) + Forgotten(states[n], acts[n], t)
            == Mail(states[n], t) + Accepted(states[n], acts[n], t)
  {
    InvariantOfRun(states, acts, n);
    InvIsSound(states[n]);
    hide Inv, Sound;
    assert Step(states[n], acts[n], states[n + 1]);
    StepConserves(states[n], acts[n], states[n + 1], t);
  }

  lemma NoMailAtBoot(s: Sys, t: Pid)
    requires Init(s)
    ensures Mail(s, t) == multiset{}
  {
    assert At(s, MsgWaiters(t)) == [];
    assert Backlog(s, t) == [];
  }

  /** The books of the first n steps balance. */
  ghost predicate Balanced(states: seq<Sys>, acts: seq<Action>, t: Pid, n: nat) {
    && n < |states| && n <= |acts|
    && Mail(states[n], t) + ForgottenIn(states, acts, t, n) == AcceptedIn(states, acts, t, n)
  }

  lemma BalanceStep(states: seq<Sys>, acts: seq<Action>, t: Pid, n: nat)
    requires n + 1 < |states| && n < |acts| && Balanced(states, acts, t, n)
    requires Mail(states[n + 1], t) + Forgotten(states[n], acts[n], t)
             == Mail(states[n], t) + Accepted(states[n], acts[n], t)
    ensures Balanced(states, acts, t, n + 1)
  {
    hide Mail, Forgotten, Accepted;
    CarryForward(Mail(states[n], t), Mail(states[n + 1], t),
                 Forgotten(states[n], acts[n], t), Accepted(states[n], acts[n], t),
                 ForgottenIn(states, acts, t, n), AcceptedIn(states, acts, t, n));
  }

  lemma BooksAtBoot(states: seq<Sys>, acts: seq<Action>, t: Pid)
    requires Run(states, acts)
    ensures Balanced(states, acts, t, 0) && |states| == |acts| + 1
  {
    NoMailAtBoot(states[0], t);
  }

  lemma {:induction false} MailBalance(states: seq<Sys>, acts: seq<Action>, t: Pid, n: nat)
    requires Run(states, acts) && n <= |acts|
    ensures Balanced(states, acts, t, n)
    decreases n
  {
    hide Run, Balanced, Mail, Accepted, Forgotten, Inv, Sound, Step;
    BooksAtBoot(states, acts, t);
    if n > 0 {
      MailOfStep(states, acts, t, n - 1);
      MailBalance(states, acts, t, n - 1);
      BalanceStep(states, acts, t, n - 1);
    }
  }

  lemma CarryForward(mail: multiset<Msg>, mail': multiset<Msg>, f: multiset<Msg>, a: multiset<Msg>,
                     forgotten: multiset<Msg>, accepted: multiset<Msg>)
    requires mail' + f == mail + a && mail + forgotten == accepted
    ensures mail' + (forgotten + f) == accepted + a
  {
    assert mail' + (forgotten + f) == (mail' + f) + forgotten;
    assert (mail + a) + forgotten == (mail + forgotten) + a;
  }

  /** Main result. In every run every message accepted for t was handed to it exactly once, or is
      pending exactly once, or was forgotten by a new msg_init_queue. */
  lemma EveryMessageOnce(states: seq<Sys>, acts: seq<Action>, t: Pid, n: nat)
    requires Run(states, acts) && n <= |acts|
    ensures multiset(Received(states[n], t)) + multiset(Backlog(states[n], t)) + ForgottenIn(states, acts, t, n)
            == AcceptedIn(states, acts, t, n)
  {
    MailBalance(states, acts, t, n);
  }

  /** In every state of every run: somebody waits to send only to a thread whose queue is full
      or absent, and a thread blocked in receive has nothing pending. */
  lemma NobodyWaitsInVain(states: seq<Sys>, acts: seq<Action>, n: nat, t: Pid)
    requires Run(states, acts) && n < |states| && t in states[n].threads
    ensures At(states[n], MsgWaiters(t)) != [] ==>
              |states[n].threads[t].queue| == states[n].threads[t].capacity
    ensures states[n].threads[t].status == ReceiveBlocked ==> Backlog(states[n], t) == []
  {
    InvariantOfRun(states, acts, n);
    assert MailboxOk(states[n], t);
  }

  /** The assumption on replies is needed: a reply to a thread whose request still waits makes
      it runnable while its node stays on the list of senders. */
  lemma EarlyReplyLinksTwice(s: Sys, t: Pid, x: Pid, m: Msg)
    requires ListsOk(s) && t in At(s, MsgWaiters(x)) && t in s.threads && s.threads[t].status == ReplyBlocked
    ensures var r := MsgReply(s, t, m).0;
            && t in At(r, RunQueue(s.threads[t].priority)) && t in At(r, MsgWaiters(x)) && !ListsOk(r)
  {
    var r := MsgReply(s, t, m).0;
    var c := s.threads[t].(replies := s.threads[t].replies + [m]);
    SetStatusShape(WithThread(s, t, c), t, Pending);
    assert At(WithThread(s, t, c), MsgWaiters(x)) == At(s, MsgWaiters(x));
    assert t in At(r, RunQueue(s.threads[t].priority)) && t in At(r, MsgWaiters(x));
    if ListsOk(r) { ListsSeparate(r); }
  }

  /** A defect of msg_send_receive, with its exact condition. The answer is 1 if and only if the
      target exists, and then the message is with the target once; naming a missing thread returns
      -1 and hands nothing to anybody, but the caller has already given up its place on the run
      queue and is on no list. */
  lemma SendReceiveToNobodyStrands(s: Sys, me: Pid, target: Pid, m: Msg)
    requires Inv(s) && CanRun(s, me) && target != me
    ensures var (r, ret) := MsgSendReceive(s, me, target, m);
            && (ret == 1 <==> target in s.threads) && (ret == -1 <==> target !in s.threads)
            && (target in s.threads ==> Mail(r, target) == Mail(s, target) + multiset{m.(sender := me)})
            && (target !in s.threads ==>
                  && me in r.threads && r.threads[me].status == ReplyBlocked && OnNoList(r, me)
                  && forall t :: Mail(r, t) == Mail(s, t))
  {
    hide Mail, ListsOk, Rest, SetStatus, MsgSend;
    SendReceiveGains(s, me, target, m);
    AwaitReplyKeeps(s, me, m);
    SetStatusShape(s, me, ReplyBlocked);
    var s1 := SetStatus(s, me, ReplyBlocked);
    SendAnswers(WithThread(s1, me, s1.threads[me].(waitData := Message(m))), me, target, m);
  }

  /** A blocking msg_send answers 1 if and only if its target exists. */
  lemma SendAnswers(s: Sys, me: Pid, target: Pid, m: Msg)
    requires me in s.threads
    ensures var (r, ret) := MsgSend(s, me, target, m, true);
            if target in s.threads then ret == 1 else ret == -1 && r == s
  {
    hide SetStatus, QueueMsg, FlagsSet, AddToList, DirectCopy;
  }

  lemma SendReceiveGains(s: Sys, me: Pid, target: Pid, m: Msg)
    requires Inv(s) && CanRun(s, me) && target != me
    ensures var (r, ret) := MsgSendReceive(s, me, target, m);
            && (ret == 1 ==> Mail(r, target) == Mail(s, target) + multiset{m.(sender := me)})
            && (ret != 1 ==> forall t :: Mail(r, t) == Mail(s, t))
  {
    hide Mail, MsgSendReceive, Inv;
    SendReceiveConserves(s, me, target, m, target);
    forall t | MsgSendReceive(s, me, target, m).1 != 1 ensures Mail(MsgSendReceive(s, me, target, m).0, t) == Mail(s, t) {
      SendReceiveConserves(s, me, target, m, t);
      GainsMeans(s, MsgSendReceive(s, me, target, m).0, t, multiset{});
    }
  }
}
