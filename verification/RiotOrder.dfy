/** The order of messages through runs: first in, first out holds from any moment on exactly while
    every waiting sender joins at the end and no queue with something pending is replaced. */
module RiotOrder {
  import opened Options
  import opened PrioList
  import opened RiotSystem
  import opened RiotLists
  import opened RiotInvariant
  import opened RiotSteps
  import opened RiotRuns
  import opened RiotBoot
  import opened RiotMessages
  import opened RiotMailbox

  // ---------- waiting senders sign their messages ----------

  /** The message of every waiting sender names that sender. */
  ghost predicate Signed(s: Sys) {
    forall x: nat, w {:trigger w in At(s, MsgWaiters(x))} :: w in At(s, MsgWaiters(x)) ==> MsgOf(s, w).sender == w
  }

  /** No new waiting sender, and the others say what they said. */
  ghost predicate NoNewWaiter(s: Sys, r: Sys) {
    forall x: nat, w {:trigger w in At(r, MsgWaiters(x))} ::
      w in At(r, MsgWaiters(x)) ==> w in At(s, MsgWaiters(x)) && MsgOf(r, w) == MsgOf(s, w)
  }

  lemma SignedFrame(s: Sys, r: Sys)
    requires Signed(s) && NoNewWaiter(s, r)
    ensures Signed(r)
  {
  }

  lemma SameMailFrame(s: Sys, r: Sys)
    requires SameMail(s, r)
    ensures NoNewWaiter(s, r)
  {
    forall x: nat, w | w in At(r, MsgWaiters(x)) ensures w in At(s, MsgWaiters(x)) {
      assert At(r, MsgWaiters(x)) == At(s, MsgWaiters(x));
    }
  }

  lemma OnlyThreadFrame(s: Sys, r: Sys, t: Pid)
    requires OnlyThread(s, r, t) && r.threads[t].waitData == s.threads[t].waitData
    ensures NoNewWaiter(s, r)
  {
  }

  lemma QueueSigned(s: Sys, t: Pid, m: Msg)
    requires Signed(s) && t in s.threads
    ensures Signed(QueueMsg(s, t, m).0)
  {
    QueueMsgShape(s, t, m);
    hide QueueMsg;
    OnlyThreadFrame(s, QueueMsg(s, t, m).0, t);
  }

  lemma DirectSigned(s: Sys, t: Pid, m: Msg)
    requires Signed(s) && t in s.threads
    ensures Signed(DirectCopy(s, t, m))
  {
    var c := s.threads[t].(received := s.threads[t].received + [m]);
    SetStatusShape(WithThread(s, t, c), t, Pending);
    assert forall pl: Place :: At(WithThread(s, t, c), pl) == At(s, pl);
    hide SetStatus;
    OnlyThreadFrame(s, DirectCopy(s, t, m), t);
  }

  lemma WaitSigned(s: Sys, me: Pid, target: Pid, m: Msg, st: Status)
    requires Signed(s) && me in s.threads && target in s.threads && NotSending(s, me) && m.sender == me
    ensures target in SenderQueued(s, me, target, m, st).threads
    ensures Signed(FlagsSet(SenderQueued(s, me, target, m, st), target, MSG_WAITING))
  {
    SenderQueuedShape(s, me, target, m, st);
    hide SenderQueued, Position;
    var q := SenderQueued(s, me, target, m, st);
    SendersSigned(s, q, me, target, m, Position(Prio(s), At(s, MsgWaiters(target)), s.threads[me].priority));
    FlagsSetMail(q, target, MSG_WAITING);
    SameMailFrame(q, FlagsSet(q, target, MSG_WAITING));
    hide FlagsSet;
  }

  lemma SendersSigned(s: Sys, q: Sys, me: Pid, target: Pid, m: Msg, i: nat)
    requires Signed(s) && me in s.threads && m.sender == me && i <= |At(s, MsgWaiters(target))|
    requires q.threads.Keys == s.threads.Keys && q.threads[me].waitData == Message(m)
    requires forall t :: t in s.threads && t != me ==> q.threads[t] == s.threads[t]
    requires At(q, MsgWaiters(target)) == InsertAt(At(s, MsgWaiters(target)), i, me)
    requires forall x: nat :: x != target ==> At(q, MsgWaiters(x)) == At(s, MsgWaiters(x))
    ensures Signed(q)
  {
    forall x: nat, w | w in At(q, MsgWaiters(x)) ensures MsgOf(q, w).sender == w {
      if w != me { assert w in At(s, MsgWaiters(x)); }
    }
  }

  lemma SendSigned(s: Sys, me: Pid, target: Pid, m0: Msg, block: bool)
    requires Signed(s) && me in s.threads && NotSending(s, me)
    ensures Signed(MsgSend(s, me, target, m0, block).0)
  {
    hide Signed, NotSending, DirectCopy, FlagsSet, QueueMsg, SetStatus, AddToList;
    var m := m0.(sender := me);
    if target in s.threads {
      if s.threads[target].status == ReceiveBlocked {
        DirectSigned(s, target, m);
      } else {
        QueueSigned(s, target, m);
        var st := if s.threads[me].status == ReplyBlocked then ReplyBlocked else SendBlocked;
        WaitSigned(s, me, target, m, st);
      }
    }
  }

  lemma SendReceiveSigned(s: Sys, me: Pid, target: Pid, m: Msg)
    requires Inv(s) && CanRun(s, me) && target != me && Signed(s)
    ensures Signed(MsgSendReceive(s, me, target, m).0)
  {
    UnlistedNotSending(s, me);
    AwaitReplyMail(s, me, m);
    AwaitingSameEffect(s, me, target, m, m);
    hide Inv, CanRun, SetStatus, MsgSend, NotSending, SameMail, Signed, SendEffect, BoxOf;
    var s1 := SetStatus(s, me, ReplyBlocked);
    var s2 := WithThread(s1, me, s1.threads[me].(waitData := Message(m)));
    SameMailFrame(s, s2);
    SignedFrame(s, s2);
    SendSigned(s2, me, target, m, true);
  }

  lemma ReceiveSigned(s: Sys, me: Pid, block: bool)
    requires Inv(s) && CanRun(s, me) && Signed(s)
    ensures At(s, MsgWaiters(me)) != [] ==>
              At(s, MsgWaiters(me))[0] in s.threads && At(s, MsgWaiters(me))[0] != me
    ensures Signed(MsgReceive(s, me, block).0)
  {
    WaitersExist(s, me);
    if At(s, MsgWaiters(me)) != [] {
      TakenSigned(s, me, block);
    } else {
      EmptySigned(s, me, block);
    }
  }

  lemma TakenSigned(s: Sys, me: Pid, block: bool)
    requires ListsOk(s) && me in s.threads && At(s, MsgWaiters(me)) != [] && NotSending(s, me) && Signed(s)
    ensures At(s, MsgWaiters(me))[0] in s.threads && At(s, MsgWaiters(me))[0] != me
    ensures Signed(MsgReceive(s, me, block).0)
  {
    hide ListsOk, MsgReceive, ReleaseSender, RemoveHead;
    ReceiveFromWaiter(s, me, block);
    ListsSeparate(s);
    var r := MsgReceive(s, me, block).0;
    var l := At(s, MsgWaiters(me));
    TakeWaiterShape(s, me, AfterTake(s.threads[me], MsgOf(s, l[0])), l[0]);
    assert l == [l[0]] + l[1..] && Distinct(l);
    assert l[0] in l;
    forall x: nat, w | w in At(r, MsgWaiters(x)) ensures w in At(s, MsgWaiters(x)) && MsgOf(r, w) == MsgOf(s, w) {
      assert w in At(s, MsgWaiters(x));
      assert w != me && w != l[0];
    }
  }

  lemma EmptySigned(s: Sys, me: Pid, block: bool)
    requires me in s.threads && At(s, MsgWaiters(me)) == [] && NotSending(s, me) && Signed(s)
    ensures Signed(MsgReceive(s, me, block).0)
  {
    var r := MsgReceive(s, me, block).0;
    var s1 := WithThread(s, me, s.threads[me].(waitData := Destination));
    SetStatusShape(s1, me, ReceiveBlocked);
    hide SetStatus;
    forall x: nat, w | w in At(r, MsgWaiters(x)) ensures w in At(s, MsgWaiters(x)) && MsgOf(r, w) == MsgOf(s, w) {
      assert At(s1, MsgWaiters(x)) == At(s, MsgWaiters(x)) && At(r, MsgWaiters(x)) == At(s, MsgWaiters(x));
    }
  }

  lemma InitSigned(s: Sys, me: Pid, capacity: nat)
    requires me in s.threads && NotSending(s, me) && Signed(s)
    ensures Signed(MsgInitQueue(s, me, capacity))
  {
    var r := MsgInitQueue(s, me, capacity);
    forall x: nat, w | w in At(r, MsgWaiters(x)) ensures w in At(s, MsgWaiters(x)) && MsgOf(r, w) == MsgOf(s, w) {
      assert At(r, MsgWaiters(x)) == At(s, MsgWaiters(x));
    }
  }

  lemma MessageSigned(s: Sys, a: Action)
    requires Inv(s) && Sound(s) && Enabled(s, a) && IsMessage(a) && Signed(s)
    ensures Signed(Apply(s, a))
  {
    hide ListsOk, Rest, Sound, Signed, MsgSend, MsgSendReceive, MsgReceive, MsgReply, MsgInitQueue, SameMail,
      QueueMsg, DirectCopy, NotSending, OnNoList, NoNewWaiter;
    match a
    case Send(me, target, m, block) => UnlistedNotSending(s, me); SendSigned(s, me, target, m, block);
    case SendToSelf(me, m) => QueueSigned(s, me, m.(sender := me));
    case SendInt(target, m) =>
      if target in s.threads {
        DirectSigned(s, target, m.(sender := PID_ISR));
        QueueSigned(s, target, m.(sender := PID_ISR));
      }
    case SendReceive(me, target, m) => SendReceiveSigned(s, me, target, m);
    case Reply(u, m) =>
      ReplyMail(s, u, m);
      SameMailFrame(s, MsgReply(s, u, m).0);
      SignedFrame(s, MsgReply(s, u, m).0);
    case Receive(me, block) => ReceiveSigned(s, me, block);
    case InitQueue(me, capacity) => UnlistedNotSending(s, me); InitSigned(s, me, capacity);
    case _ =>
  }

  lemma StepSigned(s: Sys, a: Action)
    requires Inv(s) && Sound(s) && Enabled(s, a) && Signed(s)
    ensures Signed(Apply(s, a))
  {
    hide Inv, Sound, Apply, Enabled, SameMail, Signed;
    if IsMessage(a) {
      MessageSigned(s, a);
    } else {
      if IsSync(a) { SyncMail(s, a); } else { ThreadActionMail(s, a); }
      SameMailFrame(s, Apply(s, a));
      SignedFrame(s, Apply(s, a));
    }
  }

  lemma {:induction false} SignedInRun(states: seq<Sys>, acts: seq<Action>, n: nat)
    requires Run(states, acts) && n < |states|
    ensures Signed(states[n])
    decreases n
  {
    hide *;
    if n == 0 {
      SignedAtBoot(states, acts);
    } else {
      RunLength(states, acts);
      SignedInRun(states, acts, n - 1);
      StepFacts(states, acts, n - 1);
      StepSigned(states[n - 1], acts[n - 1]);
    }
  }

  lemma SignedAtBoot(states: seq<Sys>, acts: seq<Action>)
    requires Run(states, acts)
    ensures |states| == |acts| + 1 && Signed(states[0])
  {
    assert forall x: nat :: At(states[0], MsgWaiters(x)) == [];
  }

  // ---------- one step ----------

  /** What t received, then what is pending for it */
  function History(s: Sys, t: Pid): seq<Msg> {
    Received(s, t) + Backlog(s, t)
  }

  /** The message that the operation accepts, if any */
  function Entering(e: Effect): seq<Msg> {
    if e.Append? || e.JoinAt? || e.Deliver? then [e.m] else []
  }

  /** A sender that goes to wait finds nobody less urgent waiting, and a new queue replaces none in
      which something is pending. */
  ghost predicate KeepsOrder(s: Sys, a: Action, t: Pid) {
    match EffectOn(s, a, t)
    case JoinAt(_, m) => forall w :: w in At(s, MsgWaiters(t)) ==> Prio(s)(w) <= Prio(s)(m.sender)
    case Clear => Backlog(s, t) == []
    case _ => true
  }

  /** What JoinAt joins: the message of the caller, behind all at least as urgent */
  lemma JoinIs(s: Sys, a: Action, t: Pid)
    requires Inv(s) && Enabled(s, a) && EffectOn(s, a, t).JoinAt?
    ensures var m := EffectOn(s, a, t).m;
            && NotSending(s, m.sender)
            && EffectOn(s, a, t) == JoinAt(WaitIndex(s, t, Prio(s)(m.sender)), m)
  {
    hide ListsOk, Rest, WaitIndex, NotSending;
    UnlistedNotSending(s, a.me);
  }

  /** Joining at the end means that nobody less urgent waits. */
  lemma JoinsAtEnd(s: Sys, t: Pid, p: nat)
    requires Inv(s)
    ensures WaitIndex(s, t, p) == |Backlog(s, t)| <==> forall w :: w in At(s, MsgWaiters(t)) ==> Prio(s)(w) <= p
  {
    WaitIndexMeans(s, t, p);
    hide Inv;
    var l := At(s, MsgWaiters(t));
    if WaitIndex(s, t, p) != |Backlog(s, t)| { assert l[|l| - 1] in l; }
  }

  /** The k-th waiting sender's message is pending behind the queue. */
  lemma PendingOfWaiter(s: Sys, t: Pid, k: nat)
    requires Signed(s) && k < |At(s, MsgWaiters(t))|
    ensures |Queue(s, t)| + k < |Backlog(s, t)|
    ensures Backlog(s, t)[|Queue(s, t)| + k].sender == At(s, MsgWaiters(t))[k]
  {
    var l := At(s, MsgWaiters(t));
    assert l[k] in l;
    hide Signed, At, MsgOf, Queue;
    assert Backlog(s, t)[|Queue(s, t)| + k] == Texts(s, l)[k];
  }

  /** The message pending at the place of a newcomer is somebody else's. */
  lemma NewcomerDiffers(s: Sys, t: Pid, m: Msg)
    requires Signed(s) && NotSending(s, m.sender)
    requires WaitIndex(s, t, Prio(s)(m.sender)) < |Backlog(s, t)|
    ensures Backlog(s, t)[WaitIndex(s, t, Prio(s)(m.sender))] != m
  {
    var l := At(s, MsgWaiters(t));
    var k := Position(Prio(s), l, Prio(s)(m.sender));
    hide Position;
    assert l[k] in l && m.sender !in l;
    hide NotSending, Signed, Texts, At, Queue;
    PendingOfWaiter(s, t, k);
  }

  /** Joining before the end at a place where another message stands is not joining at the end. */
  lemma JoinedOrder(received: seq<Msg>, pending: seq<Msg>, i: nat, m: Msg)
    requires i <= |pending| && (i < |pending| ==> pending[i] != m)
    ensures received + (pending[..i] + [m] + pending[i..]) == received + pending + [m] <==> i == |pending|
  {
    if i < |pending| {
      assert (received + (pending[..i] + [m] + pending[i..]))[|received| + i] == m;
      assert (received + pending + [m])[|received| + i] == pending[i];
    }
  }

  lemma DoneOrder(b: Box, e: Effect)
    requires Fits(b, e) && !e.JoinAt?
    ensures var r := Done(b, e);
            r.received + r.pending == b.received + b.pending + Entering(e) <==> (e.Clear? ==> b.pending == [])
  {
    var r := Done(b, e);
    if e.Clear? {
      assert |r.received + r.pending| == |b.received|;
    }
  }

  /** A waiting sender keeps the order exactly when it joins at the end, and otherwise it joins where
      somebody else's message stands. */
  lemma JoinKeepsOrder(s: Sys, a: Action, t: Pid)
    requires Inv(s) && Signed(s) && Enabled(s, a) && EffectOn(s, a, t).JoinAt?
    ensures var e := EffectOn(s, a, t);
            && e.i <= |Backlog(s, t)| && (e.i < |Backlog(s, t)| ==> Backlog(s, t)[e.i] != e.m)
            && (KeepsOrder(s, a, t) <==> e.i == |Backlog(s, t)|)
  {
    hide Inv, Enabled, Signed, EffectOn, Backlog, WaitIndex, NotSending, Prio;
    JoinIs(s, a, t);
    var m := EffectOn(s, a, t).m;
    JoinsAtEnd(s, t, Prio(s)(m.sender));
    if WaitIndex(s, t, Prio(s)(m.sender)) < |Backlog(s, t)| { NewcomerDiffers(s, t, m); }
  }

  lemma OtherKeepsOrder(s: Sys, a: Action, t: Pid)
    requires !EffectOn(s, a, t).JoinAt?
    ensures KeepsOrder(s, a, t) <==> (EffectOn(s, a, t).Clear? ==> Backlog(s, t) == [])
  {
    hide EffectOn, Backlog;
  }

  /** What an operation does to the history, and whether that is the order of acceptance */
  lemma OrderOfEffect(s: Sys, r: Sys, t: Pid, e: Effect)
    requires Refines(s, r, t, e)
    requires e.JoinAt? && e.i < |Backlog(s, t)| ==> Backlog(s, t)[e.i] != e.m
    ensures History(r, t) == History(s, t) + Entering(e) <==>
            if e.JoinAt? then e.i == |Backlog(s, t)| else e.Clear? ==> Backlog(s, t) == []
  {
    hide Received, Backlog;
    if e.JoinAt? {
      JoinedOrder(Received(s, t), Backlog(s, t), e.i, e.m);
    } else {
      DoneOrder(BoxOf(s, t), e);
    }
  }

  /** One step keeps the order of acceptance exactly when its operation does. */
  lemma StepOrder(s: Sys, a: Action, t: Pid)
    requires Inv(s) && Sound(s) && Enabled(s, a) && Signed(s)
    ensures History(Apply(s, a), t) == History(s, t) + Entering(EffectOn(s, a, t)) <==> KeepsOrder(s, a, t)
  {
    hide *;
    StepRefines(s, a, t);
    if EffectOn(s, a, t).JoinAt? { JoinKeepsOrder(s, a, t); } else { OtherKeepsOrder(s, a, t); }
    OrderOfEffect(s, Apply(s, a), t, EffectOn(s, a, t));
  }

  // ---------- runs ----------

  /** The messages accepted for t from state k to state n, in that order */
  function EnteredBetween(states: seq<Sys>, acts: seq<Action>, t: Pid, k: nat, n: nat): seq<Msg>
    requires k <= n <= |acts| && n <= |states|
    decreases n
  {
    if n == k then []
    else EnteredBetween(states, acts, t, k, n - 1) + Entering(EffectOn(states[n - 1], acts[n - 1], t))
  }

  /** From k to n the mailbox of t was first in, first out: nothing overtook, nothing was lost. */
  ghost predicate Fifo(states: seq<Sys>, acts: seq<Action>, t: Pid, k: nat, n: nat)
    requires k <= n <= |acts| < |states|
  {
    forall j {:trigger History(states[j], t)} ::
      k <= j <= n ==> History(states[j], t) == History(states[k], t) + EnteredBetween(states, acts, t, k, j)
  }

  lemma OrderOfRun(states: seq<Sys>, acts: seq<Action>, t: Pid, n: nat)
    requires Run(states, acts) && n < |acts|
    ensures |states| == |acts| + 1
    ensures History(states[n + 1], t) == History(states[n], t) + Entering(EffectOn(states[n], acts[n], t))
            <==> KeepsOrder(states[n], acts[n], t)
  {
    hide Run, Inv, Sound, Enabled, Apply, Signed, History, KeepsOrder, EffectOn;
    StepFacts(states, acts, n);
    SignedInRun(states, acts, n);
    StepOrder(states[n], acts[n], t);
  }

  lemma FifoGrows(states: seq<Sys>, acts: seq<Action>, t: Pid, k: nat, n: nat)
    requires Run(states, acts) && k < n <= |acts| < |states|
    ensures Fifo(states, acts, t, k, n) <==>
              Fifo(states, acts, t, k, n - 1) && KeepsOrder(states[n - 1], acts[n - 1], t)
  {
    hide Run, History, KeepsOrder, EffectOn, Entering;
    OrderOfRun(states, acts, t, n - 1);
    var h, x := History(states[k], t) + EnteredBetween(states, acts, t, k, n - 1),
                Entering(EffectOn(states[n - 1], acts[n - 1], t));
    assert History(states[k], t) + EnteredBetween(states, acts, t, k, n) == h + x;
    assert Fifo(states, acts, t, k, n) ==>
             History(states[n - 1], t) == h && History(states[n], t) == h + x;
  }

  /** Main result, order. From any moment k of any run on: what t received and what is pending for it
      are together what they were at k, followed by exactly the messages accepted since in the order
      they were accepted, up to n, if and only if no sender went to wait in front of a less urgent one
      and no queue with something pending was replaced. */
  lemma {:induction false} FifoExactly(states: seq<Sys>, acts: seq<Action>, t: Pid, k: nat, n: nat)
    requires Run(states, acts) && k <= n <= |acts| < |states|
    ensures Fifo(states, acts, t, k, n) <==> forall i :: k <= i < n ==> KeepsOrder(states[i], acts[i], t)
    decreases n
  {
    hide Run, History, KeepsOrder, EffectOn;
    if n > k {
      FifoExactly(states, acts, t, k, n - 1);
      FifoGrows(states, acts, t, k, n);
      hide Fifo;
    } else {
      assert History(states[k], t) + [] == History(states[k], t);
    }
  }

  /** From any moment on, as long as no sender has to wait for room at t and t sets up no new queue,
      messages are received in the order in which they were accepted, queued ones included. */
  lemma FifoWithoutWaiting(states: seq<Sys>, acts: seq<Action>, t: Pid, k: nat, n: nat)
    requires Run(states, acts) && k <= n <= |acts| < |states|
    requires forall i :: k <= i < n ==> !EffectOn(states[i], acts[i], t).JoinAt? && !EffectOn(states[i], acts[i], t).Clear?
    ensures Received(states[n], t) + Backlog(states[n], t)
            == Received(states[k], t) + Backlog(states[k], t) + EnteredBetween(states, acts, t, k, n)
  {
    hide Run, Received, Backlog, EffectOn, Fifo;
    FifoExactly(states, acts, t, k, n);
    FifoAt(states, acts, t, k, n);
  }

  lemma FifoAt(states: seq<Sys>, acts: seq<Action>, t: Pid, k: nat, n: nat)
    requires k <= n <= |acts| < |states| && Fifo(states, acts, t, k, n)
    ensures History(states[n], t) == History(states[k], t) + EnteredBetween(states, acts, t, k, n)
  {
    hide History;
  }

  // ---------- two runs ----------

  /** A run with a queue: thread 1 sets up room for two messages and sends itself two. They are pending
      in that order, and no sender waited. */
  lemma QueuedRun(clz: bool, p: Priority, m1: Msg, m2: Msg) returns (states: seq<Sys>, acts: seq<Action>)
    ensures Run(states, acts) && |acts| == 5 && |states| == 6 && acts[2] == InitQueue(1, 2)
    ensures forall i :: 3 <= i < 5 ==> EffectOn(states[i], acts[i], 1).Append?
    ensures Backlog(states[5], 1) == [m1.(sender := 1), m2.(sender := 1)]
  {
    hide Run, Inv, Sound, CanRun, Backlog, EffectOn, MsgInitQueue;
    states, acts := OneRuns(clz, p, {});
    InitRuns(states[2], 1, 2);
    Extend(states, acts, InitQueue(1, 2));
    states, acts := states + [MsgInitQueue(states[2], 1, 2)], acts + [InitQueue(1, 2)];
    states, acts := ThenToSelf(states, acts, 1, m1);
    states, acts := ThenToSelf(states, acts, 1, m2);
  }

  /** Thread me runs with room in its queue, and nobody waits to send to it. */
  ghost predicate Roomy(s: Sys, me: Pid) {
    && CanRun(s, me) && s.threads[me].status == Running && At(s, MsgWaiters(me)) == []
    && |s.threads[me].queue| < s.threads[me].capacity
  }

  lemma InitRuns(s: Sys, me: Pid, capacity: nat)
    requires CanRun(s, me) && s.threads[me].status == Running && At(s, MsgWaiters(me)) == [] && capacity > 0
    ensures Enabled(s, InitQueue(me, capacity))
    ensures var r := MsgInitQueue(s, me, capacity);
            && Roomy(r, me) && r.threads[me].capacity == capacity && r.threads[me].queue == [] && Backlog(r, me) == []
  {
    assert At(MsgInitQueue(s, me, capacity), MsgWaiters(me)) == [];
  }

  lemma SelfSent(s: Sys, me: Pid, m: Msg)
    requires Roomy(s, me)
    ensures me in s.threads && Enabled(s, SendToSelf(me, m)) && EffectOn(s, SendToSelf(me, m), me) == Append(m.(sender := me))
    ensures var r := MsgSendToSelf(s, me, m).0;
            && CanRun(r, me) && r.threads[me].status == Running && At(r, MsgWaiters(me)) == []
            && r.threads[me].queue == s.threads[me].queue + [m.(sender := me)]
            && r.threads[me].capacity == s.threads[me].capacity
            && Backlog(r, me) == Backlog(s, me) + [m.(sender := me)]
  {
  }

  /** A running thread with room in its queue sends itself a message. */
  lemma ThenToSelf(states: seq<Sys>, acts: seq<Action>, me: Pid, m: Msg) returns (more: seq<Sys>, acts': seq<Action>)
    requires Run(states, acts) && Roomy(states[|acts|], me)
    ensures Run(more, acts') && acts' == acts + [SendToSelf(me, m)]
    ensures |more| == |acts'| + 1 && more[..|states|] == states
    ensures EffectOn(states[|acts|], SendToSelf(me, m), me) == Append(m.(sender := me))
    ensures var s, r := states[|acts|], more[|acts'|];
            && CanRun(r, me) && r.threads[me].status == Running && At(r, MsgWaiters(me)) == []
            && |r.threads[me].queue| == |s.threads[me].queue| + 1 && r.threads[me].capacity == s.threads[me].capacity
            && Backlog(r, me) == Backlog(s, me) + [m.(sender := me)]
  {
    hide Run, Inv, Sound, CanRun, Enabled, EffectOn, Backlog, MsgSendToSelf, At;
    RunLength(states, acts);
    InvariantOfRun(states, acts, |acts|);
    var s := states[|acts|];
    SelfSent(s, me, m);
    Extend(states, acts, SendToSelf(me, m));
    more, acts' := states + [MsgSendToSelf(s, me, m).0], acts + [SendToSelf(me, m)];
  }

  /** A sender that finds no room: it waits, alone and with its message, and its target is as runnable
      as before. */
  lemma FirstWaiter(s: Sys, me: Pid, target: Pid, m: Msg)
    requires me in s.threads && target in s.threads && me != target && NotSending(s, me)
    requires s.threads[me].status == Running && At(s, MsgWaiters(target)) == []
    requires OnRunqueue(s.threads[target].status) && s.threads[target].waitData == Nothing
    requires s.threads[target].queue == [] && s.threads[target].capacity == 0
    ensures var r := MsgSend(s, me, target, m, true).0;
            && r.threads.Keys == s.threads.Keys && At(r, MsgWaiters(target)) == [me]
            && r.threads[me] == s.threads[me].(waitData := Message(m.(sender := me)), status := SendBlocked)
            && r.threads[target] == s.threads[target].(flags := s.threads[target].flags + MSG_WAITING)
            && (forall t :: t in s.threads && t != me && t != target ==> r.threads[t] == s.threads[t])
            && Backlog(r, target) == [m.(sender := me)]
  {
    var x := m.(sender := me);
    hide FlagsSet, MsgSend, NotSending, Texts, MSG_WAITING;
    SendIsWait(s, me, target, m);
    WaiterShape(s, me, target, x);
    var r := MsgSend(s, me, target, m, true).0;
    assert MsgOf(r, me) == x;
    OneText(r, me);
  }

  lemma OneText(s: Sys, w: Pid)
    ensures Texts(s, [w]) == [MsgOf(s, w)]
  {
  }

  lemma SendIsWait(s: Sys, me: Pid, target: Pid, m: Msg)
    requires me in s.threads && target in s.threads && s.threads[me].status == Running
    requires OnRunqueue(s.threads[target].status) && |s.threads[target].queue| >= s.threads[target].capacity
    ensures target in SenderQueued(s, me, target, m.(sender := me), SendBlocked).threads
    ensures MsgSend(s, me, target, m, true).0
            == FlagsSet(SenderQueued(s, me, target, m.(sender := me), SendBlocked), target, MSG_WAITING)
  {
    hide SetStatus, FlagsSet, QueueMsg, AddToList, MSG_WAITING, SenderQueued, Position, At;
    Refused(s, target, m.(sender := me));
    SenderQueuedShape(s, me, target, m.(sender := me), SendBlocked);
    SendWithoutRoom(s, me, target, m);
  }

  lemma SendWithoutRoom(s: Sys, me: Pid, target: Pid, m: Msg)
    requires me in s.threads && target in s.threads && s.threads[me].status == Running
    requires OnRunqueue(s.threads[target].status) && QueueMsg(s, target, m.(sender := me)) == (s, false)
    requires target in SenderQueued(s, me, target, m.(sender := me), SendBlocked).threads
    ensures MsgSend(s, me, target, m, true).0
            == FlagsSet(SenderQueued(s, me, target, m.(sender := me), SendBlocked), target, MSG_WAITING)
  {
    hide SetStatus, FlagsSet, QueueMsg, AddToList, MSG_WAITING;
  }

  lemma WaiterShape(s: Sys, me: Pid, target: Pid, x: Msg)
    requires me in s.threads && target in s.threads && me != target
    requires At(s, MsgWaiters(target)) == [] && s.threads[target].waitData == Nothing
    ensures target in SenderQueued(s, me, target, x, SendBlocked).threads
    ensures var r := FlagsSet(SenderQueued(s, me, target, x, SendBlocked), target, MSG_WAITING);
            && r.threads.Keys == s.threads.Keys && At(r, MsgWaiters(target)) == [me]
            && r.threads[me] == s.threads[me].(waitData := Message(x), status := SendBlocked)
            && r.threads[target] == s.threads[target].(flags := s.threads[target].flags + MSG_WAITING)
            && (forall t :: t in s.threads && t != me && t != target ==> r.threads[t] == s.threads[t])
  {
    hide SenderQueued, FlagsSet, Position, At, MSG_WAITING;
    SenderQueuedShape(s, me, target, x, SendBlocked);
    FlagsSetShape(SenderQueued(s, me, target, x, SendBlocked), target, MSG_WAITING);
  }

  /** The second sender is more urgent than the first, which waits alone. */
  lemma UrgentSecond(s: Sys, me: Pid, target: Pid, first: Pid, m: Msg)
    requires Inv(s) && CanRun(s, me) && me != target && target in s.threads && first in s.threads
    requires At(s, MsgWaiters(target)) == [first] && s.threads[me].priority < s.threads[first].priority
    requires OnRunqueue(s.threads[target].status) && s.threads[target].queue == [] && s.threads[target].capacity == 0
    ensures Sound(s) && Enabled(s, Send(me, target, m, true))
    ensures Backlog(Apply(s, Send(me, target, m, true)), target) == [m.(sender := me)] + Backlog(s, target)
    ensures !KeepsOrder(s, Send(me, target, m, true), target)
  {
    var a := Send(me, target, m, true);
    SendEnabled(s, me, target, m);
    FirstPlace(s, me, target, first, m);
    hide *;
    InvIsSound(s);
    StepRefines(s, a, target);
    JoinedFirst(s, Apply(s, a), target, m.(sender := me));
  }

  lemma SendEnabled(s: Sys, me: Pid, target: Pid, m: Msg)
    requires CanRun(s, me) && me != target
    ensures Enabled(s, Send(me, target, m, true))
  {
    hide CanRun;
  }

  lemma FirstPlace(s: Sys, me: Pid, target: Pid, first: Pid, m: Msg)
    requires me in s.threads && target in s.threads && first in s.threads
    requires At(s, MsgWaiters(target)) == [first] && s.threads[me].priority < s.threads[first].priority
    requires OnRunqueue(s.threads[target].status) && s.threads[target].queue == [] && s.threads[target].capacity == 0
    ensures EffectOn(s, Send(me, target, m, true), target) == JoinAt(0, m.(sender := me))
    ensures !KeepsOrder(s, Send(me, target, m, true), target)
  {
    assert first in At(s, MsgWaiters(target));
    hide Backlog, At;
  }

  lemma JoinedFirst(s: Sys, r: Sys, t: Pid, m: Msg)
    requires Refines(s, r, t, JoinAt(0, m))
    ensures Backlog(r, t) == [m] + Backlog(s, t)
  {
    hide Backlog, Received;
    assert Backlog(s, t)[..0] + [m] + Backlog(s, t)[0..] == [m] + Backlog(s, t);
  }

  /** After thread 2 went to wait and thread 3 was created and scheduled */
  ghost predicate OneWaits(s: Sys, p: Priority, q: Priority, m: Msg) {
    && s.threads.Keys == {1, 2} && At(s, MsgWaiters(1)) == [2] && Backlog(s, 1) == [m]
    && s.threads[2].priority == q && !OnRunqueue(s.threads[2].status)
    && OnRunqueue(s.threads[1].status) && s.threads[1].priority == p
    && s.threads[1].queue == [] && s.threads[1].capacity == 0
  }

  lemma OneWaitsRun(clz: bool, p: Priority, q: Priority, m: Msg) returns (states: seq<Sys>, acts: seq<Action>)
    requires q < p
    ensures Run(states, acts) && |acts| == 4 && |states| == 5 && acts[3] == Send(2, 1, m, true)
    ensures OneWaits(states[4], p, q, m.(sender := 2))
  {
    hide Run, Inv, Sound, CanRun, MsgSend, Backlog;
    states, acts := TwoRun(clz, p, q);
    SenderFree(states[3], 2);
    FirstWaiter(states[3], 2, 1, m);
    SendEnabled(states[3], 2, 1, m);
    Extend(states, acts, Send(2, 1, m, true));
    states, acts := states + [Apply(states[3], Send(2, 1, m, true))], acts + [Send(2, 1, m, true)];
  }

  /** The more urgent thread 3 runs. */
  lemma ThirdRuns(s: Sys, t: Sys, r: Sys, p: Priority, q: Priority, u: Priority, m: Msg)
    requires OneWaits(s, p, q, m) && u < q < p && t.threads == s.threads[3 := Fresh(u, Pending, {})]
    requires SameWaitLists(s, t) && SameWaitLists(t, r) && r.threads.Keys == t.threads.Keys
    requires forall x :: x in t.threads ==> SameButStatus(t.threads[x], r.threads[x])
    ensures Backlog(r, 1) == [m] && At(r, MsgWaiters(1)) == [2]
    ensures r.threads.Keys == {1, 2, 3} && r.threads[3].priority < r.threads[2].priority
    ensures OnRunqueue(r.threads[1].status) && r.threads[1].queue == [] && r.threads[1].capacity == 0
  {
    hide Backlog, At;
    SameBacklog(s, r, 1);
  }

  /** A run in which the order is lost: thread 2 waits to send to thread 1, and the more urgent thread 3
      goes to wait in front of it. */
  lemma OvertakingRun(clz: bool, p: Priority, q: Priority, u: Priority, m2: Msg, m3: Msg)
    returns (states: seq<Sys>, acts: seq<Action>)
    requires u < q < p
    ensures Run(states, acts) && |acts| == 7 && |states| == 8
    ensures acts[3] == Send(2, 1, m2, true) && acts[6] == Send(3, 1, m3, true)
    ensures Backlog(states[6], 1) == [m2.(sender := 2)]
    ensures Backlog(states[7], 1) == [m3.(sender := 3), m2.(sender := 2)]
    ensures !KeepsOrder(states[6], acts[6], 1) && !Fifo(states, acts, 1, 0, 7)
  {
    hide Run, Inv, Sound, CanRun, KeepsOrder, Apply, Enabled, Fifo, Backlog, SameButStatus, SameWaitLists, At;
    states, acts := OneWaitsRun(clz, p, q, m2);
    var s4 := states[4];
    states, acts := ThenCreate(states, acts, u, {}, 3);
    var s5 := states[5];
    states, acts := ThenSchedule(states, acts, 3);
    ThirdRuns(s4, s5, states[6], p, q, u, m2.(sender := 2));
    UrgentSecond(states[6], 3, 1, 2, m3);
    Extend(states, acts, Send(3, 1, m3, true));
    states, acts := states + [Apply(states[6], Send(3, 1, m3, true))], acts + [Send(3, 1, m3, true)];
    FifoExactly(states, acts, 1, 0, 7);
  }

  lemma SenderFree(s: Sys, me: Pid)
    requires Inv(s) && CanRun(s, me)
    ensures NotSending(s, me)
  {
    UnlistedNotSending(s, me);
  }

  lemma SameBacklog(s: Sys, r: Sys, t: Pid)
    requires t in s.threads && t in r.threads && r.threads[t].queue == s.threads[t].queue
    requires At(r, MsgWaiters(t)) == At(s, MsgWaiters(t))
    requires forall w :: w in At(s, MsgWaiters(t)) ==>
               w in s.threads && w in r.threads && r.threads[w].waitData == s.threads[w].waitData
    ensures Backlog(r, t) == Backlog(s, t)
  {
    SameTexts(s, r, At(s, MsgWaiters(t)));
  }
}
