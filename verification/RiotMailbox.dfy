/** Message passing as a step machine over mailboxes. For every thread the pair of what it received
    and what is pending for it is changed by each kernel call as one operation on a sequence. */
module RiotMailbox {
  import opened Options
  import opened PrioList
  import opened RiotSystem
  import opened RiotLists
  import opened RiotInvariant
  import opened RiotSteps
  import opened RiotRuns
  import opened RiotBoot
  import opened RiotMessages

  // ---------- the simple machine ----------

  datatype Box = Box(received: seq<Msg>, pending: seq<Msg>)

  /** What can happen to a mailbox. Deliver hands a message to a receiver that waits with nothing
      pending, JoinAt puts the message of a waiting sender at place i. */
  datatype Effect = Unchanged | Append(m: Msg) | JoinAt(i: nat, m: Msg) | Deliver(m: Msg) | TakeHead | Clear

  predicate Fits(b: Box, e: Effect) {
    match e
    case JoinAt(i, _) => i <= |b.pending|
    case Deliver(_) => b.pending == []
    case TakeHead => b.pending != []
    case _ => true
  }

  function Done(b: Box, e: Effect): Box
    requires Fits(b, e)
  {
    match e
    case Unchanged => b
    case Append(m) => Box(b.received, b.pending + [m])
    case JoinAt(i, m) => Box(b.received, b.pending[..i] + [m] + b.pending[i..])
    case Deliver(m) => Box(b.received + [m], [])
    case TakeHead => Box(b.received + [b.pending[0]], b.pending[1..])
    case Clear => Box(b.received, [])
  }

  function BoxOf(s: Sys, t: Pid): Box {
    Box(Received(s, t), Backlog(s, t))
  }

  // ---------- which operation a call performs ----------

  /** Behind everything queued and behind all senders at least as urgent */
  function WaitIndex(s: Sys, t: Pid, p: nat): (i: nat)
    ensures i <= |Backlog(s, t)|
  {
    |Queue(s, t)| + Position(Prio(s), At(s, MsgWaiters(t)), p)
  }

  /** The place means what its comment says, and it is the only one that does when the waiting
      senders are in order of urgency. */
  lemma WaitIndexMeans(s: Sys, t: Pid, p: nat)
    requires Inv(s)
    ensures var l, k := At(s, MsgWaiters(t)), WaitIndex(s, t, p) - |Queue(s, t)|;
            && 0 <= k <= |l|
            && (forall j :: 0 <= j < k ==> Prio(s)(l[j]) <= p)
            && (forall j :: k <= j < |l| ==> Prio(s)(l[j]) > p)
  {
    var l := At(s, MsgWaiters(t));
    hide Rest;
    WaitersInUrgency(s, t);
    hide ListsOk;
    var k := Position(Prio(s), l, p);
    forall j | k <= j < |l| ensures Prio(s)(l[j]) > p { assert Prio(s)(l[k]) <= Prio(s)(l[j]); }
  }

  lemma WaitersInUrgency(s: Sys, t: Pid)
    requires ListsOk(s)
    ensures Sorted(Prio(s), At(s, MsgWaiters(t)))
  {
    var home :| Placed(s, home, None);
    assert WaitersSorted(s);
  }

  function SendEffect(s: Sys, target: Pid, p: nat, m: Msg, block: bool): Effect {
    if target !in s.threads then Unchanged
    else if s.threads[target].status == ReceiveBlocked then Deliver(m)
    else if |s.threads[target].queue| < s.threads[target].capacity then Append(m)
    else if block then JoinAt(WaitIndex(s, target, p), m)
    else Unchanged
  }

  /** The operation that action a performs on the mailbox of t */
  function EffectOn(s: Sys, a: Action, t: Pid): Effect {
    match a
    case Send(me, target, m, block) =>
      if target == t then SendEffect(s, t, Prio(s)(me), m.(sender := me), block) else Unchanged
    case SendReceive(me, target, m) =>
      if target == t then SendEffect(s, t, Prio(s)(me), m.(sender := me), true) else Unchanged
    case SendInt(target, m) =>
      if target == t then SendEffect(s, t, 0, m.(sender := PID_ISR), false) else Unchanged
    case SendToSelf(me, m) =>
      if me == t && t in s.threads && |s.threads[t].queue| < s.threads[t].capacity
      then Append(m.(sender := me)) else Unchanged
    case Receive(me, _) => if me == t && Backlog(s, t) != [] then TakeHead else Unchanged
    case InitQueue(me, _) => if me == t then Clear else Unchanged
    case _ => Unchanged
  }

  // ---------- refinement ----------

  /** From s to r the mailbox of t changes by e. */
  ghost predicate Refines(s: Sys, r: Sys, t: Pid, e: Effect) {
    Fits(BoxOf(s, t), e) && BoxOf(r, t) == Done(BoxOf(s, t), e)
  }

  lemma SameMailRefines(s: Sys, r: Sys, t: Pid)
    requires SameMail(s, r)
    ensures Refines(s, r, t, Unchanged)
  {
    SameMailPending(s, r, t);
  }

  /** A thread blocked in receive has nothing pending. */
  lemma BlockedHasNothing(s: Sys, t: Pid)
    requires MessagesOk(s) && t in s.threads && s.threads[t].status == ReceiveBlocked
    ensures Backlog(s, t) == []
  {
    assert MailboxOk(s, t);
  }

  lemma QueueRefines(s: Sys, target: Pid, m: Msg, t: Pid)
    requires MessagesOk(s) && target in s.threads && |s.threads[target].queue| < s.threads[target].capacity
    ensures QueueMsg(s, target, m).1
    ensures Refines(s, QueueMsg(s, target, m).0, t, if t == target then Append(m) else Unchanged)
  {
    QueueMsgShape(s, target, m);
    hide MessagesOk, Received, Backlog, QueueMsg;
    QueueAppends(s, target, m, t);
  }

  lemma DirectRefines(s: Sys, target: Pid, m: Msg, t: Pid)
    requires MessagesOk(s) && target in s.threads && s.threads[target].status == ReceiveBlocked
    ensures Refines(s, DirectCopy(s, target, m), t, if t == target then Deliver(m) else Unchanged)
  {
    hide MessagesOk, Received, Backlog, DirectCopy;
    DirectDelivers(s, target, m, t);
    BlockedHasNothing(s, target);
  }

  lemma Spliced(q: seq<Msg>, texts: seq<Msg>, i: nat, m: Msg)
    requires i <= |texts|
    ensures (q + texts)[..|q| + i] + [m] + (q + texts)[|q| + i..] == q + WithInserted(texts, true, i, m)
  {
  }

  lemma WaitRefines(s: Sys, me: Pid, target: Pid, m: Msg, st: Status, t: Pid)
    requires me in s.threads && target in s.threads && NotSending(s, me)
    ensures Refines(s, FlagsSet(SenderQueued(s, me, target, m, st), target, MSG_WAITING), t,
                    if t == target then JoinAt(WaitIndex(s, t, Prio(s)(me)), m) else Unchanged)
  {
    hide SenderQueued, FlagsSet, WithInserted, Texts, NotSending, Received, Position;
    if t == target {
      SenderWaits(s, me, target, m, st);
      Spliced(Queue(s, t), Texts(s, At(s, MsgWaiters(t))),
              Position(Prio(s), At(s, MsgWaiters(t)), s.threads[me].priority), m);
    } else {
      SenderWaitsElsewhere(s, me, target, m, st, t);
    }
  }

  lemma StayRefines(s: Sys, t: Pid)
    ensures Refines(s, s, t, Unchanged)
  {
  }

  lemma SendRefines(s: Sys, me: Pid, target: Pid, m0: Msg, block: bool, t: Pid)
    requires MessagesOk(s) && me in s.threads && NotSending(s, me)
    ensures Refines(s, MsgSend(s, me, target, m0, block).0, t,
                    if target == t then SendEffect(s, t, Prio(s)(me), m0.(sender := me), block) else Unchanged)
  {
    hide MessagesOk, Refines, DirectCopy, FlagsSet, QueueMsg, SetStatus, AddToList, NotSending, WaitIndex;
    var m := m0.(sender := me);
    StayRefines(s, t);
    if target in s.threads {
      if s.threads[target].status == ReceiveBlocked {
        DirectRefines(s, target, m, t);
      } else if |s.threads[target].queue| < s.threads[target].capacity {
        QueueRefines(s, target, m, t);
      } else {
        Refused(s, target, m);
        var st := if s.threads[me].status == ReplyBlocked then ReplyBlocked else SendBlocked;
        WaitRefines(s, me, target, m, st, t);
      }
    }
  }

  lemma Refused(s: Sys, target: Pid, m: Msg)
    requires target in s.threads && |s.threads[target].queue| >= s.threads[target].capacity
    ensures QueueMsg(s, target, m) == (s, false)
  {
  }

  /** Waiting for a reply first changes neither the mailboxes nor who waits where. */
  lemma AwaitingSameEffect(s: Sys, me: Pid, target: Pid, m: Msg, x: Msg)
    requires me in s.threads && NotSending(s, me) && target != me
    ensures var s1 := SetStatus(s, me, ReplyBlocked);
            && me in s1.threads
            && var s2 := WithThread(s1, me, s1.threads[me].(waitData := Message(m)));
            && BoxOf(s2, target) == BoxOf(s, target) && me in s2.threads && NotSending(s2, me)
            && SendEffect(s2, target, Prio(s2)(me), x, true) == SendEffect(s, target, Prio(s)(me), x, true)
  {
    AwaitReplyMail(s, me, m);
    SetStatusShape(s, me, ReplyBlocked);
    hide SetStatus;
    var s1 := SetStatus(s, me, ReplyBlocked);
    var s2 := WithThread(s1, me, s1.threads[me].(waitData := Message(m)));
    assert forall y: nat :: At(s2, MsgWaiters(y)) == At(s, MsgWaiters(y));
    hide SameMail, NotSending, Backlog, Received, SendEffect;
    SameBox(s, s2, target);
    SameSendEffect(s, s2, me, target, x);
  }

  lemma SameSendEffect(s: Sys, r: Sys, me: Pid, target: Pid, x: Msg)
    requires r.threads.Keys == s.threads.Keys && me in s.threads && target != me
    requires forall t :: t in s.threads && t != me ==> r.threads[t] == s.threads[t]
    requires r.threads[me].priority == s.threads[me].priority
    requires At(r, MsgWaiters(target)) == At(s, MsgWaiters(target))
    ensures SendEffect(r, target, Prio(r)(me), x, true) == SendEffect(s, target, Prio(s)(me), x, true)
  {
    hide Position;
    SamePosition(Prio(s), Prio(r), At(s, MsgWaiters(target)), Prio(s)(me));
  }

  lemma SendReceiveRefines(s: Sys, me: Pid, target: Pid, m: Msg, t: Pid)
    requires Inv(s) && CanRun(s, me) && target != me
    ensures Refines(s, MsgSendReceive(s, me, target, m).0, t,
                    if target == t then SendEffect(s, t, Prio(s)(me), m.(sender := me), true) else Unchanged)
  {
    AwaitReplyKeeps(s, me, m);
    UnlistedNotSending(s, me);
    hide ListsOk, FlagsOk, MutexesOk, RunningOk, MessagesOk, SetStatus, MsgSend, CanRun, SendEffect, BoxOf, NotSending;
    AwaitReplyMail(s, me, m);
    AwaitingSameEffect(s, me, target, m, m.(sender := me));
    var s1 := SetStatus(s, me, ReplyBlocked);
    var s2 := WithThread(s1, me, s1.threads[me].(waitData := Message(m)));
    SendRefines(s2, me, target, m, true, t);
    SameBox(s, s2, t);
  }

  lemma SameBox(s: Sys, r: Sys, t: Pid)
    requires SameMail(s, r)
    ensures BoxOf(r, t) == BoxOf(s, t)
  {
    SameMailPending(s, r, t);
  }

  lemma SendIntRefines(s: Sys, target: Pid, m0: Msg, t: Pid)
    requires MessagesOk(s)
    ensures Refines(s, MsgSendInt(s, target, m0).0, t,
                    if target == t then SendEffect(s, t, 0, m0.(sender := PID_ISR), false) else Unchanged)
  {
    hide MessagesOk, Refines, DirectCopy, QueueMsg;
    var m := m0.(sender := PID_ISR);
    StayRefines(s, t);
    if target in s.threads {
      if s.threads[target].status == ReceiveBlocked {
        DirectRefines(s, target, m, t);
      } else if |s.threads[target].queue| < s.threads[target].capacity {
        QueueRefines(s, target, m, t);
      } else {
        Refused(s, target, m);
      }
    }
  }

  lemma ToSelfRefines(s: Sys, me: Pid, m: Msg, t: Pid)
    requires MessagesOk(s) && me in s.threads
    ensures Refines(s, MsgSendToSelf(s, me, m).0, t, EffectOn(s, SendToSelf(me, m), t))
  {
    hide MessagesOk, Refines, QueueMsg;
    StayRefines(s, t);
    if |s.threads[me].queue| < s.threads[me].capacity {
      QueueRefines(s, me, m.(sender := me), t);
    } else {
      Refused(s, me, m.(sender := me));
    }
  }

  lemma ReceiveRefines(s: Sys, me: Pid, block: bool, t: Pid)
    requires Inv(s) && CanRun(s, me)
    ensures At(s, MsgWaiters(me)) != [] ==>
              At(s, MsgWaiters(me))[0] in s.threads && At(s, MsgWaiters(me))[0] != me
    ensures Refines(s, MsgReceive(s, me, block).0, t, EffectOn(s, Receive(me, block), t))
  {
    hide ListsOk, Rest, MsgReceive, NotSending, Backlog, Received;
    WaitersExist(s, me);
    if t != me {
      ReceiveOthers(s, me, block, t);
    } else if Backlog(s, me) != [] {
      ReceiveTakesHead(s, me, block);
    } else {
      ReceiveWaits(s, me, block);
    }
  }

  lemma InitQueueRefines(s: Sys, me: Pid, capacity: nat, t: Pid)
    requires me in s.threads && At(s, MsgWaiters(me)) == [] && NotSending(s, me)
    ensures Refines(s, MsgInitQueue(s, me, capacity), t, if t == me then Clear else Unchanged)
  {
    var r := MsgInitQueue(s, me, capacity);
    assert At(r, MsgWaiters(t)) == At(s, MsgWaiters(t));
    SameTexts(s, r, At(s, MsgWaiters(t)));
    hide Texts, NotSending;
    if t == me { assert Texts(r, []) == []; }
  }

  lemma MessageRefines(s: Sys, a: Action, t: Pid)
    requires Inv(s) && Sound(s) && Enabled(s, a) && IsMessage(a)
    ensures Refines(s, Apply(s, a), t, EffectOn(s, a, t))
  {
    hide ListsOk, FlagsOk, MutexesOk, RunningOk, MessagesOk, Sound, Refines, MsgSend, MsgSendInt, MsgSendToSelf,
      MsgSendReceive, MsgReceive, MsgReply, MsgInitQueue, SendEffect, SameMail;
    match a
    case Send(me, target, m, block) => UnlistedNotSending(s, me); SendRefines(s, me, target, m, block, t);
    case SendToSelf(me, m) => ToSelfRefines(s, me, m, t);
    case SendInt(target, m) => SendIntRefines(s, target, m, t);
    case SendReceive(me, target, m) => SendReceiveRefines(s, me, target, m, t);
    case Reply(u, m) => ReplyMail(s, u, m); SameMailRefines(s, MsgReply(s, u, m).0, t);
    case Receive(me, block) => ReceiveRefines(s, me, block, t);
    case InitQueue(me, capacity) => UnlistedNotSending(s, me); InitQueueRefines(s, me, capacity, t);
    case _ =>
  }

  /** Main result, refinement. Whatever the kernel does, the mailbox of every thread changes by
      exactly the operation named: a message joins at the end, at the place of its waiting sender,
      or is handed to a receiver with nothing pending; a receive takes the head; a new queue forgets
      what was pending; and nothing else changes it. */
  lemma StepRefines(s: Sys, a: Action, t: Pid)
    requires Inv(s) && Sound(s) && Enabled(s, a)
    ensures Refines(s, Apply(s, a), t, EffectOn(s, a, t))
  {
    hide Inv, Sound, Apply, Enabled, SameMail, Refines;
    if IsMessage(a) {
      MessageRefines(s, a, t);
    } else {
      if IsSync(a) { SyncMail(s, a); } else { ThreadActionMail(s, a); }
      SameMailRefines(s, Apply(s, a), t);
    }
  }

  // ---------- runs ----------

  function EffectsOn(states: seq<Sys>, acts: seq<Action>, t: Pid, n: nat): (es: seq<Effect>)
    requires n <= |acts| && n <= |states|
    ensures |es| == n
  {
    if n == 0 then [] else EffectsOn(states, acts, t, n - 1) + [EffectOn(states[n - 1], acts[n - 1], t)]
  }

  /** A mailbox, empty at first, after a row of operations; none when one of them does not fit */
  function Replay(es: seq<Effect>): Option<Box> {
    if es == [] then Some(Box([], []))
    else
      var b, e := Replay(es[..|es| - 1]), es[|es| - 1];
      if b.Some? && Fits(b.value, e) then Some(Done(b.value, e)) else None
  }

  lemma StepOfRun(states: seq<Sys>, acts: seq<Action>, t: Pid, n: nat)
    requires Run(states, acts) && n < |acts|
    ensures |states| == |acts| + 1 && Refines(states[n], states[n + 1], t, EffectOn(states[n], acts[n], t))
  {
    hide Run, Inv, Sound, Enabled, Apply, Refines;
    StepFacts(states, acts, n);
    StepRefines(states[n], acts[n], t);
  }

  /** Main result, runs. In every state of every run the mailbox of t is what the operations of the
      run so far make of an empty one. */
  lemma {:induction false} RunRefines(states: seq<Sys>, acts: seq<Action>, t: Pid, n: nat)
    requires Run(states, acts) && n <= |acts| && |states| == |acts| + 1
    ensures Replay(EffectsOn(states, acts, t, n)) == Some(BoxOf(states[n], t))
    decreases n
  {
    hide Run, BoxOf, EffectOn;
    if n == 0 {
      EmptyAtBoot(states, acts, t);
    } else {
      RunRefines(states, acts, t, n - 1);
      StepOfRun(states, acts, t, n - 1);
      var es := EffectsOn(states, acts, t, n);
      assert es[..n - 1] == EffectsOn(states, acts, t, n - 1);
    }
  }

  lemma EmptyAtBoot(states: seq<Sys>, acts: seq<Action>, t: Pid)
    requires Run(states, acts)
    ensures |states| == |acts| + 1 && BoxOf(states[0], t) == Box([], [])
  {
    assert At(states[0], MsgWaiters(t)) == [];
  }

  // ---------- sending to a thread without room ----------

  /** msg_send to a thread whose queue is full or absent and that does not wait in receive. A blocking
      sender goes to wait, on the list of its target and behind all senders at least as urgent, with
      its message pending at that place; a trying one returns 0 and changes nothing. */
  lemma SendToFull(s: Sys, me: Pid, target: Pid, m: Msg, block: bool)
    requires Inv(s) && CanRun(s, me) && target in s.threads && target != me
    requires s.threads[target].status != ReceiveBlocked
    requires |s.threads[target].queue| >= s.threads[target].capacity
    ensures var (r, ret) := MsgSend(s, me, target, m, block);
            if !block then ret == 0 && r == s
            else
              && ret == 1 && me in r.threads && !OnRunqueue(r.threads[me].status)
              && me in At(r, MsgWaiters(target))
              && Refines(s, r, target, JoinAt(WaitIndex(s, target, Prio(s)(me)), m.(sender := me)))
  {
    UnlistedNotSending(s, me);
    hide ListsOk, FlagsOk, MutexesOk, RunningOk, MessagesOk, Refines, NotSending;
    SendRefines(s, me, target, m, block, target);
    hide CanRun, SendEffect, MsgSend, WaitIndex;
    SendToFullShape(s, me, target, m, block);
  }

  lemma SendToFullShape(s: Sys, me: Pid, target: Pid, m: Msg, block: bool)
    requires me in s.threads && target in s.threads && target != me
    requires s.threads[target].status != ReceiveBlocked
    requires |s.threads[target].queue| >= s.threads[target].capacity
    ensures SendEffect(s, target, Prio(s)(me), m.(sender := me), true)
            == JoinAt(WaitIndex(s, target, Prio(s)(me)), m.(sender := me))
    ensures var (r, ret) := MsgSend(s, me, target, m, block);
            if !block then ret == 0 && r == s
            else ret == 1 && me in r.threads && !OnRunqueue(r.threads[me].status) && me in At(r, MsgWaiters(target))
  {
    hide SetStatus, QueueMsg, FlagsSet, AddToList, WaitIndex;
    var x := m.(sender := me);
    Refused(s, target, x);
    if block {
      var st := if s.threads[me].status == ReplyBlocked then ReplyBlocked else SendBlocked;
      WaitingSender(s, me, target, x, st);
    }
  }

  lemma WaitingSender(s: Sys, me: Pid, target: Pid, x: Msg, st: Status)
    requires me in s.threads && target in s.threads && target != me
    ensures target in SenderQueued(s, me, target, x, st).threads
    ensures var r := FlagsSet(SenderQueued(s, me, target, x, st), target, MSG_WAITING);
            me in r.threads && r.threads[me].status == st && me in At(r, MsgWaiters(target))
  {
    SenderQueuedShape(s, me, target, x, st);
    hide SenderQueued, Position;
    var q := SenderQueued(s, me, target, x, st);
    InsertHasMember(Prio(s), At(s, MsgWaiters(target)), s.threads[me].priority, me);
    FlagsSetShape(q, target, MSG_WAITING);
    hide FlagsSet;
  }

  /** msg_send_receive to a thread whose queue is full or absent: the caller awaits the reply and its
      node is on the list of senders. */
  lemma RequestWaits(s: Sys, me: Pid, target: Pid, m: Msg)
    requires me in s.threads && target in s.threads && target != me
    requires s.threads[target].status != ReceiveBlocked
    requires |s.threads[target].queue| >= s.threads[target].capacity
    ensures var r := MsgSendReceive(s, me, target, m).0;
            me in r.threads && r.threads[me].status == ReplyBlocked && me in At(r, MsgWaiters(target))
  {
    SetStatusShape(s, me, ReplyBlocked);
    hide SetStatus, QueueMsg, FlagsSet, AddToList;
    var s1 := SetStatus(s, me, ReplyBlocked);
    var s2 := WithThread(s1, me, s1.threads[me].(waitData := Message(m)));
    Refused(s2, target, m.(sender := me));
    WaitingSender(s2, me, target, m.(sender := me), ReplyBlocked);
  }

  /** A run to such a state. A reply to the waiting thread 2, before its request was received, would
      put it on a run queue while it stays on the list of senders. */
  lemma EarlyReplyRun(clz: bool, p: Priority, q: Priority, m: Msg, reply: Msg)
    returns (states: seq<Sys>, acts: seq<Action>)
    requires q < p
    ensures Run(states, acts) && |acts| == 4 && |states| == 5 && acts[3] == SendReceive(2, 1, m)
    ensures 2 in states[4].threads
    ensures var s, r := states[4], MsgReply(states[4], 2, reply).0;
            && Inv(s) && s.threads[2].status == ReplyBlocked && !NotSending(s, 2)
            && 2 in At(r, MsgWaiters(1)) && 2 in At(r, RunQueue(s.threads[2].priority)) && !ListsOk(r)
  {
    hide Run, ListsOk, Rest, Sound, CanRun, MsgSendReceive, MsgReply;
    states, acts := TwoRun(clz, p, q);
    RequestWaits(states[3], 2, 1, m);
    Extend(states, acts, SendReceive(2, 1, m));
    states, acts := states + [Apply(states[3], SendReceive(2, 1, m))], acts + [SendReceive(2, 1, m)];
    InvariantOfRun(states, acts, 4);
    EarlyReplyLinksTwice(states[4], 2, 1, reply);
  }

  lemma InsertHasMember(prio: nat -> nat, l: seq<nat>, p: nat, x: nat)
    ensures x in InsertAt(l, Position(prio, l, p), x)
  {
    assert InsertAt(l, Position(prio, l, p), x)[Position(prio, l, p)] == x;
  }
}
