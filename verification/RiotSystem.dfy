/** The RIOT kernel state and its critical sections: scheduler, mutex, condition variable,
    messages and thread flags, with the core_msg and core_thread_flags modules enabled. */
module RiotSystem {
  import opened Options
  import opened PrioList
  import opened Bitcache

  type Pid = nat

  /** SCHED_PRIO_LEVELS is 16; a smaller number is more urgent. */
  const PRIO_LEVELS: nat := 16
  type Priority = p: nat | p < PRIO_LEVELS

  const PID_FIRST: nat := 1
  const PID_LAST: nat := 32
  const PID_ISR: nat := PID_LAST + 1

  /** A flag word is the set of its bit positions. */
  type Flags = set<nat>
  const MSG_WAITING: Flags := {15}

  datatype Status =
    | Stopped | Zombie | Sleeping | MutexBlocked | ReceiveBlocked | SendBlocked | ReplyBlocked
    | FlagBlockedAny | FlagBlockedAll | MboxBlocked | CondBlocked | Running | Pending

  /** status >= STATUS_ON_RUNQUEUE */
  predicate OnRunqueue(st: Status) {
    st == Running || st == Pending
  }

  /** The lists that thread nodes are linked into. */
  datatype Place =
    | RunQueue(prio: nat)
    | MutexQueue(mutex: nat)
    | CondQueue(cond: nat)
    | MsgWaiters(receiver: Pid)

  datatype Msg = Msg(sender: nat, kind: nat, content: nat)

  /** What wait_data points to: a message being sent, a receive buffer, or a flag mask. */
  datatype WaitData = Nothing | Message(m: Msg) | Destination | Mask(mask: Flags)

  /** `received` and `replies` record what was copied to the thread's own buffers, in order. */
  datatype Thread = Thread(
    priority: Priority,
    status: Status,
    flags: Flags,
    waitData: WaitData,
    queue: seq<Msg>,
    capacity: nat,
    received: seq<Msg>,
    replies: seq<Msg>)

  /** `locked` holds the mutexes whose queue pointer is not NULL. */
  datatype Sys = Sys(
    clz: bool,
    threads: map<Pid, Thread>,
    lists: map<Place, seq<Pid>>,
    locked: set<nat>,
    cache: Word,
    active: Option<Pid>)

  function At(s: Sys, pl: Place): seq<Pid> {
    if pl in s.lists then s.lists[pl] else []
  }

  function Prio(s: Sys): nat -> nat {
    (t: nat) => if t in s.threads then s.threads[t].priority else 0
  }

  function WithList(s: Sys, pl: Place, l: seq<Pid>): Sys {
    s.(lists := s.lists[pl := l])
  }

  function WithThread(s: Sys, t: Pid, c: Thread): Sys {
    s.(threads := s.threads[t := c])
  }

  // ---------- scheduler primitives ----------

  /** _runqueue_push */
  function RunqueuePush(s: Sys, t: Pid, p: Priority): Sys {
    WithList(s, RunQueue(p), At(s, RunQueue(p)) + [t]).(cache := SetBit(s.clz, s.cache, p))
  }

  /** _runqueue_pop */
  function RunqueuePop(s: Sys, t: Pid): Sys
    requires t in s.threads
  {
    var p := s.threads[t].priority;
    var l := Remove(At(s, RunQueue(p)), t);
    var s1 := WithList(s, RunQueue(p), l);
    if l == [] then s1.(cache := ClearBit(s.clz, s.cache, p)) else s1
  }

  /** sched_set_status */
  function SetStatus(s: Sys, t: Pid, st: Status): Sys
    requires t in s.threads
  {
    var c := s.threads[t];
    var s1 :=
      if OnRunqueue(st) && !OnRunqueue(c.status) then RunqueuePush(s, t, c.priority)
      else if !OnRunqueue(st) && OnRunqueue(c.status) then RunqueuePop(s, t)
      else s;
    WithThread(s1, t, c.(status := st))
  }

  /** thread_add_to_list */
  function AddToList(s: Sys, pl: Place, t: Pid): Sys {
    WithList(s, pl, Insert(Prio(s), At(s, pl), t))
  }

  /** list_remove_head on a non-empty list */
  function RemoveHead(s: Sys, pl: Place): Sys
    requires At(s, pl) != []
  {
    WithList(s, pl, At(s, pl)[1..])
  }

  /** Wake the first thread of a list. */
  function WakeHead(s: Sys, pl: Place): Sys
    requires At(s, pl) != [] && At(s, pl)[0] in s.threads
  {
    SetStatus(RemoveHead(s, pl), At(s, pl)[0], Pending)
  }

  /** sched_run with a non-empty cache */
  function SchedRun(s: Sys): Sys
    requires var q := At(s, RunQueue(First(s.clz, s.cache))); q != [] && q[0] in s.threads
  {
    var next := At(s, RunQueue(First(s.clz, s.cache)))[0];
    var s1 := WithThread(s, next, s.threads[next].(status := Running));
    if s.active == Some(next) then s1
    else
      var s2 :=
        if s.active.Some? && s.active.value in s1.threads && s1.threads[s.active.value].status == Running
        then WithThread(s1, s.active.value, s1.threads[s.active.value].(status := Pending))
        else s1;
      s2.(active := Some(next))
  }

  /** The queue part of thread_yield: sched_runq_advance on the caller's priority. */
  function Advance(s: Sys, me: Pid): Sys
    requires me in s.threads
  {
    var p := s.threads[me].priority;
    var l := At(s, RunQueue(p));
    if OnRunqueue(s.threads[me].status) && l != [] then WithList(s, RunQueue(p), l[1..] + [l[0]]) else s
  }

  /** sched_change_priority up to its final yield */
  function ChangePriority(s: Sys, t: Pid, p: Priority): Sys
    requires t in s.threads
  {
    var c := s.threads[t];
    if c.priority == p then s
    else
      var s1 := if OnRunqueue(c.status) then RunqueuePush(RunqueuePop(s, t), t, p) else s;
      WithThread(s1, t, c.(priority := p))
  }

  // ---------- mutex and condition variable ----------

  /** mutex_lock_internal; the result says whether the call will return with the mutex */
  function MutexLock(s: Sys, me: Pid, m: nat, block: bool): (Sys, bool)
    requires me in s.threads
  {
    if m !in s.locked then (s.(locked := s.locked + {m}), true)
    else if !block then (s, false)
    else (AddToList(SetStatus(s, me, MutexBlocked), MutexQueue(m), me), true)
  }

  /** mutex_unlock */
  function MutexUnlock(s: Sys, m: nat): Sys
    requires At(s, MutexQueue(m)) != [] ==> At(s, MutexQueue(m))[0] in s.threads
  {
    if m !in s.locked then s
    else if At(s, MutexQueue(m)) == [] then s.(locked := s.locked - {m})
    else WakeHead(s, MutexQueue(m))
  }

  /** mutex_unlock_and_sleep */
  function MutexUnlockAndSleep(s: Sys, me: Pid, m: nat): Sys
    requires At(s, MutexQueue(m)) != [] ==> At(s, MutexQueue(m))[0] in s.threads
    requires me in s.threads
  {
    SetStatus(MutexUnlock(s, m), me, Sleeping)
  }

  /** cond_wait up to its yield */
  function CondWait(s: Sys, me: Pid, c: nat, m: nat): Sys
    requires At(s, MutexQueue(m)) != [] ==> At(s, MutexQueue(m))[0] in s.threads
    requires me in s.threads
  {
    AddToList(SetStatus(MutexUnlock(s, m), me, CondBlocked), CondQueue(c), me)
  }

  /** _cond_signal */
  function CondSignal(s: Sys, c: nat, broadcast: bool): Sys
    requires forall t :: t in At(s, CondQueue(c)) ==> t in s.threads
    decreases |At(s, CondQueue(c))|
  {
    var l := At(s, CondQueue(c));
    if l == [] then s
    else
      assert l[0] in l;
      var s1 := WakeHead(s, CondQueue(c));
      if !broadcast then s1 else CondSignal(s1, c, broadcast)
  }

  // ---------- thread flags ----------

  /** The test of _thread_flags_wake */
  predicate FlagsSatisfied(c: Thread) {
    c.waitData.Mask? &&
    match c.status
    case FlagBlockedAny => c.flags * c.waitData.mask != {}
    case FlagBlockedAll => c.waitData.mask <= c.flags
    case _ => false
  }

  /** thread_flags_set_internal */
  function FlagsSet(s: Sys, t: Pid, mask: Flags): Sys
    requires t in s.threads
  {
    var c := s.threads[t].(flags := s.threads[t].flags + mask);
    var s1 := WithThread(s, t, c);
    if FlagsSatisfied(c) then SetStatus(s1, t, Pending) else s1
  }

  /** The blocking half of the wait functions; all: wait for every flag of the mask. */
  function FlagsWait(s: Sys, me: Pid, mask: Flags, all: bool): Sys
    requires me in s.threads
  {
    var c := s.threads[me];
    if (if all then mask <= c.flags else c.flags * mask != {}) then s
    else SetStatus(WithThread(s, me, c.(waitData := Mask(mask))), me,
                   if all then FlagBlockedAll else FlagBlockedAny)
  }

  /** _thread_flags_clear_atomic: the flags that were set and are now cleared */
  function FlagsTake(s: Sys, me: Pid, mask: Flags): (Sys, Flags)
    requires me in s.threads
  {
    var c := s.threads[me];
    (WithThread(s, me, c.(flags := c.flags - mask)), mask * c.flags)
  }

  /** The lowest flag of a 16-bit word from bit k on; 16 when there is none. */
  function Lowest(f: Flags, k: nat): (r: nat)
    requires k <= 16
    ensures k <= r <= 16
    ensures r < 16 ==> r in f
    ensures forall j :: k <= j < r ==> j !in f
    decreases 16 - k
  {
    if k == 16 || k in f then k else Lowest(f, k + 1)
  }

  /** tmp & (~tmp + 1): the lowest flag of tmp alone */
  function LowestAlone(tmp: Flags): Flags {
    set b | b in tmp && b == Lowest(tmp, 0)
  }

  // ---------- messages ----------

  /** queue_msg */
  function QueueMsg(s: Sys, t: Pid, m: Msg): (Sys, bool)
    requires t in s.threads
  {
    var c := s.threads[t];
    if |c.queue| < c.capacity
    then (FlagsSet(WithThread(s, t, c.(queue := c.queue + [m])), t, MSG_WAITING), true)
    else (s, false)
  }

  /** Copy a message to the buffer of a thread that is blocked in msg_receive. */
  function DirectCopy(s: Sys, target: Pid, m: Msg): Sys
    requires target in s.threads
  {
    var c := s.threads[target];
    SetStatus(WithThread(s, target, c.(received := c.received + [m])), target, Pending)
  }

  /** _msg_send from thread me; -1, 0 or 1 as in the source */
  function MsgSend(s: Sys, me: Pid, target: Pid, m0: Msg, block: bool): (Sys, int)
    requires me in s.threads
  {
    var m := m0.(sender := me);
    if target !in s.threads then (s, -1)
    else if s.threads[target].status != ReceiveBlocked then
      var (s1, queued) := QueueMsg(s, target, m);
      if queued then (s1, 1)
      else if !block then (s, 0)
      else
        var newStatus := if s.threads[me].status == ReplyBlocked then ReplyBlocked else SendBlocked;
        var s2 := WithThread(s, me, s.threads[me].(waitData := Message(m)));
        var s3 := AddToList(SetStatus(s2, me, newStatus), MsgWaiters(target), me);
        (FlagsSet(s3, target, MSG_WAITING), 1)
    else (DirectCopy(s, target, m), 1)
  }

  /** msg_send_to_self */
  function MsgSendToSelf(s: Sys, me: Pid, m: Msg): (Sys, int)
    requires me in s.threads
  {
    var (s1, queued) := QueueMsg(s, me, m.(sender := me));
    (s1, if queued then 1 else 0)
  }

  /** msg_send_int: _msg_send_oneway from an interrupt */
  function MsgSendInt(s: Sys, target: Pid, m0: Msg): (Sys, int) {
    var m := m0.(sender := PID_ISR);
    if target !in s.threads then (s, -1)
    else if s.threads[target].status == ReceiveBlocked then (DirectCopy(s, target, m), 1)
    else
      var (s1, queued) := QueueMsg(s, target, m);
      (s1, if queued then 1 else 0)
  }

  /** msg_send_receive up to the wait for the reply */
  function MsgSendReceive(s: Sys, me: Pid, target: Pid, m: Msg): (Sys, int)
    requires me in s.threads
  {
    var s1 := SetStatus(s, me, ReplyBlocked);
    var s2 := WithThread(s1, me, s1.threads[me].(waitData := Message(m)));
    MsgSend(s2, me, target, m, true)
  }

  /** msg_reply to an existing thread */
  function MsgReply(s: Sys, target: Pid, reply: Msg): (Sys, int)
    requires target in s.threads
  {
    var c := s.threads[target];
    if c.status != ReplyBlocked then (s, -1)
    else (SetStatus(WithThread(s, target, c.(replies := c.replies + [reply])), target, Pending), 1)
  }

  function SentBy(c: Thread): Msg {
    if c.waitData.Message? then c.waitData.m else Msg(0, 0, 0)
  }

  /** Release a sender whose message was taken; a thread that awaits a reply stays blocked. */
  function ReleaseSender(s: Sys, w: Pid): Sys
    requires w in s.threads
  {
    var c := s.threads[w];
    if c.status == ReplyBlocked then s
    else SetStatus(WithThread(s, w, c.(waitData := Nothing)), w, Pending)
  }

  /** _msg_receive up to its yield */
  function MsgReceive(s: Sys, me: Pid, block: bool): (Sys, int)
    requires me in s.threads
    requires At(s, MsgWaiters(me)) != [] ==>
               At(s, MsgWaiters(me))[0] in s.threads && At(s, MsgWaiters(me))[0] != me
  {
    var c := s.threads[me];
    var waiters := At(s, MsgWaiters(me));
    var fromQueue := c.queue != [];
    if !block && waiters == [] && !fromQueue then (s, -1)
    else if waiters == [] then
      if fromQueue
      then (WithThread(s, me, c.(received := c.received + [c.queue[0]], queue := c.queue[1..])), 1)
      else (SetStatus(WithThread(s, me, c.(waitData := Destination)), me, ReceiveBlocked), 1)
    else
      var w := waiters[0];
      var m := SentBy(s.threads[w]);
      var c1 :=
        if fromQueue
        then c.(received := c.received + [c.queue[0]], queue := c.queue[1..] + [m])
        else c.(received := c.received + [m], waitData := Destination);
      (ReleaseSender(WithThread(RemoveHead(s, MsgWaiters(me)), me, c1), w), 1)
  }

  /** msg_init_queue: a new, empty queue of a power-of-two size or none */
  function MsgInitQueue(s: Sys, me: Pid, capacity: nat): Sys
    requires me in s.threads
  {
    WithThread(s, me, s.threads[me].(queue := [], capacity := capacity))
  }

  // ---------- threads ----------

  /** thread_sleep */
  function ThreadSleep(s: Sys, me: Pid): Sys
    requires me in s.threads
  {
    SetStatus(s, me, Sleeping)
  }

  /** thread_wakeup */
  function ThreadWakeup(s: Sys, t: Pid): Sys {
    if t in s.threads && s.threads[t].status == Sleeping then SetStatus(s, t, Pending) else s
  }

  /** The pid search of thread_create: the first free slot from pid i on, if any */
  function FreePid(s: Sys, i: Pid): (r: Option<Pid>)
    ensures r.Some? ==> i <= r.value <= PID_LAST && r.value !in s.threads
    ensures r.Some? ==> forall j :: i <= j < r.value ==> j in s.threads
    ensures r.None? ==> forall j :: i <= j <= PID_LAST ==> j in s.threads
    decreases PID_LAST + 1 - i
  {
    if i > PID_LAST then None
    else if i !in s.threads then Some(i)
    else FreePid(s, i + 1)
  }

  /** thread_create; the flag word of the new control block is whatever the memory held */
  function ThreadCreate(s: Sys, p: Priority, sleeping: bool, flags: Flags): (Sys, Option<Pid>) {
    var pid := FreePid(s, PID_FIRST);
    if pid.None? then (s, None)
    else
      var s1 := WithThread(s, pid.value, Thread(p, Stopped, flags, Nothing, [], 0, [], []));
      (SetStatus(s1, pid.value, if sleeping then Sleeping else Pending), pid)
  }
}
