/** The QSemOS semaphore tables as values, and what each locked region does to them.
    Task and semaphore identifiers are indices, as GET_TCB_HANDLE and GET_SEM use them. */
module SemSystem {
  import opened Options
  import opened PrioList

  type Tid = nat
  type Sid = nat

  datatype Kind = Count | Mutex
  datatype Mode = Fifo | Prior

  /** `blocked` stands for every other status bit that keeps a task off the ready queue. */
  datatype Task = Task(
    priority: nat,
    origPriority: nat,
    ready: bool,
    pend: bool,
    suspend: bool,
    timeout: bool,
    blocked: bool,
    taskPend: Option<Sid>,
    held: seq<Sid>)

  datatype Sem = Sem(
    used: bool,
    kind: Kind,
    mode: Mode,
    count: nat,
    owner: Option<Tid>,
    recur: nat,
    waiters: seq<Tid>)

  datatype Sys = Sys(tasks: seq<Task>, sems: seq<Sem>)

  datatype Ret =
    | Ok
    | Blocked
    | SemInvalid
    | SemPendInterr
    | SemUnavailable
    | SemPendInLock
    | SemOverflow
    | MutexPostInterr
    | MutexNotOwnerPost
    | PriorError
    | TaskIdInvalid
    | PriorityInherit
    | PendMutex
    | PendPrior
    | PriorLowerThanPendTask

  const SEM_FULL: nat := 1
  const U32_SIZE: nat := 0x1_0000_0000

  const UNUSED: Sem := Sem(false, Count, Fifo, 0, None, 0, [])

  // Values that the sources leave to a header.
  const SEM_COUNT_MAX: nat
  const WAIT_FOREVER: nat
  const PRIORITY_LOWEST: nat

  function Prio(s: Sys): nat -> nat {
    (t: nat) => if t < |s.tasks| then s.tasks[t].priority else 0
  }

  function WithTask(s: Sys, t: Tid, c: Task): Sys
    requires t < |s.tasks|
  {
    s.(tasks := s.tasks[t := c])
  }

  function WithSem(s: Sys, q: Sid, m: Sem): Sys
    requires q < |s.sems|
  {
    s.(sems := s.sems[q := m])
  }

  function WithPriority(s: Sys, t: Tid, p: nat): Sys
    requires t < |s.tasks|
  {
    WithTask(s, t, s.tasks[t].(priority := p))
  }

  // ---------- the wait-for graph ----------

  /** The owner of the mutex that t waits on. */
  function Next(s: Sys, t: Tid): Option<Tid> {
    if t < |s.tasks| && s.tasks[t].pend && s.tasks[t].taskPend.Some?
      && s.tasks[t].taskPend.value < |s.sems|
      && s.sems[s.tasks[t].taskPend.value].kind == Mutex
    then s.sems[s.tasks[t].taskPend.value].owner
    else None
  }

  /** The task k links further along the chain of owners. */
  function Iter(s: Sys, t: Tid, k: nat): Option<Tid>
    decreases k
  {
    if k == 0 then Some(t)
    else
      var n := Next(s, t);
      if n.None? then None else Iter(s, n.value, k - 1)
  }

  /** u is t, or is blocked, directly or through other owners, on a mutex of t. */
  ghost predicate Reaches(s: Sys, u: Tid, t: Tid) {
    exists k: nat :: Iter(s, u, k) == Some(t)
  }

  // ---------- invariants ----------

  ghost predicate MutexOk(s: Sys, q: Sid)
    requires q < |s.sems|
  {
    var m := s.sems[q];
    && m.mode == Prior
    && m.count <= SEM_FULL
    && (m.used ==> (m.count == SEM_FULL <==> m.owner == None))
    && (m.owner == None ==> m.recur == 0 && m.waiters == [])
    && (m.owner.Some? ==> m.used && m.owner.value < |s.tasks| && q in s.tasks[m.owner.value].held)
  }

  ghost predicate SemOk(s: Sys, q: Sid)
    requires q < |s.sems|
  {
    var m := s.sems[q];
    && Distinct(m.waiters)
    && (forall t :: t in m.waiters ==>
          t < |s.tasks| && s.tasks[t].pend && s.tasks[t].taskPend == Some(q))
    && (m.mode == Prior ==> Sorted(Prio(s), m.waiters))
    && (!m.used ==> m == UNUSED)
    && (m.waiters != [] ==> m.count == 0)
    && m.recur < U32_SIZE
    && (m.kind == Count ==> m.count <= SEM_COUNT_MAX)
    && (m.kind == Mutex ==> MutexOk(s, q))
  }

  ghost predicate TaskOk(s: Sys, t: Tid)
    requires t < |s.tasks|
  {
    var c := s.tasks[t];
    && Distinct(c.held)
    && (forall q :: q in c.held ==>
          q < |s.sems| && s.sems[q].kind == Mutex && s.sems[q].owner == Some(t))
    && (c.pend ==>
          && !c.ready && c.taskPend.Some? && c.taskPend.value < |s.sems|
          && t in s.sems[c.taskPend.value].waiters)
  }

  /** The tables agree with each other: a task is on exactly the wait list it names, a mutex
      has count one exactly when nobody owns it, and otherwise is on its owner's held list. */
  ghost predicate WellFormed(s: Sys) {
    && (forall q :: 0 <= q < |s.sems| ==> SemOk(s, q))
    && (forall t :: 0 <= t < |s.tasks| ==> TaskOk(s, t))
  }

  /** No owner is less urgent than a task that waits on one of its mutexes. */
  ghost predicate Ordered(s: Sys) {
    && (forall t :: 0 <= t < |s.tasks| ==> s.tasks[t].priority <= s.tasks[t].origPriority)
    && (forall w: nat :: Next(s, w).Some? ==> Prio(s)(Next(s, w).value) <= Prio(s)(w))
  }

  /** The current priority of t is somebody's base priority, for whom t is in the way. */
  ghost predicate Supported(s: Sys, t: Tid)
    requires t < |s.tasks|
  {
    exists u: nat, k: nat :: SupportedBy(s, t, u, k)
  }

  ghost predicate SupportedBy(s: Sys, t: Tid, u: Tid, k: nat)
    requires t < |s.tasks|
  {
    u < |s.tasks| && Iter(s, u, k) == Some(t) && s.tasks[u].origPriority == s.tasks[t].priority
  }

  ghost predicate Inv(s: Sys) {
    && WellFormed(s)
    && Ordered(s)
    && (forall t :: 0 <= t < |s.tasks| ==> Supported(s, t))
  }

  // ---------- priority inheritance ----------

  /** OsResortSemList */
  function Resorted(s: Sys, t: Tid): Sys
    requires t < |s.tasks| && s.tasks[t].taskPend.Some? && s.tasks[t].taskPend.value < |s.sems|
  {
    var q := s.tasks[t].taskPend.value;
    var l := Remove(s.sems[q].waiters, t);
    WithSem(s, q, s.sems[q].(waiters := Insert(Prio(s), l, t)))
  }

  ghost function LessUrgent(s: Sys, p: nat): set<nat> {
    set t: nat | t < |s.tasks| && s.tasks[t].priority > p
  }

  /** One turn of the walk: lift o, and put its wait list in order when that is kept by urgency. */
  function Turn(s: Sys, o: Tid, p: nat): (r: Sys)
    requires o < |s.tasks|
    ensures r.tasks == WithPriority(s, o, p).tasks
  {
    var c := s.tasks[o];
    var s1 := WithPriority(s, o, p);
    if !c.ready && c.pend && c.taskPend.Some? && c.taskPend.value < |s.sems|
       && s.sems[c.taskPend.value].mode == Prior
    then Resorted(s1, o)
    else s1
  }

  /** The tables after the walk of OsPriorityInherit that starts at owner o with priority p.
      The walk ends because every turn leaves fewer tasks less urgent than p. */
  function Boosted(s: Sys, o: Tid, p: nat): Sys
    decreases LessUrgent(s, p)
  {
    if o >= |s.tasks| || s.tasks[o].priority <= p then s
    else
      var s1 := Turn(s, o, p);
      assert o in LessUrgent(s, p) && o !in LessUrgent(s1, p);
      if s.tasks[o].ready || Next(s, o).None? then s1
      else Boosted(s1, Next(s, o).value, p)
  }

  // ---------- pend ----------

  /** OsSemPendNotNeedSche: recursive or free acquisition, when it succeeds. */
  function Acquired(s: Sys, q: Sid, run: Tid): Option<Sys>
    requires q < |s.sems| && run < |s.tasks|
  {
    var m := s.sems[q];
    if m.kind == Mutex && m.owner == Some(run) then
      Some(WithSem(s, q, m.(recur := (m.recur + 1) % U32_SIZE)))
    else if m.count > 0 then
      var s1 := WithSem(s, q, m.(count := m.count - 1, owner := Some(run)));
      Some(if m.kind == Mutex
           then WithTask(s1, run, s.tasks[run].(held := s.tasks[run].held + [q]))
           else s1)
    else None
  }

  /** The part of OsSemPendListPut before the inheritance: block and enqueue. */
  function Enqueued(s: Sys, q: Sid, run: Tid, timeout: nat): Sys
    requires q < |s.sems| && run < |s.tasks|
  {
    var m := s.sems[q];
    var l := if m.mode == Prior then Insert(Prio(s), m.waiters, run) else m.waiters + [run];
    WithSem(WithTask(s, run, s.tasks[run].(ready := false, pend := true, taskPend := Some(q),
                                           timeout := s.tasks[run].timeout || timeout != WAIT_FOREVER)),
            q, m.(waiters := l))
  }

  /** OsSemPendListPut */
  function PendListPut(s: Sys, q: Sid, run: Tid, timeout: nat): Sys
    requires q < |s.sems| && run < |s.tasks|
  {
    var s1 := Enqueued(s, q, run, timeout);
    if s.sems[q].kind == Mutex && s.sems[q].owner.Some?
    then Boosted(s1, s.sems[q].owner.value, s.tasks[run].priority)
    else s1
  }

  /** PRT_SemPend */
  function Pend(s: Sys, q: Sid, run: Tid, timeout: nat, intActive: bool, locked: bool): (Sys, Ret)
    requires run < |s.tasks|
  {
    if q >= |s.sems| then (s, SemInvalid)
    else if !s.sems[q].used then (s, SemInvalid)
    else if intActive then (s, SemPendInterr)
    else
      var a := Acquired(s, q, run);
      if a.Some? then (a.value, Ok)
      else if timeout == 0 then (s, SemUnavailable)
      else if locked then (s, SemPendInLock)
      else (PendListPut(s, q, run, timeout), Blocked)
  }

  // ---------- post ----------

  /** OsGetPendTskMaxPriority over the first n held mutexes */
  function BestPending(s: Sys, held: seq<Sid>, start: nat): nat {
    if held == [] then start
    else
      var best := BestPending(s, held[..|held| - 1], start);
      var q := held[|held| - 1];
      if q < |s.sems| && s.sems[q].waiters != [] && Prio(s)(s.sems[q].waiters[0]) < best
      then Prio(s)(s.sems[q].waiters[0])
      else best
  }

  /** OsPriorityRestore */
  function Restored(s: Sys, run: Tid): Sys
    requires run < |s.tasks|
  {
    var c := s.tasks[run];
    if c.priority == c.origPriority then s
    else
      var best := BestPending(s, c.held, c.origPriority);
      if best == c.priority then s
      else WithTask(s, run, c.(priority := best, ready := !c.suspend && !c.blocked && !c.pend))
  }

  /** The wake-up half of OsSemPendListGet */
  function Woken(s: Sys, h: Tid): Sys
    requires h < |s.tasks|
  {
    var c := s.tasks[h];
    WithTask(s, h, c.(timeout := false, pend := false, taskPend := None, ready := !c.suspend))
  }

  /** OsSemPendListGet without the final restore */
  function HandedOver(s: Sys, q: Sid, run: Tid): Sys
    requires q < |s.sems| && s.sems[q].waiters != [] && s.sems[q].waiters[0] < |s.tasks|
    requires run < |s.tasks|
  {
    var m := s.sems[q];
    var h := m.waiters[0];
    var s1 := WithSem(Woken(s, h), q, m.(waiters := m.waiters[1..], owner := Some(h)));
    if m.kind == Mutex then
      var s2 := WithTask(s1, run, s1.tasks[run].(held := Remove(s1.tasks[run].held, q)));
      WithTask(s2, h, s2.tasks[h].(held := s2.tasks[h].held + [q]))
    else s1
  }

  /** The branch of PRT_SemPost without waiters, before the restore */
  function Freed(s: Sys, q: Sid, run: Tid): Sys
    requires q < |s.sems| && run < |s.tasks|
  {
    var m := s.sems[q];
    var s1 := WithSem(s, q, m.(count := m.count + 1, owner := None));
    if m.kind == Mutex
    then WithTask(s1, run, s.tasks[run].(held := Remove(s.tasks[run].held, q)))
    else s1
  }

  /** OsSemPostErrorCheck */
  function PostErrorCheck(m: Sem, run: Tid, intActive: bool): Ret {
    if !m.used then SemInvalid
    else if m.kind == Count then (if m.count >= SEM_COUNT_MAX then SemOverflow else Ok)
    else if intActive then MutexPostInterr
    else if m.owner != Some(run) then MutexNotOwnerPost
    else Ok
  }

  /** PRT_SemPost */
  function Post(s: Sys, q: Sid, run: Tid, intActive: bool): (Sys, Ret)
    requires WellFormed(s) && run < |s.tasks|
  {
    if q >= |s.sems| then (s, SemInvalid)
    else
      var m := s.sems[q];
      assert SemOk(s, q);
      var e := PostErrorCheck(m, run, intActive);
      if e != Ok then (s, e)
      else if m.kind == Mutex && m.recur > 0 then (WithSem(s, q, m.(recur := m.recur - 1)), Ok)
      else if m.kind == Mutex && m.count == SEM_FULL then (s, Ok)
      else
        assert m.waiters != [] ==> m.waiters[0] in m.waiters;
        var s1 := if m.waiters != [] then HandedOver(s, q, run) else Freed(s, q, run);
        (if m.kind == Mutex then Restored(s1, run) else s1, Ok)
  }

  // ---------- priority change, creation, environment ----------

  /** OsCheckPrioritySet */
  function CheckPrioritySet(s: Sys, t: Tid, p: nat): Ret
    requires t < |s.tasks|
  {
    var c := s.tasks[t];
    if c.origPriority != c.priority then PriorityInherit
    else if c.pend && c.taskPend.Some? && c.taskPend.value < |s.sems|
         && s.sems[c.taskPend.value].kind == Mutex then PendMutex
    else if c.pend && c.taskPend.Some? && c.taskPend.value < |s.sems|
         && s.sems[c.taskPend.value].mode == Prior then PendPrior
    else if c.held == [] then Ok
    else if p > BestPending(s, c.held, c.origPriority) then PriorLowerThanPendTask
    else Ok
  }

  /** PRT_TaskSetPriority on a created task */
  function SetPriority(s: Sys, t: Tid, p: nat): (Sys, Ret) {
    if p > PRIORITY_LOWEST then (s, PriorError)
    else if t >= |s.tasks| then (s, TaskIdInvalid)
    else
      var e := CheckPrioritySet(s, t, p);
      if e != Ok then (s, e)
      else (WithTask(s, t, s.tasks[t].(priority := p, origPriority := p)), Ok)
  }

  /** OsSemCreateCbInit on an unused control block */
  function Created(s: Sys, q: Sid, count: nat, kind: Kind, mode: Mode): Sys
    requires q < |s.sems|
  {
    WithSem(s, q, Sem(true, kind, mode, count, None, if kind == Mutex then 0 else s.sems[q].recur, []))
  }

  /** Everything else that moves a task on or off the ready queue: suspend, resume, delays. */
  function Environment(s: Sys, t: Tid, ready: bool, suspend: bool, blocked: bool): Sys
    requires t < |s.tasks|
  {
    WithTask(s, t, s.tasks[t].(ready := ready, suspend := suspend, blocked := blocked))
  }

  // ---------- runs ----------

  datatype Action =
    | DoPend(run: Tid, sem: Sid, timeout: nat, intActive: bool, locked: bool)
    | DoPost(run: Tid, sem: Sid, intActive: bool)
    | DoSetPriority(task: Tid, prio: nat)
    | DoCreate(sem: Sid, count: nat, kind: Kind, mode: Mode)
    | DoEnvironment(task: Tid, ready: bool, suspend: bool, blocked: bool)

  /** Only a ready task runs; a mutex is created as PRT_SemMutexCreate does. */
  ghost predicate Enabled(s: Sys, a: Action) {
    match a
    case DoPend(run, _, _, _, _) => run < |s.tasks| && s.tasks[run].ready
    case DoPost(run, _, _) => run < |s.tasks| && s.tasks[run].ready
    case DoSetPriority(_, _) => true
    case DoCreate(q, count, kind, mode) =>
      && q < |s.sems| && !s.sems[q].used
      && (if kind == Mutex then count == SEM_FULL && mode == Prior else count <= SEM_COUNT_MAX)
    case DoEnvironment(t, ready, suspend, blocked) =>
      t < |s.tasks| && (ready ==> !suspend && !blocked && !s.tasks[t].pend)
  }

  ghost function Apply(s: Sys, a: Action): Sys
    requires WellFormed(s) && Enabled(s, a)
  {
    match a
    case DoPend(run, q, timeout, irq, locked) => Pend(s, q, run, timeout, irq, locked).0
    case DoPost(run, q, irq) => Post(s, q, run, irq).0
    case DoSetPriority(t, p) => SetPriority(s, t, p).0
    case DoCreate(q, count, kind, mode) => Created(s, q, count, kind, mode)
    case DoEnvironment(t, ready, suspend, blocked) => Environment(s, t, ready, suspend, blocked)
  }

  /** One step; outside the invariant the code is not described, so anything may follow. */
  ghost predicate Step(s: Sys, a: Action, r: Sys) {
    Enabled(s, a) && (WellFormed(s) ==> r == Apply(s, a))
  }

  /** Nobody waits, nobody holds, no semaphore exists yet. */
  ghost predicate Init(s: Sys) {
    && (forall t :: 0 <= t < |s.tasks| ==>
          var c := s.tasks[t];
          c.priority == c.origPriority && !c.pend && c.held == [])
    && (forall q :: 0 <= q < |s.sems| ==>
          s.sems[q] == UNUSED)
  }

  ghost predicate Run(states: seq<Sys>, acts: seq<Action>) {
    && |states| == |acts| + 1
    && Init(states[0])
    && (forall i {:trigger acts[i]} :: 0 <= i < |acts| ==> Step(states[i], acts[i], states[i + 1]))
  }
}
