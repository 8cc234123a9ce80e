/** Small runs from boot, for the lemmas that exhibit a run. */
module RiotBoot {
  import opened Options
  import opened PrioList
  import opened Bitcache
  import opened RiotSystem
  import opened RiotLists
  import opened RiotInvariant
  import opened RiotSteps
  import opened RiotRuns

  function Boot(clz: bool): (s: Sys)
    ensures Init(s)
  {
    Sys(clz, map[], map[], {}, seq(32, _ => false), None)
  }

  lemma Extend(states: seq<Sys>, acts: seq<Action>, a: Action)
    requires Run(states, acts) && Enabled(states[|acts|], a)
    ensures Inv(states[|acts|]) && Sound(states[|acts|])
    ensures Run(states + [Apply(states[|acts|], a)], acts + [a])
  {
    InvariantOfRun(states, acts, |acts|);
    InvIsSound(states[|acts|]);
    hide Init, Inv, Sound, Apply, Enabled;
  }

  /** A thread as thread_create makes it, in state st */
  function Fresh(p: Priority, st: Status, flags: Flags): Thread {
    Thread(p, st, flags, Nothing, [], 0, [], [])
  }

  ghost predicate SameWaitLists(s: Sys, r: Sys) {
    forall pl: Place :: !pl.RunQueue? ==> At(r, pl) == At(s, pl)
  }

  /** A new thread is runnable, and nothing else changes outside the run queues. */
  lemma Created(s: Sys, p: Priority, flags: Flags, i: Pid)
    requires Inv(s) && FreePid(s, PID_FIRST) == Some(i)
    ensures var r := ThreadCreate(s, p, false, flags).0;
            && Inv(r) && r.threads == s.threads[i := Fresh(p, Pending, flags)]
            && SameWaitLists(s, r) && r.active == s.active
  {
    hide Inv, SetStatus;
    ThreadCreateKeeps(s, p, false, flags);
    var s1 := WithThread(s, i, Fresh(p, Stopped, flags));
    SetStatusShape(s1, i, Pending);
    assert s1.threads[i].(status := Pending) == Fresh(p, Pending, flags);
    SameLists(s, s1);
    hide FreePid;
  }

  lemma SameLists(s: Sys, r: Sys)
    requires r.lists == s.lists
    ensures forall pl: Place :: At(r, pl) == At(s, pl)
  {
  }

  /** t is runnable and more urgent than every other runnable thread. */
  ghost predicate RunsNext(s: Sys, t: Pid) {
    && t in s.threads && OnRunqueue(s.threads[t].status)
    && forall u :: u in s.threads && u != t && OnRunqueue(s.threads[u].status) ==>
         s.threads[t].priority < s.threads[u].priority
  }

  lemma ReadySomebody(s: Sys, t: Pid)
    requires ListsOk(s) && t in s.threads && OnRunqueue(s.threads[t].status)
    ensures SomebodyReady(s)
  {
    var home :| Placed(s, home, None);
    RunnableHasBit(s, home, t);
  }

  /** Only the status may differ. */
  predicate SameButStatus(c: Thread, d: Thread) {
    d == c.(status := d.status) && (!OnRunqueue(c.status) ==> d == c) && (OnRunqueue(c.status) <==> OnRunqueue(d.status))
  }

  /** The most urgent runnable thread runs after sched_run. */
  lemma Scheduled(s: Sys, t: Pid)
    requires Inv(s) && RunsNext(s, t)
    ensures Enabled(s, Schedule) && Sound(s)
    ensures var r := Apply(s, Schedule);
            && Inv(r) && CanRun(r, t) && r.threads[t] == s.threads[t].(status := Running)
            && r.threads.Keys == s.threads.Keys && SameWaitLists(s, r)
            && forall u :: u in s.threads ==> SameButStatus(s.threads[u], r.threads[u])
  {
    hide ListsOk, MessagesOk, FlagsOk, MutexesOk, Sound, SchedRun, First, SomebodyReady;
    ReadySomebody(s, t);
    InvIsSound(s);
    NextExists(s);
    SchedRunPicks(s);
    SchedRunShape(s);
    SameLists(s, SchedRun(s));
  }

  lemma JustBooted(clz: bool)
    ensures Run([Boot(clz)], []) && Inv(Boot(clz)) && Boot(clz).threads == map[]
    ensures forall pl: Place :: At(Boot(clz), pl) == []
  {
    InitHolds(Boot(clz));
    hide Inv;
  }

  /** A run goes on with the creation of thread i. */
  lemma ThenCreate(states: seq<Sys>, acts: seq<Action>, p: Priority, flags: Flags, i: Pid)
    returns (more: seq<Sys>, acts': seq<Action>)
    requires Run(states, acts) && FreePid(states[|acts|], PID_FIRST) == Some(i)
    ensures Run(more, acts') && acts' == acts + [Create(p, false, flags)]
    ensures |more| == |acts'| + 1 && more[..|states|] == states
    ensures var s, r := states[|acts|], more[|acts'|];
            Inv(r) && r.threads == s.threads[i := Fresh(p, Pending, flags)] && SameWaitLists(s, r)
  {
    hide Run, Inv, ThreadCreate, Sound, SameWaitLists, FreePid;
    RunLength(states, acts);
    InvariantOfRun(states, acts, |acts|);
    Extend(states, acts, Create(p, false, flags));
    Created(states[|acts|], p, flags, i);
    more, acts' := states + [ThreadCreate(states[|acts|], p, false, flags).0], acts + [Create(p, false, flags)];
  }

  lemma RunLength(states: seq<Sys>, acts: seq<Action>)
    requires Run(states, acts)
    ensures |states| == |acts| + 1
  {
  }

  /** A run goes on with a scheduler run that picks thread t. */
  lemma ThenSchedule(states: seq<Sys>, acts: seq<Action>, t: Pid) returns (more: seq<Sys>, acts': seq<Action>)
    requires Run(states, acts) && RunsNext(states[|acts|], t)
    ensures Run(more, acts') && acts' == acts + [Schedule] && |more| == |acts'| + 1 && more[..|states|] == states
    ensures var s, r := states[|acts|], more[|acts'|];
            && Inv(r) && CanRun(r, t) && r.threads[t] == s.threads[t].(status := Running)
            && r.threads.Keys == s.threads.Keys && SameWaitLists(s, r)
            && forall u :: u in s.threads ==> SameButStatus(s.threads[u], r.threads[u])
  {
    hide Run, Inv, Apply, Enabled, Sound, SameWaitLists, RunsNext, SameButStatus;
    RunLength(states, acts);
    InvariantOfRun(states, acts, |acts|);
    Scheduled(states[|acts|], t);
    Extend(states, acts, Schedule);
    more, acts' := states + [Apply(states[|acts|], Schedule)], acts + [Schedule];
  }

  /** A run to a state in which thread 1 is alone and runs. */
  lemma OneRuns(clz: bool, p: Priority, flags: Flags) returns (states: seq<Sys>, acts: seq<Action>)
    ensures Run(states, acts) && |acts| == 2 && |states| == 3
    ensures var s := states[2];
            && Inv(s) && s.threads == map[1 := Fresh(p, Running, flags)]
            && CanRun(s, 1) && forall pl: Place :: !pl.RunQueue? ==> At(s, pl) == []
  {
    hide Run, Inv, CanRun;
    JustBooted(clz);
    states, acts := ThenCreate([Boot(clz)], [], p, flags, 1);
    states, acts := ThenSchedule(states, acts, 1);
  }

  /** A run to a state in which thread 1 is runnable, without a queue, and thread 2, more urgent, runs. */
  lemma TwoRun(clz: bool, p: Priority, q: Priority) returns (states: seq<Sys>, acts: seq<Action>)
    requires q < p
    ensures Run(states, acts) && |acts| == 3 && |states| == 4
    ensures var s := states[3];
            && Inv(s) && s.threads.Keys == {1, 2} && s.threads[2] == Fresh(q, Running, {})
            && s.threads[1] == Fresh(p, s.threads[1].status, {})
            && OnRunqueue(s.threads[1].status)
            && CanRun(s, 2) && forall pl: Place :: !pl.RunQueue? ==> At(s, pl) == []
  {
    hide Run, Inv, CanRun;
    JustBooted(clz);
    states, acts := ThenCreate([Boot(clz)], [], p, {}, 1);
    states, acts := ThenCreate(states, acts, q, {}, 2);
    states, acts := ThenSchedule(states, acts, 2);
  }
}
