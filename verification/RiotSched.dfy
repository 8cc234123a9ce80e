/** Round-robin among the most urgent threads: yielding runs them in queue order. */
module RiotSched {
  import opened Options
  import opened PrioList
  import opened Bitcache
  import opened Modulo
  import opened RiotSystem
  import opened RiotInvariant
  import opened RiotSteps
  import opened RiotRuns

  /** The most urgent runnable threads are q, and the first of them runs. */
  ghost predicate Turn(s: Sys, p: nat, q: seq<Pid>) {
    && Inv(s) && SomebodyReady(s) && First(s.clz, s.cache) == p
    && q != [] && At(s, RunQueue(p)) == q
    && s.active == Some(q[0]) && q[0] in s.threads && s.threads[q[0]].status == Running
  }

  lemma HeadPriority(s: Sys, p: nat, q: seq<Pid>)
    requires Turn(s, p, q)
    ensures p < PRIO_LEVELS && s.threads[q[0]].priority == p
  {
    NextExists(s);
  }

  lemma AfterYield(s: Sys, p: nat, q: seq<Pid>)
    requires Turn(s, p, q)
    ensures CanRun(s, q[0]) && Inv(Advance(s, q[0]))
    ensures var r := Advance(s, q[0]);
            && SomebodyReady(r) && First(r.clz, r.cache) == p
            && At(r, RunQueue(p)) == q[1..] + [q[0]]
            && r.threads == s.threads && r.active == s.active
  {
    HeadPriority(s, p, q);
    AdvanceKeeps(s, q[0]);
    hide Inv;
    assert SomebodyReady(s) ==> SomebodyReady(Advance(s, q[0]));
  }

  /** sched_run leaves the queues and makes the head of the most urgent one run. */
  lemma AfterSchedule(s: Sys, p: nat, q: seq<Pid>)
    requires Inv(s) && SomebodyReady(s) && First(s.clz, s.cache) == p && At(s, RunQueue(p)) == q
    ensures q != [] && q[0] in s.threads && Turn(SchedRun(s), p, q)
  {
    NextExists(s);
    SchedRunPicks(s);
    SchedRunShape(s);
    SameCache(s);
    hide Inv;
    var r := SchedRun(s);
    assert At(r, RunQueue(p)) == q;
  }

  lemma SameCache(s: Sys)
    requires var q := At(s, RunQueue(First(s.clz, s.cache))); q != [] && q[0] in s.threads
    ensures SchedRun(s).cache == s.cache && SchedRun(s).clz == s.clz
  {
  }

  /** One thread_yield: the next thread of the queue runs, and the caller goes to its end. */
  lemma YieldRunsNext(s: Sys, p: nat, q: seq<Pid>)
    requires Turn(s, p, q)
    ensures Sound(s) && Enabled(s, Yield(q[0]))
    ensures var s1 := Apply(s, Yield(q[0]));
            && Sound(s1) && Enabled(s1, Schedule)
            && Turn(Apply(s1, Schedule), p, q[1..] + [q[0]])
  {
    hide Inv, Sound, Turn, Advance, SchedRun, CanRun, SomebodyReady, First;
    TurnFacts(s, p, q);
    InvIsSound(s);
    AfterYield(s, p, q);
    var s1 := Advance(s, q[0]);
    InvIsSound(s1);
    AfterSchedule(s1, p, q[1..] + [q[0]]);
  }

  lemma TurnFacts(s: Sys, p: nat, q: seq<Pid>)
    requires Turn(s, p, q)
    ensures Inv(s) && q != [] && s.active == Some(q[0]) && q[0] in s.threads
  {
  }

  /** q with its first k elements, counted round, moved to the end */
  function Rotation(q: seq<Pid>, k: nat): (r: seq<Pid>)
    requires q != []
    ensures |r| == |q| && r[0] == q[Mod(k, |q|)]
  {
    q[Mod(k, |q|)..] + q[..Mod(k, |q|)]
  }

  lemma RotationStep(q: seq<Pid>, k: nat)
    requires q != []
    ensures Rotation(q, k)[1..] + [Rotation(q, k)[0]] == Rotation(q, k + 1)
  {
    hide Mod;
    ModSum(k, 1, |q|);
  }

  lemma RotationZero(q: seq<Pid>)
    requires q != []
    ensures Rotation(q, 0) == q
  {
  }

  /** A stretch of a run in which the running thread yields again and again, each yield followed
      by its scheduler run. */
  ghost predicate OnlyYields(states: seq<Sys>, acts: seq<Action>) {
    && |states| == |acts| + 1
    && (forall i {:trigger acts[i]} :: 0 <= i < |acts| ==>
          && Step(states[i], acts[i], states[i + 1])
          && (if i % 2 == 0 then acts[i].Yield? && states[i].active == Some(acts[i].me) else acts[i].Schedule?))
  }

  lemma TwoSteps(states: seq<Sys>, acts: seq<Action>, i: nat, p: nat, q: seq<Pid>)
    requires OnlyYields(states, acts) && 2 * i + 1 < |acts| && Turn(states[2 * i], p, q)
    ensures Turn(states[2 * i + 2], p, q[1..] + [q[0]])
  {
    hide OnlyYields, Turn, Sound, Enabled, Apply, Inv, Step;
    var n := 2 * i;
    StepAt(states, acts, n);
    StepAt(states, acts, n + 1);
    TurnFacts(states[n], p, q);
    YieldRunsNext(states[n], p, q);
    StepIs(states[n], acts[n], states[n + 1]);
    StepIs(states[n + 1], acts[n + 1], states[n + 2]);
  }

  lemma StepIs(s: Sys, a: Action, r: Sys)
    requires Step(s, a, r) && Sound(s)
    ensures Enabled(s, a) && r == Apply(s, a)
  {
    hide Sound, Enabled, Apply;
  }

  lemma StepAt(states: seq<Sys>, acts: seq<Action>, i: nat)
    requires OnlyYields(states, acts) && i < |acts|
    ensures |states| == |acts| + 1 && Step(states[i], acts[i], states[i + 1])
    ensures i % 2 == 0 ==> acts[i].Yield? && states[i].active == Some(acts[i].me)
    ensures i % 2 == 1 ==> acts[i].Schedule?
  {
    hide Step;
    assert acts[i] == acts[i];
  }

  /** Main result. When only the running thread yields, the k-th yield runs the k-th next thread in
      the order of the queue. */
  lemma {:induction false} RoundRobin(states: seq<Sys>, acts: seq<Action>, k: nat, p: nat, q: seq<Pid>)
    requires OnlyYields(states, acts) && 2 * k <= |acts| && Turn(states[0], p, q)
    ensures |states| == |acts| + 1 && Turn(states[2 * k], p, Rotation(q, k))
    ensures states[2 * k].active == Some(q[Mod(k, |q|)])
    decreases k
  {
    hide OnlyYields, Turn, Rotation, Mod, Inv;
    Long(states, acts);
    TurnFacts(states[0], p, q);
    if k == 0 {
      RotationZero(q);
    } else {
      RoundRobin(states, acts, k - 1, p, q);
      TwoSteps(states, acts, k - 1, p, Rotation(q, k - 1));
      RotationStep(q, k - 1);
    }
    TurnFacts(states[2 * k], p, Rotation(q, k));
  }

  lemma Long(states: seq<Sys>, acts: seq<Action>)
    requires OnlyYields(states, acts)
    ensures |states| == |acts| + 1
  {
  }

  /** Among n consecutive places, counted round, each of the n elements comes exactly once. */
  lemma OncePerLap(q: seq<Pid>, from: nat, i: nat) returns (k: nat)
    requires Distinct(q) && i < |q|
    ensures from <= k < from + |q| && q[Mod(k, |q|)] == q[i]
    ensures forall j: nat :: from <= j < from + |q| && q[Mod(j, |q|)] == q[i] ==> j == k
  {
    hide Mod;
    var n := |q|;
    var a := Mod(from, n);
    var d := if i >= a then i - a else i + n - a;
    ModSum(from, d, n);
    k := from + d;
    forall j: nat | from <= j < from + n && q[Mod(j, n)] == q[i] ensures j == k {
      ModSum(from, j - from, n);
    }
  }

  /** The thread that runs after k yields */
  function RunsAfter(states: seq<Sys>, k: nat): Option<Pid>
    requires 2 * k < |states|
  {
    states[2 * k].active
  }

  lemma TurnDistinct(s: Sys, p: nat, q: seq<Pid>)
    requires Turn(s, p, q)
    ensures Distinct(q)
  {
    hide Rest, SomebodyReady, First, Distinct;
    ListsSeparate(s);
  }

  /** Main result, fairness. When only the running thread yields, then among any n consecutive
      turns, n the number of runnable threads at the most urgent priority, each of those threads runs
      exactly once. */
  lemma RunsOncePerLap(states: seq<Sys>, acts: seq<Action>, p: nat, q: seq<Pid>, from: nat, t: Pid)
    requires OnlyYields(states, acts) && Turn(states[0], p, q) && t in q && 2 * (from + |q|) <= |acts|
    ensures |states| == |acts| + 1
    ensures exists k: nat :: from <= k < from + |q| && RunsAfter(states, k) == Some(t)
                             && forall j: nat :: from <= j < from + |q| && RunsAfter(states, j) == Some(t) ==> j == k
  {
    hide OnlyYields, Turn, Rotation, Mod;
    Long(states, acts);
    TurnFacts(states[0], p, q);
    TurnDistinct(states[0], p, q);
    var i :| 0 <= i < |q| && q[i] == t;
    var k := OncePerLap(q, from, i);
    forall j: nat | from <= j < from + |q| ensures RunsAfter(states, j) == Some(q[Mod(j, |q|)]) {
      RoundRobin(states, acts, j, p, q);
    }
    assert RunsAfter(states, k) == Some(t);
  }
}
