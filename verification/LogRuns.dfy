/** Runs of the log ring: reservations are sound, and exactly when delivery is. */
module LogRuns {
  import opened LogCount
  import opened LogRing
  import opened Modulo

  /** A fresh ring: both counters two laps below 2^32, all flags 0, the reader's flag 1 */
  ghost predicate Init(s: Sys) {
    && GoodCount(s.n) && s.tail == s.head == M - 2 * s.n && s.writers == map[] && s.reader == Idle && s.validFlag
    && s.flags == seq(s.n, _ => false) && s.memory == seq(s.n, _ => Cell(0, -1))
    && s.reserved == [] && s.written == {} && s.ready == {} && s.heads == 0 && s.delivered == []
    && s.late == {} && s.early == {}
  }

  ghost predicate Step(s: Sys, a: Action, r: Sys) {
    Possible(s, a) && r == Apply(s, a)
  }

  ghost predicate Run(states: seq<Sys>, acts: seq<Action>) {
    && |states| == |acts| + 1 && Init(states[0])
    && (forall i {:trigger acts[i]} :: 0 <= i < |acts| ==> Step(states[i], acts[i], states[i + 1]))
  }

  lemma InitHolds(s: Sys)
    requires Init(s)
    ensures Inv(s)
  {
    forall p: nat | p < s.n ensures FlagOf(p, s.n) { DivisionUnique(p, 2 * s.n, 0, p); }
    hide SlotOf, FlagOf;
  }

  lemma StepOfRun(states: seq<Sys>, acts: seq<Action>, n: nat)
    requires Run(states, acts) && n < |acts|
    ensures Possible(states[n], acts[n]) && states[n + 1] == Apply(states[n], acts[n])
  {
    hide Apply, Possible;
    assert Step(states[n], acts[n], states[n + 1]);
  }

  lemma {:induction false} InvariantOfRun(states: seq<Sys>, acts: seq<Action>, n: nat)
    requires Run(states, acts) && n < |states|
    ensures Inv(states[n])
    decreases n
  {
    if n == 0 {
      InitHolds(states[0]);
    } else {
      InvariantOfRun(states, acts, n - 1);
      StepOfRun(states, acts, n - 1);
      StepKeeps(states[n - 1], acts[n - 1]);
    }
    hide Inv, Apply, Possible, Step, Init;
  }

  /** Main result, reservations. In every state of every run: counted without wrap, the tail is
      never more than n ahead of the head, the shared counters are those counts as stored in 32
      bits, and outstanding reservations use different slots. */
  lemma NeverTooFar(states: seq<Sys>, acts: seq<Action>, k: nat)
    requires Run(states, acts) && k < |states|
    ensures var s := states[k];
            && GoodCount(s.n) && s.heads <= Tails(s) <= s.heads + s.n
            && s.tail == Stored(Tails(s), s.n) && s.head == Stored(s.heads, s.n)
            && (forall p: nat, q: nat :: s.heads <= p < q < Tails(s) ==> SlotOf(p, s.n) != SlotOf(q, s.n))
  {
    hide Run, Stored, SlotOf, FlagOf;
    InvariantOfRun(states, acts, k);
    var s := states[k];
    CountersOf(s);
    forall p: nat, q: nat | s.heads <= p < q < Tails(s) ensures SlotOf(p, s.n) != SlotOf(q, s.n) {
      SlotsDiffer(p, q, s.n);
    }
  }

  /** Main result, success. A successful compare-and-store reserves the next count for this writer
      alone and returns it as stored; one that fails reserves nothing. */
  lemma ReservesNext(states: seq<Sys>, acts: seq<Action>, k: nat)
    requires Run(states, acts) && k < |acts| && acts[k].CompareAndStore?
    ensures var s, r, w := states[k], states[k + 1], acts[k].w;
            && w in s.writers && s.writers[w].Ready? && GoodCount(s.n)
            && (if s.writers[w].currTail == s.tail
                then
                  && Tails(s) < s.heads + s.n && r.reserved == s.reserved + [s.writers[w].entry]
                  && s.writers[w].currTail == Stored(Tails(s), s.n)
                  && w in r.writers && r.writers[w] == Filling(s.writers[w].entry, s.writers[w].currTail, Tails(s))
                else r.reserved == s.reserved)
  {
    InvariantOfRun(states, acts, k);
    StepOfRun(states, acts, k);
    hide Run, Stored;
    CountersOf(states[k]);
    PhaseOf(states[k], acts[k].w);
    StoredTwice(states[k], acts[k].w);
    hide Inv;
  }

  /** Main result, failure. A writer is turned away only when the ring was full at the moment it
      read the head. */
  lemma FailsOnlyWhenFull(states: seq<Sys>, acts: seq<Action>, k: nat)
    requires Run(states, acts) && k < |acts| && acts[k].ReadTailAgain? && acts[k].w !in states[k + 1].writers
    ensures var p := states[k].writers[acts[k].w];
            p.SawHead? && p.between == p.headAt + states[k].n && Tails(states[k]) == p.between
  {
    hide Stored, RangeOk;
    InvariantOfRun(states, acts, k);
    StepOfRun(states, acts, k);
    hide Run, Inv;
    var s := states[k];
    InvCounts(s);
    CountersOf(s);
    EqualTails(s, acts[k].w);
  }

  // ---------- delivery ----------

  /** The steps before k copy nothing whose entry has not been written. */
  ghost predicate CopiesWritten(states: seq<Sys>, acts: seq<Action>, k: nat)
    requires k <= |acts| < |states|
  {
    forall j: nat {:trigger acts[j]} :: j < k && acts[j].CopyBlock? ==> |states[j].delivered| in states[j].written
  }

  /** The steps before k copy nothing whose writer has not set its flag. */
  ghost predicate CopiesReady(states: seq<Sys>, acts: seq<Action>, k: nat)
    requires k <= |acts| < |states|
  {
    forall j: nat {:trigger acts[j]} :: j < k && acts[j].CopyBlock? ==> |states[j].delivered| in states[j].ready
  }

  predicate Unchecked(r: Reader) { r.Copying? && !r.checked }

  /** The same for the blocks copied without a look at the flags */
  ghost predicate UncheckedReady(states: seq<Sys>, acts: seq<Action>, k: nat)
    requires k <= |acts| < |states|
  {
    forall j: nat {:trigger acts[j]} :: 
      j < k && acts[j].CopyBlock? && Unchecked(states[j].reader) ==> |states[j].delivered| in states[j].ready
  }

  /** Everything delivered is the entry of its reservation, in the order of the reservations. */
  ghost predicate RightSoFar(s: Sys) {
    |s.delivered| <= |s.reserved| && forall p: nat :: p < |s.delivered| ==> s.delivered[p] == Cell(s.reserved[p], p)
  }

  lemma StepSets(s: Sys, a: Action)
    requires Possible(s, a)
    ensures var r, p := Apply(s, a), |s.delivered|;
            && r.late == (if a.CopyBlock? && p !in s.written then s.late + {p} else s.late)
            && r.early == (if a.CopyBlock? && p !in s.ready then s.early + {p} else s.early)
  {
    hide SlotOf, FlagOf, Look, FinalLook, Check, RangeOk, ReaderIndex;
  }

  lemma CopiesGrow(states: seq<Sys>, acts: seq<Action>, k: nat)
    requires 0 < k <= |acts| < |states|
    ensures CopiesWritten(states, acts, k) <==>
              CopiesWritten(states, acts, k - 1)
              && (acts[k - 1].CopyBlock? ==> |states[k - 1].delivered| in states[k - 1].written)
    ensures CopiesReady(states, acts, k) <==>
              CopiesReady(states, acts, k - 1)
              && (acts[k - 1].CopyBlock? ==> |states[k - 1].delivered| in states[k - 1].ready)
  {
  }

  lemma {:induction false} SetsOfRun(states: seq<Sys>, acts: seq<Action>, k: nat)
    requires Run(states, acts) && k < |states|
    ensures states[k].late == {} <==> CopiesWritten(states, acts, k)
    ensures states[k].early == {} <==> CopiesReady(states, acts, k)
    decreases k
  {
    assert |states| == |acts| + 1 && Init(states[0]);
    hide Run, Possible, Apply;
    if k == 0 {
    } else {
      hide CopiesWritten, CopiesReady;
      SetsOfRun(states, acts, k - 1);
      StepOfRun(states, acts, k - 1);
      StepSets(states[k - 1], acts[k - 1]);
      CopiesGrow(states, acts, k);
    }
  }

  /** Main result, delivery. Everything the reader has taken is the entry of its reservation, in
      order and exactly once, if and only if every block was copied after its writer had written
      it. */
  lemma DeliveredRightExactly(states: seq<Sys>, acts: seq<Action>, k: nat)
    requires Run(states, acts) && k < |states|
    ensures RightSoFar(states[k]) <==> CopiesWritten(states, acts, k)
  {
    InvariantOfRun(states, acts, k);
    SetsOfRun(states, acts, k);
    hide Run, CopiesWritten, CopiesReady;
    RightWhenNotLate(states[k]);
  }

  lemma RightWhenNotLate(s: Sys)
    requires Inv(s)
    ensures RightSoFar(s) <==> s.late == {}
  {
    hide PhaseOk, CountersOk, FlagsOk, SeenOk, OwnersOk, SetsOk, PlacesDiffer, SlotOf;
    CountersOf(s);
    if s.late != {} {
      var p :| p in s.late;
      assert s.delivered[p].owner != p;
    }
  }

  lemma CheckedIsReady(s: Sys)
    requires Inv(s) && s.early == {} && Enabled(s, CopyBlock) && s.reader.checked
    ensures |s.delivered| in s.ready
  {
    hide PhaseOk, CountersOk, FlagsOk, OwnersOk, SetsOk, PlacesDiffer, SlotOf, ContentOk, LateOk;
    CountersOf(s);
  }

  /** Main result, when the flags protect. No entry is taken before its writer has finished, if and
      only if the blocks that the reader takes without a look at the flags are finished. In that
      case the order and the entries are right and every slot shows the flag of its lap exactly
      when its entry is complete. */
  lemma FinishedExactly(states: seq<Sys>, acts: seq<Action>, k: nat)
    requires Run(states, acts) && k < |states|
    ensures CopiesReady(states, acts, k) <==> UncheckedReady(states, acts, k)
    ensures UncheckedReady(states, acts, k) ==>
              && RightSoFar(states[k]) && Sized(states[k])
              && FlagsOk(states[k].flags, states[k].heads, states[k].n, states[k].ready, |states[k].delivered|)
  {
    UncheckedIsAll(states, acts, k);
    SetsOfRun(states, acts, k);
    InvariantOfRun(states, acts, k);
    hide Run, CopiesReady, UncheckedReady, CopiesWritten, RightSoFar, FlagsOk, Inv;
    if states[k].early == {} { FinishedIsRight(states[k]); }
  }

  lemma {:induction false} UncheckedIsAll(states: seq<Sys>, acts: seq<Action>, k: nat)
    requires Run(states, acts) && k < |states|
    ensures CopiesReady(states, acts, k) <==> UncheckedReady(states, acts, k)
    decreases k
  {
    assert |states| == |acts| + 1;
    hide Run, Inv, Possible, Apply;
    if k > 0 {
      UncheckedIsAll(states, acts, k - 1);
      LastCopyReady(states, acts, k - 1);
    }
  }

  /** After copies of finished entries only, a checked copy takes a finished one as well. */
  lemma LastCopyReady(states: seq<Sys>, acts: seq<Action>, k: nat)
    requires Run(states, acts) && k < |acts|
    ensures CopiesReady(states, acts, k) && acts[k].CopyBlock? && !Unchecked(states[k].reader) ==>
              |states[k].delivered| in states[k].ready
  {
    StepOfRun(states, acts, k);
    InvariantOfRun(states, acts, k);
    SetsOfRun(states, acts, k);
    hide Run, CopiesReady, CopiesWritten, Inv, Apply;
    if states[k].early == {} && acts[k].CopyBlock? && states[k].reader.checked { CheckedIsReady(states[k]); }
  }

  lemma FinishedIsRight(s: Sys)
    requires Inv(s) && s.early == {}
    ensures RightSoFar(s) && Sized(s) && FlagsOk(s.flags, s.heads, s.n, s.ready, |s.delivered|)
  {
    hide PhaseOk, CountersOk, SeenOk, OwnersOk, SetsOk, PlacesDiffer, FlagsOk, RightSoFar;
    RightWhenNotLate(s);
  }

  /** Whenever the reader looks it finds room of at least the threshold, and it is never told to
      stop. */
  ghost predicate RoomLeft(states: seq<Sys>, acts: seq<Action>, k: nat)
    requires k <= |acts| < |states|
  {
    forall j: nat {:trigger acts[j]} :: j < k ==>
      !acts[j].LastLook? && (acts[j].LookAtTail? ==> states[j].n - (Tails(states[j]) - states[j].heads) >= NO_CHECK)
  }

  /** With room left at every look the reader never skips the flags. */
  lemma {:induction false} NeverUnchecked(states: seq<Sys>, acts: seq<Action>, k: nat)
    requires Run(states, acts) && k < |states| && RoomLeft(states, acts, k)
    ensures states[k].reader.Copying? ==> states[k].reader.checked
    ensures UncheckedReady(states, acts, k)
    decreases k
  {
    if k > 0 {
      NeverUnchecked(states, acts, k - 1);
      StepOfRun(states, acts, k - 1);
      InvariantOfRun(states, acts, k - 1);
      StepChecked(states[k - 1], acts[k - 1]);
    }
    hide Run, Inv, Possible, Apply;
  }

  lemma StepChecked(s: Sys, a: Action)
    requires Inv(s) && Possible(s, a) && (s.reader.Copying? ==> s.reader.checked) && !a.LastLook?
    requires a.LookAtTail? ==> s.n - (Tails(s) - s.heads) >= NO_CHECK
    ensures Apply(s, a).reader.Copying? ==> Apply(s, a).reader.checked
  {
    hide History, Content, Flags, SlotOf, FlagOf, RangeOk, Look, ReaderIndex, FlagMatches;
    if a.LookAtTail? { LookExact(s, a.listEmpty); }
    hide Counts;
  }

  /** Main result: a reader that always finds room takes every entry once, in order, finished. */
  lemma RoomMeansRight(states: seq<Sys>, acts: seq<Action>, k: nat)
    requires Run(states, acts) && k < |states| && RoomLeft(states, acts, k)
    ensures RightSoFar(states[k]) && CopiesReady(states, acts, k)
  {
    hide Run, RoomLeft, RightSoFar, CopiesReady, UncheckedReady;
    NeverUnchecked(states, acts, k);
    FinishedExactly(states, acts, k);
  }

  // ---------- what goes wrong without the flags ----------

  lemma Extend(states: seq<Sys>, acts: seq<Action>, a: Action)
    requires Run(states, acts) && Possible(states[|acts|], a)
    ensures Run(states + [Apply(states[|acts|], a)], acts + [a])
  {
    hide Init, Apply, Possible;
  }

  function Fresh(n: nat): (s: Sys)
    requires GoodCount(n)
    ensures Init(s)
  {
    Sys(n, M - 2 * n, M - 2 * n, seq(n, _ => false), seq(n, _ => Cell(0, -1)), true, Idle, map[], [], {}, {}, 0, [], {}, {})
  }

  /** Writers 0 to k - 1 hold the first k reservations, and nothing has been written. */
  ghost predicate AllFilling(s: Sys, n: nat, k: nat) {
    && s.n == n && Tails(s) == k && s.heads == 0 && s.written == {}
    && (forall w: nat :: w in s.writers <==> w < k)
    && (forall w :: w in s.writers ==> s.writers[w].Filling? && s.writers[w].pos == w)
  }

  /** A new writer reserves in four steps when there is room. */
  lemma ReservesInFour(s: Sys, w: Writer, e: Entry) returns (a: seq<Action>, t: seq<Sys>)
    requires Inv(s) && w !in s.writers && Tails(s) < s.heads + s.n
    ensures |a| == |t| == 4
    ensures Possible(s, a[0]) && t[0] == Apply(s, a[0])
    ensures Possible(t[0], a[1]) && t[1] == Apply(t[0], a[1])
    ensures Possible(t[1], a[2]) && t[2] == Apply(t[1], a[2])
    ensures Possible(t[2], a[3]) && t[3] == Apply(t[2], a[3])
    ensures t[3] == Reserved(s, w, e)
  {
    hide Inv, RangeOk, Stored;
    InvCounts(s);
    CountersOf(s);
    StoredRange(s.heads, Tails(s), s.n);
    var k := Tails(s);
    var s1 := Move(s, w, SawTail(e, s.tail, k));
    var s2 := Move(s1, w, SawHead(e, s.tail, s.head, k, k, s.heads));
    var s3 := Move(s2, w, Ready(e, s.tail, k, s.heads));
    a := [ReadTail(w, e), ReadHead(w), ReadTailAgain(w), CompareAndStore(w)];
    t := [s1, s2, s3, Store(s3, w)];
  }

  function Reserved(s: Sys, w: Writer, e: Entry): Sys {
    Move(s, w, Filling(e, s.tail, Tails(s))).(tail := (s.tail + 1) % M, reserved := s.reserved + [e])
  }

  /** A run goes on with a reservation. */
  lemma ThenReserve(states: seq<Sys>, acts: seq<Action>, w: Writer, e: Entry)
    returns (more: seq<Sys>, acts': seq<Action>)
    requires Run(states, acts)
    requires w !in states[|acts|].writers && Tails(states[|acts|]) < states[|acts|].heads + states[|acts|].n
    ensures Run(more, acts') && |acts'| > 0 && more[|acts'|] == Reserved(states[|acts|], w, e)
  {
    InvariantOfRun(states, acts, |acts|);
    var a, t := ReservesInFour(states[|acts|], w, e);
    hide Run, Inv, Possible, Apply, Reserved;
    more, acts' := Longer(states, acts, a[0], t[0]);
    more, acts' := Longer(more, acts', a[1], t[1]);
    more, acts' := Longer(more, acts', a[2], t[2]);
    more, acts' := Longer(more, acts', a[3], t[3]);
  }

  /** A run goes on with one step. */
  lemma Longer(states: seq<Sys>, acts: seq<Action>, a: Action, r: Sys) returns (more: seq<Sys>, acts': seq<Action>)
    requires Run(states, acts) && Possible(states[|acts|], a) && r == Apply(states[|acts|], a)
    ensures Run(more, acts') && more == states + [r] && acts' == acts + [a] && more[|acts'|] == r
  {
    Extend(states, acts, a);
    more, acts' := states + [r], acts + [a];
    hide Possible, Apply, Init;
  }

  lemma {:induction false} FillingRun(n: nat, k: nat) returns (states: seq<Sys>, acts: seq<Action>)
    requires GoodCount(n) && k <= n
    ensures Run(states, acts)
    ensures var s := states[|acts|]; AllFilling(s, n, k) && s.reader == Idle && s.delivered == []
    decreases k
  {
    if k == 0 {
      states, acts := [Fresh(n)], [];
    } else {
      states, acts := FillingRun(n, k - 1);
      hide Run, AllFilling, Reserved;
      FillOne(states[|acts|], n, k - 1);
      states, acts := ThenReserve(states, acts, k - 1, 0);
    }
  }

  lemma FillOne(s: Sys, n: nat, k: nat)
    requires AllFilling(s, n, k) && k < n
    ensures k !in s.writers && Tails(s) < s.heads + s.n && AllFilling(Reserved(s, k, 0), n, k + 1)
    ensures Reserved(s, k, 0).reader == s.reader && Reserved(s, k, 0).delivered == s.delivered
  {
  }

  /** A run in which the reader takes an unfinished entry: all blocks are reserved, none is written,
      and the reader copies the first without a look at its flag. */
  lemma TakesUnfinished(n: nat) returns (states: seq<Sys>, acts: seq<Action>)
    requires GoodCount(n)
    ensures Run(states, acts) && |acts| > 0 && acts[|acts| - 1] == CopyBlock
    ensures states[0].n == n && states[|acts| - 1].reader == Copying(n, 0, false, false)
    ensures states[|acts| - 1].written == {} && |states[|acts|].delivered| == 1 && !RightSoFar(states[|acts|])
  {
    states, acts := FillingRun(n, n);
    var m := |acts|;
    InvariantOfRun(states, acts, m);
    var s := states[m];
    LookIntoFull(s, n);
    Extend(states, acts, LookAtTail(true));
    var s1 := Apply(s, LookAtTail(true));
    states, acts := states + [s1], acts + [LookAtTail(true)];
    InvariantOfRun(states, acts, m + 1);
    CopyUnwritten(s1);
    Extend(states, acts, CopyBlock);
    states, acts := states + [Apply(s1, CopyBlock)], acts + [CopyBlock];
    SameSize(states, acts, |acts|);
    hide Run, Inv, Possible, Apply;
  }

  lemma {:induction false} SameSize(states: seq<Sys>, acts: seq<Action>, k: nat)
    requires Run(states, acts) && k < |states|
    ensures states[k].n == states[0].n
    decreases k
  {
    if k > 0 {
      SameSize(states, acts, k - 1);
      StepOfRun(states, acts, k - 1);
      SameN(states[k - 1], acts[k - 1]);
    }
  }

  lemma SameN(s: Sys, a: Action)
    requires Possible(s, a)
    ensures Apply(s, a).n == s.n
  {
    hide SlotOf, FlagOf, Look, FinalLook, Check, RangeOk, ReaderIndex;
  }

  lemma LookIntoFull(s: Sys, n: nat)
    requires Inv(s) && s.n == n == Tails(s) && s.heads == 0 && s.reader == Idle
    ensures Possible(s, LookAtTail(true))
    ensures Apply(s, LookAtTail(true)) == s.(reader := Copying(n, 0, false, false))
  {
    hide Inv, Look;
    InvCounts(s);
    CountersOf(s);
    LookExact(s, true);
  }

  lemma CopyUnwritten(s: Sys)
    requires Inv(s) && s.reader == Copying(s.n, 0, false, false) && s.delivered == [] && s.written == {} && s.heads == 0
    requires Tails(s) == s.n
    ensures Possible(s, CopyBlock)
    ensures |Copy(s).delivered| == 1 && Copy(s).delivered[0].owner != 0 && !RightSoFar(Copy(s))
  {
    hide ReaderIndex, Ahead, FlagOf, SlotOf, Content, Flags;
    CountersOf(s);
  }

  /** An entry that was taken unfinished does more harm. When its slot holds the entry of the next lap
      and its writer goes on, that entry is nowhere in the memory any more, and the flag that the
      writer sets makes it look unfinished. */
  lemma SlowWriterSpoils(s: Sys, w: Writer)
    requires Inv(s) && w in s.writers && s.writers[w].Filling? && Possible(s, WriteEntry(w))
    requires s.memory[SlotOf(s.writers[w].pos + s.n, s.n)].owner == s.writers[w].pos + s.n
    ensures var next, r := s.writers[w].pos + s.n, Apply(s, WriteEntry(w));
            && next in s.written && (forall i :: 0 <= i < s.n ==> r.memory[i].owner != next)
            && Possible(r, SetFlag(w))
            && Apply(r, SetFlag(w)).flags[SlotOf(next, s.n)] != FlagOf(next, s.n)
  {
    hide Counts, SlotOf, FlagOf, Content, Flags, LateOk;
    CountersOf(s);
    PhaseOf(s, w);
    SameSlot(s.writers[w].pos, s.n);
    FlagsAlternate(s.writers[w].pos, s.n);
  }

  /** The reader has copied k of the n reserved blocks without a look at the flags. */
  lemma {:induction false} CopyingRun(n: nat, k: nat) returns (states: seq<Sys>, acts: seq<Action>)
    requires GoodCount(n) && k <= n
    ensures Run(states, acts)
    ensures AllFilling(states[|acts|], n, n) && states[|acts|].reader == Copying(n, k, false, false)
    decreases k
  {
    if k == 0 {
      states, acts := FillingRun(n, n);
      InvariantOfRun(states, acts, |acts|);
      LookIntoFull(states[|acts|], n);
      hide Run, Inv, Possible, Apply;
      states, acts := Longer(states, acts, LookAtTail(true), Apply(states[|acts|], LookAtTail(true)));
    } else {
      states, acts := CopyingRun(n, k - 1);
      InvariantOfRun(states, acts, |acts|);
      CopyOne(states[|acts|], n, k - 1);
      hide Run, Inv, Possible, Apply, Copy, AllFilling;
      states, acts := Longer(states, acts, CopyBlock, Copy(states[|acts|]));
    }
  }

  lemma CopyOne(s: Sys, n: nat, k: nat)
    requires Inv(s) && AllFilling(s, n, n) && s.reader == Copying(n, k, false, false) && k < n
    ensures Possible(s, CopyBlock) && Apply(s, CopyBlock) == Copy(s)
    ensures AllFilling(Copy(s), n, n) && Copy(s).reader == Copying(n, k + 1, false, false)
  {
    hide Inv, Copy;
    EnabledIsPossible(s, CopyBlock);
    CopyFields(s);
  }

  /** The head moves behind the n blocks. */
  lemma PublishAll(s: Sys, n: nat)
    requires Inv(s) && AllFilling(s, n, n) && s.reader == Copying(n, n, false, false)
    ensures Possible(s, Publish) && Apply(s, Publish) == Advance(s)
    ensures var r := Advance(s);
            && r == s.(reader := Idle, validFlag := r.validFlag, head := r.head, heads := n) && |s.delivered| == n
  {
    hide ReaderIndex, Content, Flags, History;
    CountersOf(s);
  }

  /** A new writer finishes the entry with count n. */
  lemma NextLapWritten(s0: Sys, n: nat, e: Entry)
    requires s0.n == n && Tails(s0) == n && n !in s0.writers && Inv(Reserved(s0, n, e)) && s0.reader == Idle
    ensures var s := Reserved(s0, n, e);
            && Possible(s, WriteEntry(n)) && Possible(Apply(s, WriteEntry(n)), SetFlag(n))
            && var r := Apply(Apply(s, WriteEntry(n)), SetFlag(n));
            && r.n == n && r.memory[SlotOf(n, n)] == Cell(e, n) && n in r.ready && r.delivered == s0.delivered
            && r.reader == Idle && r.writers == s0.writers && |r.memory| == |r.flags| == n
  {
    hide SlotOf, FlagOf, Stored, History, Content, Flags;
    var s := Reserved(s0, n, e);
    CountersOf(s);
    PhaseOf(s, n);
    SameSlot(n, n);
    hide Counts;
    assert s0.writers[n := s.writers[n]] - {n} == s0.writers;
  }

  /** A run in which a finished entry is lost. All n blocks were taken before their writers wrote them,
      a new writer finishes its entry in the slot of the first, and then the first writer goes on: the
      new entry is finished, has not been taken and is nowhere in the memory. */
  lemma SlowWriterRun(n: nat, e: Entry) returns (states: seq<Sys>, acts: seq<Action>)
    requires GoodCount(n)
    ensures Run(states, acts) && |acts| > 0 && acts[|acts| - 1] == WriteEntry(0)
    ensures var s, r := states[|acts| - 1], states[|acts|];
            && s.n == r.n == n && s.memory[SlotOf(n, n)] == Cell(e, n) && n in r.ready && |r.delivered| == n
            && forall i :: 0 <= i < n ==> r.memory[i].owner != n
  {
    states, acts := CopyingRun(n, n);
    InvariantOfRun(states, acts, |acts|);
    PublishAll(states[|acts|], n);
    states, acts := Longer(states, acts, Publish, Advance(states[|acts|]));
    InvariantOfRun(states, acts, |acts|);
    var s0 := states[|acts|];
    states, acts := ThenReserve(states, acts, n, e);
    var s := Reserved(s0, n, e);
    InvariantOfRun(states, acts, |acts|);
    NextLapWritten(s0, n, e);
    states, acts := Longer(states, acts, WriteEntry(n), Apply(s, WriteEntry(n)));
    var s1 := Apply(s, WriteEntry(n));
    states, acts := Longer(states, acts, SetFlag(n), Apply(s1, SetFlag(n)));
    var s2 := Apply(s1, SetFlag(n));
    InvariantOfRun(states, acts, |acts|);
    SlowWriterSpoils(s2, 0);
    states, acts := Longer(states, acts, WriteEntry(0), Apply(s2, WriteEntry(0)));
    hide Run, Inv, Possible, Apply, Advance, Reserved;
  }

  /** Why an attempt must see fewer than 2^32 reservations by others: in a state that is otherwise
      allowed, with the ring full and 2^32 reservations made since the check, the comparison
      succeeds and the tail leaves the head behind by more than n. */
  lemma TooManyReservations(s: Sys, w: Writer)
    requires Inv(s) && w in s.writers && s.writers[w].Ready?
    requires Tails(s) == s.writers[w].at + M && Tails(s) == s.heads + s.n
    ensures Tails(Store(s, w)) == Store(s, w).heads + s.n + 1 && !Inv(Store(s, w))
  {
    hide PhasesOk, PlacesDiffer, History, Content, Flags, ReaderOk;
    CountersOf(s);
    PhaseOf(s, w);
    SameStoredLater(s.writers[w].at, s.n);
  }

  lemma SameStoredLater(p: nat, n: nat)
    requires GoodCount(n)
    ensures Stored(p + M, n) == Stored(p, n)
  {
  }
}
