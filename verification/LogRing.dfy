/** The QSemOS log ring as a state machine: any number of interleaved writers reserve slots through
    two wrapping 32-bit counters and mark them with alternating valid flags; one reader takes the
    entries, and near the end of the room it stops looking at the flags. */
module LogRing {
  import opened LogCount

  // With less room than this the reader no longer looks at the flags.
  const NO_CHECK: nat := 0x400
  // With more entries than this the reader reads although it has others to print.
  const MANY: nat := 0x200

  type Writer = nat
  type Entry = nat

  /** One block of the memory; `owner` is the reservation that wrote it, -1 before any. */
  datatype Cell = Cell(entry: Entry, owner: int)

  /** Where a writer stands. currTail and the like are the 32-bit values it read; the fields at,
      headAt, between and pos are true counts kept for the proof alone. */
  datatype Phase =
    | Retry(entry: Entry)
    | SawTail(entry: Entry, tail1: nat, at: nat)
    | SawHead(entry: Entry, tail1: nat, currHead: nat, at: nat, between: nat, headAt: nat)
    | Ready(entry: Entry, currTail: nat, at: nat, headAt: nat)
    | Filling(entry: Entry, currTail: nat, pos: nat)
    | Filled(entry: Entry, currTail: nat, pos: nat)

  /** Where the reader stands: `valid` of `num` flags have matched; `done` of `num` blocks are
      copied, with the flags checked before or not, in the main loop or in the last read. */
  datatype Reader =
    | Idle
    | Checking(num: nat, valid: nat)
    | Copying(num: nat, done: nat, checked: bool, last: bool)
    | Stopped

  /** tail, head, flags and memory are shared, validFlag is the reader's own. `reserved`, `written`
      and `ready` record all reservations, those whose entry was written and those whose flag was
      set; `heads` is the true count of the head, and `delivered` is what the reader copied.
      `late` and `early` are the counts copied before they were written or ready. */
  datatype Sys = Sys(
    n: nat,
    tail: nat,
    head: nat,
    flags: seq<bool>,
    memory: seq<Cell>,
    validFlag: bool,
    reader: Reader,
    writers: map<Writer, Phase>,
    reserved: seq<Entry>,
    written: set<nat>,
    ready: set<nat>,
    heads: nat,
    delivered: seq<Cell>,
    late: set<nat>,
    early: set<nat>)

  function Tails(s: Sys): nat { |s.reserved| }

  datatype Action =
    | ReadTail(w: Writer, entry: Entry)
    | ReadHead(w: Writer)
    | ReadTailAgain(w: Writer)
    | CompareAndStore(w: Writer)
    | WriteEntry(w: Writer)
    | SetFlag(w: Writer)
    | LookAtTail(listEmpty: bool)
    | LastLook
    | CheckFlag
    | CopyBlock
    | Publish

  predicate Sized(s: Sys) {
    0 < s.n == |s.flags| == |s.memory|
  }

  /** An attempt of a writer sees fewer than 2^32 reservations by others. */
  predicate Enabled(s: Sys, a: Action) {
    match a
    case ReadTail(w, e) => w in s.writers ==> s.writers[w] == Retry(e)
    case ReadHead(w) => w in s.writers && s.writers[w].SawTail? && Tails(s) < s.writers[w].at + M
    case ReadTailAgain(w) => w in s.writers && s.writers[w].SawHead? && Tails(s) < s.writers[w].at + M
    case CompareAndStore(w) => w in s.writers && s.writers[w].Ready? && Tails(s) < s.writers[w].at + M
    case WriteEntry(w) => w in s.writers && s.writers[w].Filling?
    case SetFlag(w) => w in s.writers && s.writers[w].Filled?
    case LookAtTail(_) => s.reader.Idle?
    case LastLook => s.reader.Idle?
    case CheckFlag => s.reader.Checking? && s.reader.num <= s.n
    case CopyBlock => s.reader.Copying? && s.reader.done < s.reader.num <= s.n
    case Publish => s.reader.Copying? && s.reader.done == s.reader.num
  }

  function Move(s: Sys, w: Writer, p: Phase): Sys {
    s.(writers := s.writers[w := p])
  }

  /** The compare-and-store of a writer */
  function Store(s: Sys, w: Writer): Sys
    requires w in s.writers && s.writers[w].Ready?
  {
    var p := s.writers[w];
    if p.currTail == s.tail then
      Move(s, w, Filling(p.entry, p.currTail, Tails(s)))
        .(tail := (p.currTail + 1) % M, reserved := s.reserved + [p.entry])
    else Move(s, w, Retry(p.entry))
  }

  /** What the reader does after it has read the tail: nothing, read with or without looking at the
      flags, or give up. */
  function Look(head: nat, tail: nat, n: nat, listEmpty: bool): Reader
    requires n > 0
  {
    var h, t := Shifted(head, head, n), Shifted(head, tail, n);
    if t < h || t > h + n then Stopped
    else
      var num := t - h;
      if n - num < NO_CHECK then (if num == 0 then Stopped else Copying(num, 0, false, false))
      else if num > MANY || (listEmpty && num > 0) then Checking(num, 0)
      else Idle
  }

  /** When the reader is told to stop it takes all that is left, whatever the flags say. */
  function FinalLook(head: nat, tail: nat, n: nat): Reader
    requires n > 0
  {
    var h, t := Shifted(head, head, n), Shifted(head, tail, n);
    if t <= h || t > h + n then Stopped else Copying(t - h, 0, false, true)
  }

  /** The reader compares with its own flag up to the end of the memory and with the opposite one
      from there. */
  predicate FlagMatches(flags: seq<bool>, head: nat, n: nat, validFlag: bool, v: nat)
    requires v < n == |flags|
  {
    var i := ReaderIndex(head, n);
    flags[Ahead(i, v, n)] == if i + v < n then validFlag else !validFlag
  }

  function Check(r: Reader, flags: seq<bool>, head: nat, n: nat, validFlag: bool): Reader
    requires r.Checking? && 0 < r.num <= n == |flags|
  {
    if r.valid < r.num && FlagMatches(flags, head, n, validFlag, r.valid) then Checking(r.num, r.valid + 1)
    else if r.valid == 0 then Idle
    else Copying(r.valid, 0, true, false)
  }

  function Copy(s: Sys): Sys
    requires Sized(s) && Enabled(s, CopyBlock)
  {
    var p := |s.delivered|;
    s.(reader := s.reader.(done := s.reader.done + 1),
       delivered := s.delivered + [s.memory[Ahead(ReaderIndex(s.head, s.n), s.reader.done, s.n)]],
       late := if p in s.written then s.late else s.late + {p},
       early := if p in s.ready then s.early else s.early + {p})
  }

  /** The head moves on, and the flag turns when the end of the memory was passed. The last read
      leaves the head alone. */
  function Advance(s: Sys): Sys
    requires s.n > 0 && Enabled(s, Publish)
  {
    if s.reader.last then s.(reader := Stopped)
    else
      s.(reader := Idle,
         validFlag := if ReaderIndex(s.head, s.n) + s.reader.num >= s.n then !s.validFlag else s.validFlag,
         head := (s.head + s.reader.num) % M,
         heads := s.heads + s.reader.num)
  }

  function Apply(s: Sys, a: Action): Sys
    requires Enabled(s, a) && Sized(s) && (s.reader.Checking? ==> s.reader.num > 0)
  {
    match a
    case ReadTail(w, e) => Move(s, w, SawTail(e, s.tail, Tails(s)))
    case ReadHead(w) =>
      var p := s.writers[w];
      Move(s, w, SawHead(p.entry, p.tail1, s.head, p.at, Tails(s), s.heads))
    case ReadTailAgain(w) =>
      var p := s.writers[w];
      if p.tail1 != s.tail then Move(s, w, Retry(p.entry))
      else if !RangeOk(p.currHead, s.tail, s.n) then s.(writers := s.writers - {w})
      else Move(s, w, Ready(p.entry, s.tail, p.at, p.headAt))
    case CompareAndStore(w) => Store(s, w)
    case WriteEntry(w) =>
      var p := s.writers[w];
      Move(s, w, Filled(p.entry, p.currTail, p.pos))
        .(memory := s.memory[SlotOf(p.currTail, s.n) := Cell(p.entry, p.pos)], written := s.written + {p.pos})
    case SetFlag(w) =>
      var p := s.writers[w];
      s.(writers := s.writers - {w},
         flags := s.flags[SlotOf(p.currTail, s.n) := FlagOf(p.currTail, s.n)],
         ready := s.ready + {p.pos})
    case LookAtTail(listEmpty) => s.(reader := Look(s.head, s.tail, s.n, listEmpty))
    case LastLook => s.(reader := FinalLook(s.head, s.tail, s.n))
    case CheckFlag => s.(reader := Check(s.reader, s.flags, s.head, s.n, s.validFlag))
    case CopyBlock => Copy(s)
    case Publish => Advance(s)
  }

  // ---------- the invariant ----------

  predicate CountersOk(tail: nat, head: nat, tails: nat, heads: nat, validFlag: bool, n: nat)
    requires GoodCount(n)
  {
    && tail == Stored(tails, n) && head == Stored(heads, n) && heads <= tails <= heads + n
    && validFlag == FlagOf(heads, n)
  }

  predicate ReaderOk(r: Reader, delivered: nat, heads: nat, tails: nat) {
    match r
    case Idle => delivered == heads
    case Checking(num, valid) => delivered == heads && valid <= num && 0 < num && heads + num <= tails
    case Copying(num, done, _, _) => delivered == heads + done && done <= num && 0 < num && heads + num <= tails
    case Stopped => heads <= delivered <= tails
  }

  /** What a writer knows, whatever the others and the reader did meanwhile. */
  predicate PhaseOk(p: Phase, heads: nat, n: nat, reserved: seq<Entry>, written: set<nat>, ready: set<nat>)
    requires GoodCount(n)
  {
    match p
    case Retry(_) => true
    case SawTail(_, tail1, at) => at <= |reserved| && tail1 == Stored(at, n)
    case SawHead(_, tail1, currHead, at, between, headAt) =>
      && tail1 == Stored(at, n) && currHead == Stored(headAt, n)
      && at <= between <= |reserved| && headAt <= heads && headAt <= between <= headAt + n
    case Ready(_, currTail, at, headAt) =>
      at <= |reserved| && currTail == Stored(at, n) && headAt <= heads && headAt <= at < headAt + n
    case Filling(e, currTail, pos) =>
      pos < |reserved| && currTail == Stored(pos, n) && reserved[pos] == e && pos !in written && pos !in ready
    case Filled(e, currTail, pos) =>
      pos < |reserved| && currTail == Stored(pos, n) && reserved[pos] == e && pos in written && pos !in ready
  }

  predicate HoldsPlace(p: Phase) { p.Filling? || p.Filled? }

  /** Both hold the same reservation. */
  predicate SamePlace(p: Phase, q: Phase) {
    HoldsPlace(p) && HoldsPlace(q) && p.pos == q.pos
  }

  ghost predicate PhasesOk(writers: map<Writer, Phase>, heads: nat, n: nat, reserved: seq<Entry>, written: set<nat>,
                           ready: set<nat>)
    requires GoodCount(n)
  {
    forall w :: w in writers ==> PhaseOk(writers[w], heads, n, reserved, written, ready)
  }

  ghost predicate PlacesDiffer(writers: map<Writer, Phase>) {
    forall v, w :: v in writers && w in writers && v != w ==> !SamePlace(writers[v], writers[w])
  }

  ghost predicate SetsOk(written: set<nat>, ready: set<nat>, tails: nat) {
    ready <= written && forall p: nat :: p in written ==> p < tails
  }

  /** A block names a reservation only once that one has written it, and lies in its slot. */
  ghost predicate OwnersOk(memory: seq<Cell>, written: set<nat>) {
    forall i :: 0 <= i < |memory| && memory[i].owner >= 0 ==>
      memory[i].owner in written && SlotOf(memory[i].owner, |memory|) == i
  }

  /** What was copied before it was written is not the entry of that reservation. */
  ghost predicate LateOk(late: set<nat>, early: set<nat>, delivered: seq<Cell>) {
    late <= early && forall p: nat :: p in late ==> p < |delivered| && delivered[p].owner != p
  }

  /** As long as everything copied had been written: the copies are the entries in order, and the
      memory holds every entry that was written and not yet given up. */
  ghost predicate ContentOk(memory: seq<Cell>, heads: nat, n: nat, reserved: seq<Entry>, written: set<nat>,
                            delivered: seq<Cell>)
    requires 0 < n == |memory|
  {
    && |delivered| <= |reserved|
    && (forall p: nat :: p < |delivered| ==> p in written && delivered[p] == Cell(reserved[p], p))
    && (forall p: nat :: p in written && heads <= p ==>
          p < |reserved| && memory[SlotOf(p, n)] == Cell(reserved[p], p))
  }

  /** As long as everything copied was ready: in the n counts from the head on a slot shows the flag
      of its lap exactly when its entry is ready. */
  ghost predicate FlagsOk(flags: seq<bool>, heads: nat, n: nat, ready: set<nat>, delivered: nat)
    requires 0 < n == |flags|
  {
    && (forall p: nat :: p < delivered ==> p in ready)
    && (forall p: nat {:trigger p in ready} :: heads <= p < heads + n ==>
          (flags[SlotOf(p, n)] == FlagOf(p, n) <==> p in ready))
  }

  /** The flags that matched belonged to entries that are ready. */
  ghost predicate SeenOk(r: Reader, heads: nat, ready: set<nat>) {
    match r
    case Checking(_, valid) => forall p: nat :: heads <= p < heads + valid ==> p in ready
    case Copying(num, _, checked, _) => checked ==> forall p: nat :: heads <= p < heads + num ==> p in ready
    case _ => true
  }

  /** What holds in every run */
  ghost predicate Counts(s: Sys) {
    && GoodCount(s.n) && |s.flags| == s.n && |s.memory| == s.n
    && CountersOk(s.tail, s.head, Tails(s), s.heads, s.validFlag, s.n)
    && ReaderOk(s.reader, |s.delivered|, s.heads, Tails(s))
    && PhasesOk(s.writers, s.heads, s.n, s.reserved, s.written, s.ready)
    && PlacesDiffer(s.writers)
  }

  ghost predicate History(s: Sys) {
    SetsOk(s.written, s.ready, Tails(s)) && OwnersOk(s.memory, s.written) && LateOk(s.late, s.early, s.delivered)
  }

  ghost predicate Content(s: Sys)
    requires Sized(s)
  {
    s.late == {} ==> ContentOk(s.memory, s.heads, s.n, s.reserved, s.written, s.delivered)
  }

  ghost predicate Flags(s: Sys)
    requires Sized(s)
  {
    s.early == {} ==>
      FlagsOk(s.flags, s.heads, s.n, s.ready, |s.delivered|) && SeenOk(s.reader, s.heads, s.ready)
  }

  ghost predicate Inv(s: Sys) {
    Counts(s) && History(s) && Content(s) && Flags(s)
  }

  // ---------- steps of the writers ----------

  /** A writer that only moves in its own attempt */
  lemma MoveKeeps(s: Sys, w: Writer, p: Phase)
    requires Inv(s) && !HoldsPlace(p) && PhaseOk(p, s.heads, s.n, s.reserved, s.written, s.ready)
    ensures Inv(Move(s, w, p))
  {
    hide PhaseOk, SetsOk, OwnersOk, LateOk, ContentOk, FlagsOk, SeenOk, CountersOk, ReaderOk;
  }

  lemma LeaveKeeps(s: Sys, w: Writer)
    requires Inv(s)
    ensures Inv(s.(writers := s.writers - {w}))
  {
    hide PhaseOk, SetsOk, OwnersOk, LateOk, ContentOk, FlagsOk, SeenOk, CountersOk, ReaderOk;
  }

  lemma CountersOf(s: Sys)
    requires Counts(s)
    ensures Sized(s) && GoodCount(s.n) && CountersOk(s.tail, s.head, Tails(s), s.heads, s.validFlag, s.n)
    ensures ReaderOk(s.reader, |s.delivered|, s.heads, Tails(s))
  {
  }

  lemma PhaseOf(s: Sys, w: Writer)
    requires Counts(s) && w in s.writers
    ensures PhaseOk(s.writers[w], s.heads, s.n, s.reserved, s.written, s.ready)
  {
  }

  lemma InvCounts(s: Sys)
    requires Inv(s)
    ensures Counts(s)
  {
  }

  lemma ReadTailKeeps(s: Sys, w: Writer, e: Entry)
    requires Inv(s)
    ensures Inv(Move(s, w, SawTail(e, s.tail, Tails(s))))
  {
    hide Inv, Counts, Stored;
    InvCounts(s);
    CountersOf(s);
    MoveKeeps(s, w, SawTail(e, s.tail, Tails(s)));
  }

  lemma ReadHeadKeeps(s: Sys, a: Action)
    requires Inv(s) && a.ReadHead? && Enabled(s, a) && Sized(s) && (s.reader.Checking? ==> s.reader.num > 0)
    ensures Inv(Apply(s, a))
  {
    hide Inv, Counts, Stored;
    InvCounts(s);
    CountersOf(s);
    PhaseOf(s, a.w);
    var p := s.writers[a.w];
    MoveKeeps(s, a.w, SawHead(p.entry, p.tail1, s.head, p.at, Tails(s), s.heads));
  }

  /** Two equal reads of the tail mean that nobody reserved in between, so the head that was read
      belongs to that tail and the range check decides on the true counts. */
  lemma EqualTails(s: Sys, w: Writer)
    requires Counts(s) && w in s.writers && s.writers[w].SawHead? && Tails(s) < s.writers[w].at + M
    requires s.writers[w].tail1 == s.tail
    ensures var p := s.writers[w];
            && p.at == p.between == Tails(s) && p.headAt <= Tails(s) <= p.headAt + s.n
            && (RangeOk(p.currHead, s.tail, s.n) <==> Tails(s) < p.headAt + s.n)
  {
    hide Counts, RangeOk, Stored;
    CountersOf(s);
    PhaseOf(s, w);
    var p := s.writers[w];
    SameStored(p.at, Tails(s), s.n);
    StoredRange(p.headAt, p.at, s.n);
  }

  lemma StoredRange(h: nat, t: nat, n: nat)
    requires GoodCount(n) && h <= t <= h + n
    ensures RangeOk(Stored(h, n), Stored(t, n), n) <==> t < h + n
  {
    hide RangeOk;
    RangeCheckExact(h + M - 2 * n, t + M - 2 * n, n);
  }

  lemma ReadTailAgainKeeps(s: Sys, a: Action)
    requires Inv(s) && a.ReadTailAgain? && Enabled(s, a) && Sized(s) && (s.reader.Checking? ==> s.reader.num > 0)
    ensures Inv(Apply(s, a))
  {
    hide Inv, Counts, RangeOk, Stored;
    InvCounts(s);
    CountersOf(s);
    PhaseOf(s, a.w);
    var p := s.writers[a.w];
    if p.tail1 != s.tail {
      MoveKeeps(s, a.w, Retry(p.entry));
    } else {
      EqualTails(s, a.w);
      if RangeOk(p.currHead, s.tail, s.n) {
        MoveKeeps(s, a.w, Ready(p.entry, s.tail, p.at, p.headAt));
      } else {
        LeaveKeeps(s, a.w);
      }
    }
  }

  lemma GrownPhase(p: Phase, heads: nat, n: nat, reserved: seq<Entry>, e: Entry, written: set<nat>, ready: set<nat>)
    requires GoodCount(n) && PhaseOk(p, heads, n, reserved, written, ready)
    ensures PhaseOk(p, heads, n, reserved + [e], written, ready)
    ensures HoldsPlace(p) ==> p.pos < |reserved|
  {
  }

  lemma StoredTwice(s: Sys, w: Writer)
    requires Counts(s) && w in s.writers && s.writers[w].Ready? && Tails(s) < s.writers[w].at + M
    ensures s.writers[w].currTail == s.tail ==> s.writers[w].at == Tails(s) < s.heads + s.n
  {
    hide Stored;
    if s.writers[w].currTail == s.tail { SameStored(s.writers[w].at, Tails(s), s.n); }
  }

  /** The compare finds the tail unchanged: the reservation is the next count, and it fits. */
  lemma StoreCounts(s: Sys, w: Writer)
    requires Counts(s) && SetsOk(s.written, s.ready, Tails(s))
    requires w in s.writers && s.writers[w].Ready? && Tails(s) < s.writers[w].at + M && s.writers[w].currTail == s.tail
    ensures Counts(Store(s, w))
  {
    hide Stored, FlagOf;
    StoredTwice(s, w);
    NextStored(Tails(s), 1, s.n);
    var p := s.writers[w];
    forall v | v in s.writers
      ensures PhaseOk(s.writers[v], s.heads, s.n, s.reserved + [p.entry], s.written, s.ready)
      ensures HoldsPlace(s.writers[v]) ==> s.writers[v].pos < Tails(s)
    {
      PhaseOf(s, v);
      GrownPhase(s.writers[v], s.heads, s.n, s.reserved, p.entry, s.written, s.ready);
    }
    assert Tails(s) !in s.written;
    hide PhaseOk;
  }

  lemma StoreKeeps(s: Sys, w: Writer)
    requires Inv(s) && w in s.writers && s.writers[w].Ready? && Tails(s) < s.writers[w].at + M
    ensures Inv(Store(s, w))
  {
    if s.writers[w].currTail != s.tail {
      hide Inv;
      MoveKeeps(s, w, Retry(s.writers[w].entry));
    } else {
      hide Counts, FlagsOk, SeenOk, OwnersOk, LateOk;
      CountersOf(s);
      StoreCounts(s, w);
    }
  }

  /** Other counts of the window keep their slots. */
  lemma OtherSlots(heads: nat, n: nat, pos: nat)
    requires n > 0 && heads <= pos < heads + n
    ensures forall p: nat {:trigger SlotOf(p, n)} :: heads <= p < heads + n && p != pos ==> SlotOf(p, n) != SlotOf(pos, n)
  {
    forall p: nat | heads <= p < heads + n && p != pos ensures SlotOf(p, n) != SlotOf(pos, n) {
      if p < pos { SlotsDiffer(p, pos, n); } else { SlotsDiffer(pos, p, n); }
    }
  }

  /** The new knowledge of the other writers when pos is added to one of the two sets */
  lemma OthersOk(writers: map<Writer, Phase>, w: Writer, heads: nat, n: nat, reserved: seq<Entry>, written: set<nat>,
                 ready: set<nat>, moreWritten: set<nat>, moreReady: set<nat>)
    requires GoodCount(n) && PhasesOk(writers, heads, n, reserved, written, ready) && PlacesDiffer(writers)
    requires w in writers && HoldsPlace(writers[w])
    requires written <= moreWritten <= written + {writers[w].pos} && ready <= moreReady <= ready + {writers[w].pos}
    ensures PhasesOk(map v | v in writers && v != w :: writers[v], heads, n, reserved, moreWritten, moreReady)
  {
    hide Stored;
    forall v | v in writers && v != w ensures PhaseOk(writers[v], heads, n, reserved, moreWritten, moreReady) {
      assert !SamePlace(writers[v], writers[w]);
    }
  }

  lemma WriteCounts(s: Sys, w: Writer)
    requires Counts(s) && w in s.writers && s.writers[w].Filling? && (s.reader.Checking? ==> s.reader.num > 0)
    ensures Counts(Apply(s, WriteEntry(w)))
  {
    hide Stored, FlagOf, SlotOf, CountersOk, ReaderOk;
    var p := s.writers[w];
    OthersOk(s.writers, w, s.heads, s.n, s.reserved, s.written, s.ready, s.written + {p.pos}, s.ready);
  }

  /** A slot that has not been written lies behind all copies as long as all copies were written. */
  lemma WriteContent(s: Sys, w: Writer)
    requires Counts(s) && SetsOk(s.written, s.ready, Tails(s)) && s.late == {} && Content(s)
    requires w in s.writers && s.writers[w].Filling? && (s.reader.Checking? ==> s.reader.num > 0)
    ensures var r := Apply(s, WriteEntry(w)); ContentOk(r.memory, r.heads, r.n, r.reserved, r.written, r.delivered)
  {
    hide Stored, FlagOf;
    var p := s.writers[w];
    PhaseOf(s, w);
    assert p.pos >= |s.delivered| >= s.heads;
    SameSlot(p.pos, s.n);
    OtherSlots(s.heads, s.n, p.pos);
    hide SlotOf, PhasesOk, PlacesDiffer;
  }

  lemma WriteKeeps(s: Sys, w: Writer)
    requires Inv(s) && w in s.writers && s.writers[w].Filling? && (s.reader.Checking? ==> s.reader.num > 0)
    ensures Inv(Apply(s, WriteEntry(w)))
  {
    hide Counts, ContentOk, FlagsOk, SeenOk, SlotOf, FlagOf, LateOk, Stored;
    CountersOf(s);
    WriteCounts(s, w);
    PhaseOf(s, w);
    SameSlot(s.writers[w].pos, s.n);
    if s.late == {} { WriteContent(s, w); }
  }

  lemma SetFlagCounts(s: Sys, w: Writer)
    requires Counts(s) && w in s.writers && s.writers[w].Filled? && (s.reader.Checking? ==> s.reader.num > 0)
    ensures Counts(Apply(s, SetFlag(w)))
  {
    hide Stored, FlagOf, SlotOf, CountersOk, ReaderOk;
    var p := s.writers[w];
    OthersOk(s.writers, w, s.heads, s.n, s.reserved, s.written, s.ready, s.written, s.ready + {p.pos});
  }

  lemma SetFlagFlags(s: Sys, w: Writer)
    requires Counts(s) && s.early == {} && Flags(s)
    requires w in s.writers && s.writers[w].Filled? && (s.reader.Checking? ==> s.reader.num > 0)
    ensures var r := Apply(s, SetFlag(w)); FlagsOk(r.flags, r.heads, r.n, r.ready, |r.delivered|)
  {
    hide Stored;
    var p := s.writers[w];
    PhaseOf(s, w);
    assert p.pos >= |s.delivered| >= s.heads;
    SameSlot(p.pos, s.n);
    OtherSlots(s.heads, s.n, p.pos);
    hide SlotOf, FlagOf, PhasesOk, PlacesDiffer;
  }

  lemma SetFlagKeeps(s: Sys, w: Writer)
    requires Inv(s) && w in s.writers && s.writers[w].Filled? && (s.reader.Checking? ==> s.reader.num > 0)
    ensures Inv(Apply(s, SetFlag(w)))
  {
    hide Counts, ContentOk, FlagsOk, SlotOf, FlagOf, LateOk, OwnersOk;
    CountersOf(s);
    SetFlagCounts(s, w);
    PhaseOf(s, w);
    if s.early == {} { SetFlagFlags(s, w); }
  }

  // ---------- steps of the reader ----------

  /** The reader alone moves. */
  lemma ReaderMoves(s: Sys, r: Reader)
    requires Inv(s) && ReaderOk(r, |s.delivered|, s.heads, Tails(s))
    requires s.early == {} ==> SeenOk(r, s.heads, s.ready)
    ensures Inv(s.(reader := r))
  {
    hide ContentOk, FlagsOk, SeenOk, CountersOk, PhasesOk, PlacesDiffer, ReaderOk;
  }

  lemma StoredDistance(h: nat, t: nat, n: nat)
    requires GoodCount(n) && h <= t <= h + n
    ensures var a, b := Shifted(Stored(h, n), Stored(h, n), n), Shifted(Stored(h, n), Stored(t, n), n);
            a <= b <= a + n && b - a == t - h
  {
    hide Shifted;
    ReaderDistance(h + M - 2 * n, t + M - 2 * n, n);
  }

  /** Main result, reader. It works on the true number of unread entries, and it stops looking at
      the flags exactly when less room than the threshold is left. */
  lemma LookExact(s: Sys, listEmpty: bool)
    requires Counts(s)
    ensures var num := Tails(s) - s.heads;
            Look(s.head, s.tail, s.n, listEmpty) ==
            if s.n - num < NO_CHECK then (if num == 0 then Stopped else Copying(num, 0, false, false))
            else if num > MANY || (listEmpty && num > 0) then Checking(num, 0)
            else Idle
    ensures FinalLook(s.head, s.tail, s.n) ==
            if s.heads == Tails(s) then Stopped else Copying(Tails(s) - s.heads, 0, false, true)
  {
    hide Counts, Shifted, Stored;
    CountersOf(s);
    StoredDistance(s.heads, Tails(s), s.n);
  }

  lemma LookKeeps(s: Sys, listEmpty: bool)
    requires Inv(s) && s.reader.Idle?
    ensures Inv(s.(reader := Look(s.head, s.tail, s.n, listEmpty)))
    ensures Inv(s.(reader := FinalLook(s.head, s.tail, s.n)))
  {
    hide Inv, Counts, Look, FinalLook;
    InvCounts(s);
    CountersOf(s);
    LookExact(s, listEmpty);
    hide CountersOk;
    ReaderMoves(s, Look(s.head, s.tail, s.n, listEmpty));
    ReaderMoves(s, FinalLook(s.head, s.tail, s.n));
  }

  /** The flag the reader compares with is that of the lap of the count. */
  lemma MatchIsFlag(s: Sys, v: nat)
    requires Counts(s) && v < s.n
    ensures FlagMatches(s.flags, s.head, s.n, s.validFlag, v) <==>
            s.flags[SlotOf(s.heads + v, s.n)] == FlagOf(s.heads + v, s.n)
  {
    hide Counts, Stored, SlotOf, FlagOf, ReaderIndex;
    CountersOf(s);
    ReaderIndexRight(s.heads, s.n);
    SlotAhead(s.heads, v, s.n);
    FlagAhead(s.heads, v, s.n);
  }

  lemma CheckSeen(s: Sys)
    requires Counts(s) && Flags(s) && s.early == {} && s.reader.Checking?
    ensures SeenOk(Check(s.reader, s.flags, s.head, s.n, s.validFlag), s.heads, s.ready)
  {
    hide Counts, FlagOf, SlotOf, FlagMatches;
    CountersOf(s);
    var v := s.reader.valid;
    if v < s.reader.num {
      MatchIsFlag(s, v);
      assert FlagMatches(s.flags, s.head, s.n, s.validFlag, v) <==> s.heads + v in s.ready;
    }
  }

  lemma CheckKeeps(s: Sys)
    requires Inv(s) && s.reader.Checking?
    ensures Sized(s) && 0 < s.reader.num <= s.n && Inv(s.(reader := Check(s.reader, s.flags, s.head, s.n, s.validFlag)))
  {
    hide Counts, History, Content, FlagsOk, FlagMatches, SeenOk;
    CountersOf(s);
    if s.early == {} { CheckSeen(s); }
    hide CountersOk;
    ReaderMoves(s, Check(s.reader, s.flags, s.head, s.n, s.validFlag));
  }

  /** The block that is copied next lies in the slot of the next count. */
  lemma CopySlot(s: Sys)
    requires Counts(s) && Enabled(s, CopyBlock)
    ensures Copy(s).delivered == s.delivered + [s.memory[SlotOf(|s.delivered|, s.n)]]
    ensures |s.delivered| == s.heads + s.reader.done < Tails(s)
  {
    hide Counts, Stored, SlotOf, ReaderIndex;
    CountersOf(s);
    ReaderIndexRight(s.heads, s.n);
    SlotAhead(s.heads, s.reader.done, s.n);
  }

  lemma CopyHistory(s: Sys)
    requires Counts(s) && History(s) && Enabled(s, CopyBlock)
    ensures History(Copy(s))
  {
    hide Counts, SlotOf, Copy;
    CountersOf(s);
    CopySlot(s);
    CopyFields(s);
  }

  lemma CopyFields(s: Sys)
    requires Sized(s) && Enabled(s, CopyBlock)
    ensures var p, r := |s.delivered|, Copy(s);
            && r.late == (if p in s.written then s.late else s.late + {p})
            && r.early == (if p in s.ready then s.early else s.early + {p})
            && r == s.(reader := r.reader, delivered := r.delivered, late := r.late, early := r.early)
            && r.reader == s.reader.(done := s.reader.done + 1)
  {
    hide ReaderIndex, Ahead;
  }

  /** What is copied from a block that was written is the entry of that reservation. */
  lemma CopyContent(s: Sys)
    requires Counts(s) && Content(s) && Enabled(s, CopyBlock) && Copy(s).late == {}
    ensures var r := Copy(s);
            && |s.delivered| in s.written && s.late == {}
            && ContentOk(r.memory, r.heads, r.n, r.reserved, r.written, r.delivered)
  {
    hide Counts, SlotOf, Copy;
    CountersOf(s);
    CopySlot(s);
    CopyFields(s);
  }

  lemma CopyFlags(s: Sys)
    requires Counts(s) && Flags(s) && Enabled(s, CopyBlock) && Copy(s).early == {}
    ensures var r := Copy(s);
            && |s.delivered| in s.ready && s.early == {}
            && FlagsOk(r.flags, r.heads, r.n, r.ready, |r.delivered|) && SeenOk(r.reader, r.heads, r.ready)
  {
    hide Counts, SlotOf, FlagOf, Copy;
    CountersOf(s);
    CopySlot(s);
    CopyFields(s);
  }

  lemma CopyCounts(s: Sys)
    requires Counts(s) && Enabled(s, CopyBlock)
    ensures Counts(Copy(s))
  {
    hide PhaseOk, CountersOk, PlacesDiffer, SlotOf;
  }

  lemma CopyKeeps(s: Sys)
    requires Inv(s) && Enabled(s, CopyBlock)
    ensures Sized(s) && Inv(Copy(s))
  {
    hide Counts, History, FlagsOk, ContentOk, SeenOk, Copy, Content, Flags;
    CountersOf(s);
    CopyCounts(s);
    CopyHistory(s);
    ContentAfterCopy(s);
    FlagsAfterCopy(s);
  }

  lemma ContentAfterCopy(s: Sys)
    requires Counts(s) && Content(s) && Enabled(s, CopyBlock)
    ensures Sized(Copy(s)) && Content(Copy(s))
  {
    hide Counts, ContentOk, Copy;
    CountersOf(s);
    CopyFields(s);
    if Copy(s).late == {} { CopyContent(s); }
  }

  lemma FlagsAfterCopy(s: Sys)
    requires Counts(s) && Flags(s) && Enabled(s, CopyBlock)
    ensures Sized(Copy(s)) && Flags(Copy(s))
  {
    hide Counts, FlagsOk, SeenOk, Copy;
    CountersOf(s);
    CopyFields(s);
    if Copy(s).early == {} { CopyFlags(s); }
  }

  /** The head may move to any count up to the tail: what writers know stays true. */
  lemma AnyAdvanceKeeps(writers: map<Writer, Phase>, heads: nat, h: nat, n: nat, reserved: seq<Entry>,
                        written: set<nat>, ready: set<nat>)
    requires GoodCount(n) && PhasesOk(writers, heads, n, reserved, written, ready) && heads <= h
    ensures PhasesOk(writers, h, n, reserved, written, ready)
  {
    hide Stored;
  }

  /** Main result, any reader. Whatever moves the head to a count up to the tail, the counters stay
      sound and writers keep what they know, so their steps keep it as well. */
  lemma AnyHeadKeeps(s: Sys, h: nat)
    requires Counts(s) && s.heads <= h <= Tails(s)
    ensures CountersOk(s.tail, Stored(h, s.n), Tails(s), h, FlagOf(h, s.n), s.n)
    ensures PhasesOk(s.writers, h, s.n, s.reserved, s.written, s.ready)
  {
    AnyAdvanceKeeps(s.writers, s.heads, h, s.n, s.reserved, s.written, s.ready);
    hide PhasesOk, PlacesDiffer, Stored, FlagOf;
  }

  lemma AdvanceCounters(s: Sys)
    requires Counts(s) && Enabled(s, Publish) && !s.reader.last
    ensures var r := Advance(s); CountersOk(r.tail, r.head, Tails(r), r.heads, r.validFlag, r.n)
  {
    hide Counts, Stored, SlotOf, FlagOf, ReaderIndex;
    CountersOf(s);
    ReaderIndexRight(s.heads, s.n);
    FlagAhead(s.heads, s.reader.num, s.n);
    NextStored(s.heads, s.reader.num, s.n);
  }

  lemma AdvanceCounts(s: Sys)
    requires Counts(s) && Enabled(s, Publish) && !s.reader.last
    ensures Counts(Advance(s))
  {
    AdvanceCounters(s);
    AnyAdvanceKeeps(s.writers, s.heads, s.heads + s.reader.num, s.n, s.reserved, s.written, s.ready);
    hide PhasesOk, PlacesDiffer, CountersOk, ReaderIndex;
  }

  /** The counts that enter the window show the flag of the lap before. */
  lemma AdvanceFlags(flags: seq<bool>, heads: nat, h: nat, n: nat, ready: set<nat>, tails: nat)
    requires 0 < n == |flags| && FlagsOk(flags, heads, n, ready, h) && heads <= h <= heads + n
    requires forall p: nat :: p in ready ==> p < heads + n
    ensures FlagsOk(flags, h, n, ready, h)
  {
    hide SlotOf, FlagOf;
    forall p: nat | heads + n <= p < h + n
      ensures flags[SlotOf(p, n)] == FlagOf(p, n) <==> p in ready
    {
      FlagsAlternate(p - n, n);
      assert p - n in ready;
    }
  }

  lemma PublishKeeps(s: Sys)
    requires Inv(s) && Enabled(s, Publish)
    ensures Sized(s) && Inv(Advance(s))
  {
    hide Counts, FlagsOk, ContentOk, OwnersOk, LateOk, SlotOf, FlagOf, Advance;
    CountersOf(s);
    if s.reader.last {
      hide SeenOk, History, Content, Flags;
      ReaderMoves(s, Stopped);
      AdvanceFields(s);
    } else {
      AdvanceCounts(s);
      AdvanceFields(s);
      AdvanceContent(s);
      if s.early == {} {
        AdvanceFlags(s.flags, s.heads, s.heads + s.reader.num, s.n, s.ready, Tails(s));
      }
    }
  }

  lemma AdvanceFields(s: Sys)
    requires s.n > 0 && Enabled(s, Publish)
    ensures var r := Advance(s);
            if s.reader.last then r == s.(reader := Stopped)
            else r == s.(reader := Idle, validFlag := r.validFlag, head := r.head, heads := s.heads + s.reader.num)
  {
    hide ReaderIndex;
  }

  lemma AdvanceContent(s: Sys)
    requires Counts(s) && Content(s) && Enabled(s, Publish) && !s.reader.last
    ensures Sized(Advance(s)) && Content(Advance(s))
  {
    hide Counts, Advance, SlotOf;
    CountersOf(s);
    AdvanceFields(s);
  }

  /** What the description of a step needs besides; it holds in every state of the invariant, as
      EnabledIsPossible says. */
  predicate Possible(s: Sys, a: Action) {
    Enabled(s, a) && Sized(s) && (s.reader.Checking? ==> s.reader.num > 0)
  }

  lemma EnabledIsPossible(s: Sys, a: Action)
    requires Inv(s) && Enabled(s, a)
    ensures Possible(s, a)
  {
    hide Counts, Enabled, History, Content, Flags;
    CountersOf(s);
  }

  lemma StepKeeps(s: Sys, a: Action)
    requires Inv(s) && Possible(s, a)
    ensures Inv(Apply(s, a))
  {
    hide Inv, SlotOf, FlagOf, Copy, Advance, Store, Look, FinalLook, Check, Move, RangeOk;
    match a
    case ReadTail(w, e) => ReadTailKeeps(s, w, e);
    case ReadHead(_) => ReadHeadKeeps(s, a);
    case ReadTailAgain(_) => ReadTailAgainKeeps(s, a);
    case CompareAndStore(w) => StoreKeeps(s, w);
    case WriteEntry(w) => WriteKeeps(s, w);
    case SetFlag(w) => SetFlagKeeps(s, w);
    case LookAtTail(listEmpty) => LookKeeps(s, listEmpty);
    case LastLook => LookKeeps(s, true);
    case CheckFlag => CheckKeeps(s);
    case CopyBlock => CopyKeeps(s);
    case Publish => PublishKeeps(s);
  }
}
