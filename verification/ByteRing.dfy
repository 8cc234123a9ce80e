/** The QSemOS byte ring buffer: a bounded first-in, first-out queue of bytes on one array. The
    calls test for emptiness or fullness before they take the lock, and not again inside. */
module ByteRing {
  import opened Options
  import opened Ring

  type Byte = b: nat | b < 256

  const M: nat := 0x1_0000_0000
  // The longest block memcpy_s copies
  const MAX_COPY: nat := 0x7FFF_FFFF

  function Min(x: nat, y: nat): nat {
    if x < y then x else y
  }

  datatype Rb = Rb(fifo: seq<Byte>, startIdx: nat, endIdx: nat, remain: nat)

  predicate Indexed(r: Rb) {
    0 < |r.fifo| <= MAX_COPY && r.startIdx < |r.fifo| && r.endIdx < |r.fifo| && r.remain < M
  }

  /** The free space and both indices describe one stretch of used cells. */
  predicate Sound(r: Rb) {
    Indexed(r) && r.remain <= |r.fifo| && r.endIdx == Slot(r.startIdx, |r.fifo| - r.remain, |r.fifo|)
  }

  /** The bytes that were written and not yet read, oldest first */
  function Contents(r: Rb): (c: seq<Byte>)
    requires Sound(r)
    ensures |c| == |r.fifo| - r.remain
  {
    Window(r.fifo, r.startIdx, |r.fifo| - r.remain)
  }

  // ---------- the locked regions ----------

  /** OsRingbufWriteLinear; nothing when the copy would leave the array */
  function LinearWrite(r: Rb, xs: seq<Byte>): Option<(Rb, nat)> {
    var c := Min(r.remain, |xs|);
    if c == 0 then Some((r, 0))
    else if r.endIdx + c > |r.fifo| then None
    else Some((r.(fifo := Overwritten(r.fifo, r.endIdx, xs[..c]), remain := r.remain - c, endIdx := r.endIdx + c), c))
  }

  /** The first copy of OsRingbufWriteLoop, up to the end of the array */
  function RightWrite(r: Rb, xs: seq<Byte>): (Rb, nat)
    requires Indexed(r)
  {
    var c := Min(|r.fifo| - r.endIdx, |xs|);
    (r.(fifo := Overwritten(r.fifo, r.endIdx, xs[..c]), remain := (r.remain + M - c) % M,
        endIdx := if r.endIdx + c == |r.fifo| then 0 else r.endIdx + c), c)
  }

  /** OsRingbufWriteLoop */
  function LoopWrite(r: Rb, xs: seq<Byte>): Option<(Rb, nat)>
    requires Indexed(r)
  {
    var (r1, c) := RightWrite(r, xs);
    if c == |xs| then Some((r1, c))
    else
      match LinearWrite(r1, xs[c..])
      case None => None
      case Some(p) => Some((p.0, c + p.1))
  }

  /** PRT_RingbufWrite inside the lock */
  function WriteRegion(r: Rb, xs: seq<Byte>): Option<(Rb, nat)>
    requires Indexed(r)
  {
    if r.startIdx <= r.endIdx then LoopWrite(r, xs) else LinearWrite(r, xs)
  }

  /** OsRingbufReadLinear, for a start not behind the end */
  function LinearRead(r: Rb, len: nat): (Rb, seq<Byte>)
    requires r.startIdx <= r.endIdx <= |r.fifo|
  {
    var c := Min(r.endIdx - r.startIdx, len);
    if c == 0 then (r, [])
    else (r.(remain := (r.remain + c) % M, startIdx := r.startIdx + c), r.fifo[r.startIdx..r.startIdx + c])
  }

  /** The first copy of OsRingbufReadLoop, up to the end of the array */
  function RightRead(r: Rb, len: nat): (Rb, seq<Byte>)
    requires Indexed(r)
  {
    var c := Min(|r.fifo| - r.startIdx, len);
    (r.(remain := (r.remain + c) % M, startIdx := if r.startIdx + c == |r.fifo| then 0 else r.startIdx + c),
     r.fifo[r.startIdx..r.startIdx + c])
  }

  /** OsRingbufReadLoop */
  function LoopRead(r: Rb, len: nat): (Rb, seq<Byte>)
    requires Indexed(r)
  {
    var (r1, xs) := RightRead(r, len);
    if |xs| == len then (r1, xs)
    else
      var (r2, ys) := LinearRead(r1, len - |xs|);
      (r2, xs + ys)
  }

  /** PRT_RingbufRead inside the lock */
  function ReadRegion(r: Rb, len: nat): (Rb, seq<Byte>)
    requires Indexed(r)
  {
    if r.startIdx >= r.endIdx then LoopRead(r, len) else LinearRead(r, len)
  }

  // ---------- one region on a ring that has room or bytes ----------

  /** xs joined the end of the bytes of r. */
  ghost predicate Appended(r: Rb, after: Rb, xs: seq<Byte>) {
    && Sound(r) && Sound(after) && |after.fifo| == |r.fifo| && after.startIdx == r.startIdx
    && |xs| <= r.remain && after.remain == r.remain - |xs| && Contents(after) == Contents(r) + xs
  }

  /** xs left the front of the bytes of r. */
  ghost predicate Dropped(r: Rb, after: Rb, xs: seq<Byte>) {
    && Sound(r) && Sound(after) && after.fifo == r.fifo && after.endIdx == r.endIdx
    && |xs| <= |Contents(r)| && after.remain == r.remain + |xs|
    && xs == Contents(r)[..|xs|] && Contents(after) == Contents(r)[|xs|..]
  }

  lemma AppendedTwice(r: Rb, q: Rb, s: Rb, xs: seq<Byte>, ys: seq<Byte>)
    requires Appended(r, q, xs) && Appended(q, s, ys)
    ensures Appended(r, s, xs + ys)
  {
    hide Contents, Sound;
  }

  lemma DroppedTwice(r: Rb, q: Rb, s: Rb, xs: seq<Byte>, ys: seq<Byte>)
    requires Dropped(r, q, xs) && Dropped(q, s, ys)
    ensures Dropped(r, s, xs + ys)
  {
    hide Contents, Sound;
    var all := Contents(r);
    assert all[|xs|..][..|ys|] == all[|xs|..|xs| + |ys|];
    assert all[|xs|..][|ys|..] == all[|xs| + |ys|..];
    assert all[..|xs|] + all[|xs|..|xs| + |ys|] == all[..|xs| + |ys|];
  }

  lemma AppendNothing(r: Rb)
    requires Sound(r)
    ensures Appended(r, r, [])
  {
    hide Contents, Sound;
  }

  lemma DropNothing(r: Rb)
    requires Sound(r)
    ensures Dropped(r, r, [])
  {
    hide Contents, Sound;
    assert Contents(r)[..0] == [] && Contents(r)[0..] == Contents(r);
  }

  /** The free space is one stretch that ends before the used one. */
  lemma LinearWriteRight(r: Rb, xs: seq<Byte>)
    requires Sound(r) && r.endIdx + r.remain == r.startIdx
    ensures var c := Min(|xs|, r.remain);
            && LinearWrite(r, xs).Some? && LinearWrite(r, xs).value.1 == c
            && Appended(r, LinearWrite(r, xs).value.0, xs[..c])
  {
    hide Window, Overwritten;
    var c := Min(|xs|, r.remain);
    if c == 0 {
      AppendNothing(r);
      assert xs[..0] == [];
    } else {
      WindowAppendBlock(r.fifo, r.startIdx, |r.fifo| - r.remain, xs[..c]);
      OverwrittenLength(r.fifo, r.endIdx, xs[..c]);
    }
  }

  lemma OverwrittenLength(s: seq<Byte>, at: nat, xs: seq<Byte>)
    requires at + |xs| <= |s|
    ensures |Overwritten(s, at, xs)| == |s|
  {
  }

  lemma RightWriteRight(r: Rb, xs: seq<Byte>)
    requires Sound(r) && r.startIdx <= r.endIdx && r.remain > 0
    ensures var (r1, c) := RightWrite(r, xs);
            && c == Min(|r.fifo| - r.endIdx, |xs|)
            && Appended(r, r1, xs[..c]) && (c < |xs| ==> r1.endIdx == 0)
  {
    hide Window, Overwritten;
    var c := Min(|r.fifo| - r.endIdx, |xs|);
    WindowAppendBlock(r.fifo, r.startIdx, |r.fifo| - r.remain, xs[..c]);
    OverwrittenLength(r.fifo, r.endIdx, xs[..c]);
  }

  /** Main result, writing. With room at the time of the lock the longest prefix that fits is
      appended, also across the end of the array. */
  lemma WriteAppends(r: Rb, xs: seq<Byte>)
    requires Sound(r) && r.remain > 0
    ensures var w := WriteRegion(r, xs);
            w.Some? && w.value.1 == Min(|xs|, r.remain) && Appended(r, w.value.0, xs[..w.value.1])
  {
    hide LinearWrite, RightWrite, Appended, Window;
    if r.startIdx <= r.endIdx {
      RightWriteRight(r, xs);
      var (r1, c) := RightWrite(r, xs);
      if c < |xs| {
        AppendedMeans(r, r1, xs[..c]);
        LinearWriteRight(r1, xs[c..]);
        var p := LinearWrite(r1, xs[c..]).value;
        AppendedTwice(r, r1, p.0, xs[..c], xs[c..][..p.1]);
        assert xs[..c] + xs[c..][..p.1] == xs[..c + p.1];
      }
    } else {
      LinearWriteRight(r, xs);
    }
  }

  lemma AppendedMeans(r: Rb, after: Rb, xs: seq<Byte>)
    requires Appended(r, after, xs)
    ensures Sound(after) && |after.fifo| == |r.fifo| && after.startIdx == r.startIdx
    ensures after.remain == r.remain - |xs| && |xs| <= r.remain
  {
  }

  lemma SlotMoves(h: nat, c: nat, k: nat, n: nat)
    requires h < n && c <= k <= n && h + c <= n
    ensures Slot(h, c, n) == (if h + c == n then 0 else h + c) && Slot(Slot(h, c, n), k - c, n) == Slot(h, k, n)
  {
  }

  /** c bytes up to the end of the array are handed out. */
  lemma DropFront(r: Rb, c: nat)
    requires Sound(r) && c <= |r.fifo| - r.remain && r.startIdx + c <= |r.fifo|
    ensures var after := r.(remain := r.remain + c, startIdx := if r.startIdx + c == |r.fifo| then 0 else r.startIdx + c);
            Dropped(r, after, r.fifo[r.startIdx..r.startIdx + c])
  {
    hide Window, Slot;
    var k := |r.fifo| - r.remain;
    SlotMoves(r.startIdx, c, k, |r.fifo|);
    WindowSkip(r.fifo, r.startIdx, k, c);
    WindowStart(r.fifo, r.startIdx, k, c);
  }

  lemma LinearReadRight(r: Rb, len: nat)
    requires Sound(r) && r.startIdx + (|r.fifo| - r.remain) == r.endIdx
    ensures var (after, xs) := LinearRead(r, len);
            |xs| == Min(len, |r.fifo| - r.remain) && Dropped(r, after, xs)
  {
    hide Window, Slot, Dropped;
    var c := Min(r.endIdx - r.startIdx, len);
    if c == 0 { DropNothing(r); } else { DropFront(r, c); }
  }

  lemma RightReadRight(r: Rb, len: nat)
    requires Sound(r) && r.startIdx >= r.endIdx && r.remain < |r.fifo|
    ensures var (after, xs) := RightRead(r, len);
            && |xs| == Min(len, |r.fifo| - r.startIdx)
            && Dropped(r, after, xs) && (|xs| < len ==> after.startIdx == 0)
  {
    hide Window, Dropped;
    DropFront(r, Min(|r.fifo| - r.startIdx, len));
  }

  /** Main result, reading. With bytes there at the time of the lock the longest available prefix is
      handed out and removed, also across the end of the array. */
  lemma ReadTakes(r: Rb, len: nat)
    requires Sound(r) && r.remain < |r.fifo|
    ensures var (after, xs) := ReadRegion(r, len);
            |xs| == Min(len, |r.fifo| - r.remain) && Dropped(r, after, xs)
  {
    hide LinearRead, RightRead, Dropped, Window;
    if r.startIdx >= r.endIdx {
      RightReadRight(r, len);
      var (r1, xs) := RightRead(r, len);
      DroppedMeans(r, r1, xs);
      if |xs| < len {
        LinearReadRight(r1, len - |xs|);
        var (r2, ys) := LinearRead(r1, len - |xs|);
        DroppedTwice(r, r1, r2, xs, ys);
      }
    } else {
      LinearReadRight(r, len);
    }
  }

  lemma DroppedMeans(r: Rb, after: Rb, xs: seq<Byte>)
    requires Dropped(r, after, xs)
    ensures Sound(after) && after.fifo == r.fifo && after.endIdx == r.endIdx && after.remain == r.remain + |xs|
  {
  }

  // ---------- the same regions on an empty or a full ring ----------

  /** Reading an empty ring hands out bytes that are not in it and counts more free space than there
      is. */
  lemma EmptyReadWrong(r: Rb, len: nat)
    requires Sound(r) && r.remain == |r.fifo| && len > 0
    ensures var (after, xs) := ReadRegion(r, len);
            |xs| == Min(len, |r.fifo|) > 0 && after.remain == |r.fifo| + |xs| && !Sound(after)
  {
    hide RightRead, LinearRead;
    EmptyRight(r, len);
    var (r1, xs) := RightRead(r, len);
    if |xs| < len { EmptyLinear(r1, len - |xs|, |r.fifo| + |xs|); }
  }

  lemma EmptyRight(r: Rb, len: nat)
    requires Sound(r) && r.remain == |r.fifo|
    ensures r.startIdx == r.endIdx
    ensures var (r1, xs) := RightRead(r, len);
            && |xs| == Min(len, |r.fifo| - r.startIdx) && r1.remain == |r.fifo| + |xs|
            && r1.fifo == r.fifo && r1.endIdx == r.endIdx && (|xs| < len ==> r1.startIdx == 0)
  {
  }

  lemma EmptyLinear(r: Rb, len: nat, remain: nat)
    requires r.startIdx == 0 && r.endIdx <= |r.fifo| <= MAX_COPY && r.remain == remain && remain + r.endIdx < M
    ensures var (r1, xs) := LinearRead(r, len);
            |xs| == Min(len, r.endIdx) && r1.remain == remain + |xs| && r1.fifo == r.fifo
  {
  }

  /** Writing a full ring leaves the array or wraps the free space below zero. */
  lemma FullWriteWrong(r: Rb, xs: seq<Byte>)
    requires Sound(r) && r.remain == 0 && xs != []
    ensures var w := WriteRegion(r, xs); w.Some? ==> !Sound(w.value.0)
  {
    hide RightWrite, LinearWrite;
    FullRight(r, xs);
    var (r1, c) := RightWrite(r, xs);
    if c < |xs| { FullLinear(r1, xs[c..], c); }
  }

  lemma FullRight(r: Rb, xs: seq<Byte>)
    requires Sound(r) && r.remain == 0 && xs != []
    ensures r.startIdx == r.endIdx
    ensures var (r1, c) := RightWrite(r, xs);
            && c == Min(|r.fifo| - r.startIdx, |xs|) > 0 && r1.remain == M - c > |r.fifo|
            && |r1.fifo| == |r.fifo| && r1.startIdx == r.startIdx && (c < |xs| ==> r1.endIdx == 0)
  {
    OverwrittenLength(r.fifo, r.endIdx, xs[..Min(|r.fifo| - r.startIdx, |xs|)]);
    hide Overwritten;
  }

  /** Even when the wrapped free space is small again, it does not fit the indices. */
  lemma FullLinear(r: Rb, xs: seq<Byte>, c: nat)
    requires r.startIdx < |r.fifo| <= MAX_COPY && c == |r.fifo| - r.startIdx && r.endIdx == 0 && r.remain == M - c
    requires xs != []
    ensures var w := LinearWrite(r, xs); w.Some? ==> !Sound(w.value.0)
  {
    var d := Min(r.remain, |xs|);
    if d <= |r.fifo| {
      OverwrittenLength(r.fifo, 0, xs[..d]);
      hide Overwritten;
      assert M - c - d <= |r.fifo| ==> r.startIdx + (|r.fifo| - (M - c - d)) == d - (M - 2 * |r.fifo|);
    }
  }

  /** Main result, the exact condition. A locked read gives the oldest bytes and keeps the ring sound
      if and only if the ring is not empty when the lock is taken, and a locked write appends if and
      only if it is not full then. */
  lemma RegionsRightExactly(r: Rb, len: nat, xs: seq<Byte>)
    requires Sound(r) && len > 0 && xs != []
    ensures Dropped(r, ReadRegion(r, len).0, ReadRegion(r, len).1) <==> r.remain < |r.fifo|
    ensures var w := WriteRegion(r, xs);
            (w.Some? && w.value.1 <= |xs| && Appended(r, w.value.0, xs[..w.value.1])) <==> r.remain > 0
  {
    hide ReadRegion, WriteRegion, Contents, Slot;
    if r.remain < |r.fifo| { ReadTakes(r, len); } else { EmptyReadWrong(r, len); }
    if r.remain > 0 { WriteAppends(r, xs); } else { FullWriteWrong(r, xs); }
  }

  /** Full and empty look alike by their indices and are told apart by the free space alone. */
  lemma EqualIndices(r: Rb)
    requires Sound(r)
    ensures r.startIdx == r.endIdx <==> r.remain == 0 || r.remain == |r.fifo|
  {
  }

  // ---------- several tasks ----------

  type Task = nat

  /** A task that has passed the test and not yet taken the lock */
  datatype Phase = ToRead(len: nat) | ToWrite(xs: seq<Byte>)

  /** `written` and `taken` record all bytes that calls reported as written or handed out; `broken`
      that a region left the array or the indices. */
  datatype Sys = Sys(ring: Rb, phases: map<Task, Phase>, written: seq<Byte>, taken: seq<Byte>, broken: bool)

  datatype Action =
    | TestRead(task: Task, len: nat)
    | TestWrite(task: Task, xs: seq<Byte>)
    | LockedRead(task: Task)
    | LockedWrite(task: Task)

  predicate Enabled(s: Sys, a: Action) {
    match a
    case TestRead(t, _) => t !in s.phases
    case TestWrite(t, _) => t !in s.phases
    case LockedRead(t) => t in s.phases && s.phases[t].ToRead?
    case LockedWrite(t) => t in s.phases && s.phases[t].ToWrite?
  }

  /** A failed test returns 0 and ends the call. */
  function Apply(s: Sys, a: Action): Sys
    requires Enabled(s, a)
  {
    match a
    case TestRead(t, len) =>
      if len == 0 || s.ring.remain == |s.ring.fifo| then s else s.(phases := s.phases[t := ToRead(len)])
    case TestWrite(t, xs) =>
      if xs == [] || s.ring.remain == 0 then s else s.(phases := s.phases[t := ToWrite(xs)])
    case LockedRead(t) =>
      if !Indexed(s.ring) then s.(phases := s.phases - {t}, broken := true)
      else
        var (r, xs) := ReadRegion(s.ring, s.phases[t].len);
        s.(ring := r, phases := s.phases - {t}, taken := s.taken + xs)
    case LockedWrite(t) =>
      var w := if Indexed(s.ring) then WriteRegion(s.ring, s.phases[t].xs) else None;
      if w.None? then s.(phases := s.phases - {t}, broken := true)
      else s.(ring := w.value.0, phases := s.phases - {t},
              written := s.written + s.phases[t].xs[..Min(w.value.1, |s.phases[t].xs|)])
  }

  /** A call goes on to the lock exactly when something was asked for and the ring was not empty or not full at
      the test; the test changes nothing else. */
  lemma TestDoes(s: Sys, a: Action)
    requires Enabled(s, a) && Sound(s.ring) && (a.TestRead? || a.TestWrite?)
    ensures var r := Apply(s, a);
            && r == s.(phases := r.phases)
            && (a.TestRead? ==>
                  r.phases == if a.len > 0 && Contents(s.ring) != [] then s.phases[a.task := ToRead(a.len)] else s.phases)
            && (a.TestWrite? ==>
                  r.phases == if a.xs != [] && |Contents(s.ring)| < |s.ring.fifo| then s.phases[a.task := ToWrite(a.xs)]
                              else s.phases)
  {
  }

  /** A locked region ends its call and nobody else's. While the test still holds, a read hands out as many of the
      oldest bytes as asked for and available, and a write appends as many as fit. */
  lemma LockedDoes(s: Sys, a: Action)
    requires Enabled(s, a) && Sound(s.ring) && (a.LockedRead? || a.LockedWrite?)
    ensures Apply(s, a).phases == s.phases - {a.task}
    ensures var r, c := Apply(s, a), Contents(s.ring);
            if a.LockedRead? then
              c != [] ==>
                var k := Min(s.phases[a.task].len, |c|);
                && Sound(r.ring) && |r.ring.fifo| == |s.ring.fifo| && Contents(r.ring) == c[k..]
                && r.taken == s.taken + c[..k] && r.written == s.written && r.broken == s.broken
            else
              |c| < |s.ring.fifo| ==>
                var xs := s.phases[a.task].xs;
                var k := Min(|xs|, |s.ring.fifo| - |c|);
                && Sound(r.ring) && |r.ring.fifo| == |s.ring.fifo| && Contents(r.ring) == c + xs[..k]
                && r.written == s.written + xs[..k] && r.taken == s.taken && r.broken == s.broken
  {
    hide ReadRegion, WriteRegion, Window, Slot;
    if a.LockedRead? {
      if Contents(s.ring) != [] { ReadTakes(s.ring, s.phases[a.task].len); }
    } else if |Contents(s.ring)| < |s.ring.fifo| {
      WriteAppends(s.ring, s.phases[a.task].xs);
    }
  }

  /** First in, first out: everything written is what was taken followed by what the ring holds. */
  ghost predicate Fifo(s: Sys) {
    !s.broken && Sound(s.ring) && s.written == s.taken + Contents(s.ring)
  }

  /** Pending calls are for at least one byte. */
  predicate Asking(phases: map<Task, Phase>) {
    forall t :: t in phases ==> match phases[t] case ToRead(len) => len > 0 case ToWrite(xs) => xs != []
  }

  /** The test still holds when the lock is taken. */
  predicate StillTrue(s: Sys, a: Action) {
    (a.LockedRead? ==> s.ring.remain < |s.ring.fifo|) && (a.LockedWrite? ==> s.ring.remain > 0)
  }

  lemma AskingKeeps(s: Sys, a: Action)
    requires Enabled(s, a) && Asking(s.phases)
    ensures Asking(Apply(s, a).phases)
  {
    hide ReadRegion, WriteRegion;
  }

  lemma ReadStep(s: Sys, t: Task)
    requires Enabled(s, LockedRead(t)) && Fifo(s) && Asking(s.phases)
    ensures Fifo(Apply(s, LockedRead(t))) <==> s.ring.remain < |s.ring.fifo|
  {
    hide ReadRegion, Contents, Slot;
    var len := s.phases[t].len;
    if s.ring.remain < |s.ring.fifo| {
      ReadTakes(s.ring, len);
      var (r, xs) := ReadRegion(s.ring, len);
      var all := Contents(s.ring);
      assert all == all[..|xs|] + all[|xs|..];
    } else {
      EmptyReadWrong(s.ring, len);
    }
  }

  lemma WriteStep(s: Sys, t: Task)
    requires Enabled(s, LockedWrite(t)) && Fifo(s) && Asking(s.phases)
    ensures Fifo(Apply(s, LockedWrite(t))) <==> s.ring.remain > 0
  {
    hide WriteRegion, Contents, Slot;
    if s.ring.remain > 0 { WriteAppends(s.ring, s.phases[t].xs); } else { FullWriteWrong(s.ring, s.phases[t].xs); }
  }

  /** One step breaks the order exactly when a lock finds the test no longer true. */
  lemma StepFifoExactly(s: Sys, a: Action)
    requires Enabled(s, a) && Fifo(s) && Asking(s.phases)
    ensures Fifo(Apply(s, a)) <==> StillTrue(s, a)
  {
    hide Fifo, ReadRegion, WriteRegion;
    match a
    case LockedRead(t) => ReadStep(s, t);
    case LockedWrite(t) => WriteStep(s, t);
    case _ => SameRing(s, Apply(s, a));
  }

  lemma SameRing(s: Sys, r: Sys)
    requires Fifo(s) && r == s.(phases := r.phases)
    ensures Fifo(r)
  {
  }

  predicate Step(s: Sys, a: Action, r: Sys) {
    Enabled(s, a) && r == Apply(s, a)
  }

  /** Runs from a freshly initialised ring */
  ghost predicate Run(states: seq<Sys>, acts: seq<Action>) {
    && |states| == |acts| + 1
    && (exists fifo: seq<Byte> :: 0 < |fifo| <= MAX_COPY && states[0] == Sys(Rb(fifo, 0, 0, |fifo|), map[], [], [], false))
    && (forall i {:trigger acts[i]} :: 0 <= i < |acts| ==> Step(states[i], acts[i], states[i + 1]))
  }

  lemma StepOfRun(states: seq<Sys>, acts: seq<Action>, n: nat)
    requires Run(states, acts) && n < |acts|
    ensures |states| == |acts| + 1 && Enabled(states[n], acts[n]) && states[n + 1] == Apply(states[n], acts[n])
  {
    hide Enabled, Apply;
    assert Step(states[n], acts[n], states[n + 1]);
  }

  lemma StartsEmpty(states: seq<Sys>, acts: seq<Action>)
    requires Run(states, acts)
    ensures |states| == |acts| + 1 && Fifo(states[0]) && states[0].phases == map[]
  {
  }

  lemma {:induction false} AskingInRun(states: seq<Sys>, acts: seq<Action>, n: nat)
    requires Run(states, acts) && n <= |acts|
    ensures |states| == |acts| + 1 && Asking(states[n].phases)
    decreases n
  {
    hide Apply, Enabled, Fifo;
    StartsEmpty(states, acts);
    if n > 0 {
      hide Run;
      AskingInRun(states, acts, n - 1);
      StepOfRun(states, acts, n - 1);
      AskingKeeps(states[n - 1], acts[n - 1]);
    }
  }

  /** Main result, many tasks. In all states up to n the ring is first in, first out, if and only if
      every lock before n was taken while the test made before it still held. */
  lemma {:induction false} FifoExactly(states: seq<Sys>, acts: seq<Action>, n: nat)
    requires Run(states, acts) && n <= |acts|
    ensures |states| == |acts| + 1
    ensures (forall k :: 0 <= k <= n ==> Fifo(states[k])) <==> (forall i :: 0 <= i < n ==> StillTrue(states[i], acts[i]))
    decreases n
  {
    hide Run, Apply, Enabled, Fifo, StillTrue, Asking;
    StartsEmpty(states, acts);
    if n > 0 {
      FifoExactly(states, acts, n - 1);
      AskingInRun(states, acts, n - 1);
      StepOfRun(states, acts, n - 1);
      if Fifo(states[n - 1]) { StepFifoExactly(states[n - 1], acts[n - 1]); }
    }
  }

  // ---------- one reader and one writer ----------

  predicate OnlyBy(a: Action, reader: Task, writer: Task) {
    (a.TestRead? ==> a.task == reader) && (a.TestWrite? ==> a.task == writer)
  }

  /** What the one reader and the one writer found is still so: only the other one can act. */
  predicate TestsHold(s: Sys, reader: Task, writer: Task) {
    forall t :: t in s.phases ==>
      if s.phases[t].ToRead? then t == reader && s.ring.remain < |s.ring.fifo|
      else t == writer && s.ring.remain > 0
  }

  lemma TestsKeep(s: Sys, a: Action, reader: Task, writer: Task)
    requires Enabled(s, a) && Fifo(s) && TestsHold(s, reader, writer) && OnlyBy(a, reader, writer)
    ensures StillTrue(s, a) && TestsHold(Apply(s, a), reader, writer)
  {
    hide Contents, Slot, ReadRegion, WriteRegion;
    if a.LockedRead? { ReadTakes(s.ring, s.phases[a.task].len); }
    if a.LockedWrite? { WriteAppends(s.ring, s.phases[a.task].xs); }
  }

  /** Main result, one reader and one writer. When only one task reads and only one writes, the ring
      is first in, first out in every state, however their steps interleave. */
  lemma {:induction false} OneReaderOneWriter(states: seq<Sys>, acts: seq<Action>, n: nat, reader: Task, writer: Task)
    requires Run(states, acts) && n <= |acts|
    requires forall i :: 0 <= i < |acts| ==> OnlyBy(acts[i], reader, writer)
    ensures |states| == |acts| + 1 && Fifo(states[n]) && TestsHold(states[n], reader, writer)
    decreases n
  {
    hide Run, Apply, Enabled, Fifo, StillTrue, Asking, OnlyBy;
    StartsEmpty(states, acts);
    if n > 0 {
      hide TestsHold;
      OneReaderOneWriter(states, acts, n - 1, reader, writer);
      StepOfRun(states, acts, n - 1);
      AskingInRun(states, acts, n - 1);
      TestsKeep(states[n - 1], acts[n - 1], reader, writer);
      StepFifoExactly(states[n - 1], acts[n - 1]);
    }
  }

  lemma Extend(states: seq<Sys>, acts: seq<Action>, a: Action)
    requires Run(states, acts) && Enabled(states[|acts|], a)
    ensures Run(states + [Apply(states[|acts|], a)], acts + [a])
  {
    hide Apply, Enabled;
  }

  /** A ring of two cells that holds one byte */
  lemma OneByteIn() returns (states: seq<Sys>, acts: seq<Action>)
    ensures Run(states, acts) && states[|acts|] == Sys(Rb([7, 0], 0, 1, 1), map[], [7], [], false)
    ensures forall i :: 0 <= i < |acts| ==> acts[i].task == 0
  {
    var s0 := Sys(Rb([0, 0], 0, 0, 2), map[], [], [], false);
    states, acts := [s0], [];
    Extend(states, acts, TestWrite(0, [7]));
    var s1 := Apply(s0, TestWrite(0, [7]));
    states, acts := states + [s1], acts + [TestWrite(0, [7])];
    Extend(states, acts, LockedWrite(0));
    var s2 := Apply(s1, LockedWrite(0));
    states, acts := states + [s2], acts + [LockedWrite(0)];
    assert s1 == s0.(phases := map[0 := ToWrite([7])]);
    assert Overwritten([0, 0], 0, [7]) == [7, 0] && [7][..1] == [7];
    assert WriteRegion(s1.ring, [7]) == Some((Rb([7, 0], 0, 1, 1), 1));
  }

  /** A run with two readers: one byte is there, both find it, the first takes it, and the second
      takes a byte that was never written and leaves more free space than the ring has. */
  lemma TwoReadersFail() returns (states: seq<Sys>, acts: seq<Action>)
    ensures Run(states, acts)
    ensures var s := states[|acts|]; s.written == [7] && s.taken == [7, 0] && s.ring.remain == 3 && !Fifo(s)
  {
    states, acts := OneByteIn();
    var s0 := states[|acts|];
    var s1 := s0.(phases := map[1 := ToRead(1)]);
    var s2 := s0.(phases := map[1 := ToRead(1), 2 := ToRead(1)]);
    var s3 := Sys(Rb([7, 0], 1, 1, 2), map[2 := ToRead(1)], [7], [7], false);
    var s4 := Sys(Rb([7, 0], 0, 1, 3), map[], [7], [7, 0], false);
    assert Apply(s0, TestRead(1, 1)) == s1 && Apply(s1, TestRead(2, 1)) == s2;
    assert Apply(s2, LockedRead(1)) == s3 && Apply(s3, LockedRead(2)) == s4;
    hide Run, Apply;
    Extend(states, acts, TestRead(1, 1));
    Extend(states + [s1], acts + [TestRead(1, 1)], TestRead(2, 1));
    Extend(states + [s1] + [s2], acts + [TestRead(1, 1)] + [TestRead(2, 1)], LockedRead(1));
    Extend(states + [s1] + [s2] + [s3], acts + [TestRead(1, 1)] + [TestRead(2, 1)] + [LockedRead(1)], LockedRead(2));
    states := states + [s1] + [s2] + [s3] + [s4];
    acts := acts + [TestRead(1, 1)] + [TestRead(2, 1)] + [LockedRead(1)] + [LockedRead(2)];
  }

  /** A run with two more writers: one cell is free, both find it, the first fills it, and the second
      overwrites the oldest byte and wraps the free space below zero. */
  lemma TwoWritersFail() returns (states: seq<Sys>, acts: seq<Action>)
    ensures Run(states, acts)
    ensures var s := states[|acts|]; s.written == [7, 8, 9] && s.ring.fifo == [9, 8] && s.ring.remain == M - 1 && !Fifo(s)
  {
    states, acts := OneByteIn();
    var s0 := states[|acts|];
    var s1 := s0.(phases := map[1 := ToWrite([8])]);
    var s2 := s0.(phases := map[1 := ToWrite([8]), 2 := ToWrite([9])]);
    var s3 := Sys(Rb([7, 8], 0, 0, 0), map[2 := ToWrite([9])], [7, 8], [], false);
    var s4 := Sys(Rb([9, 8], 0, 1, M - 1), map[], [7, 8, 9], [], false);
    assert Apply(s0, TestWrite(1, [8])) == s1 && Apply(s1, TestWrite(2, [9])) == s2;
    assert Apply(s2, LockedWrite(1)) == s3 && Apply(s3, LockedWrite(2)) == s4;
    hide Run, Apply;
    Extend(states, acts, TestWrite(1, [8]));
    Extend(states + [s1], acts + [TestWrite(1, [8])], TestWrite(2, [9]));
    Extend(states + [s1] + [s2], acts + [TestWrite(1, [8])] + [TestWrite(2, [9])], LockedWrite(1));
    Extend(states + [s1] + [s2] + [s3], acts + [TestWrite(1, [8])] + [TestWrite(2, [9])] + [LockedWrite(1)], LockedWrite(2));
    states := states + [s1] + [s2] + [s3] + [s4];
    acts := acts + [TestWrite(1, [8])] + [TestWrite(2, [9])] + [LockedWrite(1)] + [LockedWrite(2)];
  }
}
