/** What each atomic step of the log ring does, in true counts. */
module LogEffects {
  import opened LogCount
  import opened LogRing

  /** Only the phase of w changed. */
  predicate OnlyPhase(s: Sys, r: Sys, w: Writer, p: Phase) {
    r == s.(writers := s.writers[w := p])
  }

  /** What an attempt to reserve does. The second look at the tail starts over when somebody reserved since the
      first, turns away exactly when the ring was full as the head was read, and goes on otherwise; the
      compare-and-store takes the next count exactly when nobody reserved since. */
  ghost predicate Attempt(s: Sys, a: Action, r: Sys)
    requires Counts(s) && Enabled(s, a)
  {
    match a
    case ReadTail(w, e) => OnlyPhase(s, r, w, SawTail(e, Stored(Tails(s), s.n), Tails(s)))
    case ReadHead(w) =>
      var p := s.writers[w];
      OnlyPhase(s, r, w, SawHead(p.entry, p.tail1, Stored(s.heads, s.n), p.at, Tails(s), s.heads))
    case ReadTailAgain(w) =>
      var p := s.writers[w];
      if p.at != Tails(s) then OnlyPhase(s, r, w, Retry(p.entry))
      else if Tails(s) == p.headAt + s.n then r == s.(writers := s.writers - {w})
      else OnlyPhase(s, r, w, Ready(p.entry, Stored(Tails(s), s.n), p.at, p.headAt))
    case CompareAndStore(w) =>
      var p := s.writers[w];
      if p.at != Tails(s) then OnlyPhase(s, r, w, Retry(p.entry))
      else r == s.(writers := s.writers[w := Filling(p.entry, Stored(Tails(s), s.n), Tails(s))],
                   tail := Stored(Tails(s) + 1, s.n), reserved := s.reserved + [p.entry])
    case _ => true
  }

  /** Main result, attempts */
  lemma AttemptDoes(s: Sys, a: Action)
    requires Inv(s) && Possible(s, a)
    ensures Counts(s) && Attempt(s, a, Apply(s, a))
  {
    InvCounts(s);
    CountersOf(s);
    hide Inv, Counts, Stored, RangeOk;
    match a
    case ReadTailAgain(w) => TailAgain(s, w);
    case CompareAndStore(w) => Reserves(s, w);
    case _ =>
  }

  lemma TailAgain(s: Sys, w: Writer)
    requires Counts(s) && Possible(s, ReadTailAgain(w))
    ensures Attempt(s, ReadTailAgain(w), Apply(s, ReadTailAgain(w)))
  {
    CountersOf(s);
    PhaseOf(s, w);
    hide Stored, RangeOk;
    var p := s.writers[w];
    if p.tail1 == s.tail { EqualTails(s, w); } else { assert p.at != Tails(s); }
    hide Counts;
  }

  lemma Reserves(s: Sys, w: Writer)
    requires Counts(s) && Possible(s, CompareAndStore(w))
    ensures Attempt(s, CompareAndStore(w), Apply(s, CompareAndStore(w)))
  {
    CountersOf(s);
    PhaseOf(s, w);
    StoredTwice(s, w);
    hide Counts, Stored;
    NextStored(Tails(s), 1, s.n);
  }

  /** An entry goes to the slot of its count, with its count, and nowhere else; then its flag does. */
  lemma WritingDoes(s: Sys, a: Action)
    requires Inv(s) && Possible(s, a) && (a.WriteEntry? || a.SetFlag?)
    ensures Sized(s) && var p, r := s.writers[a.w], Apply(s, a);
            if a.WriteEntry?
            then r == s.(writers := s.writers[a.w := Filled(p.entry, p.currTail, p.pos)], written := s.written + {p.pos},
                         memory := s.memory[SlotOf(p.pos, s.n) := Cell(p.entry, p.pos)])
            else r == s.(writers := s.writers - {a.w}, ready := s.ready + {p.pos},
                         flags := s.flags[SlotOf(p.pos, s.n) := FlagOf(p.pos, s.n)])
  {
    InvCounts(s);
    CountersOf(s);
    PhaseOf(s, a.w);
    hide Inv, Counts, Stored, SlotOf, FlagOf;
    SameSlot(s.writers[a.w].pos, s.n);
  }

  /** What a step of the reader does: it looks at the true distance, checks the flags one by one against their
      laps, copies the blocks of the next counts, and moves the head behind them. */
  ghost predicate Reading(s: Sys, a: Action, r: Sys)
    requires Counts(s) && Enabled(s, a)
  {
    var num := Tails(s) - s.heads;
    match a
    case LookAtTail(listEmpty) =>
      r == s.(reader := if s.n - num < NO_CHECK then (if num == 0 then Stopped else Copying(num, 0, false, false))
                        else if num > MANY || (listEmpty && num > 0) then Checking(num, 0)
                        else Idle)
    case LastLook => r == s.(reader := if num == 0 then Stopped else Copying(num, 0, false, true))
    case CheckFlag =>
      var v, n := s.reader.valid, s.reader.num;
      r == s.(reader := if v < n && s.flags[SlotOf(s.heads + v, s.n)] == FlagOf(s.heads + v, s.n) then Checking(n, v + 1)
                        else if v == 0 then Idle
                        else Copying(v, 0, true, false))
    case CopyBlock =>
      && r == s.(reader := s.reader.(done := s.reader.done + 1), delivered := r.delivered, late := r.late, early := r.early)
      && r.delivered == s.delivered + [s.memory[SlotOf(|s.delivered|, s.n)]]
    case Publish =>
      if s.reader.last then r == s.(reader := Stopped)
      else
        var h := s.heads + s.reader.num;
        r == s.(reader := Idle, heads := h, head := Stored(h, s.n), validFlag := FlagOf(h, s.n))
    case _ => true
  }

  /** Main result, reader */
  lemma ReadingDoes(s: Sys, a: Action)
    requires Inv(s) && Possible(s, a)
    ensures Counts(s) && Reading(s, a, Apply(s, a))
  {
    InvCounts(s);
    CountersOf(s);
    hide Inv, Counts, Stored, SlotOf, FlagOf, Copy, Advance, Look, FinalLook, Check;
    match a
    case LookAtTail(listEmpty) => LookExact(s, listEmpty);
    case LastLook => LookExact(s, true);
    case CheckFlag => CheckMeans(s);
    case CopyBlock => CopySlot(s); CopyFields(s);
    case Publish => PublishMeans(s);
    case _ =>
  }

  lemma CheckMeans(s: Sys)
    requires Counts(s) && Possible(s, CheckFlag)
    ensures Reading(s, CheckFlag, Apply(s, CheckFlag))
  {
    hide Counts, SlotOf, FlagOf, FlagMatches, Stored;
    CountersOf(s);
    if s.reader.valid < s.reader.num { MatchIsFlag(s, s.reader.valid); }
  }

  lemma PublishMeans(s: Sys)
    requires Counts(s) && Possible(s, Publish)
    ensures Reading(s, Publish, Apply(s, Publish))
  {
    hide Counts, SlotOf, FlagOf, Stored, ReaderIndex;
    CountersOf(s);
    if !s.reader.last { AdvanceCounters(s); }
  }
}
