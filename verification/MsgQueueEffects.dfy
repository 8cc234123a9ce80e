/** What the callers of the message queue see: every answer, when it is given, and who waits and who was
    woken afterwards. */
module MsgQueueEffects {
  import opened Options
  import opened PrioList
  import opened MsgQueue

  // ---------- answers ----------

  /** A message that no woken reader has a claim to */
  predicate MessageLeft(q: Queue) {
    |Contents(q)| > |q.wokenReaders|
  }

  /** A free cell that no woken writer has a claim to */
  predicate RoomLeft(q: Queue) {
    |Contents(q)| + |q.wokenWriters| < |q.ring|
  }

  /** Why a caller that finds nothing may not wait, or that it does */
  predicate Waiting(wait: Wait, inInterrupt: bool, locked: bool, status: Status) {
    && (status == NoSource <==> wait == NoWait)
    && (status == InInterrupt <==> wait != NoWait && inInterrupt)
    && (status == PendInLock <==> wait != NoWait && !inInterrupt && locked)
    && (status == Blocked <==> wait != NoWait && !inInterrupt && !locked)
  }

  /** The answers of PRT_QueueRead, each with its condition */
  predicate ReadAnswered(q: Queue, len: nat, wait: Wait, inInterrupt: bool, locked: bool, status: Status) {
    && (status == SizeZero <==> len == 0)
    && (status == Ok <==> len > 0 && MessageLeft(q))
    && (len > 0 && !MessageLeft(q) ==> Waiting(wait, inInterrupt, locked, status))
    && status != SizeTooBig && status != Timeout
  }

  /** The answers of PRT_QueueWrite, each with its condition */
  predicate WriteAnswered(q: Queue, text: seq<Byte>, wait: Wait, inInterrupt: bool, locked: bool, status: Status) {
    && (status == SizeZero <==> text == [])
    && (status == SizeTooBig <==> |text| > q.maxText)
    && (status == Ok <==> 0 < |text| <= q.maxText && RoomLeft(q))
    && (0 < |text| <= q.maxText && !RoomLeft(q) ==> Waiting(wait, inInterrupt, locked, status))
    && status != Timeout
  }

  // ---------- effects ----------

  /** The front message is out, its cell is marked free, and the first waiting writer, if any, has a claim to it. */
  predicate MessageOut(q: Queue, r: Queue, len: nat, text: seq<Byte>) {
    && Contents(q) != [] && text == Front(Contents(q), len) && Contents(r) == Contents(q)[1..]
    && |r.ring| == |q.ring| && r.maxText == q.maxText && r.peak == q.peak && r.readList == q.readList
    && q.head < |r.ring| && r.ring[q.head].srcPid == None
    && (if q.writeList == [] then r.writeList == [] && r.wokenWriters == q.wokenWriters
        else r.writeList == q.writeList[1..] && r.wokenWriters == q.wokenWriters + {q.writeList[0]})
  }

  /** The message is in, in front when urgent, and the first waiting reader, if any, has a claim to one. */
  predicate MessageIn(q: Queue, r: Queue, node: Node, urgent: bool) {
    && Contents(r) == (if urgent then [node] + Contents(q) else Contents(q) + [node])
    && |r.ring| == |q.ring| && r.maxText == q.maxText && r.writeList == q.writeList
    && r.peak == (if |Contents(r)| > q.peak then |Contents(r)| else q.peak)
    && (if q.readList == [] then r.readList == [] && r.wokenReaders == q.wokenReaders
        else r.readList == q.readList[1..] && r.wokenReaders == q.wokenReaders + {q.readList[0]})
  }

  predicate ReadEffect(q: Queue, r: Queue, t: Task, len: nat, wait: Wait, status: Status, text: seq<Byte>) {
    match status
    case Ok => MessageOut(q, r, len, text) && r.wokenReaders == q.wokenReaders && r.calls == q.calls
    case Blocked => r == q.(readList := q.readList + [t], calls := q.calls[t := Call(Read(len), wait == Ticks)])
    case _ => r == q
  }

  predicate WriteEffect(q: Queue, r: Queue, t: Task, text: seq<Byte>, urgent: bool, srcPid: nat, wait: Wait, status: Status) {
    match status
    case Ok =>
      MessageIn(q, r, Node(text, Some(srcPid)), urgent) && r.wokenWriters == q.wokenWriters && r.calls == q.calls
    case Blocked =>
      r == q.(writeList := q.writeList + [t], calls := q.calls[t := Call(Write(text, urgent, srcPid), wait == Ticks)])
    case _ => r == q
  }

  // ---------- proofs ----------

  /** A new queue holds nothing, has room for as many messages of the size as asked for, and nobody waits. */
  lemma CreatedDoes(nodeNum: nat, maxText: nat)
    requires 0 < nodeNum <= U16_MAX
    ensures var q := Created(nodeNum, maxText);
            && Inv(q) && Contents(q) == [] && |q.ring| == nodeNum && q.maxText == maxText && q.peak == 0
            && q.readList == [] && q.writeList == [] && q.wokenReaders == {} && q.wokenWriters == {} && q.calls == map[]
            && RoomLeft(q) && !MessageLeft(q)
  {
    CreatedOk(nodeNum, maxText);
  }

  /** The counts are what is left beside the claims of woken tasks. */
  lemma CountsMean(q: Queue)
    requires Inv(q)
    ensures q.readable > 0 <==> MessageLeft(q)
    ensures q.writable > 0 <==> RoomLeft(q)
    ensures q.head < |q.ring| && q.tail < |q.ring| && |Contents(q)| == Fill(q)
  {
  }

  lemma TakeLists(q: Queue)
    requires q.head < |q.ring|
    ensures var r := Take(q);
            && |r.ring| == |q.ring| && r.maxText == q.maxText && r.peak == q.peak && r.readList == q.readList
            && r.calls == q.calls && r.wokenReaders == q.wokenReaders && r.ring[q.head].srcPid == None
            && (if q.writeList == [] then r.writeList == [] && r.wokenWriters == q.wokenWriters
                else r.writeList == q.writeList[1..] && r.wokenWriters == q.wokenWriters + {q.writeList[0]})
  {
  }

  lemma PutLists(q: Queue, node: Node, urgent: bool)
    requires q.tail < |q.ring| && q.head < |q.ring|
    ensures var r := Put(q, node, urgent);
            && |r.ring| == |q.ring| && r.maxText == q.maxText && r.writeList == q.writeList
            && r.calls == q.calls && r.wokenWriters == q.wokenWriters
            && (if q.readList == [] then r.readList == [] && r.wokenReaders == q.wokenReaders
                else r.readList == q.readList[1..] && r.wokenReaders == q.wokenReaders + {q.readList[0]})
  {
  }

  /** Main result, read. Each answer is given exactly when its condition holds: Ok exactly when there is a
      message that no woken reader has a claim to. Ok takes the front message and wakes the first waiting
      writer; Blocked puts the caller at the end of the readers; anything else changes nothing. */
  lemma ReadDoes(q: Queue, t: Task, len: nat, wait: Wait, inInterrupt: bool, locked: bool)
    requires Inv(q) && (inInterrupt || t !in q.calls)
    ensures q.head < |q.ring|
    ensures var (r, status, text) := ReadCall(q, t, len, wait, inInterrupt, locked);
            && Inv(r) && ReadAnswered(q, len, wait, inInterrupt, locked, status)
            && ReadEffect(q, r, t, len, wait, status, text)
  {
    hide Inv, Contents, Take, Taken, Front, RingOk, MessageLeft, RoomLeft, Fill;
    CountsMean(q);
    InvHasRing(q);
    StepRefines(q, DoRead(t, len, wait, inInterrupt, locked));
    if q.readable > 0 { TakeLists(q.(readable := q.readable - 1)); }
  }

  /** Main result, write: Ok exactly when the text fits and there is a cell that no woken writer has a claim
      to. */
  lemma WriteDoes(q: Queue, t: Task, text: seq<Byte>, urgent: bool, srcPid: nat, wait: Wait, inInterrupt: bool,
                  locked: bool)
    requires Inv(q) && (inInterrupt || t !in q.calls)
    ensures q.head < |q.ring| && q.tail < |q.ring|
    ensures var (r, status) := WriteCall(q, t, text, urgent, srcPid, wait, inInterrupt, locked);
            && Inv(r) && WriteAnswered(q, text, wait, inInterrupt, locked, status)
            && WriteEffect(q, r, t, text, urgent, srcPid, wait, status)
  {
    hide Inv, Contents, Put, RingOk, MessageLeft, RoomLeft, Fill;
    CountsMean(q);
    InvHasRing(q);
    var a := DoWrite(t, text, urgent, srcPid, wait, inInterrupt, locked);
    StepRefines(q, a);
    CountsMean(Apply(q, a));
    if q.writable > 0 { PutLists(q.(writable := q.writable - 1), Node(text, Some(srcPid)), urgent); }
  }

  /** A woken reader takes the front message and gives up its claim. */
  lemma ReadResumeDoes(q: Queue, t: Task)
    requires Inv(q) && Enabled(q, ResumeRead(t))
    ensures q.head < |q.ring|
    ensures var (r, text) := ReadResume(q, t);
            && Inv(r) && MessageOut(q, r, q.calls[t].request.len, text)
            && r.wokenReaders == q.wokenReaders - {t} && r.calls == q.calls - {t}
  {
    InvHasRing(q);
    StepRefines(q, ResumeRead(t));
    CountsMean(q);
    TakeLists(q.(wokenReaders := q.wokenReaders - {t}, calls := q.calls - {t}));
    hide Inv, Contents, Take, Taken, Front, RingOk, Fill;
  }

  /** A woken writer stores its message and gives up its claim. */
  lemma WriteResumeDoes(q: Queue, t: Task)
    requires Inv(q) && Enabled(q, ResumeWrite(t))
    ensures q.head < |q.ring| && q.tail < |q.ring|
    ensures var r, w := WriteResume(q, t), q.calls[t].request;
            && Inv(r) && MessageIn(q, r, Node(w.text, Some(w.srcPid)), w.urgent)
            && r.wokenWriters == q.wokenWriters - {t} && r.calls == q.calls - {t}
  {
    InvHasRing(q);
    StepRefines(q, ResumeWrite(t));
    CountsMean(q);
    CountsMean(WriteResume(q, t));
    var w := q.calls[t].request;
    PutLists(q.(wokenWriters := q.wokenWriters - {t}, calls := q.calls - {t}), Node(w.text, Some(w.srcPid)), w.urgent);
    hide Inv, Contents, Put, RingOk, Fill;
  }

  lemma {:induction false} WithoutKeepsOrder(l: seq<Task>, t: Task, a: Task, b: Task)
    requires Before(l, a, b) && a != t && b != t
    ensures Before(Without(l, t), a, b)
  {
    var i, j :| 0 <= i < j < |l| && l[i] == a && l[j] == b;
    var r := Without(l[1..], t);
    if i > 0 {
      assert l[1..][i - 1] == a && l[1..][j - 1] == b;
      WithoutKeepsOrder(l[1..], t, a, b);
      var x, y :| 0 <= x < y < |r| && r[x] == a && r[y] == b;
      assert ([l[0]] + r)[x + 1] == a && ([l[0]] + r)[y + 1] == b;
    } else {
      assert l[1..][j - 1] == b && b in l[1..] && b in r;
      var y :| 0 <= y < |r| && r[y] == b;
      assert ([l[0]] + r)[0] == a && ([l[0]] + r)[y + 1] == b;
    }
  }

  /** When its timer expires a task is out of the queue; the messages stay, and so does the order of those
      who wait. */
  lemma ExpireDoes(q: Queue, t: Task)
    requires Inv(q) && Enabled(q, TimeOut(t))
    ensures var r := Expire(q, t);
            && Inv(r) && Contents(r) == Contents(q) && t !in r.readList && t !in r.writeList && r.calls == q.calls - {t}
            && r == q.(readList := r.readList, writeList := r.writeList, calls := r.calls)
            && (forall x :: x in r.readList <==> x in q.readList && x != t)
            && (forall x :: x in r.writeList <==> x in q.writeList && x != t)
            && (forall a, b :: Before(q.readList, a, b) && a != t && b != t ==> Before(r.readList, a, b))
            && (forall a, b :: Before(q.writeList, a, b) && a != t && b != t ==> Before(r.writeList, a, b))
  {
    InvHasRing(q);
    StepRefines(q, TimeOut(t));
    hide Inv, Contents, RingOk, Fill, Before, Without;
    forall a, b | Before(q.readList, a, b) && a != t && b != t ensures Before(Without(q.readList, t), a, b) {
      WithoutKeepsOrder(q.readList, t, a, b);
    }
    forall a, b | Before(q.writeList, a, b) && a != t && b != t ensures Before(Without(q.writeList, t), a, b) {
      WithoutKeepsOrder(q.writeList, t, a, b);
    }
  }
}
