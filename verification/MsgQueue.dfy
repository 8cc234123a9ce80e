/** The QSemOS message queue: a ring of nodes, two token counts, and two lists of blocked tasks
    to which tokens are handed directly. */
module MsgQueue {
  import opened Options
  import opened PrioList
  import opened Ring

  type Task = nat
  type Byte = b: nat | b < 256

  const U16_MAX: nat := 0xFFFF

  datatype Node = Node(text: seq<Byte>, srcPid: Option<nat>)

  datatype Request = Read(len: nat) | Write(text: seq<Byte>, urgent: bool, srcPid: nat)

  /** A call that blocked: what was asked for, and whether a timer runs. */
  datatype Call = Call(request: Request, timed: bool)

  datatype Wait = NoWait | Ticks | Forever

  datatype Status = Ok | SizeZero | SizeTooBig | NoSource | InInterrupt | PendInLock | Timeout | Blocked

  /** Readers and writers that were woken hold a token until they run (OS_TSK_QUEUE_BUSY). */
  datatype Queue = Queue(
    ring: seq<Node>,
    maxText: nat,
    head: nat,
    tail: nat,
    peak: nat,
    readable: nat,
    writable: nat,
    readList: seq<Task>,
    writeList: seq<Task>,
    wokenReaders: set<Task>,
    wokenWriters: set<Task>,
    calls: map<Task, Call>)

  /** Cells that hold a message. */
  function Fill(q: Queue): nat {
    q.readable + |q.wokenReaders|
  }

  /** Tokens, fill and indices of a queue fit together; `missing` write tokens are in hand. */
  predicate RingOk(q: Queue, missing: nat) {
    && 0 < |q.ring| <= U16_MAX
    && q.head < |q.ring|
    && q.tail == Slot(q.head, Fill(q), |q.ring|)
    && Fill(q) + q.writable + |q.wokenWriters| + missing == |q.ring|
  }

  /** The messages, next one first. */
  function Contents(q: Queue): seq<Node> {
    Window(q.ring, q.head, Fill(q))
  }

  // ---------- operations ----------

  /** OsQueueCreate for a free control block */
  function Created(nodeNum: nat, maxText: nat): Queue {
    Queue(seq(nodeNum, _ => Node([], None)), maxText, 0, 0, 0, 0, nodeNum, [], [], {}, {}, map[])
  }

  /** OsQueueCpData2Node */
  function CpData2Node(q: Queue, node: Node, urgent: bool): Queue
    requires q.tail < |q.ring| && q.head < |q.ring|
  {
    var n := |q.ring|;
    var q1 :=
      if !urgent
      then q.(ring := q.ring[q.tail := node], tail := if q.tail + 1 == n then 0 else q.tail + 1)
      else
        var h := (if q.head == 0 then n else q.head) - 1;
        q.(ring := q.ring[h := node], head := h);
    var peak := if q1.tail > q1.head then q1.tail - q1.head else n - q1.head + q1.tail;
    q1.(peak := if peak > q1.peak then peak else q1.peak)
  }

  /** OsQueuePendNeedProc on the read list, else one more readable node. */
  function PassToReader(q: Queue): Queue {
    if q.readList == [] then q.(readable := q.readable + 1)
    else q.(readList := q.readList[1..], wokenReaders := q.wokenReaders + {q.readList[0]})
  }

  /** OsQueuePendNeedProc on the write list, else one more writable node. */
  function PassToWriter(q: Queue): Queue {
    if q.writeList == [] then q.(writable := q.writable + 1)
    else q.(writeList := q.writeList[1..], wokenWriters := q.wokenWriters + {q.writeList[0]})
  }

  /** PRT_QueueWrite after it got a token */
  function Put(q: Queue, node: Node, urgent: bool): Queue
    requires q.tail < |q.ring| && q.head < |q.ring|
  {
    PassToReader(CpData2Node(q, node, urgent))
  }

  /** PRT_QueueRead after it got a token: the text that is copied out */
  function Taken(q: Queue, len: nat): seq<Byte>
    requires q.head < |q.ring|
  {
    var text := q.ring[q.head].text;
    text[..if len > |text| then |text| else len]
  }

  /** PRT_QueueRead after it got a token: the queue */
  function Take(q: Queue): Queue
    requires q.head < |q.ring|
  {
    var q1 := q.(ring := q.ring[q.head := q.ring[q.head].(srcPid := None)],
                 head := if q.head + 1 == |q.ring| then 0 else q.head + 1);
    PassToWriter(q1)
  }

  /** OsInnerPend when no token is there: the error, or Blocked */
  function Refusal(wait: Wait, inInterrupt: bool, locked: bool): Status {
    if wait == NoWait then NoSource
    else if inInterrupt then InInterrupt
    else if locked then PendInLock
    else Blocked
  }

  /** PRT_QueueRead up to its return or to the moment the caller blocks */
  function ReadCall(q: Queue, t: Task, len: nat, wait: Wait, inInterrupt: bool, locked: bool): (Queue, Status, seq<Byte>)
    requires q.head < |q.ring|
  {
    if len == 0 then (q, SizeZero, [])
    else if q.readable > 0 then
      var q1 := q.(readable := q.readable - 1);
      (Take(q1), Ok, Taken(q1, len))
    else if Refusal(wait, inInterrupt, locked) != Blocked then (q, Refusal(wait, inInterrupt, locked), [])
    else (q.(readList := q.readList + [t], calls := q.calls[t := Call(Read(len), wait == Ticks)]), Blocked, [])
  }

  /** PRT_QueueWrite up to its return or to the moment the caller blocks */
  function WriteCall(q: Queue, t: Task, text: seq<Byte>, urgent: bool, srcPid: nat,
                     wait: Wait, inInterrupt: bool, locked: bool): (Queue, Status)
    requires q.tail < |q.ring| && q.head < |q.ring|
  {
    if text == [] then (q, SizeZero)
    else if |text| > q.maxText then (q, SizeTooBig)
    else if q.writable > 0 then
      (Put(q.(writable := q.writable - 1), Node(text, Some(srcPid)), urgent), Ok)
    else if Refusal(wait, inInterrupt, locked) != Blocked then (q, Refusal(wait, inInterrupt, locked))
    else (q.(writeList := q.writeList + [t],
             calls := q.calls[t := Call(Write(text, urgent, srcPid), wait == Ticks)]), Blocked)
  }

  /** A woken reader runs again and finishes its call. */
  function ReadResume(q: Queue, t: Task): (Queue, seq<Byte>)
    requires q.head < |q.ring| && t in q.calls && q.calls[t].request.Read?
  {
    var q1 := q.(wokenReaders := q.wokenReaders - {t}, calls := q.calls - {t});
    (Take(q1), Taken(q1, q.calls[t].request.len))
  }

  /** A woken writer runs again and finishes its call. */
  function WriteResume(q: Queue, t: Task): Queue
    requires q.head < |q.ring| && q.tail < |q.ring| && t in q.calls && q.calls[t].request.Write?
  {
    var w := q.calls[t].request;
    Put(q.(wokenWriters := q.wokenWriters - {t}, calls := q.calls - {t}), Node(w.text, Some(w.srcPid)), w.urgent)
  }

  function Without(l: seq<Task>, t: Task): (r: seq<Task>)
    ensures forall x :: x in r <==> x in l && x != t
    ensures Distinct(l) ==> Distinct(r)
  {
    if l == [] then [] else
    var r := Without(l[1..], t);
    assert Distinct(l) ==> Distinct(l[1..]) && l[0] !in l[1..];
    assert forall i :: 0 < i < 1 + |r| ==> ([l[0]] + r)[i] in r;
    if l[0] == t then r else [l[0]] + r
  }

  /** The timer of a blocked task expires: it leaves its wait list and reports a timeout. */
  function Expire(q: Queue, t: Task): Queue {
    q.(readList := Without(q.readList, t), writeList := Without(q.writeList, t), calls := q.calls - {t})
  }

  // ---------- the ring is a double-ended queue ----------

  /** With a free cell in hand the new message goes to the back, an urgent one to the front. */
  lemma PutRefines(q: Queue, node: Node, urgent: bool)
    requires RingOk(q, 1)
    ensures q.tail < |q.ring|
    ensures var q1 := CpData2Node(q, node, urgent);
            && q1.tail == Slot(q1.head, Fill(q) + 1, |q.ring|) && q1.head < |q.ring|
            && q1.peak == (if Fill(q) + 1 > q.peak then Fill(q) + 1 else q.peak)
            && q1 == q.(ring := q1.ring, head := q1.head, tail := q1.tail, peak := q1.peak)
            && |q1.ring| == |q.ring|
            && Window(q1.ring, q1.head, Fill(q) + 1) ==
               if urgent then [node] + Contents(q) else Contents(q) + [node]
  {
    hide Window, Fill;
    if urgent {
      WindowPrepend(q.ring, q.head, Fill(q), node);
    } else {
      WindowAppend(q.ring, q.head, Fill(q), node);
    }
  }

  lemma FillAfterTake(q: Queue)
    requires q.head < |q.ring|
    ensures Fill(Take(q)) == Fill(q)
  {
  }

  /** With a filled cell in hand the front message leaves, the others stay in order. */
  lemma TakeRefines(q: Queue, len: nat)
    requires 0 < |q.ring| <= U16_MAX && q.head < |q.ring| && Fill(q) < |q.ring|
    requires q.tail == Slot(q.head, Fill(q) + 1, |q.ring|)
    ensures var before := Window(q.ring, q.head, Fill(q) + 1);
            && Contents(Take(q)) == before[1..]
            && Taken(q, len) == before[0].text[..if len > |before[0].text| then |before[0].text| else len]
            && Take(q).tail == Slot(Take(q).head, Fill(q), |q.ring|) && Take(q).head < |q.ring|
  {
    hide Window, Fill;
    WindowDrop(q.ring, q.head, Fill(q), q.ring[q.head].(srcPid := None));
    FillAfterTake(q);
  }

  // ---------- the invariant ----------

  /** list: the tasks blocked for a token of which `count` are free; woken: those that hold one. */
  ghost predicate WaitersOk(list: seq<Task>, count: nat, woken: set<Task>, inside: set<Task>) {
    && Distinct(list)
    && (list != [] ==> count == 0)
    && (forall t :: t in list ==> t !in woken)
    && (forall t :: t in inside <==> t in list || t in woken)
  }

  function Readers(calls: map<Task, Call>): set<Task> {
    set t | t in calls && calls[t].request.Read?
  }

  function Writers(calls: map<Task, Call>): set<Task> {
    set t | t in calls && calls[t].request.Write?
  }

  predicate FitsNode(r: Request, maxText: nat) {
    r.Write? ==> r.text != [] && |r.text| <= maxText
  }

  ghost predicate CallsFit(calls: map<Task, Call>, maxText: nat) {
    forall t :: t in calls ==> FitsNode(calls[t].request, maxText)
  }

  ghost predicate TextsOk(l: seq<Node>, maxText: nat) {
    forall m :: m in l ==> m.text != [] && |m.text| <= maxText && m.srcPid.Some?
  }

  ghost predicate TasksOk(q: Queue) {
    && WaitersOk(q.readList, q.readable, q.wokenReaders, Readers(q.calls))
    && WaitersOk(q.writeList, q.writable, q.wokenWriters, Writers(q.calls))
    && CallsFit(q.calls, q.maxText)
  }

  /** Token conservation, and who waits when. */
  ghost predicate Inv(q: Queue) {
    && RingOk(q, 0)
    && TasksOk(q)
    && TextsOk(Contents(q), q.maxText)
    && Fill(q) <= q.peak <= |q.ring|
  }

  /** The first blocked task gets a token, or the count grows when nobody waits. */
  lemma PassKeeps(list: seq<Task>, count: nat, woken: set<Task>, inside: set<Task>)
    requires WaitersOk(list, count, woken, inside)
    ensures list == [] ==> WaitersOk(list, count + 1, woken, inside)
    ensures list != [] ==>
              && list[0] !in woken && |woken + {list[0]}| == |woken| + 1
              && WaitersOk(list[1..], count, woken + {list[0]}, inside)
  {
    if list != [] {
      assert list[0] in list;
      assert list == [list[0]] + list[1..];
    }
  }

  /** What a write that holds a free-cell token leaves behind. */
  lemma PutShape(q: Queue, node: Node, urgent: bool)
    requires RingOk(q, 1) && TasksOk(q)
    ensures q.tail < |q.ring|
    ensures var r := Put(q, node, urgent);
            && TasksOk(r) && Fill(r) == Fill(q) + 1
            && r.head < |q.ring| && |r.ring| == |q.ring| && r.tail == Slot(r.head, Fill(q) + 1, |q.ring|)
            && r.writable == q.writable && r.wokenWriters == q.wokenWriters && r.maxText == q.maxText
            && r.peak == (if Fill(q) + 1 > q.peak then Fill(q) + 1 else q.peak)
            && Window(r.ring, r.head, Fill(q) + 1) == if urgent then [node] + Contents(q) else Contents(q) + [node]
  {
    hide Window, WaitersOk, CallsFit, TextsOk, Slot, Readers, Writers, CpData2Node, Fill, PassToReader, TasksOk;
    PutRefines(q, node, urgent);
    var q1 := CpData2Node(q, node, urgent);
    SameTasks(q, q1);
    PassToReaderShape(q1);
  }

  /** A write that holds a free-cell token. */
  lemma PutKeeps(q: Queue, node: Node, urgent: bool)
    requires RingOk(q, 1) && TasksOk(q) && TextsOk(Contents(q), q.maxText) && Fill(q) <= q.peak <= |q.ring|
    requires TextsOk([node], q.maxText)
    ensures q.tail < |q.ring|
    ensures var r := Put(q, node, urgent);
            && Inv(r)
            && Contents(r) == (if urgent then [node] + Contents(q) else Contents(q) + [node])
            && |r.ring| == |q.ring| && r.maxText == q.maxText
            && r.peak == if Fill(r) > q.peak then Fill(r) else q.peak
  {
    hide Window, WaitersOk, CallsFit, TextsOk, Slot, Readers, Writers, Fill, Put, TasksOk;
    PutShape(q, node, urgent);
    TextsJoin(node, Contents(q), q.maxText);
  }

  lemma SameTasks(q: Queue, r: Queue)
    requires TasksOk(q) && r == q.(ring := r.ring, head := r.head, tail := r.tail, peak := r.peak)
    ensures TasksOk(r) && Fill(r) == Fill(q)
  {
  }

  /** A new message: the first blocked reader gets its token, or one more node is readable. */
  lemma PassToReaderShape(q: Queue)
    requires TasksOk(q)
    ensures var r := PassToReader(q);
            && TasksOk(r) && Fill(r) == Fill(q) + 1
            && r == q.(readList := r.readList, readable := r.readable, wokenReaders := r.wokenReaders)
  {
    hide WaitersOk, CallsFit, Readers, Writers;
    PassKeeps(q.readList, q.readable, q.wokenReaders, Readers(q.calls));
  }

  lemma TextsJoin(node: Node, l: seq<Node>, maxText: nat)
    requires TextsOk([node], maxText) && TextsOk(l, maxText)
    ensures TextsOk([node] + l, maxText) && TextsOk(l + [node], maxText)
  {
    assert node in [node];
  }

  lemma TextsTail(l: seq<Node>, maxText: nat)
    requires TextsOk(l, maxText) && l != []
    ensures TextsOk(l[1..], maxText)
  {
  }

  /** A read that holds the token of a filled cell. */
  lemma TakeKeeps(q: Queue, len: nat)
    requires 0 < |q.ring| <= U16_MAX && q.head < |q.ring|
    requires q.tail == Slot(q.head, Fill(q) + 1, |q.ring|)
    requires Fill(q) + 1 + q.writable + |q.wokenWriters| == |q.ring|
    requires TasksOk(q) && Fill(q) + 1 <= q.peak <= |q.ring|
    requires TextsOk(Window(q.ring, q.head, Fill(q) + 1), q.maxText)
    ensures var before := Window(q.ring, q.head, Fill(q) + 1);
            && Inv(Take(q)) && Take(q).peak == q.peak && Fill(Take(q)) == Fill(q)
            && before != []
            && Contents(Take(q)) == before[1..]
            && Taken(q, len) == Front(before, len)
            && |Take(q).ring| == |q.ring| && Take(q).maxText == q.maxText
  {
    TakeRefines(q, len);
    PassKeeps(q.writeList, q.writable, q.wokenWriters, Writers(q.calls));
    TextsTail(Window(q.ring, q.head, Fill(q) + 1), q.maxText);
    hide Window, WaitersOk, CallsFit, TextsOk, Slot, Readers, Writers;
  }

  /** What a reader with a buffer of len bytes gets from the first message. */
  function Front(d: seq<Node>, len: nat): seq<Byte>
    requires d != []
  {
    d[0].text[..if len > |d[0].text| then |d[0].text| else len]
  }

  // ---------- steps ----------

  datatype Action =
    | DoRead(task: Task, len: nat, wait: Wait, inInterrupt: bool, locked: bool)
    | DoWrite(task: Task, text: seq<Byte>, urgent: bool, srcPid: nat, wait: Wait, inInterrupt: bool, locked: bool)
    | ResumeRead(task: Task)
    | ResumeWrite(task: Task)
    | TimeOut(task: Task)

  /** A task calls while it is not inside another call; a woken task resumes; a timer only
      expires for a task that still waits. */
  predicate Enabled(q: Queue, a: Action) {
    match a
    case DoRead(t, _, _, inInterrupt, _) => inInterrupt || t !in q.calls
    case DoWrite(t, _, _, _, _, inInterrupt, _) => inInterrupt || t !in q.calls
    case ResumeRead(t) => t in q.wokenReaders && t in q.calls && q.calls[t].request.Read?
    case ResumeWrite(t) => t in q.wokenWriters && t in q.calls && q.calls[t].request.Write?
    case TimeOut(t) => (t in q.readList || t in q.writeList) && t in q.calls && q.calls[t].timed
  }

  function Apply(q: Queue, a: Action): Queue
    requires RingOk(q, 0) && Enabled(q, a)
  {
    match a
    case DoRead(t, len, wait, inInterrupt, locked) => ReadCall(q, t, len, wait, inInterrupt, locked).0
    case DoWrite(t, text, urgent, srcPid, wait, inInterrupt, locked) =>
      WriteCall(q, t, text, urgent, srcPid, wait, inInterrupt, locked).0
    case ResumeRead(t) => ReadResume(q, t).0
    case ResumeWrite(t) => WriteResume(q, t)
    case TimeOut(t) => Expire(q, t)
  }

  /** What a step does to the messages. */
  datatype Effect = Quiet | Pushed(node: Node, urgent: bool) | Popped(len: nat, text: seq<Byte>)

  function EffectOf(q: Queue, a: Action): Effect
    requires RingOk(q, 0) && Enabled(q, a)
  {
    match a
    case DoRead(t, len, wait, inInterrupt, locked) =>
      var (r, status, text) := ReadCall(q, t, len, wait, inInterrupt, locked);
      if status == Ok then Popped(len, text) else Quiet
    case DoWrite(t, text, urgent, srcPid, wait, inInterrupt, locked) =>
      var (r, status) := WriteCall(q, t, text, urgent, srcPid, wait, inInterrupt, locked);
      if status == Ok then Pushed(Node(text, Some(srcPid)), urgent) else Quiet
    case ResumeRead(t) => Popped(q.calls[t].request.len, ReadResume(q, t).1)
    case ResumeWrite(t) =>
      var w := q.calls[t].request;
      Pushed(Node(w.text, Some(w.srcPid)), w.urgent)
    case TimeOut(t) => Quiet
  }

  /** The abstract double-ended queue. */
  function DequeAfter(d: seq<Node>, e: Effect): seq<Node> {
    match e
    case Quiet => d
    case Pushed(node, urgent) => if urgent then [node] + d else d + [node]
    case Popped(_, _) => if d == [] then [] else d[1..]
  }

  /** The effect is one the abstract queue allows: a pop finds a message and returns its start. */
  predicate Allowed(d: seq<Node>, e: Effect) {
    e.Popped? ==> d != [] && e.text == Front(d, e.len)
  }

  ghost predicate StepOk(q: Queue, a: Action)
    requires RingOk(q, 0) && Enabled(q, a)
  {
    var r := Apply(q, a);
    && Inv(r)
    && Allowed(Contents(q), EffectOf(q, a))
    && Contents(r) == DequeAfter(Contents(q), EffectOf(q, a))
    && |r.ring| == |q.ring| && r.maxText == q.maxText
    && r.peak == if Fill(r) > q.peak then Fill(r) else q.peak
  }

  /** A task joins the end of a list because no token is free. */
  lemma JoinKeeps(list: seq<Task>, woken: set<Task>, inside: set<Task>, t: Task)
    requires WaitersOk(list, 0, woken, inside) && t !in inside
    ensures WaitersOk(list + [t], 0, woken, inside + {t})
  {
  }

  /** A woken task is done. */
  lemma LeaveKeeps(list: seq<Task>, count: nat, woken: set<Task>, inside: set<Task>, t: Task)
    requires WaitersOk(list, count, woken, inside) && t in woken
    ensures WaitersOk(list, count, woken - {t}, inside - {t}) && |woken - {t}| == |woken| - 1
  {
  }

  /** A blocked task gives up. */
  lemma GiveUpKeeps(list: seq<Task>, count: nat, woken: set<Task>, inside: set<Task>, t: Task)
    requires WaitersOk(list, count, woken, inside) && t in list
    ensures WaitersOk(Without(list, t), count, woken, inside - {t})
  {
  }

  lemma CallsChange(calls: map<Task, Call>, maxText: nat, t: Task, c: Call)
    requires CallsFit(calls, maxText)
    ensures CallsFit(calls - {t}, maxText)
    ensures FitsNode(c.request, maxText) ==> CallsFit(calls[t := c], maxText)
    ensures Readers(calls - {t}) == Readers(calls) - {t} && Writers(calls - {t}) == Writers(calls) - {t}
    ensures t !in calls ==> t !in Readers(calls) && t !in Writers(calls)
    ensures t !in calls && c.request.Read? ==>
              Readers(calls[t := c]) == Readers(calls) + {t} && Writers(calls[t := c]) == Writers(calls)
    ensures t !in calls && c.request.Write? ==>
              Writers(calls[t := c]) == Writers(calls) + {t} && Readers(calls[t := c]) == Readers(calls)
  {
  }

  /** A token in hand only makes the condition on the count easier. */
  lemma SpendKeeps(list: seq<Task>, count: nat, woken: set<Task>, inside: set<Task>)
    requires WaitersOk(list, count, woken, inside) && count > 0
    ensures WaitersOk(list, count - 1, woken, inside)
  {
  }

  lemma ReadTakes(q: Queue, a: Action)
    requires Inv(q) && a.DoRead? && Enabled(q, a) && a.len != 0 && q.readable > 0
    ensures StepOk(q, a)
  {
    hide Window, WaitersOk, CallsFit, TextsOk, Slot, Readers, Writers, Take, Taken, Front;
    SpendKeeps(q.readList, q.readable, q.wokenReaders, Readers(q.calls));
    TakeKeeps(q.(readable := q.readable - 1), a.len);
  }

  lemma ReadBlocks(q: Queue, a: Action)
    requires Inv(q) && a.DoRead? && Enabled(q, a) && a.len != 0 && q.readable == 0
    requires Refusal(a.wait, a.inInterrupt, a.locked) == Blocked
    ensures StepOk(q, a)
  {
    hide Window, WaitersOk, CallsFit, TextsOk, Slot, Readers, Writers;
    CallsChange(q.calls, q.maxText, a.task, Call(Read(a.len), a.wait == Ticks));
    JoinKeeps(q.readList, q.wokenReaders, Readers(q.calls), a.task);
  }

  lemma ReadCallOk(q: Queue, a: Action)
    requires Inv(q) && a.DoRead? && Enabled(q, a)
    ensures StepOk(q, a)
  {
    hide Window, WaitersOk, CallsFit, TextsOk, Slot, Readers, Writers;
    if a.len != 0 && q.readable > 0 {
      ReadTakes(q, a);
    } else if a.len != 0 && Refusal(a.wait, a.inInterrupt, a.locked) == Blocked {
      ReadBlocks(q, a);
    } else {
      assert Apply(q, a) == q && EffectOf(q, a) == Quiet;
    }
  }

  lemma TextFits(text: seq<Byte>, srcPid: nat, maxText: nat)
    requires text != [] && |text| <= maxText
    ensures TextsOk([Node(text, Some(srcPid))], maxText)
  {
  }

  lemma WritePuts(q: Queue, a: Action)
    requires Inv(q) && a.DoWrite? && Enabled(q, a) && a.text != [] && |a.text| <= q.maxText && q.writable > 0
    ensures StepOk(q, a)
  {
    hide Window, WaitersOk, CallsFit, TextsOk, Slot, Readers, Writers, Put;
    SpendKeeps(q.writeList, q.writable, q.wokenWriters, Writers(q.calls));
    TextFits(a.text, a.srcPid, q.maxText);
    PutKeeps(q.(writable := q.writable - 1), Node(a.text, Some(a.srcPid)), a.urgent);
  }

  lemma WriteBlocks(q: Queue, a: Action)
    requires Inv(q) && a.DoWrite? && Enabled(q, a) && a.text != [] && |a.text| <= q.maxText && q.writable == 0
    requires Refusal(a.wait, a.inInterrupt, a.locked) == Blocked
    ensures StepOk(q, a)
  {
    hide Window, WaitersOk, CallsFit, TextsOk, Slot, Readers, Writers;
    CallsChange(q.calls, q.maxText, a.task, Call(Write(a.text, a.urgent, a.srcPid), a.wait == Ticks));
    JoinKeeps(q.writeList, q.wokenWriters, Writers(q.calls), a.task);
  }

  lemma WriteCallOk(q: Queue, a: Action)
    requires Inv(q) && a.DoWrite? && Enabled(q, a)
    ensures StepOk(q, a)
  {
    hide Window, WaitersOk, CallsFit, TextsOk, Slot, Readers, Writers;
    if a.text == [] || |a.text| > q.maxText {
      assert Apply(q, a) == q && EffectOf(q, a) == Quiet;
    } else if q.writable > 0 {
      WritePuts(q, a);
    } else if Refusal(a.wait, a.inInterrupt, a.locked) == Blocked {
      WriteBlocks(q, a);
    } else {
      assert Apply(q, a) == q && EffectOf(q, a) == Quiet;
    }
  }

  lemma ResumeReadOk(q: Queue, a: Action)
    requires Inv(q) && a.ResumeRead? && Enabled(q, a)
    ensures StepOk(q, a)
  {
    hide Window, WaitersOk, CallsFit, TextsOk, Slot, Readers, Writers, Take, Taken, Front;
    var q1 := q.(wokenReaders := q.wokenReaders - {a.task}, calls := q.calls - {a.task});
    CallsChange(q.calls, q.maxText, a.task, q.calls[a.task]);
    LeaveKeeps(q.readList, q.readable, q.wokenReaders, Readers(q.calls), a.task);
    ReaderFits(q, a.task);
    TakeKeeps(q1, q.calls[a.task].request.len);
  }

  lemma ReaderFits(q: Queue, t: Task)
    requires t in q.calls && q.calls[t].request.Read?
    ensures Writers(q.calls) - {t} == Writers(q.calls)
  {
  }

  lemma ResumeWriteOk(q: Queue, a: Action)
    requires Inv(q) && a.ResumeWrite? && Enabled(q, a)
    ensures StepOk(q, a)
  {
    hide Window, WaitersOk, CallsFit, TextsOk, Slot, Readers, Writers, Put;
    var w := q.calls[a.task].request;
    var q1 := q.(wokenWriters := q.wokenWriters - {a.task}, calls := q.calls - {a.task});
    CallsChange(q.calls, q.maxText, a.task, q.calls[a.task]);
    LeaveKeeps(q.writeList, q.writable, q.wokenWriters, Writers(q.calls), a.task);
    WriterFits(q, a.task);
    PutKeeps(q1, Node(w.text, Some(w.srcPid)), w.urgent);
  }

  lemma WriterFits(q: Queue, t: Task)
    requires CallsFit(q.calls, q.maxText) && t in q.calls && q.calls[t].request.Write?
    ensures var w := q.calls[t].request; TextsOk([Node(w.text, Some(w.srcPid))], q.maxText)
    ensures Readers(q.calls) - {t} == Readers(q.calls)
  {
    assert FitsNode(q.calls[t].request, q.maxText);
  }

  /** Giving up on one list leaves the other alone. */
  lemma TimeOutTasks(q: Queue, t: Task)
    requires TasksOk(q) && t in q.calls && (t in q.readList || t in q.writeList)
    ensures TasksOk(Expire(q, t))
  {
    CallsChange(q.calls, q.maxText, t, q.calls[t]);
    NotThere(q.readList, t);
    NotThere(q.writeList, t);
    if t in q.readList {
      GiveUpKeeps(q.readList, q.readable, q.wokenReaders, Readers(q.calls), t);
      assert Writers(q.calls) - {t} == Writers(q.calls) && t !in q.writeList;
    } else {
      GiveUpKeeps(q.writeList, q.writable, q.wokenWriters, Writers(q.calls), t);
      assert Readers(q.calls) - {t} == Readers(q.calls) && t !in q.readList;
    }
    hide Window, WaitersOk, CallsFit, TextsOk, Slot, Readers, Writers, Without;
  }

  lemma TimeOutOk(q: Queue, a: Action)
    requires Inv(q) && a.TimeOut? && Enabled(q, a)
    ensures StepOk(q, a)
  {
    hide Window, WaitersOk, CallsFit, TextsOk, Slot, Readers, Writers, Without, TasksOk;
    TimeOutTasks(q, a.task);
  }

  lemma {:induction false} NotThere(l: seq<Task>, t: Task)
    ensures t !in l ==> Without(l, t) == l
  {
    if l != [] { NotThere(l[1..], t); }
  }

  /** Every step keeps the tokens and does to the messages what the double-ended queue does. */
  lemma StepRefines(q: Queue, a: Action)
    requires Inv(q) && Enabled(q, a)
    ensures StepOk(q, a)
  {
    match a
    case DoRead(_, _, _, _, _) => ReadCallOk(q, a);
    case DoWrite(_, _, _, _, _, _, _) => WriteCallOk(q, a);
    case ResumeRead(_) => ResumeReadOk(q, a);
    case ResumeWrite(_) => ResumeWriteOk(q, a);
    case TimeOut(_) => TimeOutOk(q, a);
  }

  // ---------- runs ----------

  /** Outside the ring invariant the code is not described, so anything may follow. */
  ghost predicate Step(q: Queue, a: Action, r: Queue) {
    Enabled(q, a) && (RingOk(q, 0) ==> r == Apply(q, a))
  }

  ghost predicate Run(states: seq<Queue>, acts: seq<Action>, nodeNum: nat, maxText: nat) {
    && |states| == |acts| + 1
    && 0 < nodeNum <= U16_MAX && states[0] == Created(nodeNum, maxText)
    && (forall i {:trigger acts[i]} :: 0 <= i < |acts| ==> Step(states[i], acts[i], states[i + 1]))
  }

  lemma CreatedOk(nodeNum: nat, maxText: nat)
    requires 0 < nodeNum <= U16_MAX
    ensures Inv(Created(nodeNum, maxText)) && Contents(Created(nodeNum, maxText)) == []
  {
  }

  lemma {:induction false} InvariantOfRun(states: seq<Queue>, acts: seq<Action>, nodeNum: nat, maxText: nat, n: nat)
    requires Run(states, acts, nodeNum, maxText) && n < |states|
    ensures Inv(states[n]) && |states[n].ring| == nodeNum
    ensures n < |acts| ==> Enabled(states[n], acts[n]) && states[n + 1] == Apply(states[n], acts[n])
    decreases n
  {
    hide StepOk, Inv, Apply;
    InvHasRing(states[n]);
    CreatedOk(nodeNum, maxText);
    if n > 0 {
      InvariantOfRun(states, acts, nodeNum, maxText, n - 1);
      InvHasRing(states[n - 1]);
      StepRefines(states[n - 1], acts[n - 1]);
      StepOkKeeps(states[n - 1], acts[n - 1]);
    }
    InvHasRing(states[n]);
  }

  lemma InvHasRing(q: Queue)
    ensures Inv(q) ==> RingOk(q, 0)
  {
  }

  lemma StepOkKeeps(q: Queue, a: Action)
    requires RingOk(q, 0) && Enabled(q, a) && StepOk(q, a)
    ensures Inv(Apply(q, a)) && |Apply(q, a).ring| == |q.ring|
  {
  }

  /** Main result, tokens. In every state of every run: filled cells are the readable count and
      the woken readers' tokens, free cells the writable count and the woken writers' tokens, and
      somebody waits for a token only while none is free. */
  lemma TokensConserved(states: seq<Queue>, acts: seq<Action>, nodeNum: nat, maxText: nat, n: nat)
    requires Run(states, acts, nodeNum, maxText) && n < |states|
    ensures var q := states[n];
            && |Contents(q)| == q.readable + |q.wokenReaders|
            && nodeNum - |Contents(q)| == q.writable + |q.wokenWriters|
            && (q.readList != [] ==> |Contents(q)| == |q.wokenReaders|)
            && (q.writeList != [] ==> nodeNum - |Contents(q)| == |q.wokenWriters|)
  {
    InvariantOfRun(states, acts, nodeNum, maxText, n);
  }

  /** The effects of the first n steps. */
  ghost function Effects(states: seq<Queue>, acts: seq<Action>, n: nat): (r: seq<Effect>)
    requires n <= |acts| && n <= |states|
    requires forall i :: 0 <= i < n ==> RingOk(states[i], 0) && Enabled(states[i], acts[i])
    ensures |r| == n
  {
    if n == 0 then [] else Effects(states, acts, n - 1) + [EffectOf(states[n - 1], acts[n - 1])]
  }

  /** The abstract queue after a history of effects. */
  function Replay(es: seq<Effect>): seq<Node> {
    if es == [] then [] else DequeAfter(Replay(es[..|es| - 1]), es[|es| - 1])
  }

  /** Every pop of the history found a message and returned the start of the first one. */
  predicate Faithful(es: seq<Effect>) {
    es == [] || (Faithful(es[..|es| - 1]) && Allowed(Replay(es[..|es| - 1]), es[|es| - 1]))
  }

  lemma EveryStateSound(states: seq<Queue>, acts: seq<Action>, nodeNum: nat, maxText: nat)
    requires Run(states, acts, nodeNum, maxText)
    ensures |states| == |acts| + 1
    ensures forall i :: 0 <= i < |acts| ==> RingOk(states[i], 0) && Enabled(states[i], acts[i])
  {
    forall i | 0 <= i < |acts| ensures RingOk(states[i], 0) && Enabled(states[i], acts[i]) {
      InvariantOfRun(states, acts, nodeNum, maxText, i);
    }
  }

  lemma StepOfRun(states: seq<Queue>, acts: seq<Action>, nodeNum: nat, maxText: nat, n: nat)
    requires Run(states, acts, nodeNum, maxText) && n < |acts|
    ensures RingOk(states[n], 0) && Enabled(states[n], acts[n])
    ensures var e := EffectOf(states[n], acts[n]);
            && Allowed(Contents(states[n]), e)
            && Contents(states[n + 1]) == DequeAfter(Contents(states[n]), e)
            && states[n + 1].peak ==
               if Fill(states[n + 1]) > states[n].peak then Fill(states[n + 1]) else states[n].peak
  {
    InvariantOfRun(states, acts, nodeNum, maxText, n);
    StepRefines(states[n], acts[n]);
    hide Inv, Apply, EffectOf, DequeAfter, Allowed, Contents, Run;
  }

  /** Main result, refinement. The ring of every run behaves as a double-ended queue: ordinary
      messages join at the back, urgent ones at the front, and every read, also one that had to
      wait, gets the start of the front message. */
  lemma {:induction false} RefinesDeque(states: seq<Queue>, acts: seq<Action>, nodeNum: nat, maxText: nat, n: nat)
    requires Run(states, acts, nodeNum, maxText) && n <= |acts|
    ensures |states| == |acts| + 1
    ensures forall i :: 0 <= i < |acts| ==> RingOk(states[i], 0) && Enabled(states[i], acts[i])
    ensures Contents(states[n]) == Replay(Effects(states, acts, n)) && Faithful(Effects(states, acts, n))
    decreases n
  {
    EveryStateSound(states, acts, nodeNum, maxText);
    if n == 0 {
      CreatedOk(nodeNum, maxText);
    } else {
      hide Run, Contents, RingOk, Enabled, EffectOf, DequeAfter, Allowed;
      RefinesDeque(states, acts, nodeNum, maxText, n - 1);
      StepOfRun(states, acts, nodeNum, maxText, n - 1);
      var es := Effects(states, acts, n);
      assert es[..|es| - 1] == Effects(states, acts, n - 1);
    }
  }

  /** Everything that was pushed, oldest first. */
  function AllPushed(es: seq<Effect>): seq<Node> {
    if es == [] then [] else
    var e := es[|es| - 1];
    AllPushed(es[..|es| - 1]) + (if e.Pushed? then [e.node] else [])
  }

  /** Everything that was popped, oldest first. */
  function AllPopped(es: seq<Effect>): seq<Node> {
    if es == [] then [] else
    var d := Replay(es[..|es| - 1]);
    AllPopped(es[..|es| - 1]) + (if es[|es| - 1].Popped? && d != [] then [d[0]] else [])
  }

  /** The books stay balanced when one effect is added. */
  lemma MovesOne(pushed: seq<Node>, popped: seq<Node>, d: seq<Node>, e: Effect)
    requires multiset(pushed) == multiset(popped) + multiset(d)
    ensures multiset(pushed + (if e.Pushed? then [e.node] else []))
            == multiset(popped + (if e.Popped? && d != [] then [d[0]] else [])) + multiset(DequeAfter(d, e))
  {
    if e.Popped? && d != [] { assert d == [d[0]] + d[1..]; }
  }

  /** Along any history every message is popped once or still there once. */
  lemma {:induction false} ReplayBalances(es: seq<Effect>)
    ensures multiset(AllPushed(es)) == multiset(AllPopped(es)) + multiset(Replay(es))
  {
    if es != [] {
      ReplayBalances(es[..|es| - 1]);
      MovesOne(AllPushed(es[..|es| - 1]), AllPopped(es[..|es| - 1]), Replay(es[..|es| - 1]), es[|es| - 1]);
    }
  }

  lemma KeepsOrder(pushed: seq<Node>, popped: seq<Node>, d: seq<Node>, e: Effect)
    requires pushed == popped + d && (e.Pushed? ==> !e.urgent)
    ensures pushed + (if e.Pushed? then [e.node] else [])
            == popped + (if e.Popped? && d != [] then [d[0]] else []) + DequeAfter(d, e)
  {
    if e.Popped? && d != [] { assert d == [d[0]] + d[1..]; }
  }

  predicate AllOrdinary(es: seq<Effect>) {
    forall i :: 0 <= i < |es| && es[i].Pushed? ==> !es[i].urgent
  }

  /** A history without urgent messages is first in, first out. */
  lemma {:induction false} ReplayIsFifo(es: seq<Effect>)
    requires AllOrdinary(es)
    ensures AllPushed(es) == AllPopped(es) + Replay(es)
  {
    if es != [] {
      hide DequeAfter;
      ReplayIsFifo(es[..|es| - 1]);
      KeepsOrder(AllPushed(es[..|es| - 1]), AllPopped(es[..|es| - 1]), Replay(es[..|es| - 1]), es[|es| - 1]);
    }
  }

  /** Main result, conservation. In every state of every run what was written so far is, counted with
      multiplicity, what was read so far and what the queue holds. */
  lemma EachMessageOnce(states: seq<Queue>, acts: seq<Action>, nodeNum: nat, maxText: nat, n: nat)
    requires Run(states, acts, nodeNum, maxText) && n <= |acts|
    ensures |states| == |acts| + 1
    ensures forall i :: 0 <= i < |acts| ==> RingOk(states[i], 0) && Enabled(states[i], acts[i])
    ensures var es := Effects(states, acts, n);
            multiset(AllPushed(es)) == multiset(AllPopped(es)) + multiset(Contents(states[n])) && Faithful(es)
  {
    hide Run, Contents, RingOk, Enabled, AllPushed, AllPopped, Replay, Faithful;
    RefinesDeque(states, acts, nodeNum, maxText, n);
    ReplayBalances(Effects(states, acts, n));
  }

  /** No urgent write waits for room. */
  ghost predicate NoneUrgent(calls: map<Task, Call>) {
    forall t :: t in calls && calls[t].request.Write? ==> !calls[t].request.urgent
  }

  lemma SameCalls(q: Queue, node: Node, urgent: bool)
    requires q.tail < |q.ring| && q.head < |q.ring|
    ensures Put(q, node, urgent).calls == q.calls && Take(q).calls == q.calls
  {
  }

  lemma OrdinaryStep(q: Queue, a: Action)
    requires RingOk(q, 0) && Enabled(q, a) && NoneUrgent(q.calls) && (a.DoWrite? ==> !a.urgent)
    ensures NoneUrgent(Apply(q, a).calls) && (EffectOf(q, a).Pushed? ==> !EffectOf(q, a).urgent)
  {
    hide Put, Take, Taken;
    match a
    case DoRead(_, _, _, _, _) => SameCalls(q.(readable := if q.readable > 0 then q.readable - 1 else 0), Node([], None), false);
    case DoWrite(_, text, urgent, srcPid, _, _, _) =>
      SameCalls(q.(writable := if q.writable > 0 then q.writable - 1 else 0), Node(text, Some(srcPid)), urgent);
    case ResumeRead(t) =>
      SameCalls(q.(wokenReaders := q.wokenReaders - {t}, calls := q.calls - {t}), Node([], None), false);
    case ResumeWrite(t) =>
      var w := q.calls[t].request;
      SameCalls(q.(wokenWriters := q.wokenWriters - {t}, calls := q.calls - {t}), Node(w.text, Some(w.srcPid)), w.urgent);
    case TimeOut(_) =>
  }

  lemma {:induction false} OrdinaryEffects(states: seq<Queue>, acts: seq<Action>, nodeNum: nat, maxText: nat, n: nat)
    requires Run(states, acts, nodeNum, maxText) && n <= |acts|
    requires forall i :: 0 <= i < n && acts[i].DoWrite? ==> !acts[i].urgent
    ensures |states| == |acts| + 1 && NoneUrgent(states[n].calls)
    ensures forall i :: 0 <= i < |acts| ==> RingOk(states[i], 0) && Enabled(states[i], acts[i])
    ensures AllOrdinary(Effects(states, acts, n))
    decreases n
  {
    EveryStateSound(states, acts, nodeNum, maxText);
    if n == 0 {
      hide RingOk, Enabled, EffectOf, Inv;
    } else {
      hide RingOk, Enabled, EffectOf, NoneUrgent, Run, Apply, Inv;
      OrdinaryEffects(states, acts, nodeNum, maxText, n - 1);
      InvariantOfRun(states, acts, nodeNum, maxText, n - 1);
      OrdinaryStep(states[n - 1], acts[n - 1]);
    }
  }

  /** Main result, order. In a run without urgent writes the messages written so far are, in their
      order, those read so far followed by those the queue holds. */
  lemma OrdinaryIsFifo(states: seq<Queue>, acts: seq<Action>, nodeNum: nat, maxText: nat, n: nat)
    requires Run(states, acts, nodeNum, maxText) && n <= |acts|
    requires forall i :: 0 <= i < n && acts[i].DoWrite? ==> !acts[i].urgent
    ensures |states| == |acts| + 1
    ensures forall i :: 0 <= i < |acts| ==> RingOk(states[i], 0) && Enabled(states[i], acts[i])
    ensures var es := Effects(states, acts, n); AllPushed(es) == AllPopped(es) + Contents(states[n])
  {
    hide Run, Contents, RingOk, Enabled, AllPushed, AllPopped, Replay, Faithful;
    RefinesDeque(states, acts, nodeNum, maxText, n);
    OrdinaryEffects(states, acts, nodeNum, maxText, n);
    ReplayIsFifo(Effects(states, acts, n));
  }

  function MaxFill(states: seq<Queue>, n: nat): (r: nat)
    requires n < |states|
    ensures forall i :: 0 <= i <= n ==> Fill(states[i]) <= r
    ensures exists i :: 0 <= i <= n && Fill(states[i]) == r
  {
    if n == 0 then Fill(states[0])
    else
      var m := MaxFill(states, n - 1);
      if Fill(states[n]) > m then Fill(states[n]) else m
  }

  lemma StartsEmpty(states: seq<Queue>, acts: seq<Action>, nodeNum: nat, maxText: nat)
    requires Run(states, acts, nodeNum, maxText)
    ensures |states| == |acts| + 1 && states[0].peak == 0 && Fill(states[0]) == 0
  {
  }

  /** Main result, peak. nodePeak is the largest fill so far. */
  lemma {:induction false} PeakIsMaximum(states: seq<Queue>, acts: seq<Action>, nodeNum: nat, maxText: nat, n: nat)
    requires Run(states, acts, nodeNum, maxText) && n < |states|
    ensures states[n].peak == MaxFill(states, n)
    decreases n
  {
    hide Run, Fill, Contents, DequeAfter, Allowed, EffectOf, RingOk, Enabled;
    StartsEmpty(states, acts, nodeNum, maxText);
    if n > 0 {
      PeakIsMaximum(states, acts, nodeNum, maxText, n - 1);
      StepOfRun(states, acts, nodeNum, maxText, n - 1);
    }
  }
}
