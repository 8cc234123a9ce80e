/** The message-queue control block as the code rewrites it, each critical section tied to its
    value-level description in MsgQueue. */
module MsgQueueCb {
  import opened Options
  import opened MsgQueue
  import opened MsgQueueEffects

  lemma RingHasIndices(q: Queue)
    requires RingOk(q, 0)
    ensures q.head < |q.ring| && q.tail < |q.ring|
  {
  }

  /** What StepRefines says of a woken task that runs again. */
  lemma ResumeStep(q: Queue, t: Task)
    requires Inv(q) && t in q.calls
    ensures q.head < |q.ring| && q.tail < |q.ring|
    ensures t in q.wokenReaders && q.calls[t].request.Read? ==>
              var (r, text) := ReadResume(q, t);
              && Inv(r) && Contents(q) != [] && text == Front(Contents(q), q.calls[t].request.len)
              && Contents(r) == Contents(q)[1..]
    ensures t in q.wokenWriters && q.calls[t].request.Write? ==>
              var w := q.calls[t].request;
              var node := Node(w.text, Some(w.srcPid));
              && Inv(WriteResume(q, t))
              && Contents(WriteResume(q, t)) == if w.urgent then [node] + Contents(q) else Contents(q) + [node]
  {
    hide Inv, Contents, ReadResume, WriteResume, Front, RingOk;
    InvHasRing(q);
    RingHasIndices(q);
    if t in q.wokenReaders && q.calls[t].request.Read? { StepRefines(q, ResumeRead(t)); }
    if t in q.wokenWriters && q.calls[t].request.Write? { StepRefines(q, ResumeWrite(t)); }
  }

  /** What StepRefines says of a read call. */
  lemma ReadStep(q: Queue, t: Task, len: nat, wait: Wait, inInterrupt: bool, locked: bool)
    requires Inv(q) && (inInterrupt || t !in q.calls)
    ensures q.head < |q.ring|
    ensures var (r, status, text) := ReadCall(q, t, len, wait, inInterrupt, locked);
            && Inv(r)
            && (status == Ok ==> Contents(q) != [] && text == Front(Contents(q), len))
            && Contents(r) == if status == Ok then Contents(q)[1..] else Contents(q)
  {
    hide Inv, Contents, Take, Taken, Front, RingOk;
    InvHasRing(q);
    RingHasIndices(q);
    StepRefines(q, DoRead(t, len, wait, inInterrupt, locked));
  }

  /** What StepRefines says of a write call. */
  lemma WriteStep(q: Queue, t: Task, text: seq<Byte>, urgent: bool, srcPid: nat,
                  wait: Wait, inInterrupt: bool, locked: bool)
    requires Inv(q) && (inInterrupt || t !in q.calls)
    ensures q.head < |q.ring| && q.tail < |q.ring|
    ensures var (r, status) := WriteCall(q, t, text, urgent, srcPid, wait, inInterrupt, locked);
            var node := Node(text, Some(srcPid));
            && Inv(r)
            && Contents(r) == if status != Ok then Contents(q)
                              else if urgent then [node] + Contents(q) else Contents(q) + [node]
  {
    hide Inv, Contents, Put, RingOk;
    InvHasRing(q);
    RingHasIndices(q);
    StepRefines(q, DoWrite(t, text, urgent, srcPid, wait, inInterrupt, locked));
  }

  class QueueCb {
    const queue: array<Node>
    const maxText: nat
    var queueHead: nat
    var queueTail: nat
    var nodePeak: nat
    var readableCnt: nat
    var writableCnt: nat
    var readList: seq<Task>
    var writeList: seq<Task>
    var wokenReaders: set<Task>
    var wokenWriters: set<Task>
    var calls: map<Task, Call>

    function St(): Queue
      reads this, queue
    {
      Queue(queue[..], maxText, queueHead, queueTail, nodePeak, readableCnt, writableCnt,
            readList, writeList, wokenReaders, wokenWriters, calls)
    }

    /** OsQueueCreate: every node starts without a sender. */
    constructor (nodeNum: nat, maxText: nat)
      requires 0 < nodeNum <= U16_MAX
      ensures fresh(queue) && St() == Created(nodeNum, maxText) && Inv(St())
      ensures Contents(St()) == [] && queue.Length == nodeNum && this.maxText == maxText && nodePeak == 0
      ensures readList == [] && writeList == [] && wokenReaders == {} && wokenWriters == {} && calls == map[]
    {
      queue := new Node[nodeNum](_ => Node([], None));
      this.maxText := maxText;
      queueHead, queueTail, nodePeak, readableCnt, writableCnt := 0, 0, 0, 0, nodeNum;
      readList, writeList, wokenReaders, wokenWriters, calls := [], [], {}, {}, map[];
      new;
      assert queue[..] == seq(nodeNum, _ => Node([], None));
      CreatedOk(nodeNum, maxText);
    }

    /** OsQueueCpData2Node */
    method CopyToNode(urgent: bool, node: Node)
      requires queueTail < queue.Length && queueHead < queue.Length
      modifies this`queueTail, this`queueHead, this`nodePeak, queue
      ensures St() == CpData2Node(old(St()), node, urgent)
    {
      if !urgent {
        queue[queueTail] := node;
        queueTail := queueTail + 1;
        if queueTail == queue.Length { queueTail := 0; }
      } else {
        if queueHead == 0 { queueHead := queue.Length; }
        queueHead := queueHead - 1;
        queue[queueHead] := node;
      }
      var peak := if queueTail > queueHead then queueTail - queueHead else queue.Length - queueHead + queueTail;
      if peak > nodePeak { nodePeak := peak; }
    }

    /** OsQueuePendNeedProc on the read list */
    method WakeReader() returns (woken: bool)
      modifies this`readList, this`wokenReaders
      ensures woken == (old(readList) != [])
      ensures woken ==> St() == PassToReader(old(St()))
      ensures !woken ==> St() == old(St())
    {
      if readList == [] { return false; }
      var resumed := readList[0];
      readList := readList[1..];
      wokenReaders := wokenReaders + {resumed};
      return true;
    }

    /** OsQueuePendNeedProc on the write list */
    method WakeWriter() returns (woken: bool)
      modifies this`writeList, this`wokenWriters
      ensures woken == (old(writeList) != [])
      ensures woken ==> St() == PassToWriter(old(St()))
      ensures !woken ==> St() == old(St())
    {
      if writeList == [] { return false; }
      var resumed := writeList[0];
      writeList := writeList[1..];
      wokenWriters := wokenWriters + {resumed};
      return true;
    }

    /** OsInnerPend on the readable count, up to its return or to the task switch */
    method PendRead(t: Task, len: nat, wait: Wait, inInterrupt: bool, locked: bool) returns (status: Status)
      modifies this`readableCnt, this`readList, this`calls
      ensures status == if old(readableCnt) > 0 then Ok else Refusal(wait, inInterrupt, locked)
      ensures St() == if status == Ok then old(St()).(readable := old(readableCnt) - 1)
                      else if status == Blocked then
                        old(St()).(readList := old(readList) + [t],
                                   calls := old(calls)[t := Call(Read(len), wait == Ticks)])
                      else old(St())
    {
      if readableCnt > 0 {
        readableCnt := readableCnt - 1;
        return Ok;
      }
      if wait == NoWait { return NoSource; }
      if inInterrupt { return InInterrupt; }
      if locked { return PendInLock; }
      readList := readList + [t];
      calls := calls[t := Call(Read(len), wait == Ticks)];
      return Blocked;
    }

    /** OsInnerPend on the writable count, up to its return or to the task switch */
    method PendWrite(t: Task, request: Request, wait: Wait, inInterrupt: bool, locked: bool)
      returns (status: Status)
      modifies this`writableCnt, this`writeList, this`calls
      ensures status == if old(writableCnt) > 0 then Ok else Refusal(wait, inInterrupt, locked)
      ensures St() == if status == Ok then old(St()).(writable := old(writableCnt) - 1)
                      else if status == Blocked then
                        old(St()).(writeList := old(writeList) + [t],
                                   calls := old(calls)[t := Call(request, wait == Ticks)])
                      else old(St())
    {
      if writableCnt > 0 {
        writableCnt := writableCnt - 1;
        return Ok;
      }
      if wait == NoWait { return NoSource; }
      if inInterrupt { return InInterrupt; }
      if locked { return PendInLock; }
      writeList := writeList + [t];
      calls := calls[t := Call(request, wait == Ticks)];
      return Blocked;
    }

    /** The part of PRT_QueueRead after a token was obtained */
    method FinishRead(len: nat) returns (text: seq<Byte>)
      requires queueHead < queue.Length
      modifies this`queueHead, this`writableCnt, this`writeList, this`wokenWriters, queue
      ensures St() == Take(old(St())) && text == Taken(old(St()), len)
    {
      var node := queue[queueHead];
      var n := len;
      if n > |node.text| { n := |node.text|; }
      text := node.text[..n];
      queue[queueHead] := node.(srcPid := None);
      queueHead := queueHead + 1;
      if queueHead == queue.Length { queueHead := 0; }
      var woken := WakeWriter();
      if !woken { writableCnt := writableCnt + 1; }
    }

    /** The part of PRT_QueueWrite after a token was obtained */
    method FinishWrite(node: Node, urgent: bool)
      requires queueTail < queue.Length && queueHead < queue.Length
      modifies this`queueTail, this`queueHead, this`nodePeak, this`readableCnt, this`readList,
               this`wokenReaders, queue
      ensures St() == Put(old(St()), node, urgent)
    {
      CopyToNode(urgent, node);
      var woken := WakeReader();
      if !woken { readableCnt := readableCnt + 1; }
    }

    /** PRT_QueueRead up to its return or to the task switch: Ok exactly when a message is left that no
        woken reader has a claim to, and then it is the front one. */
    method QueueRead(t: Task, len: nat, wait: Wait, inInterrupt: bool, locked: bool)
      returns (status: Status, text: seq<Byte>)
      requires Inv(St()) && (inInterrupt || t !in calls)
      modifies this, queue
      ensures (St(), status, text) == ReadCall(old(St()), t, len, wait, inInterrupt, locked)
      ensures Inv(St())
      ensures status == Ok ==> old(Contents(St())) != [] && text == Front(old(Contents(St())), len)
      ensures Contents(St()) == if status == Ok then old(Contents(St()))[1..] else old(Contents(St()))
      ensures ReadAnswered(old(St()), len, wait, inInterrupt, locked, status)
      ensures ReadEffect(old(St()), St(), t, len, wait, status, text)
    {
      hide Inv, Contents, Take, Taken, Front, ReadAnswered, ReadEffect;
      ReadStep(St(), t, len, wait, inInterrupt, locked);
      ReadDoes(St(), t, len, wait, inInterrupt, locked);
      text := [];
      if len == 0 {
        status := SizeZero;
      } else {
        status := PendRead(t, len, wait, inInterrupt, locked);
        if status == Ok {
          text := FinishRead(len);
        }
      }
    }

    /** PRT_QueueWrite up to its return or to the task switch: Ok exactly when the text fits and a cell is
        left that no woken writer has a claim to. */
    method QueueWrite(t: Task, text: seq<Byte>, urgent: bool, srcPid: nat, wait: Wait, inInterrupt: bool, locked: bool)
      returns (status: Status)
      requires Inv(St()) && (inInterrupt || t !in calls)
      modifies this, queue
      ensures (St(), status) == WriteCall(old(St()), t, text, urgent, srcPid, wait, inInterrupt, locked)
      ensures Inv(St())
      ensures var node := Node(text, Some(srcPid));
              Contents(St()) == if status != Ok then old(Contents(St()))
                                else if urgent then [node] + old(Contents(St()))
                                else old(Contents(St())) + [node]
      ensures WriteAnswered(old(St()), text, wait, inInterrupt, locked, status)
      ensures WriteEffect(old(St()), St(), t, text, urgent, srcPid, wait, status)
    {
      hide Inv, Contents, Put, WriteAnswered, WriteEffect;
      WriteStep(St(), t, text, urgent, srcPid, wait, inInterrupt, locked);
      WriteDoes(St(), t, text, urgent, srcPid, wait, inInterrupt, locked);
      if text == [] {
        status := SizeZero;
      } else if |text| > maxText {
        status := SizeTooBig;
      } else {
        status := PendWrite(t, Write(text, urgent, srcPid), wait, inInterrupt, locked);
        if status == Ok {
          FinishWrite(Node(text, Some(srcPid)), urgent);
        }
      }
    }

    /** The rest of PRT_QueueRead when a woken reader runs again: its message is there. */
    method ResumeReader(t: Task) returns (text: seq<Byte>)
      requires Inv(St()) && t in wokenReaders && t in calls && calls[t].request.Read?
      modifies this, queue
      ensures (St(), text) == ReadResume(old(St()), t) && Inv(St())
      ensures old(Contents(St())) != [] && text == Front(old(Contents(St())), old(calls[t].request.len))
      ensures Contents(St()) == old(Contents(St()))[1..]
      ensures MessageOut(old(St()), St(), old(calls[t].request.len), text)
      ensures wokenReaders == old(wokenReaders) - {t} && calls == old(calls) - {t}
    {
      hide Inv, Contents, Take, Taken, Front, MessageOut;
      ResumeStep(St(), t);
      ReadResumeDoes(St(), t);
      var len := calls[t].request.len;
      wokenReaders, calls := wokenReaders - {t}, calls - {t};
      text := FinishRead(len);
    }

    /** The rest of PRT_QueueWrite when a woken writer runs again: its cell is free. */
    method ResumeWriter(t: Task)
      requires Inv(St()) && t in wokenWriters && t in calls && calls[t].request.Write?
      modifies this, queue
      ensures St() == WriteResume(old(St()), t) && Inv(St())
      ensures var w := old(calls[t].request);
              var node := Node(w.text, Some(w.srcPid));
              && Contents(St()) == (if w.urgent then [node] + old(Contents(St())) else old(Contents(St())) + [node])
              && MessageIn(old(St()), St(), node, w.urgent)
      ensures wokenWriters == old(wokenWriters) - {t} && calls == old(calls) - {t}
    {
      hide Inv, Contents, Put, MessageIn;
      ResumeStep(St(), t);
      WriteResumeDoes(St(), t);
      var w := calls[t].request;
      wokenWriters, calls := wokenWriters - {t}, calls - {t};
      FinishWrite(Node(w.text, Some(w.srcPid)), w.urgent);
    }
  }
}
