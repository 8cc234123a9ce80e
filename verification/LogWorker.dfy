/** The reader thread of the QSemOS log ring in code form. The flags and the memory are given as the
    values it finds; LogRing.dfy treats what the writers do meanwhile. */
module LogWorker {
  import opened LogCount
  import opened LogRing
  import opened Modulo

  /** What one round of the main loop comes to */
  datatype Round = Nothing | Failed | NoMemory | Took(blocks: seq<Cell>)

  class Worker {
    const n: nat
    var localHead: nat
    var isOverflow: bool
    var validFlag: bool
    // The head the writers read
    var headPtr: nat

    /** The head with the shift of two laps taken back */
    function Head(): nat
      requires GoodCount(n)
      reads this
    {
      if isOverflow then (localHead + M - 2 * n) % M else localHead
    }

    predicate Valid()
      reads this
    {
      GoodCount(n) && localHead < M && headPtr == Head()
    }

    constructor (n: nat)
      requires GoodCount(n)
      ensures Valid() && this.n == n && headPtr == Stored(0, n) && validFlag == FlagOf(0, n)
    {
      this.n := n;
      localHead := M - 2 * n;
      isOverflow := false;
      headPtr := M - 2 * n;
      validFlag := true;
      DivisionUnique(0, 2 * n, 0, 0);
    }

    /** The shift of the round before is taken back, and near the top of the range both counters are
        shifted again. */
    method FixOverflow(tail: nat) returns (t: nat)
      requires Valid() && tail < M
      modifies this`localHead, this`isOverflow
      ensures Valid() && (isOverflow <==> headPtr > M - 1 - n)
      ensures localHead == Shifted(headPtr, headPtr, n) && t == Shifted(headPtr, tail, n)
    {
      if isOverflow {
        localHead := (localHead + M - 2 * n) % M;
        isOverflow := false;
      }
      assert localHead == headPtr;
      t := tail;
      if localHead > M - 1 - n {
        ShiftUndone(localHead, n);
        localHead := (localHead + 2 * n) % M;
        t := (t + 2 * n) % M;
        isOverflow := true;
      }
    }

    /** The number of leading blocks whose flags match */
    method CheckValidNum(flags: seq<bool>, headIndex: nat, copyNum: nat) returns (validNum: nat)
      requires Valid() && |flags| == n && headIndex < n && copyNum <= n
      ensures validNum <= copyNum
      ensures forall v :: 0 <= v < validNum ==> Matches(flags, headIndex, v)
      ensures validNum < copyNum ==> !Matches(flags, headIndex, validNum)
    {
      var tailCopyNum, headCopyNum := copyNum, 0;
      if headIndex + copyNum > n {
        tailCopyNum, headCopyNum := n - headIndex, headIndex + copyNum - n;
      }
      validNum := 0;
      var i := 0;
      while i < tailCopyNum
        invariant i <= tailCopyNum && validNum == i
        invariant forall v :: 0 <= v < validNum ==> Matches(flags, headIndex, v)
      {
        if flags[headIndex + i] != validFlag { return; }
        validNum := validNum + 1;
        i := i + 1;
      }
      i := 0;
      while i < headCopyNum
        invariant i <= headCopyNum && validNum == tailCopyNum + i
        invariant forall v :: 0 <= v < validNum ==> Matches(flags, headIndex, v)
      {
        if flags[i] == validFlag { return; }
        validNum := validNum + 1;
        i := i + 1;
      }
    }

    predicate Matches(flags: seq<bool>, headIndex: nat, v: nat)
      requires headIndex < n == |flags| && v < n
      reads this
    {
      flags[Ahead(headIndex, v, n)] == if headIndex + v < n then validFlag else !validFlag
    }

    /** Two copies, up to the end of the memory and from its start */
    method CopyLogBuffer(memory: seq<Cell>, headIndex: nat, copyNum: nat) returns (blocks: seq<Cell>)
      requires Valid() && |memory| == n && headIndex < n && copyNum <= n
      ensures |blocks| == copyNum && forall v :: 0 <= v < copyNum ==> blocks[v] == memory[Ahead(headIndex, v, n)]
    {
      var tailCopyNum, headCopyNum := copyNum, 0;
      if headIndex + copyNum > n {
        tailCopyNum, headCopyNum := n - headIndex, headIndex + copyNum - n;
      }
      blocks := memory[headIndex..headIndex + tailCopyNum];
      if headCopyNum != 0 {
        blocks := blocks + memory[..headCopyNum];
      }
    }

    /** log_read; free: the allocation of the copy succeeds */
    method LogRead(flags: seq<bool>, memory: seq<Cell>, num: nat, checkLog: bool, headIndex: nat, free: bool)
      returns (r: Round)
      requires Valid() && |flags| == n && |memory| == n
      ensures r.Failed? <==> num == 0 || num > n || headIndex >= n
      ensures r.Nothing? <==> 0 < num <= n && headIndex < n && checkLog && !Matches(flags, headIndex, 0)
      ensures (r.NoMemory? ==> !free) && (r.Took? ==> free)
      ensures r.Took? ==>
                && 0 < |r.blocks| <= num && (!checkLog ==> |r.blocks| == num)
                && (forall v :: 0 <= v < |r.blocks| ==> r.blocks[v] == memory[Ahead(headIndex, v, n)])
                && (checkLog ==>
                      && (forall v :: 0 <= v < |r.blocks| ==> Matches(flags, headIndex, v))
                      && (|r.blocks| < num ==> !Matches(flags, headIndex, |r.blocks|)))
    {
      if num == 0 || num > n || headIndex >= n { return Failed; }
      var copyNum := num;
      if checkLog {
        copyNum := CheckValidNum(flags, headIndex, copyNum);
      }
      if copyNum == 0 { return Nothing; }
      if !free { return NoMemory; }
      var blocks := CopyLogBuffer(memory, headIndex, copyNum);
      return Took(blocks);
    }

    /** Nothing, all entries without a look at the flags, or the leading ones whose flags match */
    method ReadOrEmit(currTail: nat, flags: seq<bool>, memory: seq<Cell>, listEmpty: bool, free: bool) returns (r: Round)
      requires Valid() && |flags| == n && |memory| == n
      ensures r.Failed? <==> currTail < localHead || currTail > localHead + n
                             || (n - (currTail - localHead) < NO_CHECK && currTail == localHead)
      ensures r.Nothing? <==>
                localHead <= currTail <= localHead + n && n - (currTail - localHead) >= NO_CHECK
                && (currTail == localHead || !(currTail - localHead > MANY || listEmpty)
                    || !Matches(flags, localHead % n, 0))
      ensures (r.NoMemory? ==> !free) && (r.Took? ==> free)
      ensures r.Took? ==>
                && 0 < |r.blocks| <= currTail - localHead
                && Copied(r.blocks, memory, localHead % n)
                && (if n - (currTail - localHead) < NO_CHECK then |r.blocks| == currTail - localHead
                    else
                      && (currTail - localHead > MANY || listEmpty)
                      && LongestMatch(flags, localHead % n, |r.blocks|, currTail - localHead))
    {
      if currTail < localHead || currTail > localHead + n { return Failed; }
      var num := currTail - localHead;
      var headIndex := localHead % n;
      if n - num < NO_CHECK {
        r := LogRead(flags, memory, num, false, headIndex, free);
      } else if num > MANY {
        r := LogRead(flags, memory, num, true, headIndex, free);
      } else if listEmpty {
        if num == 0 { return Nothing; }
        r := LogRead(flags, memory, num, true, headIndex, free);
      } else {
        return Nothing;
      }
    }

    /** One round of the main loop. When the counters stand for h <= t <= h + n it takes the blocks of
        the counts h, h + 1, ...: all of them without a look at the flags when less room than the
        threshold is left, otherwise the longest row whose flags show their lap. Head and flag move
        on by what was taken, also when there is no memory for the copy: then nothing is. */
    method OneRound(tail: nat, flags: seq<bool>, memory: seq<Cell>, listEmpty: bool, free: bool, ghost h: nat, ghost t: nat)
      returns (r: Round)
      requires Valid() && |flags| == n && |memory| == n
      requires h <= t <= h + n && headPtr == Stored(h, n) && tail == Stored(t, n) && validFlag == FlagOf(h, n)
      modifies this`localHead, this`isOverflow, this`validFlag, this`headPtr
      ensures Valid() && headPtr == Stored(h + Taken(r), n) && validFlag == FlagOf(h + Taken(r), n)
      ensures r.Failed? <==> n - (t - h) < NO_CHECK && t == h
      ensures r.Nothing? <==>
                n - (t - h) >= NO_CHECK && (t == h || !(t - h > MANY || listEmpty) || !Shows(flags, h, n))
      ensures (r.NoMemory? ==> !free) && (r.Took? ==> free)
      ensures r.Took? ==>
                && 0 < |r.blocks| <= t - h
                && (forall p :: h <= p < h + |r.blocks| ==> r.blocks[p - h] == memory[SlotOf(p, n)])
                && (if n - (t - h) < NO_CHECK then |r.blocks| == t - h
                    else
                      && (t - h > MANY || listEmpty)
                      && (forall p :: h <= p < h + |r.blocks| ==> Shows(flags, p, n))
                      && (|r.blocks| < t - h ==> !Shows(flags, h + |r.blocks|, n)))
    {
      hide Stored, Shifted, Shows, Matches, Copied, LongestMatch, SlotOf, FlagOf;
      var currTail := FixOverflow(tail);
      StoredDistance(h, t, n);
      HeadIndexRight(h, n);
      r := ReadOrEmit(currTail, flags, memory, listEmpty, free);
      MatchesShow(flags, h);
      if r.Took? {
        CopiedFrom(r.blocks, memory, h, n);
        if t - h <= n - NO_CHECK { LongestShown(flags, h, |r.blocks|, t - h); }
        MoveOn(|r.blocks|, h);
      }
    }

    /** Head and flag after readNum blocks */
    method MoveOn(readNum: nat, ghost h: nat)
      requires Valid() && readNum <= n && headPtr == Stored(h, n) && validFlag == FlagOf(h, n)
      requires localHead == Shifted(headPtr, headPtr, n) && (isOverflow <==> headPtr > M - 1 - n)
      modifies this`localHead, this`isOverflow, this`validFlag, this`headPtr
      ensures Valid() && headPtr == Stored(h + readNum, n) && validFlag == FlagOf(h + readNum, n)
    {
      hide Stored, SlotOf, FlagOf;
      HeadIndexRight(h, n);
      FlagAhead(h, readNum, n);
      ShiftBack(h, readNum, n);
      if localHead % n + readNum >= n {
        validFlag := !validFlag;
      }
      localHead := (localHead + readNum) % M;
      if isOverflow {
        localHead := (localHead + M - 2 * n) % M;
        isOverflow := false;
      }
      headPtr := localHead;
    }

    predicate LongestMatch(flags: seq<bool>, headIndex: nat, k: nat, num: nat)
      requires headIndex < n == |flags| && k <= num <= n
      reads this
    {
      && (forall v :: 0 <= v < k ==> Matches(flags, headIndex, v))
      && (k < num ==> !Matches(flags, headIndex, k))
    }

    lemma MatchesShow(flags: seq<bool>, h: nat)
      requires GoodCount(n) && |flags| == n && localHead == Shifted(Stored(h, n), Stored(h, n), n)
      requires validFlag == FlagOf(h, n)
      ensures forall v :: 0 <= v < n ==> (Matches(flags, localHead % n, v) <==> Shows(flags, h + v, n))
    {
      hide Stored, Shifted, SlotOf, FlagOf;
      HeadIndexRight(h, n);
      forall v | 0 <= v < n ensures Matches(flags, localHead % n, v) <==> Shows(flags, h + v, n) {
        SlotAhead(h, v, n);
        FlagAhead(h, v, n);
      }
    }

    lemma LongestShown(flags: seq<bool>, h: nat, k: nat, num: nat)
      requires GoodCount(n) && |flags| == n && localHead == Shifted(Stored(h, n), Stored(h, n), n)
      requires validFlag == FlagOf(h, n) && k <= num <= n && LongestMatch(flags, localHead % n, k, num)
      ensures forall p :: h <= p < h + k ==> Shows(flags, p, n)
      ensures k < num ==> !Shows(flags, h + k, n)
    {
      hide Stored, Shifted, SlotOf, FlagOf, Matches, Shows;
      MatchesShow(flags, h);
      forall p | h <= p < h + k ensures Shows(flags, p, n) {
        assert Matches(flags, localHead % n, p - h);
      }
    }
  }

  predicate Copied(blocks: seq<Cell>, memory: seq<Cell>, headIndex: nat)
    requires headIndex < |memory| && |blocks| <= |memory|
  {
    forall v :: 0 <= v < |blocks| ==> blocks[v] == memory[Ahead(headIndex, v, |memory|)]
  }

  lemma CopiedFrom(blocks: seq<Cell>, memory: seq<Cell>, h: nat, n: nat)
    requires 0 < n == |memory| && |blocks| <= n && Copied(blocks, memory, SlotOf(h, n))
    ensures forall p :: h <= p < h + |blocks| ==> blocks[p - h] == memory[SlotOf(p, n)]
  {
    hide SlotOf;
    forall p | h <= p < h + |blocks| ensures blocks[p - h] == memory[SlotOf(p, n)] {
      SlotAhead(h, p - h, n);
    }
  }

  lemma HeadIndexRight(h: nat, n: nat)
    requires GoodCount(n)
    ensures Shifted(Stored(h, n), Stored(h, n), n) % n == SlotOf(h, n)
  {
    hide Stored, Shifted, SlotOf;
    ReaderIndexRight(h, n);
    ModMeans(Shifted(Stored(h, n), Stored(h, n), n), n);
  }

  function Taken(r: Round): nat {
    if r.Took? then |r.blocks| else 0
  }

  /** The slot of count p shows the flag of that lap. */
  predicate Shows(flags: seq<bool>, p: nat, n: nat)
    requires 0 < n == |flags|
  {
    flags[SlotOf(p, n)] == FlagOf(p, n)
  }

  /** Advancing the shifted head and taking the shift back advances the head. */
  lemma ShiftBack(h: nat, k: nat, n: nat)
    requires GoodCount(n) && k <= n
    ensures var x := Shifted(Stored(h, n), Stored(h, n), n);
            Stored(h + k, n) ==
            if Stored(h, n) > M - 1 - n then ((x + k) % M + M - 2 * n) % M else (x + k) % M
  {
    NextStored(h, k, n);
    hide Stored;
    PlainShiftBack(Stored(h, n), k, n);
  }

  lemma ShiftUndone(x: nat, n: nat)
    requires 0 < n && 3 * n <= M && M - 1 - n < x < M
    ensures ((x + 2 * n) % M + M - 2 * n) % M == x
  {
    assert (x + 2 * n) % M == x + 2 * n - M;
  }

  lemma PlainShiftBack(x: nat, k: nat, n: nat)
    requires 0 < n && 3 * n <= M && x < M && k <= n
    ensures x > M - 1 - n ==> (((x + 2 * n) % M + k) % M + M - 2 * n) % M == (x + k) % M
  {
    if x > M - 1 - n {
      assert (x + 2 * n) % M == x + 2 * n - M;
      var y := x + 2 * n - M + k;
      assert y < M && y % M == y;
      assert y + M - 2 * n == x + k;
    }
  }
}
