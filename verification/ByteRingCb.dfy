/** The byte ring buffer as the code rewrites it, tied to its value-level description in ByteRing. */
module ByteRingCb {
  import opened ByteRing
  import opened Options
  import opened Ring

  class Ringbuf {
    var fifo: array<Byte>
    var remain: nat
    var startIdx: nat
    var endIdx: nat
    var inited: bool

    function St(): Rb
      reads this, fifo
    {
      Rb(fifo[..], startIdx, endIdx, remain)
    }

    predicate Valid()
      reads this, fifo
    {
      inited ==> Sound(St())
    }

    /** The bytes that were written and not yet read, oldest first */
    function Bytes(): seq<Byte>
      requires Valid()
      reads this, fifo
    {
      if inited then Contents(St()) else []
    }

    /** A control block that PRT_RingbufInit has not seen yet */
    constructor ()
      ensures Valid() && !inited && Bytes() == []
    {
      inited := false;
      fifo := new Byte[0];
      remain, startIdx, endIdx := 0, 0, 0;
    }

    /** PRT_RingbufInit: refused when the ring is in use or the memory is empty. A memory too large
        for memcpy_s is taken as well, but no later call is described for it. */
    method Init(memory: array<Byte>) returns (ok: bool)
      requires Valid()
      modifies this
      ensures ok == (!old(inited) && memory.Length > 0)
      ensures ok ==> inited && fifo == memory && St() == Rb(memory[..], 0, 0, memory.Length)
      ensures !ok ==> inited == old(inited) && fifo == old(fifo) && St() == old(St())
      ensures !ok || memory.Length <= MAX_COPY ==> Valid() && Bytes() == if ok then [] else old(Bytes())
    {
      if inited || memory.Length == 0 { return false; }
      startIdx, endIdx := 0, 0;
      remain := memory.Length;
      fifo := memory;
      inited := true;
      return true;
    }

    /** memcpy_s into the ring */
    method CopyIn(at: nat, buf: array<Byte>, from: nat, n: nat)
      requires at + n <= fifo.Length && from + n <= buf.Length && buf != fifo
      modifies fifo
      ensures fifo[..] == Overwritten(old(fifo[..]), at, buf[from..from + n])
    {
      var k := 0;
      while k < n
        invariant k <= n
        invariant forall j :: 0 <= j < fifo.Length ==>
                    fifo[j] == if at <= j < at + k then buf[from + (j - at)] else old(fifo[j])
      {
        fifo[at + k] := buf[from + k];
        k := k + 1;
      }
    }

    /** memcpy_s out of the ring */
    method CopyOut(at: nat, buf: array<Byte>, to: nat, n: nat)
      requires at + n <= fifo.Length && to + n <= buf.Length && buf != fifo
      modifies buf
      ensures buf[..] == Overwritten(old(buf[..]), to, fifo[at..at + n])
    {
      var k := 0;
      while k < n
        invariant k <= n
        invariant forall j :: 0 <= j < buf.Length ==>
                    buf[j] == if to <= j < to + k then fifo[at + (j - to)] else old(buf[j])
      {
        buf[to + k] := fifo[at + k];
        k := k + 1;
      }
    }

    /** OsRingbufWriteLinear */
    method WriteLinear(buf: array<Byte>, from: nat, len: nat) returns (cpSize: nat)
      requires buf != fifo && from + len <= buf.Length && LinearWrite(St(), buf[from..from + len]).Some?
      modifies this`remain, this`endIdx, fifo
      ensures LinearWrite(old(St()), buf[from..from + len]) == Some((St(), cpSize))
    {
      hide Overwritten;
      cpSize := if remain < len then remain else len;
      if cpSize == 0 { return; }
      assert buf[from..from + len][..cpSize] == buf[from..from + cpSize];
      CopyIn(endIdx, buf, from, cpSize);
      remain := remain - cpSize;
      endIdx := endIdx + cpSize;
    }

    /** The first copy of OsRingbufWriteLoop, up to the end of the array */
    method WriteRight(buf: array<Byte>, len: nat) returns (cpSize: nat)
      requires Indexed(St()) && buf != fifo && len <= buf.Length
      modifies this`remain, this`endIdx, fifo
      ensures cpSize <= len && RightWrite(old(St()), buf[..len]) == (St(), cpSize)
    {
      hide Overwritten;
      var right := fifo.Length - endIdx;
      cpSize := if right < len then right else len;
      assert buf[..len][..cpSize] == buf[0..cpSize];
      CopyIn(endIdx, buf, 0, cpSize);
      remain := (remain + M - cpSize) % M;
      endIdx := endIdx + cpSize;
      if endIdx == fifo.Length { endIdx := 0; }
    }

    /** OsRingbufWriteLoop */
    method WriteLoop(buf: array<Byte>, len: nat) returns (cpSize: nat)
      requires Indexed(St()) && buf != fifo && len <= buf.Length && LoopWrite(St(), buf[..len]).Some?
      modifies this`remain, this`endIdx, fifo
      ensures LoopWrite(old(St()), buf[..len]) == Some((St(), cpSize))
    {
      hide LinearWrite, RightWrite;
      cpSize := WriteRight(buf, len);
      if cpSize < len {
        assert buf[..len][cpSize..] == buf[cpSize..cpSize + (len - cpSize)];
        var more := WriteLinear(buf, cpSize, len - cpSize);
        cpSize := cpSize + more;
      }
    }

    /** PRT_RingbufWrite inside the lock */
    method WriteLocked(buf: array<Byte>, len: nat) returns (cpSize: nat)
      requires Indexed(St()) && buf != fifo && len <= buf.Length && WriteRegion(St(), buf[..len]).Some?
      modifies this`remain, this`endIdx, fifo
      ensures WriteRegion(old(St()), buf[..len]) == Some((St(), cpSize))
    {
      hide LinearWrite, LoopWrite;
      if startIdx <= endIdx {
        cpSize := WriteLoop(buf, len);
      } else {
        assert buf[0..0 + len] == buf[..len];
        cpSize := WriteLinear(buf, 0, len);
      }
    }

    /** PRT_RingbufWrite by itself: the longest prefix that fits is appended. */
    method Write(buf: array<Byte>, len: nat) returns (cpSize: nat)
      requires Valid() && buf != fifo && len <= buf.Length
      modifies this`remain, this`endIdx, fifo
      ensures Valid() && inited == old(inited) && fifo == old(fifo)
      ensures cpSize == if inited then Min(len, old(remain)) else 0
      ensures remain == old(remain) - cpSize
      ensures Bytes() == old(Bytes()) + buf[..cpSize]
    {
      if len == 0 || !inited || remain == 0 { return 0; }
      hide WriteRegion, Contents, Slot;
      WriteAppends(St(), buf[..len]);
      cpSize := WriteLocked(buf, len);
      assert buf[..len][..cpSize] == buf[..cpSize];
    }

    /** OsRingbufReadLinear */
    method ReadLinear(buf: array<Byte>, to: nat, len: nat) returns (cpSize: nat)
      requires startIdx <= endIdx <= fifo.Length && buf != fifo && to + len <= buf.Length
      modifies this`remain, this`startIdx, buf
      ensures cpSize <= len && LinearRead(old(St()), len).0 == St() && cpSize == |LinearRead(old(St()), len).1|
      ensures buf[..] == Overwritten(old(buf[..]), to, LinearRead(old(St()), len).1)
    {
      hide Overwritten;
      var used := endIdx - startIdx;
      cpSize := if used < len then used else len;
      if cpSize == 0 {
        NothingWritten(buf[..], to);
        return;
      }
      CopyOut(startIdx, buf, to, cpSize);
      remain := (remain + cpSize) % M;
      startIdx := startIdx + cpSize;
    }

    /** The first copy of OsRingbufReadLoop, up to the end of the array */
    method ReadRight(buf: array<Byte>, len: nat) returns (cpSize: nat)
      requires Indexed(St()) && buf != fifo && len <= buf.Length
      modifies this`remain, this`startIdx, buf
      ensures cpSize <= len && RightRead(old(St()), len).0 == St() && cpSize == |RightRead(old(St()), len).1|
      ensures buf[..] == Overwritten(old(buf[..]), 0, RightRead(old(St()), len).1)
    {
      hide Overwritten;
      var right := fifo.Length - startIdx;
      cpSize := if right < len then right else len;
      CopyOut(startIdx, buf, 0, cpSize);
      remain := (remain + cpSize) % M;
      startIdx := startIdx + cpSize;
      if startIdx == fifo.Length { startIdx := 0; }
    }

    /** OsRingbufReadLoop */
    method ReadLoop(buf: array<Byte>, len: nat) returns (cpSize: nat)
      requires Indexed(St()) && buf != fifo && len <= buf.Length
      modifies this`remain, this`startIdx, buf
      ensures cpSize <= len && LoopRead(old(St()), len).0 == St() && cpSize == |LoopRead(old(St()), len).1|
      ensures buf[..] == Overwritten(old(buf[..]), 0, LoopRead(old(St()), len).1)
    {
      hide LinearRead, Overwritten;
      ghost var before := buf[..];
      cpSize := ReadRight(buf, len);
      ghost var r1, xs := St(), RightRead(old(St()), len).1;
      if cpSize < len {
        var more := ReadLinear(buf, cpSize, len - cpSize);
        WrittenTwice(before, xs, LinearRead(r1, len - |xs|).1);
        cpSize := cpSize + more;
      }
    }

    /** PRT_RingbufRead inside the lock */
    method ReadLocked(buf: array<Byte>, len: nat) returns (cpSize: nat)
      requires Indexed(St()) && buf != fifo && len <= buf.Length
      modifies this`remain, this`startIdx, buf
      ensures cpSize <= len && ReadRegion(old(St()), len).0 == St() && cpSize == |ReadRegion(old(St()), len).1|
      ensures buf[..] == Overwritten(old(buf[..]), 0, ReadRegion(old(St()), len).1)
    {
      hide LinearRead, LoopRead, Overwritten;
      if startIdx >= endIdx {
        cpSize := ReadLoop(buf, len);
      } else {
        cpSize := ReadLinear(buf, 0, len);
      }
    }

    /** PRT_RingbufRead by itself: the longest available prefix is copied out and removed. */
    method Read(buf: array<Byte>, len: nat) returns (cpSize: nat)
      requires Valid() && buf != fifo && len <= buf.Length
      modifies this`remain, this`startIdx, buf
      ensures Valid() && inited == old(inited) && fifo == old(fifo)
      ensures cpSize == if inited then Min(len, old(|Bytes()|)) else 0
      ensures remain == old(remain) + cpSize
      ensures buf[..] == old(Bytes())[..cpSize] + old(buf[cpSize..])
      ensures Bytes() == old(Bytes())[cpSize..]
    {
      ghost var all := Bytes();
      assert all[..0] == [] && all[0..] == all && [] + buf[0..] == buf[..];
      if len == 0 || !inited || remain == fifo.Length { return 0; }
      hide ReadRegion, Contents, Slot, Overwritten;
      ReadTakes(St(), len);
      cpSize := ReadLocked(buf, len);
      OverwrittenFront(old(buf[..]), all[..cpSize]);
    }

    /** PRT_RingbufReset: the bytes are cleared one by one. */
    method Reset()
      requires Valid()
      modifies this`remain, this`startIdx, this`endIdx, fifo
      ensures Valid() && Bytes() == []
      ensures inited ==> remain == fifo.Length && startIdx == endIdx == 0 && forall k :: 0 <= k < fifo.Length ==> fifo[k] == 0
      ensures !inited ==> St() == old(St())
    {
      if !inited { return; }
      startIdx := 0;
      endIdx := 0;
      remain := fifo.Length;
      var k := 0;
      while k < fifo.Length
        invariant k <= fifo.Length && Valid() && remain == fifo.Length && startIdx == endIdx == 0
        invariant forall j :: 0 <= j < k ==> fifo[j] == 0
      {
        fifo[k] := 0;
        k := k + 1;
      }
    }

    /** PRT_RingbufUsedSize */
    method UsedSize() returns (n: nat)
      requires Valid()
      ensures n == |Bytes()|
    {
      n := if inited then fifo.Length - remain else 0;
    }
  }

  lemma NothingWritten(s: seq<Byte>, at: nat)
    requires at <= |s|
    ensures Overwritten(s, at, []) == s
  {
  }

  lemma WrittenTwice(s: seq<Byte>, xs: seq<Byte>, ys: seq<Byte>)
    requires |xs| + |ys| <= |s|
    ensures |Overwritten(s, 0, xs)| == |s|
    ensures Overwritten(Overwritten(s, 0, xs), |xs|, ys) == Overwritten(s, 0, xs + ys)
  {
  }
}
