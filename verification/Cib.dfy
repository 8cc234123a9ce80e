/** The circular integer buffer of RIOT: two wrapping 32-bit counters and a mask yield the
    indices of a bounded first-in, first-out queue kept in an array. */
module Cib {
  import opened Modulo
  import opened Ring

  const M: nat := 0x1_0000_0000
  type U32 = x: nat | x < 0x1_0000_0000

  function Pow2(k: nat): (r: nat)
    ensures r > 0
  {
    if k == 0 then 1 else 2 * Pow2(k - 1)
  }

  /** Bitwise and */
  function BitAnd(x: nat, y: nat): (r: nat)
    ensures r <= x && r <= y
  {
    if x == 0 || y == 0 then 0
    else 2 * BitAnd(x / 2, y / 2) + (if x % 2 == 1 && y % 2 == 1 then 1 else 0)
  }

  /** The value of a 32-bit word read as a signed number */
  function Signed(x: U32): int {
    if x < 0x8000_0000 then x else x - M
  }

  /** A buffer size the code can work with: none, or a power of two below 2^31 */
  predicate GoodSize(size: nat) {
    size == 0 || exists k: nat :: k < 31 && size == Pow2(k)
  }

  // ---------- bits ----------

  /** The conjunction bit by bit, for a and b halved and their lowest bits c and d */
  lemma BitAndStep(a: nat, c: nat, b: nat, d: nat)
    requires c <= 1 && d <= 1
    ensures BitAnd(2 * a + c, 2 * b + d) == 2 * BitAnd(a, b) + (if c == 1 && d == 1 then 1 else 0)
  {
    assert (2 * a + c) / 2 == a && (2 * a + c) % 2 == c;
    assert (2 * b + d) / 2 == b && (2 * b + d) % 2 == d;
    assert a == 0 || b == 0 ==> BitAnd(a, b) == 0;
  }

  /** Masking with 2^k - 1 is reduction modulo 2^k. */
  lemma {:induction false} MaskIsMod(x: nat, k: nat)
    ensures BitAnd(x, Pow2(k) - 1) == Mod(x, Pow2(k))
    decreases k
  {
    if k == 0 {
      NoMask(x);
    } else {
      var m := Pow2(k - 1);
      assert Pow2(k) == 2 * m;
      hide Mod, BitAnd, Pow2;
      BitAndStep(x / 2, x % 2, m - 1, 1);
      MaskIsMod(x / 2, k - 1);
      ModHalves(x, m);
    }
  }

  lemma NoMask(x: nat)
    ensures BitAnd(x, Pow2(0) - 1) == Mod(x, Pow2(0))
  {
  }

  lemma {:induction false} BitAndSelf(x: nat)
    ensures BitAnd(x, x) == x
  {
    if x > 0 {
      BitAndSelf(x / 2);
      BitAndStep(x / 2, x % 2, x / 2, x % 2);
      hide BitAnd;
    }
  }

  /** An odd number is a power of two only when it is 1. */
  lemma OddPower(m: nat, k: nat)
    requires 2 * m + 1 == Pow2(k)
    ensures m == 0
  {
    if k > 0 { assert Pow2(k) == 2 * Pow2(k - 1); }
  }

  lemma EvenPower(m: nat)
    requires m > 0
    ensures (exists k: nat :: 2 * m == Pow2(k)) <==> (exists k: nat :: m == Pow2(k))
  {
    if k: nat :| m == Pow2(k) { assert 2 * m == Pow2(k + 1); }
    if k: nat :| 2 * m == Pow2(k) {
      assert k != 0;
      assert m == Pow2(k - 1);
    }
  }

  lemma OddMask(m: nat)
    ensures BitAnd(2 * m + 1, 2 * m) == 2 * m
  {
    hide BitAnd;
    BitAndSelf(m);
    BitAndStep(m, 1, m, 0);
  }

  lemma EvenMask(m: nat)
    requires m > 0
    ensures BitAnd(2 * m, 2 * m - 1) == 2 * BitAnd(m, m - 1)
  {
    hide BitAnd;
    BitAndStep(m, 0, m - 1, 1);
  }

  /** The test of cib_init: size & (size - 1) vanishes exactly for powers of two. */
  lemma {:induction false} PowerTest(size: nat)
    requires size > 0
    ensures BitAnd(size, size - 1) == 0 <==> exists k: nat :: size == Pow2(k)
    decreases size
  {
    hide BitAnd;
    var m := size / 2;
    if size % 2 == 1 {
      OddMask(m);
      if m == 0 {
        assert size == Pow2(0);
      } else if k: nat :| size == Pow2(k) {
        OddPower(m, k);
        assert false;
      }
    } else {
      hide Pow2;
      PowerTest(m);
      EvenMask(m);
      EvenPower(m);
    }
  }

  lemma {:induction false} PowDivides(k: nat, j: nat)
    requires k <= j
    ensures Pow2(j) == Pow2(k) * Pow2(j - k)
    decreases j
  {
    if j > k {
      PowDivides(k, j - 1);
      Regroup(Pow2(k), Pow2(j - 1 - k));
    }
  }

  lemma Regroup(a: nat, b: nat)
    ensures a * (2 * b) == 2 * (a * b)
  {
  }

  lemma Pow32()
    ensures Pow2(32) == M && Pow2(31) == 0x8000_0000
  {
    assert Pow2(8) == 256;
    assert Pow2(16) == 0x1_0000 by { PowDivides(8, 16); }
    PowDivides(16, 32);
    PowDivides(16, 31);
    assert Pow2(15) == 0x8000 by { assert Pow2(16) == 2 * Pow2(15); }
  }

  lemma {:induction false} PowGrows(k: nat, j: nat)
    requires k < j
    ensures 2 * Pow2(k) <= Pow2(j)
    decreases j
  {
    if k < j - 1 { PowGrows(k, j - 1); }
  }

  lemma SizeBound(size: nat)
    requires GoodSize(size)
    ensures size < 0x8000_0000
  {
    if size > 0 {
      var k: nat :| k < 31 && size == Pow2(k);
      PowGrows(k, 31);
      Pow32();
    }
  }

  // ---------- the test for fullness ----------

  /** The comparison of cib_put */
  predicate PutAllowed(avail: U32, mask: U32) {
    Signed(avail) <= Signed(mask)
  }

  function MaskOf(size: nat): U32
    requires size <= 0x8000_0000
  {
    if size == 0 then M - 1 else size - 1
  }

  /** With at most `size` items in the buffer the signed comparison says exactly whether there is
      room, unless the size is 2^31, where it also lets a put through when the buffer is full. */
  lemma FullTestExactWhen(size: nat)
    requires size <= 0x8000_0000
    ensures (forall avail: U32 :: avail <= size ==> (PutAllowed(avail, MaskOf(size)) <==> avail < size))
            <==> size != 0x8000_0000
  {
    if size == 0x8000_0000 {
      assert PutAllowed(0x8000_0000, MaskOf(size));
    }
  }

  // ---------- counters and indices ----------

  function Avail(write: U32, read: U32): U32 {
    if write >= read then write - read else M + write - read
  }

  function Inc(x: U32): U32 {
    if x == M - 1 then 0 else x + 1
  }

  /** Masking a counter gives the count modulo the size. */
  lemma IndexIsMod(count: U32, size: nat)
    requires GoodSize(size) && size > 0
    ensures size - 1 < M && BitAnd(count, size - 1) == Mod(count, size)
  {
    var k: nat :| k < 31 && size == Pow2(k);
    SizeBound(size);
    MaskIsMod(count, k);
  }

  /** Reducing a count to 32 bits does not change it modulo the size. */
  lemma CountWraps(x: nat, size: nat)
    requires GoodSize(size) && size > 0
    ensures Mod(x % M, size) == Mod(x, size)
  {
    hide Mod;
    var k: nat :| k < 31 && size == Pow2(k);
    PowDivides(k, 32);
    Pow32();
    ModMod(x, size, Pow2(32 - k));
    ModMeans(x, M);
  }

  /** The next index follows round the array, also across the wrap of the counter. */
  lemma IndexFollows(count: U32, size: nat)
    requires GoodSize(size) && size > 0
    ensures Mod(Inc(count), size) == if Mod(count, size) + 1 == size then 0 else Mod(count, size) + 1
  {
    CountWraps(count + 1, size);
    hide Mod;
    ModSum(count, 1, size);
    assert Inc(count) == (count + 1) % M;
  }

  /** The write index is the cell behind the items. */
  lemma WriteSlot(read: U32, write: U32, size: nat)
    requires GoodSize(size) && size > 0 && Avail(write, read) <= size
    ensures Mod(write, size) == Slot(Mod(read, size), Avail(write, read), size)
  {
    var n := Avail(write, read);
    CountWraps(read + n, size);
    assert write == (read + n) % M;
    hide Mod;
    ModSum(read, n, size);
  }

  // ---------- the queue ----------

  /** The items of a buffer over an array: nothing without an array of the right size */
  function Items<T>(read: U32, write: U32, size: nat, ring: seq<T>): seq<T> {
    if size == 0 || |ring| != size then [] else Window(ring, Mod(read, size), Avail(write, read))
  }

  lemma PutItem<T>(read: U32, write: U32, size: nat, ring: seq<T>, x: T)
    requires GoodSize(size) && size == |ring| && Avail(write, read) < size
    ensures Avail(Inc(write), read) == Avail(write, read) + 1
    ensures Items(read, Inc(write), size, ring[Mod(write, size) := x]) == Items(read, write, size, ring) + [x]
  {
    SizeBound(size);
    WriteSlot(read, write, size);
    hide Mod, Window, Slot;
    WindowAppend(ring, Mod(read, size), Avail(write, read), x);
  }

  lemma OneFewer(read: U32, write: U32)
    requires Avail(write, read) > 0
    ensures Avail(write, Inc(read)) == Avail(write, read) - 1
  {
  }

  lemma GetItem<T>(read: U32, write: U32, size: nat, ring: seq<T>)
    requires GoodSize(size) && size == |ring| && 0 < Avail(write, read) <= size
    ensures Avail(write, Inc(read)) == Avail(write, read) - 1
    ensures Items(read, write, size, ring) ==
            [ring[Mod(read, size)]] + Items(Inc(read), write, size, ring)
  {
    hide Mod, Window, Slot, Avail, Inc, GoodSize;
    SizeBound(size);
    OneFewer(read, write);
    IndexFollows(read, size);
    var h := Mod(read, size);
    WindowDrop(ring, h, Avail(write, read) - 1, ring[h]);
    assert ring[h := ring[h]] == ring;
  }

  class CibT {
    var readCount: U32
    var writeCount: U32
    var mask: U32

    function Size(): nat
      reads this
    {
      if mask == M - 1 then 0 else mask + 1
    }

    ghost predicate Valid()
      reads this
    {
      GoodSize(Size()) && Avail(writeCount, readCount) <= Size()
    }

    ghost function Contents<T>(a: seq<T>): seq<T>
      reads this
    {
      Items(readCount, writeCount, Size(), a)
    }

    /** cib_init with a size that passes its assertion; the buffer then works for every size but
        2^31. */
    constructor (size: U32)
      requires size == 0 || BitAnd(size, size - 1) == 0
      ensures Size() == size && readCount == writeCount == 0 && (Valid() <==> size != 0x8000_0000)
    {
      readCount, writeCount, mask := 0, 0, if size == 0 then M - 1 else size - 1;
      new;
      TestedSize(size);
    }

    /** cib_avail */
    method Available() returns (n: U32)
      ensures n == Avail(writeCount, readCount)
    {
      n := if writeCount >= readCount then writeCount - readCount else M + writeCount - readCount;
    }

    /** cib_put: an index unless the buffer is full */
    method Put() returns (index: int)
      requires Valid()
      modifies this`writeCount
      ensures Valid()
      ensures old(Avail(writeCount, readCount)) < Size() ==>
                index == Mod(old(writeCount), Size()) && writeCount == Inc(old(writeCount))
      ensures old(Avail(writeCount, readCount)) == Size() ==> index == -1 && writeCount == old(writeCount)
    {
      SizeBound(Size());
      FullTest(Size(), Avail(writeCount, readCount));
      var avail := Available();
      if Signed(avail) <= Signed(mask) {
        IndexIsMod(writeCount, Size());
        index := BitAnd(writeCount, mask);
        writeCount := if writeCount == M - 1 then 0 else writeCount + 1;
        return;
      }
      return -1;
    }

    /** cib_get: an index unless the buffer is empty */
    method Get() returns (index: int)
      requires Valid()
      modifies this`readCount
      ensures Valid()
      ensures old(Avail(writeCount, readCount)) > 0 ==>
                Size() > 0 && index == Mod(old(readCount), Size()) && readCount == Inc(old(readCount))
      ensures old(Avail(writeCount, readCount)) == 0 ==> index == -1 && readCount == old(readCount)
    {
      var avail := Available();
      if avail != 0 {
        IndexIsMod(readCount, Size());
        index := BitAnd(readCount, mask);
        readCount := if readCount == M - 1 then 0 else readCount + 1;
        return;
      }
      return -1;
    }
  }

  /** Among the sizes that pass the assertion only 2^31 is too large. */
  lemma TestedSize(size: U32)
    requires size == 0 || BitAnd(size, size - 1) == 0
    ensures GoodSize(size) <==> size != 0x8000_0000
  {
    if size > 0 {
      PowerTest(size);
      var k: nat :| size == Pow2(k);
      Pow32();
      if k >= 32 {
        if k > 32 { PowGrows(32, k); }
      } else if k == 31 {
        forall j: nat | j < 31 ensures Pow2(j) != Pow2(31) { PowGrows(j, 31); }
      } else {
        PowGrows(k, 31);
      }
    }
  }

  lemma FullTest(size: nat, avail: U32)
    requires size < 0x8000_0000 && avail <= size
    ensures PutAllowed(avail, MaskOf(size)) <==> avail < size
  {
  }

  /** queue_msg on the receiver's array: the message joins the end unless the queue is full. */
  method QueueMsg<T>(c: CibT, msgArray: array<T>, m: T) returns (queued: bool)
    requires c.Valid() && msgArray.Length == c.Size()
    modifies c`writeCount, msgArray
    ensures c.Valid() && queued == (|old(c.Contents(msgArray[..]))| < c.Size())
    ensures c.Contents(msgArray[..]) ==
            if queued then old(c.Contents(msgArray[..])) + [m] else old(c.Contents(msgArray[..]))
  {
    ghost var ring := msgArray[..];
    if Avail(c.writeCount, c.readCount) < c.Size() { PutItem(c.readCount, c.writeCount, c.Size(), ring, m); }
    var n := c.Put();
    if n < 0 { return false; }
    msgArray[n] := m;
    assert msgArray[..] == ring[n := m];
    return true;
  }

  /** The read of the queue in msg_receive: the first message leaves. */
  method TakeMsg<T>(c: CibT, msgArray: array<T>) returns (found: bool, index: nat)
    requires c.Valid() && msgArray.Length == c.Size()
    modifies c`readCount
    ensures c.Valid() && found == (old(c.Contents(msgArray[..])) != [])
    ensures found ==> index < msgArray.Length
                      && old(c.Contents(msgArray[..])) == [msgArray[index]] + c.Contents(msgArray[..])
    ensures !found ==> c.Contents(msgArray[..]) == []
  {
    if Avail(c.writeCount, c.readCount) > 0 { GetItem(c.readCount, c.writeCount, c.Size(), msgArray[..]); }
    var n := c.Get();
    if n < 0 { return false, 0; }
    return true, n;
  }
}
