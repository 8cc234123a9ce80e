/** The Internet checksum of RIOT, computed slice by slice (RFC 1071, section 2). */
module Checksum {

  type Byte = b: nat | b < 256
  type Word = w: nat | w < 0x1_0000

  const U32_SIZE: nat := 0x1_0000_0000

  /** A byte as the high half of a word */
  function High(b: nat): nat {
    b * 256
  }

  /** The weight a buffer adds when `before` bytes came earlier: a byte at an even place of the
      whole message is the high byte of its word. */
  function Weight(buf: seq<Byte>, before: nat): nat {
    if buf == [] then 0
    else (if before % 2 == 0 then High(buf[0]) else buf[0]) + Weight(buf[1..], before + 1)
  }

  /** Adding the carries back until 16 bits remain */
  function Fold(csum: nat): (r: Word) {
    if csum < 0x1_0000 then csum else Fold(csum % 0x1_0000 + csum / 0x1_0000)
  }

  /** What inet_csum_slice returns. */
  function Slice(sum: Word, buf: seq<Byte>, before: nat): Word {
    Fold(sum + Weight(buf, before))
  }

  // ---------- folding ----------

  /** The one representative of n among 1..65535 and, for n = 0 only, 0. */
  function Canonical(n: nat): (r: Word) {
    if n == 0 then 0 else (n - 1) % 65535 + 1
  }

  lemma FoldTurn(n: nat)
    requires n >= 0x1_0000
    ensures Canonical(n % 0x1_0000 + n / 0x1_0000) == Canonical(n)
  {
    var q, r := n / 0x1_0000, n % 0x1_0000;
    assert n - 1 == 65535 * q + (r + q - 1);
    ModShift(r + q - 1, q);
  }

  lemma ModShift(m: nat, q: nat)
    ensures (65535 * q + m) % 65535 == m % 65535
  {
    var k := m / 65535;
    assert 65535 * q + m == 65535 * (q + k) + m % 65535;
    Remainder(q + k, m % 65535);
  }

  lemma Remainder(q: nat, r: nat)
    requires r < 65535
    ensures (65535 * q + r) % 65535 == r
  {
  }

  /** Folding is reduction modulo 65535 that keeps zero apart. */
  lemma {:induction false} FoldIsCanonical(n: nat)
    ensures Fold(n) == Canonical(n)
    decreases n
  {
    if n >= 0x1_0000 {
      FoldTurn(n);
      FoldIsCanonical(n % 0x1_0000 + n / 0x1_0000);
    }
  }

  lemma CanonicalAdd(x: nat, y: nat)
    ensures Canonical(Canonical(x) + y) == Canonical(x + y)
  {
    if x > 0 {
      var q := (x - 1) / 65535;
      assert x + y - 1 == 65535 * q + (Canonical(x) + y - 1);
      ModShift(Canonical(x) + y - 1, q);
    }
  }

  /** A partial sum may be folded before the rest is added. */
  lemma FoldAdd(x: nat, y: nat)
    ensures Fold(Fold(x) + y) == Fold(x + y)
  {
    FoldIsCanonical(x);
    FoldIsCanonical(Fold(x) + y);
    FoldIsCanonical(x + y);
    CanonicalAdd(x, y);
  }

  lemma {:induction false} WeightJoin(a: seq<Byte>, b: seq<Byte>, before: nat)
    ensures Weight(a + b, before) == Weight(a, before) + Weight(b, before + |a|)
    decreases |a|
  {
    if a == [] {
      assert a + b == b;
    } else {
      WeightJoin(a[1..], b, before + 1);
      assert (a + b)[1..] == a[1..] + b;
    }
  }

  /** Main result, chaining. Splitting a message anywhere, also at an odd place, and chaining the
      slices with the accumulated length gives the checksum of the whole. */
  lemma SliceChains(sum: Word, a: seq<Byte>, b: seq<Byte>, before: nat)
    ensures Slice(Slice(sum, a, before), b, before + |a|) == Slice(sum, a + b, before)
  {
    WeightJoin(a, b, before);
    FoldAdd(sum + Weight(a, before), Weight(b, before + |a|));
  }

  /** Slice after slice, each with the sum and the length so far */
  function Chained(sum: Word, parts: seq<seq<Byte>>, before: nat): Word
    decreases |parts|
  {
    if parts == [] then sum
    else Chained(Slice(sum, parts[0], before), parts[1..], before + |parts[0]|)
  }

  function Concat(parts: seq<seq<Byte>>): seq<Byte> {
    if parts == [] then [] else parts[0] + Concat(parts[1..])
  }

  /** Any number of slices. */
  lemma {:induction false} AnySplit(sum: Word, parts: seq<seq<Byte>>, before: nat)
    ensures Chained(sum, parts, before) == Slice(sum, Concat(parts), before)
    decreases |parts|
  {
    if parts != [] {
      AnySplit(Slice(sum, parts[0], before), parts[1..], before + |parts[0]|);
      SliceChains(sum, parts[0], Concat(parts[1..]), before);
    }
  }

  // ---------- one's complement addition ----------

  /** Addition with end-around carry */
  function OnesAdd(x: Word, y: Word): Word {
    if x + y > 0xffff then x + y - 0xffff else x + y
  }

  /** The 16-bit words of a message, the last one padded with a zero byte */
  function Words(buf: seq<Byte>): seq<Word> {
    if buf == [] then []
    else if |buf| == 1 then [High(buf[0])]
    else [High(buf[0]) + buf[1]] + Words(buf[2..])
  }

  function OnesSum(ws: seq<Word>): Word {
    if ws == [] then 0 else OnesAdd(ws[0], OnesSum(ws[1..]))
  }

  lemma OnesAddIsFold(x: Word, y: Word)
    ensures OnesAdd(x, y) == Fold(x + y)
  {
    FoldIsCanonical(x + y);
    if x + y > 0xffff { Remainder(1, x + y - 0x1_0000); }
  }

  lemma {:induction false} OnesSumIsFold(buf: seq<Byte>)
    ensures OnesSum(Words(buf)) == Fold(Weight(buf, 0))
    decreases |buf|
  {
    if |buf| == 1 {
      assert Weight(buf, 0) == High(buf[0]);
      assert Words(buf)[1..] == [];
    } else if |buf| > 1 {
      OnesSumIsFold(buf[2..]);
      var w := Words(buf)[0];
      assert Words(buf)[1..] == Words(buf[2..]);
      WeightShift(buf[2..], 2);
      WeightOfWord(buf);
      assert Weight(buf[2..], 0 + 2) == Weight(buf[2..], 0);
      OnesAddIsFold(w, OnesSum(Words(buf[2..])));
      FoldAdd(Weight(buf[2..], 0), w);
    }
  }

  lemma WeightOfWord(buf: seq<Byte>)
    requires |buf| > 1
    ensures Weight(buf, 0) == High(buf[0]) + buf[1] + Weight(buf[2..], 2)
  {
    assert buf[1..][1..] == buf[2..];
  }

  lemma {:induction false} WeightShift(buf: seq<Byte>, k: nat)
    requires k % 2 == 0
    ensures forall before: nat :: Weight(buf, before + k) == Weight(buf, before)
    decreases |buf|
  {
    if buf != [] {
      WeightShift(buf[1..], k);
      forall before: nat ensures Weight(buf, before + k) == Weight(buf, before) {
        assert Weight(buf[1..], before + 1 + k) == Weight(buf[1..], before + 1);
      }
    }
  }

  /** Main result, meaning. The whole-buffer checksum is the one's complement sum of its words. */
  lemma SliceIsOnesSum(buf: seq<Byte>)
    ensures Slice(0, buf, 0) == OnesSum(Words(buf))
  {
    OnesSumIsFold(buf);
  }

  /** The receiver's check: a message whose checksum field holds the complement of the sum over
      the rest, at an even place, sums to all ones. */
  lemma ReceiverSeesAllOnes(a: seq<Byte>, b: seq<Byte>, c: Word)
    requires |a| % 2 == 0
    requires c == 0xffff - Slice(0, a + [0, 0] + b, 0)
    ensures Slice(0, a + [c / 256, c % 256] + b, 0) == 0xffff
  {
    var field: seq<Byte> := [c / 256, c % 256];
    FieldWeight(a, b, [0, 0]);
    FieldWeight(a, b, field);
    assert Weight(field, 0) == c by { TwoBytes(field); }
    assert Weight([0, 0], 0) == 0 by { TwoBytes([0, 0]); }
    var rest := Weight(a, 0) + Weight(b, 0);
    FoldAdd(rest, c);
    assert Fold(rest) + c == 0xffff;
  }

  lemma TwoBytes(f: seq<Byte>)
    requires |f| == 2
    ensures Weight(f, 0) == High(f[0]) + f[1]
  {
    WeightOfWord(f);
    assert f[2..] == [];
  }

  lemma FieldWeight(a: seq<Byte>, b: seq<Byte>, f: seq<Byte>)
    requires |a| % 2 == 0 && |f| == 2
    ensures Weight(a + f + b, 0) == Weight(a, 0) + Weight(f, 0) + Weight(b, 0)
  {
    WeightJoin(a + f, b, 0);
    WeightJoin(a, f, 0);
    WeightShift(f, |a|);
    WeightShift(b, |a| + 2);
    assert Weight(f, 0 + |a|) == Weight(f, 0) && Weight(b, 0 + (|a| + 2)) == Weight(b, 0);
  }

  // ---------- the loop ----------

  lemma {:induction false} WeightBound(buf: seq<Byte>, before: nat)
    ensures before % 2 == 0 ==> Weight(buf, before) <= (|buf| + 1) / 2 * 0xff00 + |buf| / 2 * 0xff
    ensures before % 2 == 1 ==> Weight(buf, before) <= |buf| / 2 * 0xff00 + (|buf| + 1) / 2 * 0xff
    decreases |buf|
  {
    if buf != [] { WeightBound(buf[1..], before + 1); }
  }

  lemma WeightSplit(buf: seq<Byte>, k: nat, j: nat, before: nat)
    requires k <= j <= |buf|
    ensures Weight(buf[..j], before) == Weight(buf[..k], before) + Weight(buf[k..j], before + k)
  {
    hide Weight;
    assert buf[..j] == buf[..k] + buf[k..j];
    WeightJoin(buf[..k], buf[k..j], before);
  }

  lemma OneByte(buf: seq<Byte>, k: nat, before: nat)
    requires k < |buf|
    ensures Weight(buf[..k + 1], before)
            == Weight(buf[..k], before) + (if (before + k) % 2 == 0 then High(buf[k]) else buf[k])
  {
    WeightSplit(buf, k, k + 1, before);
    assert buf[k..k + 1][1..] == [];
  }

  lemma PrefixBound(buf: seq<Byte>, k: nat, before: nat)
    requires k <= |buf| <= 0xffff
    ensures Weight(buf[..k], before) <= 0x8000 * 0xffff
  {
    WeightBound(buf[..k], before);
  }

  /** inet_csum_slice: the accumulator is a 32-bit number, and it never wraps. */
  method InetCsumSlice(sum: Word, buf: seq<Byte>, accumLen: nat) returns (r: Word)
    requires |buf| <= 0xffff
    ensures r == Slice(sum, buf, accumLen)
  {
    hide Fold, Weight;
    var csum: nat := sum;
    NoWeight(accumLen);
    FoldSmall(sum);
    if |buf| == 0 {
      assert buf == [];
      return sum;
    }
    var k, len, acc := 0, |buf|, accumLen;
    if acc % 2 == 1 {
      OneByte(buf, 0, accumLen);
      csum := csum + buf[0];
      k := 1;
      len := len - 1;
      acc := acc + 1;
    }
    assert buf[..0] == [];
    ghost var start := k;
    var i := 0;
    while i < len / 2
      invariant i <= len / 2 && k == start + 2 * i && k <= |buf|
      invariant csum == sum + Weight(buf[..k], accumLen) < U32_SIZE
    {
      OneByte(buf, k, accumLen);
      OneByte(buf, k + 1, accumLen);
      PrefixBound(buf, k + 2, accumLen);
      csum := csum + (High(buf[k]) + buf[k + 1]);
      k := k + 2;
      i := i + 1;
    }
    if (acc + len) % 2 == 1 {
      OneByte(buf, k, accumLen);
      csum := csum + High(buf[k]);
      k := k + 1;
    }
    assert k == |buf| && buf[..k] == buf;
    PrefixBound(buf, k, accumLen);
    assert csum < U32_SIZE;
    while csum / 0x1_0000 != 0
      invariant Fold(csum) == Slice(sum, buf, accumLen)
      decreases csum
    {
      FoldMore(csum);
      var carry := csum / 0x1_0000;
      csum := csum % 0x1_0000 + carry;
    }
    FoldSmall(csum);
    r := csum;
  }

  lemma NoWeight(before: nat)
    ensures Weight([], before) == 0
  {
  }

  lemma FoldSmall(n: nat)
    requires n < 0x1_0000
    ensures Fold(n) == n
  {
  }

  lemma FoldMore(n: nat)
    requires n >= 0x1_0000
    ensures Fold(n) == Fold(n % 0x1_0000 + n / 0x1_0000)
  {
  }
}
