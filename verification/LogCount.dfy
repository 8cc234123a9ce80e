/** Counters of the QSemOS log ring: what the writers and the reader compute from two 32-bit
    counters that wrap, and why it is right. */
module LogCount {
  import opened Modulo

  const M: nat := 0x1_0000_0000

  /** Block counts for which the ring works: the index of a slot survives the wrap of the
      counter, and the range check does not overflow. */
  predicate GoodCount(n: nat) {
    0 < n && 3 * n <= M && M % (2 * n) == 0
  }

  // ---------- arithmetic ----------

  /** x reduced to 32 bits and then modulo m is x modulo m when m divides 2^32. */
  lemma WrapKeepsMod(x: nat, m: nat)
    requires 0 < m && M % m == 0
    ensures Mod(x % M, m) == Mod(x, m)
  {
    hide Mod;
    var k := WholeTimes(m);
    ModMod(x, m, k);
    ModMeans(x, M);
  }

  lemma WholeTimes(m: nat) returns (k: nat)
    requires m > 0 && M % m == 0
    ensures m * k == M
  {
    k := M / m;
  }

  /** Equal 32-bit values that are less than 2^32 apart are equal. */
  lemma SameCount(a: nat, b: nat)
    requires a <= b < a + M && a % M == b % M
    ensures a == b
  {
  }

  // ---------- what the code computes from a 32-bit tail ----------

  /** The valid flag of a reservation: 1 on odd laps, 0 on even ones. */
  predicate FlagOf(currTail: nat, n: nat)
    requires n > 0
  {
    Mod(currTail, 2 * n) < n
  }

  function SlotOf(currTail: nat, n: nat): (i: nat)
    requires n > 0
    ensures i < n
  {
    Mod(Mod(currTail, 2 * n), n)
  }

  lemma HalfMod(p: nat, n: nat, q: nat, r: nat)
    requires n > 0 && p == r + 2 * n * q
    ensures Mod(p, n) == Mod(r, n)
  {
    Reassociate(2, n, q);
    Reassociate(n, 2, q);
    ModAdd(r, n, 2 * q);
  }

  lemma SlotIsModN(p: nat, n: nat)
    requires n > 0
    ensures SlotOf(p, n) == Mod(p, n)
  {
    hide Mod;
    var q := Quotient(p, 2 * n);
    HalfMod(p, n, q, Mod(p, 2 * n));
  }

  /** Main result, indices. The slot index and flag read off the wrapped counter are those of the
      true count for every count exactly when 2n divides 2^32. */
  lemma IndexSurvivesWrap(n: nat)
    requires n > 0
    ensures (forall p: nat :: (p % M) % (2 * n) == p % (2 * n)) <==> M % (2 * n) == 0
  {
    if M % (2 * n) == 0 {
      forall p: nat ensures (p % M) % (2 * n) == p % (2 * n) { WrapKeepsMod(p, 2 * n); }
    }
    if forall p: nat :: (p % M) % (2 * n) == p % (2 * n) {
      assert (M % M) % (2 * n) == M % (2 * n);
      assert M % M == 0;
      DivisionUnique(0, 2 * n, 0, 0);
    }
  }

  /** Half a lap of 2n on, the remainder moves from one half to the other. */
  lemma HalfLap(p: nat, n: nat)
    requires n > 0
    ensures (p + n) % (2 * n) == if p % (2 * n) < n then p % (2 * n) + n else p % (2 * n) - n
  {
    var m := 2 * n;
    var q, r := p / m, p % m;
    assert p == m * q + r;
    if r < n {
      DivisionUnique(p + n, m, q, r + n);
    } else {
      assert m * (q + 1) == m * q + m;
      DivisionUnique(p + n, m, q + 1, r - n);
    }
  }

  /** Successive occupants of a slot carry opposite flags. */
  lemma FlagsAlternate(p: nat, n: nat)
    requires n > 0
    ensures SlotOf(p + n, n) == SlotOf(p, n) && (FlagOf(p + n, n) <==> !FlagOf(p, n))
  {
    HalfLap(p, n);
    SlotIsModN(p, n);
    SlotIsModN(p + n, n);
    hide SlotOf;
    ModAdd(p, n, 1);
  }

  /** Counts less than n apart use different slots. */
  lemma SlotsDiffer(p: nat, q: nat, n: nat)
    requires n > 0 && p < q < p + n
    ensures SlotOf(p, n) != SlotOf(q, n)
  {
    hide Mod, SlotOf;
    SlotIsModN(p, n);
    SlotIsModN(q, n);
    var a := Quotient(p, n);
    var b := Quotient(q, n);
    if Mod(p, n) == Mod(q, n) {
      DistributeMinus(n, b, a);
      Distance(n, b - a, p - q);
    }
  }

  lemma DistributeMinus(n: nat, b: nat, a: nat)
    ensures n * (b - a) == n * b - n * a
  {
  }

  /** The range check of OsLogUpdateTail on 32-bit values; both are shifted by 2n when adding n
      to the head could overflow. */
  predicate RangeOk(currHead: nat, currTail: nat, n: nat)
  {
    var overflow := currHead > M - 1 - n;
    var t := if overflow then (currTail + 2 * n) % M else currTail;
    var h := if overflow then (currHead + 2 * n) % M else currHead;
    !(t < h || t >= (h + n) % M)
  }

  /** Main result, range check. On true counts h <= t <= h + n the check on the wrapped values
      says exactly whether there is room, also across 2^32. */
  lemma RangeCheckExact(h: nat, t: nat, n: nat)
    requires 0 < n && 3 * n <= M && h <= t <= h + n
    ensures RangeOk(h % M, t % M, n) <==> t < h + n
  {
    hide RangeOk;
    var hh, d := h % M, t - h;
    assert t % M == Wrapped(hh + d);
    RangeOfDistance(hh, d, n);
  }

  function Wrapped(x: nat): nat {
    if x < M then x else x - M
  }

  lemma RangeOfDistance(hh: nat, d: nat, n: nat)
    requires 0 < n && 3 * n <= M && hh < M && d <= n
    ensures RangeOk(hh, Wrapped(hh + d), n) <==> d < n
  {
    if hh > M - 1 - n {
      assert (hh + 2 * n) % M == hh + 2 * n - M;
      assert (Wrapped(hh + d) + 2 * n) % M == hh + d + 2 * n - M;
    }
  }

  // ---------- counts as they are stored ----------

  /** The counters start two laps below 2^32: the stored value of the count p. */
  function Stored(p: nat, n: nat): (x: nat)
    requires GoodCount(n)
    ensures x < M
  {
    (p + M - 2 * n) % M
  }

  lemma NextStored(p: nat, k: nat, n: nat)
    requires GoodCount(n)
    ensures (Stored(p, n) + k) % M == Stored(p + k, n)
  {
  }

  /** Stored values of counts less than 2^32 apart are equal for equal counts only. */
  lemma SameStored(p: nat, q: nat, n: nat)
    requires GoodCount(n) && p <= q < p + M && Stored(p, n) == Stored(q, n)
    ensures p == q
  {
    SameCount(p + M - 2 * n, q + M - 2 * n);
  }

  /** Slot and flag computed from the stored value are those of the count. */
  lemma SameSlot(p: nat, n: nat)
    requires GoodCount(n)
    ensures SlotOf(Stored(p, n), n) == SlotOf(p, n) && FlagOf(Stored(p, n), n) == FlagOf(p, n)
  {
    hide Mod;
    var k := WholeTimes(2 * n);
    WrapKeepsMod(p + M - 2 * n, 2 * n);
    Distribute(2 * n, k - 1, 1);
    ModAdd(p, 2 * n, k - 1);
  }

  // ---------- the reader ----------

  /** Near the top of the 32-bit range the reader moves a counter on by two laps, so that adding n
      to the head cannot overflow. */
  function Shifted(head: nat, x: nat, n: nat): nat {
    if head > M - 1 - n then (x + 2 * n) % M else x
  }

  /** Main result, reader. On counts h <= t <= h + n the shifted values pass the range check and
      differ by exactly t - h, also across 2^32. */
  lemma ReaderDistance(h: nat, t: nat, n: nat)
    requires 0 < n && 3 * n <= M && h <= t <= h + n
    ensures var a, b := Shifted(h % M, h % M, n), Shifted(h % M, t % M, n);
            a <= b && a + n < M && b - a == t - h
  {
    hide Shifted;
    var d := t - h;
    assert t % M == Wrapped(h % M + d);
    ReaderApart(h % M, d, n);
  }

  lemma ReaderApart(hh: nat, d: nat, n: nat)
    requires 0 < n && 3 * n <= M && hh < M && d <= n
    ensures var a, b := Shifted(hh, hh, n), Shifted(hh, Wrapped(hh + d), n);
            a <= b && a + n < M && b - a == d
  {
    if hh > M - 1 - n {
      assert (hh + 2 * n) % M == hh + 2 * n - M;
      assert (Wrapped(hh + d) + 2 * n) % M == hh + d + 2 * n - M;
    }
  }

  function ReaderIndex(head: nat, n: nat): (i: nat)
    requires n > 0
    ensures i < n
  {
    Mod(Shifted(head, head, n), n)
  }

  /** Also after the shift the index is the slot of the count. */
  lemma ReaderIndexRight(p: nat, n: nat)
    requires GoodCount(n)
    ensures ReaderIndex(Stored(p, n), n) == SlotOf(p, n)
  {
    hide Mod, Stored, SlotOf;
    SameSlot(p, n);
    var x := Stored(p, n);
    SlotIsModN(x, n);
    if x > M - 1 - n {
      var k := WholeTimes(2 * n);
      Reassociate(n, 2, k);
      DivisionUnique(M, n, 2 * k, 0);
      WrapKeepsMod(x + 2 * n, n);
      ModAdd(x, n, 2);
    }
  }

  /** The slot v places further on. */
  function Ahead(index: nat, v: nat, n: nat): (i: nat)
    requires index < n && v < n
    ensures i < n
  {
    if index + v < n then index + v else index + v - n
  }

  lemma SlotAhead(p: nat, v: nat, n: nat)
    requires v < n
    ensures SlotOf(p + v, n) == Ahead(SlotOf(p, n), v, n)
  {
    hide SlotOf, Mod;
    SlotIsModN(p, n);
    SlotIsModN(p + v, n);
    ModSum(p, v, n);
  }

  /** Up to one lap ahead the flag is the same until the end of the memory, then the other one. */
  lemma FlagAhead(p: nat, v: nat, n: nat)
    requires n > 0 && v <= n
    ensures FlagOf(p + v, n) == if SlotOf(p, n) + v < n then FlagOf(p, n) else !FlagOf(p, n)
  {
    hide Mod;
    ModSum(p, v, 2 * n);
    var r := Mod(p, 2 * n);
    if r < n { ModOf(r, n, 0, r); } else { ModOf(r, n, 1, r - n); }
  }
}
