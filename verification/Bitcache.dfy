/** The 32-bit cache of non-empty run queues, in both bit orders of the scheduler. The word is
    kept as its 32 bits, bit 0 first. */
module Bitcache {

  type Word = w: seq<bool> | |w| == 32 witness seq(32, _ => false)

  /** Bit of priority p: `BIT31 >> p` with a count-leading-zeros instruction, `1 << p` without. */
  function BitOf(clz: bool, p: nat): nat
    requires p < 32
  {
    if clz then 31 - p else p
  }

  predicate Has(clz: bool, cache: Word, p: nat)
    requires p < 32
  {
    cache[BitOf(clz, p)]
  }

  /** _set_runqueue_bit */
  function SetBit(clz: bool, cache: Word, p: nat): (r: Word)
    requires p < 32
    ensures forall q: nat :: q < 32 ==> (Has(clz, r, q) <==> q == p || Has(clz, cache, q))
  {
    cache[BitOf(clz, p) := true]
  }

  /** _clear_runqueue_bit */
  function ClearBit(clz: bool, cache: Word, p: nat): (r: Word)
    requires p < 32
    ensures forall q: nat :: q < 32 ==> (Has(clz, r, q) <==> q != p && Has(clz, cache, q))
  {
    cache[BitOf(clz, p) := false]
  }

  /** bitarithm_lsb, searching from bit k: its loop counts shifts until the lowest bit is set. */
  function Lsb(v: Word, k: nat): (r: nat)
    requires k < 32
    ensures k <= r < 32
    ensures v[r] || (r == 31 && forall j :: k <= j < 32 ==> !v[j])
    ensures forall j :: k <= j < r ==> !v[j]
    decreases 32 - k
  {
    if k == 31 || v[k] then k else Lsb(v, k + 1)
  }

  /** bitarithm_msb: the highest bit that is set, searched from bit k down. */
  function Msb(v: Word, k: nat): (r: nat)
    requires k < 32
    ensures r <= k
    ensures v[r] || (r == 0 && forall j :: 0 <= j <= k ==> !v[j])
    ensures forall j :: r < j <= k ==> !v[j]
  {
    if k == 0 || v[k] then k else Msb(v, k - 1)
  }

  /** _get_prio_queue_from_runqueue */
  function First(clz: bool, cache: Word): nat {
    if clz then 31 - Msb(cache, 31) else Lsb(cache, 0)
  }

  /** In both bit orders the cache yields the numerically lowest priority whose bit is set. */
  lemma FirstIsMostUrgent(clz: bool, cache: Word, hit: nat)
    requires hit < 32 && Has(clz, cache, hit)
    ensures First(clz, cache) <= hit && Has(clz, cache, First(clz, cache))
    ensures forall q: nat :: q < First(clz, cache) ==> !Has(clz, cache, q)
  {
    var p := First(clz, cache);
    if clz {
      assert cache[31 - hit];
      forall q: nat | q < p ensures !Has(clz, cache, q) {
        assert !cache[31 - q];
      }
    } else {
      assert cache[hit];
    }
  }
}
