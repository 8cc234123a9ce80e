/** Stretches of cells that go round the end of a ring. */
module Ring {

  /** Index of the i-th cell of a ring of n cells that starts at h. */
  function Slot(h: nat, i: nat, n: nat): nat {
    if h + i < n then h + i else if h + i < 2 * n then h + i - n else 0
  }

  /** The k cells of a ring from h on. */
  function Window<T>(ring: seq<T>, h: nat, k: nat): (r: seq<T>)
    ensures h < |ring| && k <= |ring| ==>
              |r| == k && forall i :: 0 <= i < k ==> r[i] == ring[if h + i < |ring| then h + i else h + i - |ring|]
  {
    if h < |ring| && k <= |ring| then (ring + ring)[h..h + k] else []
  }

  /** The sequence with a block written over it from `at` on. */
  function Overwritten<T>(s: seq<T>, at: nat, xs: seq<T>): seq<T>
    requires at + |xs| <= |s|
  {
    s[..at] + xs + s[at + |xs|..]
  }

  lemma OverwrittenFront<T>(s: seq<T>, xs: seq<T>)
    requires |xs| <= |s|
    ensures Overwritten(s, 0, xs) == xs + s[|xs|..]
  {
    assert s[..0] == [] && [] + xs == xs;
  }

  /** Writing the cell behind the window appends to it. */
  lemma WindowAppend<T>(ring: seq<T>, h: nat, k: nat, x: T)
    requires h < |ring| && k < |ring|
    ensures Window(ring[Slot(h, k, |ring|) := x], h, k + 1) == Window(ring, h, k) + [x]
  {
  }

  /** Writing the cell before the window prepends to it. */
  lemma WindowPrepend<T>(ring: seq<T>, h: nat, k: nat, x: T)
    requires h < |ring| && k < |ring|
    ensures var g := (if h == 0 then |ring| else h) - 1;
            Window(ring[g := x], g, k + 1) == [x] + Window(ring, h, k)
  {
  }

  /** Moving the start past the first cell drops it, whatever that cell then holds. */
  lemma WindowDrop<T>(ring: seq<T>, h: nat, k: nat, x: T)
    requires h < |ring| && k < |ring|
    ensures var g := if h + 1 == |ring| then 0 else h + 1;
            Window(ring[h := x], g, k) == Window(ring, h, k + 1)[1..]
    ensures Window(ring, h, k + 1)[0] == ring[h]
  {
  }

  /** A block written behind the window, up to the end of the ring, appends to it. */
  lemma WindowAppendBlock<T>(ring: seq<T>, h: nat, k: nat, xs: seq<T>)
    requires h < |ring| && k + |xs| <= |ring|
    requires k < |ring| && Slot(h, k, |ring|) + |xs| <= |ring|
    ensures var e := Slot(h, k, |ring|);
            Window(Overwritten(ring, e, xs), h, k + |xs|) == Window(ring, h, k) + xs
  {
    hide Window, Overwritten;
    var e := Slot(h, k, |ring|);
    var r := Overwritten(ring, e, xs);
    BlockCells(ring, e, xs);
    var w, v := Window(r, h, k + |xs|), Window(ring, h, k) + xs;
    forall i | 0 <= i < k + |xs| ensures w[i] == v[i] {
      if i < k {
        OldCell(ring, h, k, i, e, xs);
      } else {
        NewCell(|ring|, h, k, i);
      }
    }
  }

  lemma OldCell<T>(ring: seq<T>, h: nat, k: nat, i: nat, e: nat, xs: seq<T>)
    requires h < |ring| && i < k && k + |xs| <= |ring| && e == Slot(h, k, |ring|) && e + |xs| <= |ring|
    ensures var at := if h + i < |ring| then h + i else h + i - |ring|; at < e || at >= e + |xs|
  {
  }

  lemma NewCell(n: nat, h: nat, k: nat, i: nat)
    requires h < n && k <= i < n && k < n && Slot(h, k, n) + (i - k) < n
    ensures (if h + i < n then h + i else h + i - n) == Slot(h, k, n) + (i - k)
  {
  }

  lemma BlockCells<T>(ring: seq<T>, e: nat, xs: seq<T>)
    requires e + |xs| <= |ring|
    ensures var r := Overwritten(ring, e, xs);
            && |r| == |ring|
            && forall j :: 0 <= j < |ring| ==> r[j] == if e <= j < e + |xs| then xs[j - e] else ring[j]
  {
  }

  /** Moving the start over m cells drops them. */
  lemma WindowSkip<T>(ring: seq<T>, h: nat, k: nat, m: nat)
    requires h < |ring| && m <= k <= |ring|
    ensures Slot(h, m, |ring|) < |ring|
    ensures Window(ring, Slot(h, m, |ring|), k - m) == Window(ring, h, k)[m..]
  {
    var w := Window(ring, h, k);
    var v := Window(ring, Slot(h, m, |ring|), k - m);
    forall i | 0 <= i < k - m ensures v[i] == w[m..][i] {
      assert w[m..][i] == w[m + i];
    }
  }

  /** Up to the end of the ring a window is a stretch of it. */
  lemma WindowStart<T>(ring: seq<T>, h: nat, k: nat, m: nat)
    requires h < |ring| && m <= k <= |ring| && h + m <= |ring|
    ensures Window(ring, h, k)[..m] == ring[h..h + m]
  {
  }
}
