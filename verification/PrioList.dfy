/** Wait lists kept in order of urgency: a smaller number is more urgent, and a
    newcomer goes behind every waiter that is at least as urgent. */
module PrioList {

  predicate Distinct(l: seq<nat>) {
    forall i, j :: 0 <= i < j < |l| ==> l[i] != l[j]
  }

  predicate Sorted(prio: nat -> nat, l: seq<nat>) {
    forall i, j :: 0 <= i < j < |l| ==> prio(l[i]) <= prio(l[j])
  }

  /** Index of the first waiter that is less urgent than p, or the end. */
  function Position(prio: nat -> nat, l: seq<nat>, p: nat): (i: nat)
    ensures i <= |l|
    ensures forall k :: 0 <= k < i ==> prio(l[k]) <= p
    ensures i < |l| ==> p < prio(l[i])
  {
    if l == [] || p < prio(l[0]) then 0 else 1 + Position(prio, l[1..], p)
  }

  function InsertAt(l: seq<nat>, i: nat, x: nat): seq<nat>
    requires i <= |l|
  {
    l[..i] + [x] + l[i..]
  }

  function Insert(prio: nat -> nat, l: seq<nat>, x: nat): seq<nat> {
    InsertAt(l, Position(prio, l, prio(x)), x)
  }

  /** The list without x. */
  function Remove(l: seq<nat>, x: nat): (r: seq<nat>)
    ensures x !in l ==> r == l
    ensures |r| <= |l|
  {
    if l == [] then []
    else if l[0] == x then l[1..]
    else [l[0]] + Remove(l[1..], x)
  }

  /** Any loop that stops at the first less urgent waiter stops here. */
  lemma PositionIsFirst(prio: nat -> nat, l: seq<nat>, p: nat, i: nat)
    requires i <= |l|
    requires forall k :: 0 <= k < i ==> prio(l[k]) <= p
    requires i < |l| ==> p < prio(l[i])
    ensures i == Position(prio, l, p)
  {
    var j := Position(prio, l, p);
    assert !(j < i);
  }

  /** Positions depend on the priorities of the list's own elements only. */
  lemma SamePosition(prio: nat -> nat, other: nat -> nat, l: seq<nat>, p: nat)
    requires forall t :: t in l ==> other(t) == prio(t)
    ensures Position(other, l, p) == Position(prio, l, p)
  {
    PositionIsFirst(other, l, p, Position(prio, l, p));
  }

  lemma InsertAtElements(l: seq<nat>, i: nat, x: nat)
    requires i <= |l|
    ensures forall y :: y in InsertAt(l, i, x) <==> y == x || y in l
    ensures Distinct(l) && x !in l ==> Distinct(InsertAt(l, i, x))
  {
    assert l == l[..i] + l[i..];
    forall y ensures y in InsertAt(l, i, x) <==> y == x || y in l {
      assert y in l <==> y in l[..i] || y in l[i..];
    }
  }

  lemma InsertElements(prio: nat -> nat, l: seq<nat>, x: nat)
    ensures forall y :: y in Insert(prio, l, x) <==> y == x || y in l
    ensures Distinct(l) && x !in l ==> Distinct(Insert(prio, l, x))
  {
    InsertAtElements(l, Position(prio, l, prio(x)), x);
  }

  lemma AppendElements(l: seq<nat>, x: nat)
    ensures forall y :: y in l + [x] <==> y == x || y in l
    ensures Distinct(l) && x !in l ==> Distinct(l + [x])
  {
  }

  /** Inserting keeps the order of urgency. */
  lemma InsertSorted(prio: nat -> nat, l: seq<nat>, x: nat)
    requires Sorted(prio, l)
    ensures Sorted(prio, Insert(prio, l, x))
  {
    var i := Position(prio, l, prio(x));
    var r := Insert(prio, l, x);
    forall a, b | 0 <= a < b < |r| ensures prio(r[a]) <= prio(r[b]) {
      if a == i {
        assert r[b] == l[b - 1] && prio(l[i]) <= prio(l[b - 1]);
      } else if b == i {
        assert r[a] == l[a];
      } else {
        assert r[a] == (if a < i then l[a] else l[a - 1]);
        assert r[b] == (if b < i then l[b] else l[b - 1]);
      }
    }
  }

  /** Removing takes out exactly x and keeps the order of the others. */
  lemma {:induction false} RemoveSplit(l: seq<nat>, x: nat) returns (i: nat)
    requires x in l
    ensures i < |l| && l[i] == x && Remove(l, x) == l[..i] + l[i + 1..]
  {
    if l[0] == x {
      i := 0;
    } else {
      var j := RemoveSplit(l[1..], x);
      i := j + 1;
      assert l[..i] == [l[0]] + l[1..][..j];
    }
  }

  lemma RemoveSubset(l: seq<nat>, x: nat)
    ensures forall y :: y in Remove(l, x) ==> y in l
  {
    if x in l { var i := RemoveSplit(l, x); }
  }

  lemma RemoveElements(l: seq<nat>, x: nat)
    requires Distinct(l)
    ensures Distinct(Remove(l, x))
    ensures forall y :: y in Remove(l, x) <==> y in l && y != x
    ensures x in l ==> |Remove(l, x)| == |l| - 1
  {
    if x in l {
      var i := RemoveSplit(l, x);
      CutElements(l, i);
    }
  }

  lemma CutElements(l: seq<nat>, i: nat)
    requires Distinct(l) && i < |l|
    ensures Distinct(l[..i] + l[i + 1..])
    ensures forall y :: y in l[..i] + l[i + 1..] <==> y in l && y != l[i]
  {
    var r := l[..i] + l[i + 1..];
    forall y ensures y in r <==> y in l && y != l[i] {
      if y in r {
        var k :| 0 <= k < |r| && r[k] == y;
        assert y == l[if k < i then k else k + 1];
      }
      if y in l && y != l[i] {
        var k :| 0 <= k < |l| && l[k] == y;
        assert y == r[if k < i then k else k - 1];
      }
    }
  }

  lemma RemoveSorted(prio: nat -> nat, l: seq<nat>, x: nat)
    requires Sorted(prio, l)
    ensures Sorted(prio, Remove(l, x))
  {
    if x in l {
      var i := RemoveSplit(l, x);
      var r := Remove(l, x);
      forall a, b | 0 <= a < b < |r| ensures prio(r[a]) <= prio(r[b]) {
        assert r[a] == (if a < i then l[a] else l[a + 1]);
        assert r[b] == (if b < i then l[b] else l[b + 1]);
      }
    }
  }

  /** Lists of waiters whose priorities did not change stay sorted. */
  lemma SortedFrame(f: nat -> nat, g: nat -> nat, l: seq<nat>)
    requires Sorted(f, l)
    requires forall x :: x in l ==> f(x) == g(x)
    ensures Sorted(g, l)
  {
    forall i, j | 0 <= i < j < |l| ensures g(l[i]) <= g(l[j]) {
      assert l[i] in l && l[j] in l;
    }
  }

  /** x stands somewhere ahead of w. */
  ghost predicate Before(l: seq<nat>, x: nat, w: nat) {
    exists i, j :: 0 <= i < j < |l| && l[i] == x && l[j] == w
  }

  /** A pair of the longer list either was a pair before or involves the newcomer. */
  lemma InsertedPair(l: seq<nat>, k: nat, me: nat, a: nat, b: nat)
    requires k <= |l| && a < b <= |l| && a != k && b != k
    ensures var r := InsertAt(l, k, me); Before(l, r[a], r[b])
  {
    var r := InsertAt(l, k, me);
    assert l[if a < k then a else a - 1] == r[a];
    assert l[if b < k then b else b - 1] == r[b];
  }

  /** A newcomer gets ahead only of waiters that are less urgent, and nobody else changes order. */
  lemma InsertOvertakes(prio: nat -> nat, l: seq<nat>, me: nat, x: nat, w: nat)
    requires Sorted(prio, l) && w != me && Before(Insert(prio, l, me), x, w) && !Before(l, x, w)
    ensures x == me && prio(me) < prio(w)
  {
    var k := Position(prio, l, prio(me));
    var r := Insert(prio, l, me);
    var a, b :| 0 <= a < b < |r| && r[a] == x && r[b] == w;
    assert r[k] == me;
    if a == k {
      assert r[b] == l[b - 1];
      assert prio(l[k]) <= prio(l[b - 1]);
    } else {
      InsertedPair(l, k, me, a, b);
    }
  }

  /** Waiters that were in order stay in order when somebody joins. */
  lemma InsertKeepsOrder(prio: nat -> nat, l: seq<nat>, me: nat, x: nat, w: nat)
    requires Before(l, x, w)
    ensures Before(Insert(prio, l, me), x, w)
  {
    var k := Position(prio, l, prio(me));
    var r := Insert(prio, l, me);
    var i, j :| 0 <= i < j < |l| && l[i] == x && l[j] == w;
    assert r[if i < k then i else i + 1] == x;
    assert r[if j < k then j else j + 1] == w;
  }

  /** Waiters that were in order stay in order when somebody else leaves. */
  lemma {:induction false} RemoveKeepsOrder(l: seq<nat>, x: nat, a: nat, b: nat)
    requires Before(l, a, b) && a != x && b != x
    ensures Before(Remove(l, x), a, b)
  {
    if x in l {
      var i := RemoveSplit(l, x);
      var j, k :| 0 <= j < k < |l| && l[j] == a && l[k] == b;
      CutKeepsOrder(l, i, j, k);
    }
  }

  lemma CutKeepsOrder(l: seq<nat>, i: nat, j: nat, k: nat)
    requires i < |l| && j < k < |l| && j != i && k != i
    ensures Before(l[..i] + l[i + 1..], l[j], l[k])
  {
    var r := l[..i] + l[i + 1..];
    assert r[if j < i then j else j - 1] == l[j];
    assert r[if k < i then k else k - 1] == l[k];
  }
}
