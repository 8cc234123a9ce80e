/** The intrusive lists of RIOT at pointer level. A circular list is reached through a node whose
    next pointer names the last element, which points back to the first; a linear list ends with
    a null pointer. */
module Clist {

  /** The list node inside a thread, or the head of a list */
  class Node {
    var next: Node?
    const priority: nat

    constructor (priority: nat)
      ensures next == null && this.priority == priority
    {
      next, this.priority := null, priority;
    }
  }

  ghost predicate Distinct(s: seq<Node>) {
    forall i, j :: 0 <= i < j < |s| ==> s[i] != s[j]
  }

  function Succ(i: nat, n: nat): nat {
    if i + 1 == n then 0 else i + 1
  }

  /** The nodes s form a ring whose last one is what list points to. */
  ghost predicate Circular(list: Node, s: seq<Node>)
    reads list, s
  {
    && Distinct(s) && list !in s
    && (if s == [] then list.next == null
        else
          && list.next == s[|s| - 1]
          && forall i :: 0 <= i < |s| ==> s[i].next == s[Succ(i, |s|)])
  }

  /** Element i, or null behind the last one */
  function After(s: seq<Node>, i: nat): Node? {
    if i < |s| then s[i] else null
  }

  /** The nodes s follow list one by one up to a null pointer. */
  ghost predicate Linear(list: Node, s: seq<Node>)
    reads list, s
  {
    && Distinct(s) && list !in s
    && list.next == After(s, 0)
    && forall i :: 0 <= i < |s| ==> s[i].next == After(s, i + 1)
  }

  /** s without its element i */
  function Cut(s: seq<Node>, i: nat): seq<Node>
    requires i < |s|
  {
    s[..i] + s[i + 1..]
  }

  /** s with its first k elements moved to the end */
  function Rotated(s: seq<Node>, k: nat): seq<Node>
    requires k <= |s|
  {
    s[k..] + s[..k]
  }

  // ---------- circular lists ----------

  /** clist_rpush */
  method RPush(list: Node, node: Node, ghost s: seq<Node>)
    requires Circular(list, s) && node !in s && node != list
    modifies list, node, s
    ensures Circular(list, s + [node])
  {
    if list.next != null {
      node.next := list.next.next;
      list.next.next := node;
    } else {
      node.next := node;
    }
    list.next := node;
  }

  /** clist_lpush */
  method LPush(list: Node, node: Node, ghost s: seq<Node>)
    requires Circular(list, s) && node !in s && node != list
    modifies list, node, s
    ensures Circular(list, [node] + s)
  {
    if list.next != null {
      node.next := list.next.next;
      list.next.next := node;
    } else {
      node.next := node;
      list.next := node;
    }
  }

  /** clist_lpop */
  method LPop(list: Node, ghost s: seq<Node>) returns (first: Node?)
    requires Circular(list, s)
    modifies list, s
    ensures first == if s == [] then null else s[0]
    ensures Circular(list, if s == [] then [] else s[1..])
  {
    if list.next != null {
      first := list.next.next;
      if list.next == first {
        list.next := null;
      } else {
        list.next.next := first.next;
      }
    } else {
      first := null;
    }
  }

  /** clist_lpoprpush: the first element becomes the last. */
  method LPopRPush(list: Node, ghost s: seq<Node>)
    requires Circular(list, s)
    modifies list
    ensures Circular(list, if s == [] then [] else s[1..] + [s[0]])
  {
    if list.next != null {
      list.next := list.next.next;
    }
  }

  /** clist_find_before: the element whose successor is the node */
  method FindBefore(list: Node, node: Node, ghost s: seq<Node>) returns (before: Node?, ghost k: nat)
    requires Circular(list, s)
    ensures before == null <==> node !in s
    ensures before != null ==> k < |s| && before == s[k] && s[Succ(k, |s|)] == node
  {
    var pos := list.next;
    k := 0;
    if pos == null { return null, 0; }
    pos := pos.next;
    while true
      invariant k < |s| && pos == s[k]
      invariant forall j :: 0 < j <= k ==> s[j] != node
      decreases |s| - k
    {
      if pos.next == node { return pos, k; }
      if pos == list.next {
        assert forall j :: 0 <= j < |s| ==> s[j] != node;
        return null, 0;
      }
      pos := pos.next;
      k := k + 1;
    }
  }

  /** clist_find */
  method Find(list: Node, node: Node, ghost s: seq<Node>) returns (found: Node?)
    requires Circular(list, s)
    ensures found == if node in s then node else null
  {
    ghost var k: nat;
    var tmp;
    tmp, k := FindBefore(list, node, s);
    if tmp != null {
      found := tmp.next;
    } else {
      found := null;
    }
  }

  /** clist_count */
  method Count(list: Node, ghost s: seq<Node>) returns (cnt: nat)
    requires Circular(list, s)
    ensures cnt == |s|
  {
    var node := list.next;
    cnt := 0;
    if node != null {
      node := node.next;
      cnt := 1;
      while node != list.next
        invariant 1 <= cnt <= |s| && node == s[cnt - 1]
        decreases |s| - cnt
      {
        node := node.next;
        cnt := cnt + 1;
      }
    }
  }

  /** The pointer writes of clist_remove for an element that is not the first */
  method Unlink(list: Node, tmp: Node, node: Node, ghost s: seq<Node>, ghost k: nat)
    requires Circular(list, s) && k + 1 < |s| && tmp == s[k] && node == s[k + 1]
    modifies list, tmp
    ensures Circular(list, Cut(s, k + 1))
  {
    hide Cut;
    ghost var r := Cut(s, k + 1);
    CutCells(s, k + 1);
    assert tmp.next.next == s[Succ(k + 1, |s|)];
    tmp.next := tmp.next.next;
    if node == list.next {
      list.next := tmp;
    }
    forall i | 0 <= i < |r| ensures r[i].next == r[Succ(i, |r|)] {
      if i < k {
        assert r[i] == s[i] && r[i + 1] == s[i + 1];
      } else if i > k {
        assert r[i] == s[i + 1] && s[i + 1].next == s[Succ(i + 1, |s|)];
      }
    }
  }

  lemma CutCells(s: seq<Node>, k: nat)
    requires k < |s| && Distinct(s)
    ensures var r := Cut(s, k);
            && |r| == |s| - 1 && Distinct(r)
            && (forall i :: 0 <= i < |r| ==> r[i] == s[if i < k then i else i + 1])
  {
  }

  /** clist_remove: any element; the others keep their order. */
  method Remove(list: Node, node: Node, ghost s: seq<Node>) returns (removed: Node?, ghost i: nat)
    requires Circular(list, s)
    modifies list, s
    ensures removed == if node in s then node else null
    ensures node in s ==> i < |s| && s[i] == node && Circular(list, Cut(s, i))
    ensures node !in s ==> Circular(list, s)
  {
    i := 0;
    if list.next != null {
      if list.next.next == node {
        removed := LPop(list, s);
        assert Cut(s, 0) == s[1..];
      } else {
        var tmp;
        ghost var k: nat;
        tmp, k := FindBefore(list, node, s);
        if tmp != null {
          assert k + 1 < |s|;
          Unlink(list, tmp, node, s, k);
          i := k + 1;
          removed := node;
        } else {
          removed := null;
        }
      }
    } else {
      removed := null;
    }
  }

  lemma RotatedCells(s: seq<Node>, k: nat)
    requires k < |s|
    ensures |Rotated(s, k)| == |s| && Rotated(s, k)[0] == s[k]
    ensures forall x :: x in Rotated(s, k) ==> x in s
    ensures Rotated(s, k)[1..] + [Rotated(s, k)[0]] == Rotated(s, k + 1)
  {
    forall x | x in Rotated(s, k) ensures x in s { assert x in s[k..] || x in s[..k]; }
  }

  lemma RotatedEnds(s: seq<Node>)
    requires s != []
    ensures Rotated(s, 0) == s && Rotated(s, |s| - 1)[1..] == s[..|s| - 1]
  {
  }

  /** clist_rpop: the last element; rotating leaves the remaining order unchanged. */
  method RPop(list: Node, ghost s: seq<Node>) returns (last: Node?)
    requires Circular(list, s)
    modifies list, s
    ensures last == if s == [] then null else s[|s| - 1]
    ensures Circular(list, if s == [] then [] else s[..|s| - 1])
  {
    hide Rotated;
    if list.next != null {
      last := list.next;
      ghost var k := 0;
      RotatedEnds(s);
      RotatedCells(s, 0);
      while list.next.next != last
        invariant k < |s| && Circular(list, Rotated(s, k))
        invariant Rotated(s, k) != [] && Rotated(s, k)[0] == s[k]
        decreases |s| - k
      {
        RotatedCells(s, k);
        LPopRPush(list, Rotated(s, k));
        k := k + 1;
        RotatedCells(s, k);
      }
      RotatedCells(s, k);
      last := LPop(list, Rotated(s, k));
    } else {
      last := null;
    }
  }

  // ---------- linear lists ----------

  /** list_add: directly behind a node; s is what follows it */
  method Add(list: Node, node: Node, ghost s: seq<Node>)
    requires Linear(list, s) && node !in s && node != list
    modifies list, node
    ensures Linear(list, [node] + s)
  {
    node.next := list.next;
    list.next := node;
  }

  /** list_remove_head */
  method RemoveHead(list: Node, ghost s: seq<Node>) returns (head: Node?)
    requires Linear(list, s)
    modifies list
    ensures head == if s == [] then null else s[0]
    ensures Linear(list, if s == [] then [] else s[1..])
  {
    head := list.next;
    if head != null {
      list.next := head.next;
    }
  }

  /** The cursor of a walk over a linear list: the head itself, then the elements */
  function CursorAt(list: Node, s: seq<Node>, k: nat): Node
    requires k <= |s|
  {
    if k == 0 then list else s[k - 1]
  }

  /** list_remove */
  method ListRemove(list: Node, node: Node, ghost s: seq<Node>) returns (removed: Node?, ghost i: nat)
    requires Linear(list, s)
    modifies list, s
    ensures removed == if node in s then node else null
    ensures node in s ==> i < |s| && s[i] == node && Linear(list, Cut(s, i))
    ensures node !in s ==> Linear(list, s)
  {
    var at := list;
    i := 0;
    while at.next != null
      invariant i <= |s| && at == CursorAt(list, s, i) && Linear(list, s)
      invariant forall j :: 0 <= j < i ==> s[j] != node
      decreases |s| - i
    {
      if at.next == node {
        CutLinear(list, at, node, s, i);
        return node, i;
      }
      at := at.next;
      i := i + 1;
    }
    removed := at.next;
  }

  /** The pointer write of list_remove */
  method CutLinear(list: Node, at: Node, node: Node, ghost s: seq<Node>, ghost i: nat)
    requires Linear(list, s) && i < |s| && at == CursorAt(list, s, i) && node == s[i]
    modifies at
    ensures Linear(list, Cut(s, i))
  {
    CutCells(s, i);
    assert node.next == After(s, i + 1);
    at.next := node.next;
  }

  ghost predicate ByUrgency(s: seq<Node>) {
    forall i, j :: 0 <= i < j < |s| ==> s[i].priority <= s[j].priority
  }

  /** s with the node at position i */
  function Inserted(s: seq<Node>, i: nat, node: Node): seq<Node>
    requires i <= |s|
  {
    s[..i] + [node] + s[i..]
  }

  /** thread_add_to_list: behind every element that is at least as urgent */
  method AddThread(list: Node, node: Node, ghost s: seq<Node>) returns (ghost i: nat)
    requires Linear(list, s) && node !in s && node != list
    modifies list, node, s
    ensures i <= |s| && Linear(list, Inserted(s, i, node))
    ensures forall k :: 0 <= k < i ==> s[k].priority <= node.priority
    ensures i < |s| ==> s[i].priority > node.priority
    ensures ByUrgency(s) ==> ByUrgency(Inserted(s, i, node))
  {
    var at := list;
    i := 0;
    while at.next != null
      invariant i <= |s| && at == CursorAt(list, s, i)
      invariant forall k :: 0 <= k < i ==> s[k].priority <= node.priority
      decreases |s| - i
    {
      if at.next.priority > node.priority { break; }
      at := at.next;
      i := i + 1;
    }
    LinkAt(list, at, node, s, i);
    InsertedByUrgency(s, i, node);
  }

  /** The two pointer writes of an insertion */
  method LinkAt(list: Node, at: Node, node: Node, ghost s: seq<Node>, ghost i: nat)
    requires Linear(list, s) && node !in s && node != list && i <= |s| && at == CursorAt(list, s, i)
    modifies at, node
    ensures Linear(list, Inserted(s, i, node))
  {
    hide Inserted;
    ghost var r := Inserted(s, i, node);
    InsertedCells(s, i, node);
    assert at.next == After(s, i);
    node.next := at.next;
    at.next := node;
    forall j | 0 <= j < |r| ensures r[j].next == After(r, j + 1) {
      if j < i - 1 {
        assert r[j] == s[j] && r[j + 1] == s[j + 1];
      } else if j > i {
        assert r[j] == s[j - 1] && s[j - 1].next == After(s, j);
      }
    }
  }

  lemma InsertedCells(s: seq<Node>, i: nat, node: Node)
    requires i <= |s| && Distinct(s) && node !in s
    ensures var r := Inserted(s, i, node);
            && |r| == |s| + 1 && Distinct(r)
            && (forall j :: 0 <= j < i ==> r[j] == s[j])
            && r[i] == node
            && (forall j :: i < j < |r| ==> r[j] == s[j - 1])
  {
  }

  lemma InsertedByUrgency(s: seq<Node>, i: nat, node: Node)
    requires i <= |s|
    requires forall k :: 0 <= k < i ==> s[k].priority <= node.priority
    requires i < |s| ==> s[i].priority > node.priority
    ensures ByUrgency(s) ==> ByUrgency(Inserted(s, i, node))
  {
    if ByUrgency(s) {
      var r := Inserted(s, i, node);
      forall a, b | 0 <= a < b < |r| ensures r[a].priority <= r[b].priority {
        assert r[a] == if a < i then s[a] else if a == i then node else s[a - 1];
        assert r[b] == if b < i then s[b] else if b == i then node else s[b - 1];
      }
    }
  }

  // ---------- laws ----------

  /** A ring determines its sequence: two readings of the same pointers agree. */
  lemma SameRing(list: Node, s: seq<Node>, t: seq<Node>)
    requires Circular(list, s) && Circular(list, t)
    ensures s == t
  {
    if s != [] && t != [] {
      assert s[|s| - 1] == t[|t| - 1];
      assert s[Succ(|s| - 1, |s|)] == s[0] && t[Succ(|t| - 1, |t|)] == t[0];
      if |s| <= |t| { SamePrefix(list, s, t, |s|); } else { SamePrefix(list, t, s, |t|); }
    }
  }

  lemma {:induction false} SamePrefix(list: Node, s: seq<Node>, t: seq<Node>, k: nat)
    requires Circular(list, s) && Circular(list, t) && 0 < k <= |s| <= |t| && s[0] == t[0]
    ensures s[..k] == t[..k]
    ensures k == |s| ==> s == t
  {
    if k > 1 {
      SamePrefix(list, s, t, k - 1);
      assert s[k - 2] == s[..k - 1][k - 2] == t[..k - 1][k - 2] == t[k - 2];
      assert Succ(k - 2, |s|) == k - 1 && Succ(k - 2, |t|) == k - 1;
    }
    if k == |s| {
      assert s[k - 1] == t[|t| - 1];
      assert s[..k][k - 1] == t[..k][k - 1];
    }
  }
}
