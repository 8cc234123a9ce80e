/** The address printer and parser as they run, on byte and character buffers. */
module Ipv6Code {
  import opened Options
  import opened Ipv6Text

  // ---------- ipv6_addr_from_buf ----------

  /** One turn of the shift loop, from the last byte behind "::" down. */
  method ShiftUp(u8: array<Byte>, colonp: nat, i: nat)
    requires u8.Length == 16 && colonp <= i <= 16
    requires forall k :: i <= k < 16 ==> u8[k] == 0
    modifies u8
    ensures u8[..] == Shifted(old(u8[..i]), colonp)
  {
    ghost var out := u8[..i];
    var n := i - colonp;
    var j := 1;
    while j <= n
      invariant 1 <= j <= n + 1
      invariant forall k :: 0 <= k < i - (j - 1) ==> u8[k] == out[k]
      invariant forall k :: i - (j - 1) <= k < 16 - (j - 1) ==> u8[k] == 0
      invariant forall k :: 16 - (j - 1) <= k < 16 ==> u8[k] == if i == 16 then 0 else out[k - (16 - i)]
    {
      u8[16 - j] := u8[colonp + (n - j)];
      u8[colonp + (n - j)] := 0;
      j := j + 1;
    }
    assert u8[..] == Shifted(out, colonp);
  }

  lemma ScanStep(p: Parse, s: string, k: nat)
    requires k < |s|
    ensures Scan(p, s[k..]) == if Feed(p, s[k]).None? then None else Scan(Feed(p, s[k]).value, s[k + 1..])
  {
    assert s[k..][0] == s[k] && s[k..][1..] == s[k + 1..];
  }

  /** Writing the number in hand. */
  method PushNumber(u8: array<Byte>, i: nat, val: nat) returns (next: nat)
    requires u8.Length == 16 && i + 2 <= 16
    modifies u8
    ensures next == i + 2
    ensures u8[..next] == old(u8[..i]) + [val / 256 % 256, val % 256]
    ensures forall k :: next <= k < 16 ==> u8[k] == old(u8[k])
  {
    u8[i] := val / 256 % 256;
    u8[i + 1] := val % 256;
    next := i + 2;
    assert u8[..next] == u8[..i] + [u8[i], u8[i + 1]];
    assert u8[..i] == old(u8[..i]);
  }

  /** ipv6_addr_from_buf on a NUL-terminated string */
  method FromBuf(u8: array<Byte>, addr: string) returns (ok: bool)
    requires u8.Length == 16
    modifies u8
    ensures ok == Ipv6Text.FromBuf(addr).Some?
    ensures ok ==> u8[..] == Ipv6Text.FromBuf(addr).value
  {
    hide Scan, Shifted;
    if |addr| == 0 || |addr| > MAX_STR_LEN { return false; }
    var z := 0;
    while z < 16
      invariant 0 <= z <= 16
      invariant forall k :: 0 <= k < z ==> u8[k] == 0
    {
      u8[z] := 0;
      z := z + 1;
    }
    var k := 0;
    if addr[0] == ':' {
      k := 1;
      if |addr| == 1 || addr[1] != ':' { return false; }
    }
    ghost var p := Start;
    ghost var goal := Scan(Start, addr[k..]);
    assert goal == Scan(Start, if addr[0] == ':' then addr[1..] else addr);
    var colonp: Option<nat> := None;
    var val, sawXdigit, i := 0, false, 0;
    while k < |addr|
      invariant k <= |addr| && i <= 16 && u8[..i] == p.out
      invariant forall j :: i <= j < 16 ==> u8[j] == 0
      invariant p == Parse(u8[..i], colonp, val, sawXdigit)
      invariant colonp.Some? ==> colonp.value <= i
      invariant Scan(p, addr[k..]) == goal
    {
      var ch := addr[k];
      ScanStep(p, addr, k);
      k := k + 1;
      var digit := Digit(ch);
      if digit.Some? {
        val := ShiftIn(val, digit.value);
        if val > 0xffff { return false; }
        sawXdigit := true;
        p := Parse(p.out, colonp, val, true);
      } else if ch == ':' {
        if !sawXdigit {
          if colonp.Some? { return false; }
          colonp := Some(i);
          p := Parse(p.out, colonp, val, false);
        } else {
          if i + 2 > 16 { return false; }
          p := Push(p).value;
          i := PushNumber(u8, i, val);
          sawXdigit := false;
          val := 0;
        }
      } else {
        return false;
      }
    }
    assert addr[k..] == "";
    assert goal == Some(p) by { ScanNothing(p); }
    if sawXdigit {
      if i + 2 > 16 { return false; }
      i := PushNumber(u8, i, val);
    }
    if colonp.Some? {
      ShiftUp(u8, colonp.value, i);
      i := 16;
    }
    ok := i == 16;
    assert i == 16 ==> u8[..16] == u8[..];
  }

  lemma ScanNothing(p: Parse)
    ensures Scan(p, "") == Some(p)
  {
  }

  // ---------- ipv6_addr_to_str ----------

  lemma {:induction false} GroupAt(a: seq<Byte>, i: nat)
    requires 2 * i + 1 < |a|
    ensures i < |Groups(a)| && Groups(a)[i] == GroupOf(a[2 * i], a[2 * i + 1])
  {
    if i > 0 {
      GroupAt(a[2..], i - 1);
      assert Groups(a)[i] == Groups(a[2..])[i - 1];
    }
  }

  lemma {:induction false} RunLength(g: seq<Group>, i: nat, k: nat)
    requires i <= k <= |g| && (forall j :: i <= j < k ==> g[j] == 0) && (k < |g| ==> g[k] != 0)
    ensures RunFrom(g, i) == k - i
    decreases k - i
  {
    if i < k { RunLength(g, i + 1, k); }
  }

  /** A run c..k has ended: only its start can beat the best run before it. */
  lemma {:induction false} RunEnds(g: seq<Group>, c: nat, k: nat, m: nat)
    requires c < m <= k <= |g| && (forall j :: c <= j < k ==> g[j] == 0) && (k < |g| ==> g[k] != 0)
    ensures Longest(g, m) == if k - c > Longest(g, c).len then Run(c, k - c) else Longest(g, c)
    decreases m
  {
    hide Longest, RunFrom;
    RunLength(g, m - 1, k);
    LongestStep(g, m - 1);
    if m > c + 1 { RunEnds(g, c, k, m - 1); }
  }

  lemma LongestStep(g: seq<Group>, n: nat)
    requires n < |g|
    ensures Longest(g, n + 1) == if RunFrom(g, n) > Longest(g, n).len then Run(n, RunFrom(g, n)) else Longest(g, n)
  {
  }

  lemma NoRunHere(g: seq<Group>, k: nat)
    requires k < |g| && g[k] != 0
    ensures Longest(g, k + 1) == Longest(g, k)
  {
    RunLength(g, k, k);
  }

  /** The loop that looks for the run to compress */
  method FindBest(a: Address) returns (best: Run)
    ensures best.base == Best(Groups(a)).base
    ensures best.base != -1 ==> best == Best(Groups(a))
  {
    hide Longest, RunFrom, Groups;
    ghost var g := Groups(a);
    EightGroups(a);
    LongestStart(g);
    best := Run(-1, 0);
    var cur := Run(-1, 0);
    var i: nat := 0;
    while i < 8
      invariant i <= 8
      invariant cur.base == -1 ==> best == Longest(g, i)
      invariant cur.base != -1 ==>
                  && 0 <= cur.base < i && cur.len == i - cur.base && best == Longest(g, cur.base)
                  && forall j :: cur.base <= j < i ==> g[j] == 0
      invariant best.base == -1 ==> best.len == 0
    {
      GroupAt(a, i);
      if GroupOf(a[2 * i], a[2 * i + 1]) == 0 {
        if cur.base == -1 {
          cur := Run(i, 1);
        } else {
          cur := cur.(len := cur.len + 1);
        }
      } else {
        NoRunHere(g, i);
        if cur.base != -1 {
          RunEnds(g, cur.base, i, i);
          if best.base == -1 || cur.len > best.len { best := cur; }
          cur := cur.(base := -1);
        }
      }
      i := i + 1;
    }
    if cur.base != -1 {
      RunEnds(g, cur.base, 8, 8);
      if best.base == -1 || cur.len > best.len { best := cur; }
    }
    assert best == Longest(g, 8);
    if best.base != -1 && best.len < 2 { best := best.(base := -1); }
    BestCases(g);
  }

  lemma LongestStart(g: seq<Group>)
    ensures Longest(g, 0) == Run(-1, 0)
  {
  }

  lemma BestCases(g: seq<Group>)
    ensures var l := Longest(g, |g|);
            && Best(g).base == (if l.len < 2 then -1 else l.base)
            && (l.base == -1 ==> l.len == 0)
            && (Best(g).base != -1 ==> Best(g) == l)
  {
  }

  /** The characters written so far */
  method PutChar(tmp: array<char>, tp: nat, c: char) returns (next: nat)
    requires tp < tmp.Length
    modifies tmp
    ensures next == tp + 1 && tmp[..next] == old(tmp[..tp]) + [c]
  {
    tmp[tp] := c;
    next := tp + 1;
    assert tmp[..next] == tmp[..tp] + [c];
  }

  /** The nibble tests of the format loop */
  method PutHex(tmp: array<char>, tp: nat, hi: Byte, lo: Byte) returns (next: nat)
    requires tp + |HexOf(hi / 16, hi % 16, lo / 16, lo % 16)| <= tmp.Length
    modifies tmp
    ensures next == tp + |HexOf(hi / 16, hi % 16, lo / 16, lo % 16)|
    ensures tmp[..next] == old(tmp[..tp]) + HexOf(hi / 16, hi % 16, lo / 16, lo % 16)
  {
    ghost var before := tmp[..tp];
    next := tp;
    if hi / 16 != 0 {
      next := PutChar(tmp, next, HEX_L[hi / 16]);
      next := PutChar(tmp, next, HEX_L[hi % 16]);
      next := PutChar(tmp, next, HEX_L[lo / 16]);
    } else if hi % 16 != 0 {
      next := PutChar(tmp, next, HEX_L[hi % 16]);
      next := PutChar(tmp, next, HEX_L[lo / 16]);
    } else if lo / 16 != 0 {
      next := PutChar(tmp, next, HEX_L[lo / 16]);
    }
    next := PutChar(tmp, next, HEX_L[lo % 16]);
  }

  lemma HexOfBytes(a: Address, i: nat)
    requires i < 8
    ensures i < |Groups(a)|
    ensures Hex(Groups(a)[i]) == HexOf(a[2 * i] / 16, a[2 * i] % 16, a[2 * i + 1] / 16, a[2 * i + 1] % 16)
  {
    hide Groups, HexOf, GroupOf;
    GroupAt(a, i);
    HiLo(a[2 * i], a[2 * i + 1]);
  }

  lemma HiLo(hi: nat, lo: nat)
    requires hi < 256 && lo < 256
    ensures GroupOf(hi, lo) / 256 == hi && GroupOf(hi, lo) % 256 == lo
  {
  }

  lemma EmitOne(g: seq<Group>, i: nat, best: Run)
    requires i < |g| && i != best.base
    ensures Emit(g, i, best) == (if i != 0 then ":" else "") + Hex(g[i]) + Emit(g, i + 1, best)
  {
    hide Hex;
  }

  lemma EmitTheRun(g: seq<Group>, i: nat, best: Run)
    requires i < |g| && i == best.base && best.len > 0
    ensures Emit(g, i, best) == ":" + Emit(g, i + best.len, best)
  {
    hide Hex;
  }

  lemma EmitEnd(g: seq<Group>, i: nat, best: Run)
    requires i >= |g|
    ensures Emit(g, i, best) == if best.base != -1 && best.base + best.len == |g| then ":" else ""
  {
  }

  lemma Append(x: string, y: string, z: string, all: string)
    requires all == x + (y + z)
    ensures all == (x + y) + z && |x + y| + |z| == |all|
  {
  }

  lemma AppendTwo(x: string, y: string, z: string, w: string, all: string)
    requires all == x + (y + z + w)
    ensures all == (x + y) + (z + w) && all == ((x + y) + z) + w && |x| + |y| + |z| + |w| == |all|
  {
  }

  /** ipv6_addr_to_str with a result buffer of resultLen characters; its own buffer of 40
      characters is never overrun. */
  method ToStr(a: Address, resultLen: nat) returns (result: Option<string>)
    ensures result == if |ToText(a)| + 1 > resultLen then None else Some(ToText(a))
  {
    hide Emit, Best, Groups, Hex, HexOf;
    var best := FindBest(a);
    ghost var g := Groups(a);
    ghost var b := Best(g);
    ghost var all := ToText(a);
    EightGroups(a);
    BestRun(g);
    TextLength(a);
    SameEmit(g, best, b);
    var tmp := new char[MAX_STR_LEN];
    var tp: nat := 0;
    var i: nat := 0;
    assert all == tmp[..0] + Emit(g, 0, best);
    while i < 8
      invariant i <= 8 && tp <= |all| <= 39 && tmp.Length == 40
      invariant all == tmp[..tp] + Emit(g, i, best)
      decreases 8 - i
    {
      if i == best.base {
        EmitTheRun(g, i, best);
        Append(tmp[..tp], ":", Emit(g, i + best.len, best), all);
        tp := PutChar(tmp, tp, ':');
        i := i + best.len;
      } else {
        EmitOne(g, i, best);
        AppendTwo(tmp[..tp], if i != 0 then ":" else "", Hex(g[i]), Emit(g, i + 1, best), all);
        if i != 0 {
          tp := PutChar(tmp, tp, ':');
        } else {
          assert tmp[..tp] + "" == tmp[..tp];
        }
        HexOfBytes(a, i);
        tp := PutHex(tmp, tp, a[2 * i], a[2 * i + 1]);
        i := i + 1;
      }
    }
    EmitEnd(g, i, best);
    if best.base != -1 && best.base + best.len == 8 {
      tp := PutChar(tmp, tp, ':');
    }
    assert tmp[..tp] == all;
    tmp[tp] := '\0';
    if tp + 1 > resultLen { return None; }
    return Some(tmp[..tp]);
  }

  /** Without a run its length does not matter. */
  lemma {:induction false} EmitNoRun(g: seq<Group>, i: nat, x: int, y: int)
    ensures Emit(g, i, Run(-1, x)) == Emit(g, i, Run(-1, y))
    decreases |g| - i
  {
    if i < |g| { EmitNoRun(g, i + 1, x, y); }
  }

  lemma SameEmit(g: seq<Group>, best: Run, b: Run)
    requires best.base == b.base && (best.base != -1 ==> best == b)
    ensures Emit(g, 0, best) == Emit(g, 0, b)
  {
    if best.base == -1 { EmitNoRun(g, 0, best.len, b.len); }
  }
}
