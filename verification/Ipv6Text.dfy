/** IPv6 addresses as text: the RIOT printer and parser, without embedded IPv4 addresses. */
module Ipv6Text {
  import opened Options

  type Byte = b: nat | b < 256
  type Group = g: nat | g < 0x1_0000

  /** IPV6_ADDR_MAX_STR_LEN, with the terminating NUL */
  const MAX_STR_LEN: nat := 40

  const HEX_L: string := "0123456789abcdef"

  // ---------- addresses ----------

  type Address = a: seq<Byte> | |a| == 16 witness seq(16, _ => 0)

  function GroupOf(hi: nat, lo: nat): Group
    requires hi < 256 && lo < 256
  {
    hi * 256 + lo
  }

  /** The 16-bit groups, high byte first. */
  function Groups(a: seq<Byte>): (g: seq<Group>)
    ensures |g| == |a| / 2
  {
    if |a| < 2 then [] else [GroupOf(a[0], a[1])] + Groups(a[2..])
  }

  function Bytes(g: seq<Group>): (r: seq<Byte>)
    ensures |r| == 2 * |g|
  {
    if g == [] then [] else [g[0] / 256, g[0] % 256] + Bytes(g[1..])
  }

  lemma {:induction false} BytesOfGroups(a: seq<Byte>)
    requires |a| % 2 == 0
    ensures Bytes(Groups(a)) == a
  {
    if a != [] {
      BytesOfGroups(a[2..]);
      BytesStep(a);
    }
  }

  lemma BytesStep(a: seq<Byte>)
    requires |a| >= 2
    ensures Bytes(Groups(a)) == [a[0], a[1]] + Bytes(Groups(a[2..]))
    ensures a == [a[0], a[1]] + a[2..]
  {
    var g := GroupOf(a[0], a[1]);
    assert g / 256 == a[0] && g % 256 == a[1];
    var rest := Groups(a[2..]);
    assert ([g] + rest)[1..] == rest;
  }

  lemma {:induction false} BytesJoin(g: seq<Group>, h: seq<Group>)
    ensures Bytes(g + h) == Bytes(g) + Bytes(h)
  {
    if g == [] {
      assert g + h == h;
    } else {
      hide *;
      BytesJoin(g[1..], h);
      assert (g + h)[1..] == g[1..] + h;
      var two := BytesFirst(g);
      var same := BytesFirst(g + h);
      ThreeParts(two, Bytes(g[1..]), Bytes(h));
    }
  }

  lemma BytesFirst(g: seq<Group>) returns (two: seq<Byte>)
    requires g != []
    ensures two == [g[0] / 256, g[0] % 256] && Bytes(g) == two + Bytes(g[1..])
  {
    two := [g[0] / 256, g[0] % 256];
  }

  lemma ThreeParts(x: seq<Byte>, y: seq<Byte>, z: seq<Byte>)
    ensures (x + y) + z == x + (y + z)
  {
  }

  function Zeros(n: nat): seq<Byte> {
    seq(n, _ => 0)
  }

  // ---------- the parser ----------

  /** What strchr finds in the digit strings: a digit, or the terminating NUL at index 16. */
  function Digit(ch: char): Option<nat> {
    if '0' <= ch <= '9' then Some(ch as nat - '0' as nat)
    else if 'a' <= ch <= 'f' then Some(ch as nat - 'a' as nat + 10)
    else if 'A' <= ch <= 'F' then Some(ch as nat - 'A' as nat + 10)
    else if ch == '\0' then Some(16)
    else None
  }

  /** val << 4 | d; the bit of 16 is already set when val is odd. */
  function ShiftIn(val: nat, d: nat): nat {
    if d == 16 && val % 2 == 1 then val * 16 else val * 16 + d
  }

  /** The bytes written so far, the position of "::", and the number being read. */
  datatype Parse = Parse(out: seq<Byte>, colon: Option<nat>, val: nat, saw: bool)

  function Push(p: Parse): Option<Parse> {
    if |p.out| + 2 > 16 then None
    else Some(Parse(p.out + [p.val / 256 % 256, p.val % 256], p.colon, 0, false))
  }

  /** One turn of the character loop */
  function Feed(p: Parse, ch: char): Option<Parse> {
    if Digit(ch).Some? then
      var val := ShiftIn(p.val, Digit(ch).value);
      if val > 0xffff then None else Some(p.(val := val, saw := true))
    else if ch == ':' then
      if !p.saw then
        if p.colon.Some? then None else Some(p.(colon := Some(|p.out|)))
      else Push(p)
    else None
  }

  function Scan(p: Parse, s: string): Option<Parse>
    decreases |s|
  {
    if s == [] then Some(p)
    else if Feed(p, s[0]).None? then None
    else Scan(Feed(p, s[0]).value, s[1..])
  }

  /** The shift of the bytes behind "::" to the end: with all 16 bytes written source and target
      are the same cells, and the loop clears each one after copying it onto itself. */
  function Shifted(out: seq<Byte>, c: nat): seq<Byte>
    requires c <= |out| <= 16
  {
    if |out| == 16 then out[..c] + Zeros(16 - c)
    else out[..c] + Zeros(16 - |out|) + out[c..]
  }

  function Finish(p: Parse): Option<seq<Byte>> {
    var p1 := if p.saw then Push(p) else Some(p);
    if p1.None? then None
    else
      var q := p1.value;
      if q.colon.Some? && q.colon.value <= |q.out| <= 16 then Some(Shifted(q.out, q.colon.value))
      else if |q.out| == 16 then Some(q.out)
      else None
  }

  const Start: Parse := Parse([], None, 0, false)

  /** ipv6_addr_from_buf on a NUL-terminated string */
  function FromBuf(text: string): Option<seq<Byte>> {
    if |text| == 0 || |text| > MAX_STR_LEN then None
    else if text[0] == ':' && (|text| == 1 || text[1] != ':') then None
    else
      var p := Scan(Start, if text[0] == ':' then text[1..] else text);
      if p.None? then None else Finish(p.value)
  }

  // ---------- the printer ----------

  /** Length of the run of zero groups that starts at i */
  function RunFrom(g: seq<Group>, i: nat): (r: nat)
    ensures i <= |g| ==> i + r <= |g|
    ensures forall k :: i <= k < i + r ==> k < |g| && g[k] == 0
    ensures i + r < |g| ==> g[i + r] != 0
    decreases |g| - i
  {
    if i >= |g| || g[i] != 0 then 0 else 1 + RunFrom(g, i + 1)
  }

  datatype Run = Run(base: int, len: int)

  /** best is the first longest run that starts before n. */
  ghost predicate FirstLongest(g: seq<Group>, n: nat, best: Run) {
    if best.base == -1 then best.len == 0 && forall j: nat :: j < n ==> RunFrom(g, j) == 0
    else
      && 0 <= best.base < n && 0 < best.len == RunFrom(g, best.base)
      && (forall j: nat :: j < n ==> RunFrom(g, j) <= best.len)
      && (forall j: nat :: j < best.base ==> RunFrom(g, j) < best.len)
  }

  /** The first longest run of zero groups */
  function Longest(g: seq<Group>, n: nat): (best: Run)
    requires n <= |g|
    ensures FirstLongest(g, n, best)
  {
    if n == 0 then Run(-1, 0)
    else
      var best := Longest(g, n - 1);
      var r := RunFrom(g, n - 1);
      if r > best.len then Run(n - 1, r) else best
  }

  /** The run that is printed as "::", base -1 when there is none */
  function Best(g: seq<Group>): Run {
    var best := Longest(g, |g|);
    if best.len < 2 then Run(-1, best.len) else best
  }

  type Nibble = d: nat | d < 16

  /** Up to four digits without leading zeros */
  function HexOf(a: Nibble, b: Nibble, c: Nibble, d: Nibble): string {
    if a != 0 then [HEX_L[a], HEX_L[b], HEX_L[c], HEX_L[d]]
    else if b != 0 then [HEX_L[b], HEX_L[c], HEX_L[d]]
    else if c != 0 then [HEX_L[c], HEX_L[d]]
    else [HEX_L[d]]
  }

  /** A group by the nibbles of its two bytes */
  function Hex(v: Group): string {
    HexOf(v / 256 / 16, v / 256 % 16, v % 256 / 16, v % 256 % 16)
  }

  /** What the format loop writes from group i on */
  function Emit(g: seq<Group>, i: nat, best: Run): string
    decreases |g| - i
  {
    if i >= |g| then if best.base != -1 && best.base + best.len == |g| then ":" else ""
    else if i == best.base && best.len > 0 then ":" + Emit(g, i + best.len, best)
    else (if i != 0 then ":" else "") + Hex(g[i]) + Emit(g, i + 1, best)
  }

  /** The text of an address */
  function ToText(a: Address): string {
    Emit(Groups(a), 0, Best(Groups(a)))
  }

  // ---------- the text by its shape ----------

  /** ":a:b:c" */
  function Tail(l: seq<Group>): string {
    if l == [] then "" else ":" + Hex(l[0]) + Tail(l[1..])
  }

  /** "a:b:c" */
  function Join(l: seq<Group>): string {
    if l == [] then "" else Hex(l[0]) + Tail(l[1..])
  }

  /** Behind the run, or without one, the loop writes ":" and a group each time. */
  lemma {:induction false} EmitTail(g: seq<Group>, i: nat, best: Run)
    requires 0 < i <= |g| && best.base < i
    ensures Emit(g, i, best) == Tail(g[i..]) + if best.base != -1 && best.base + best.len == |g| then ":" else ""
    decreases |g| - i
  {
    if i < |g| {
      EmitTail(g, i + 1, best);
      assert g[i..][1..] == g[i + 1..];
    }
  }

  /** Before the run. */
  lemma {:induction false} EmitBefore(g: seq<Group>, i: nat, best: Run)
    requires 0 < i <= best.base && best.base + best.len <= |g| && best.len >= 2
    ensures Emit(g, i, best) == Tail(g[i..best.base]) + ":" + Emit(g, best.base + best.len, best)
    decreases best.base - i
  {
    hide Emit, Hex, Tail;
    var rest := Emit(g, best.base + best.len, best);
    if i < best.base {
      EmitStep(g, i, best);
      EmitBefore(g, i + 1, best);
      Longer(":" + Hex(g[i]), Tail(g[i + 1..best.base]), rest);
    } else {
      assert g[i..best.base] == [];
      NothingToJoin();
      EmptyFirst(rest);
      EmitRun(g, best);
    }
  }

  lemma EmptyFirst(x: string)
    ensures "" + ":" + x == ":" + x
  {
  }

  lemma EmitRun(g: seq<Group>, best: Run)
    requires 0 < best.base && best.base + best.len <= |g| && best.len >= 2
    ensures Emit(g, best.base, best) == ":" + Emit(g, best.base + best.len, best)
  {
    hide HexOf, Hex;
  }

  lemma EmitStep(g: seq<Group>, i: nat, best: Run)
    requires 0 < i < best.base <= |g|
    ensures Emit(g, i, best) == ":" + Hex(g[i]) + Emit(g, i + 1, best)
    ensures Tail(g[i..best.base]) == ":" + Hex(g[i]) + Tail(g[i + 1..best.base])
  {
    hide Hex;
    assert g[i..best.base][1..] == g[i + 1..best.base];
  }

  lemma Longer(x: string, y: string, z: string)
    ensures x + (y + ":" + z) == x + y + ":" + z
  {
  }

  /** The text of groups l, a run of zero groups, and groups r */
  function Compressed(l: seq<Group>, r: seq<Group>): string {
    Join(l) + "::" + Join(r)
  }

  lemma Regroup(x: string, y: string)
    ensures x + ":" + (":" + y) == x + "::" + y
  {
  }

  lemma JoinColon(l: seq<Group>)
    ensures l != [] ==> Tail(l) == ":" + Join(l)
  {
    if l != [] { assert ":" + Hex(l[0]) + Tail(l[1..]) == ":" + (Hex(l[0]) + Tail(l[1..])); }
  }

  /** What stands behind the run */
  lemma EmitAfter(g: seq<Group>, best: Run)
    requires 0 <= best.base && best.base + best.len <= |g| && best.len >= 2
    ensures Emit(g, best.base + best.len, best) == ":" + Join(g[best.base + best.len..])
  {
    hide Emit, Hex, Tail, Join;
    var k := best.base + best.len;
    EmitTail(g, k, best);
    JoinColon(g[k..]);
    NothingToJoin();
    if k == |g| {
      assert g[k..] == [];
    } else {
      assert Tail(g[k..]) + "" == Tail(g[k..]);
    }
  }

  lemma NothingToJoin()
    ensures Join([]) == "" && Tail([]) == ""
  {
  }

  lemma JoinStart(g: seq<Group>, k: nat)
    requires 0 < k <= |g|
    ensures Join(g[..k]) == Hex(g[0]) + Tail(g[1..k])
  {
    assert g[..k][1..] == g[1..k];
  }

  lemma EmitStart(g: seq<Group>, best: Run)
    requires |g| > 0
    ensures best.base != 0 ==> Emit(g, 0, best) == Hex(g[0]) + Emit(g, 1, best)
    ensures best.base == 0 && best.len > 0 ==> Emit(g, 0, best) == ":" + Emit(g, best.len, best)
  {
  }

  /** The format loop writes either all groups, or "::" for the chosen run. */
  lemma EmitShape(g: seq<Group>, best: Run)
    requires |g| == 8 && (best.base == -1 || (0 <= best.base && best.base + best.len <= |g| && best.len >= 2))
    ensures Emit(g, 0, best) ==
            if best.base == -1 then Join(g) else Compressed(g[..best.base], g[best.base + best.len..])
  {
    hide Emit, Hex, Tail;
    EmitStart(g, best);
    if best.base == -1 {
      EmitTail(g, 1, best);
    } else {
      EmitAfter(g, best);
      var after := Join(g[best.base + best.len..]);
      if best.base == 0 {
        assert g[..0] == [];
        Regroup("", after);
      } else {
        EmitBefore(g, 1, best);
        JoinStart(g, best.base);
        Regroup(Hex(g[0]) + Tail(g[1..best.base]), after);
        assert Hex(g[0]) + (Tail(g[1..best.base]) + ":" + (":" + after))
            == Hex(g[0]) + Tail(g[1..best.base]) + ":" + (":" + after);
      }
    }
  }

  // ---------- the printed text ----------

  lemma FirstIsDigit(l: seq<Group>)
    requires l != []
    ensures |Join(l)| > 0 && Join(l)[0] != ':'
  {
    hide Tail;
    var v := l[0];
    FirstOfHex(v / 256 / 16, v / 256 % 16, v % 256 / 16, v % 256 % 16);
  }

  lemma FirstOfHex(a: Nibble, b: Nibble, c: Nibble, d: Nibble)
    ensures 0 < |HexOf(a, b, c, d)| <= 4 && HexOf(a, b, c, d)[0] != ':'
  {
    assert forall i :: 0 <= i < 16 ==> HEX_L[i] != ':';
  }

  lemma {:induction false} TailLength(l: seq<Group>)
    ensures |Tail(l)| <= 5 * |l|
  {
    if l != [] {
      TailLength(l[1..]);
      var v := l[0];
      FirstOfHex(v / 256 / 16, v / 256 % 16, v % 256 / 16, v % 256 % 16);
    }
  }

  lemma JoinLength(l: seq<Group>)
    ensures |Join(l)| <= if l == [] then 0 else 5 * |l| - 1
  {
    if l != [] {
      TailLength(l[1..]);
      var v := l[0];
      FirstOfHex(v / 256 / 16, v / 256 % 16, v % 256 / 16, v % 256 % 16);
    }
  }

  lemma BestRun(g: seq<Group>)
    ensures var b := Best(g);
            b.base == -1 || (0 <= b.base && b.base + b.len <= |g| && b.len >= 2 && b.len == RunFrom(g, b.base))
    ensures var b := Best(g);
            b.base != -1 ==> forall k :: b.base <= k < b.base + b.len ==> k < |g| && g[k] == 0
  {
  }

  /** Main result, compression. "::" stands for the first longest run of at least two zero
      groups, and only when there is one. */
  lemma CompressesFirstLongest(a: Address)
    ensures var g := Groups(a); var b := Best(g);
            && |g| == 8
            && (b.base == -1 <==> forall j: nat :: j < 8 ==> RunFrom(g, j) < 2)
            && (b.base != -1 ==>
                  && 0 <= b.base && b.base + b.len <= 8 && b.len == RunFrom(g, b.base)
                  && (forall j: nat :: j < 8 ==> RunFrom(g, j) <= b.len)
                  && (forall j: nat :: j < b.base ==> RunFrom(g, j) < b.len))
            && ToText(a) == if b.base == -1 then Join(g) else Compressed(g[..b.base], g[b.base + b.len..])
  {
    hide Groups, Emit, Join, Compressed;
    var g := Groups(a);
    EightGroups(a);
    BestRun(g);
    EmitShape(g, Best(g));
    var best := Longest(g, 8);
    hide Longest;
    assert RunFrom(g, if best.base == -1 then 0 else best.base) == best.len;
  }

  lemma EightGroups(a: Address)
    ensures |Groups(a)| == 8
  {
  }

  /** Main result, length. The text of an address has at most 39 characters. */
  lemma TextLength(a: Address)
    ensures 2 <= |ToText(a)| <= 39
  {
    var g := Groups(a);
    EightGroups(a);
    BestRun(g);
    var b := Best(g);
    hide Best, Emit, Join;
    EmitShape(g, b);
    if b.base == -1 {
      JoinLength(g);
      JoinNotShort(g);
    } else {
      JoinLength(g[..b.base]);
      JoinLength(g[b.base + b.len..]);
    }
  }

  lemma JoinNotShort(g: seq<Group>)
    requires |g| >= 2
    ensures |Join(g)| >= 2
  {
    FirstIsDigit(g);
  }

  // ---------- what the characters are ----------

  predicate LowerHex(c: char) {
    '0' <= c <= '9' || 'a' <= c <= 'f'
  }

  predicate TextOf(s: string) {
    forall i :: 0 <= i < |s| ==> LowerHex(s[i]) || s[i] == ':'
  }

  /** A group is printed as one to four lower-case digits, the first of them not 0 unless it is alone. */
  lemma HexShape(v: Group)
    ensures 1 <= |Hex(v)| <= 4 && (forall i :: 0 <= i < |Hex(v)| ==> LowerHex(Hex(v)[i]))
    ensures |Hex(v)| > 1 ==> Hex(v)[0] != '0'
  {
    forall i | 0 <= i < 16 ensures LowerHex(HEX_L[i]) && (i > 0 ==> HEX_L[i] != '0') { }
    hide LowerHex;
  }

  lemma {:induction false} EmitText(g: seq<Group>, i: nat, best: Run)
    ensures TextOf(Emit(g, i, best))
    decreases |g| - i
  {
    hide Hex, LowerHex, TextOf;
    if i >= |g| {
      EndsText();
    } else if i == best.base && best.len > 0 {
      EmitText(g, i + best.len, best);
      EndsText();
      TextsJoin(":", Emit(g, i + best.len, best), "");
      assert ":" + Emit(g, i + best.len, best) + "" == ":" + Emit(g, i + best.len, best);
    } else {
      EmitText(g, i + 1, best);
      HexText(g[i]);
      EndsText();
      TextsJoin(if i != 0 then ":" else "", Hex(g[i]), Emit(g, i + 1, best));
    }
  }

  lemma EndsText()
    ensures TextOf("") && TextOf(":")
  {
  }

  lemma HexText(v: Group)
    ensures TextOf(Hex(v))
  {
    HexShape(v);
    hide Hex, LowerHex;
  }

  lemma TextsJoin(x: string, y: string, z: string)
    requires TextOf(x) && TextOf(y) && TextOf(z)
    ensures TextOf(x + y + z)
  {
    hide LowerHex;
  }

  /** Main result, characters. The text of every address holds only lower-case hexadecimal digits and colons. */
  lemma LowerCase(a: Address)
    ensures forall i :: 0 <= i < |ToText(a)| ==> LowerHex(ToText(a)[i]) || ToText(a)[i] == ':'
  {
    EmitText(Groups(a), 0, Best(Groups(a)));
  }
}
