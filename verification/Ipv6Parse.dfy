/** What the IPv6 parser of RIOT accepts: exactly which texts, and which address each of them gives;
    hence the round trip through the printer. */
module Ipv6Parse {
  import opened Ipv6Text
  import opened Options

  lemma {:induction false} ScanJoin(p: Parse, s: string, t: string)
    ensures Scan(p, s + t) == if Scan(p, s).None? then None else Scan(Scan(p, s).value, t)
    decreases |s|
  {
    if s == [] {
      assert s + t == t;
    } else {
      assert (s + t)[0] == s[0] && (s + t)[1..] == s[1..] + t;
      if Feed(p, s[0]).Some? { ScanJoin(Feed(p, s[0]).value, s[1..], t); }
    }
  }

  lemma HexDigit(d: nat)
    requires d < 16
    ensures Digit(HEX_L[d]) == Some(d)
  {
  }

  lemma FeedDigit(p: Parse, d: nat)
    requires d < 16 && p.val < 0x1000
    ensures Feed(p, HEX_L[d]) == Some(p.(val := p.val * 16 + d, saw := true))
  {
    HexDigit(d);
  }

  lemma ScanOne(p: Parse, c: char)
    ensures Scan(p, [c]) == Feed(p, c)
  {
  }

  /** The usual digits of v in base 16 */
  function Digits(v: Group): string {
    if v < 16 then [HEX_L[v]] else Digits(v / 16) + [HEX_L[v % 16]]
  }

  lemma MoreDigits(q: nat, d: nat)
    requires d < 16 && 0 < q && q * 16 + d < 0x1_0000
    ensures Digits(q * 16 + d) == Digits(q) + [HEX_L[d]]
  {
    assert (q * 16 + d) / 16 == q && (q * 16 + d) % 16 == d;
  }

  /** Four nibbles make a group. */
  lemma Nibbles(v: Group, a: nat, b: nat, c: nat, d: nat)
    requires a == v / 256 / 16 && b == v / 256 % 16 && c == v % 256 / 16 && d == v % 256 % 16
    ensures a < 16 && b < 16 && c < 16 && d < 16 && v == ((a * 16 + b) * 16 + c) * 16 + d
  {
  }

  lemma OneDigit(d: Nibble)
    ensures Digits(d) == [HEX_L[d]]
  {
  }

  lemma HexOfDigits(a: Nibble, b: Nibble, c: Nibble, d: Nibble)
    ensures HexOf(a, b, c, d) == Digits(((a * 16 + b) * 16 + c) * 16 + d)
  {
    hide Digits;
    var q2 := a * 16 + b;
    var q1 := q2 * 16 + c;
    if a != 0 {
      OneDigit(a);
      MoreDigits(a, b);
      MoreDigits(q2, c);
      MoreDigits(q1, d);
    } else if b != 0 {
      OneDigit(b);
      MoreDigits(b, c);
      MoreDigits(q1, d);
    } else if c != 0 {
      OneDigit(c);
      MoreDigits(c, d);
    } else {
      OneDigit(d);
    }
  }

  lemma HexDigits(v: Group)
    ensures Hex(v) == Digits(v)
  {
    hide Digits, HexOf;
    Nibbles(v, v / 256 / 16, v / 256 % 16, v % 256 / 16, v % 256 % 16);
    HexOfDigits(v / 256 / 16, v / 256 % 16, v % 256 / 16, v % 256 % 16);
  }

  /** The digits of v make the number v. */
  lemma {:induction false} ScanDigits(p: Parse, v: Group)
    requires p.val == 0
    ensures Scan(p, Digits(v)) == Some(p.(val := v, saw := true))
  {
    hide Scan, Feed;
    if v < 16 {
      ScanOne(p, HEX_L[v]);
      FeedDigit(p, v);
    } else {
      ScanDigits(p, v / 16);
      ScanJoin(p, Digits(v / 16), [HEX_L[v % 16]]);
      ScanOne(p.(val := v / 16, saw := true), HEX_L[v % 16]);
      FeedDigit(p.(val := v / 16, saw := true), v % 16);
    }
  }

  lemma ScanHex(p: Parse, v: Group)
    requires p.val == 0
    ensures Scan(p, Hex(v)) == Some(p.(val := v, saw := true))
  {
    HexDigits(v);
    ScanDigits(p, v);
  }

  // ---------- groups as they may be written ----------

  /** Reading on from v: digits of either case and any number of them, as long as the number fits 16
      bits. */
  function ValueFrom(v: nat, w: string): Option<nat>
    decreases |w|
  {
    if w == "" then Some(v)
    else if Digit(w[0]).None? then None
    else
      var n := ShiftIn(v, Digit(w[0]).value);
      if n > 0xffff then None else ValueFrom(n, w[1..])
  }

  /** A group in a text */
  predicate GroupText(w: string) {
    w != "" && ValueFrom(0, w).Some?
  }

  lemma {:induction false} ValueFits(v: nat, w: string)
    requires v <= 0xffff && ValueFrom(v, w).Some?
    ensures ValueFrom(v, w).value <= 0xffff
    decreases |w|
  {
    if w != "" { ValueFits(ShiftIn(v, Digit(w[0]).value), w[1..]); }
  }

  function Value(w: string): Group
    requires GroupText(w)
  {
    ValueFits(0, w);
    ValueFrom(0, w).value
  }

  ghost predicate GroupTexts(ws: seq<string>) {
    forall i :: 0 <= i < |ws| ==> GroupText(ws[i])
  }

  function Values(ws: seq<string>): (g: seq<Group>)
    requires GroupTexts(ws)
    ensures |g| == |ws|
  {
    if ws == [] then [] else [Value(ws[0])] + Values(ws[1..])
  }

  /** ":a:b:c" */
  function TailOf(ws: seq<string>): string {
    if ws == [] then "" else ":" + ws[0] + TailOf(ws[1..])
  }

  /** "a:b:c" */
  function JoinOf(ws: seq<string>): string {
    if ws == [] then "" else ws[0] + TailOf(ws[1..])
  }

  lemma {:induction false} ScanField(p: Parse, w: string)
    requires p.val <= 0xffff
    ensures (forall i :: 0 <= i < |w| ==> w[i] != ':') ==> (Scan(p, w).Some? <==> ValueFrom(p.val, w).Some?)
    ensures ValueFrom(p.val, w).Some? ==>
              Scan(p, w) == Some(p.(val := ValueFrom(p.val, w).value, saw := p.saw || w != ""))
    decreases |w|
  {
    if w != "" {
      var v := ShiftIn(p.val, if Digit(w[0]).Some? then Digit(w[0]).value else 0);
      if Digit(w[0]).Some? && v <= 0xffff { ScanField(p.(val := v, saw := true), w[1..]); }
    }
  }

  lemma ScanGroup(p: Parse, w: string)
    requires p.val == 0 && GroupText(w)
    ensures Scan(p, w) == Some(p.(val := Value(w), saw := true))
  {
    ScanField(p, w);
  }

  // ---------- what the parser makes of a text by its shape ----------

  /** The bytes written once the number in hand is written too */
  function Flushed(p: Parse): seq<Byte> {
    p.out + [p.val / 256 % 256, p.val % 256]
  }

  predicate InNumber(p: Parse) {
    p.saw && p.val < 0x1_0000
  }

  /** A colon writes the number in hand, and the next group is read. */
  lemma ScanColonGroup(p: Parse, w: string)
    requires InNumber(p) && |p.out| + 2 <= 16 && GroupText(w)
    ensures Scan(p, ":" + w) == Some(Parse(Flushed(p), p.colon, Value(w), true))
  {
    hide Scan, GroupText, Value;
    ScanJoin(p, ":", w);
    ScanOne(p, ':');
    ScanGroup(Parse(Flushed(p), p.colon, 0, false), w);
  }

  lemma ByteTriple(x: seq<Byte>, y: seq<Byte>, z: seq<Byte>)
    ensures x + (y + z) == x + y + z
  {
  }

  lemma FlushGroup(out: seq<Byte>, colon: Option<nat>, l: seq<Group>)
    requires l != []
    ensures Flushed(Parse(out, colon, l[0], true)) + Bytes(l[1..]) == out + Bytes(l)
    ensures |Flushed(Parse(out, colon, l[0], true))| == |out| + 2
  {
    ByteTriple(out, [l[0] / 256, l[0] % 256], Bytes(l[1..]));
    assert l[0] / 256 % 256 == l[0] / 256;
  }

  lemma NoBytes(x: seq<Byte>)
    ensures x + Bytes([]) == x
  {
  }

  /** ":a:b:c" writes the number in hand and all groups but the last, which stays in hand. */
  lemma {:induction false} ScanTail(p: Parse, ws: seq<string>)
    requires InNumber(p) && |p.out| + 2 + 2 * |ws| <= 16 && GroupTexts(ws)
    ensures Scan(p, TailOf(ws)).Some?
    ensures var q := Scan(p, TailOf(ws)).value;
            InNumber(q) && q.colon == p.colon && Flushed(q) == Flushed(p) + Bytes(Values(ws))
    decreases |ws|
  {
    if ws == [] {
      NoBytes(Flushed(p));
    } else {
      hide Scan, TailOf, Bytes, Flushed, GroupText, Value;
      ScanTailStep(p, ws);
      FlushGroup(Flushed(p), p.colon, Values(ws));
      assert Values(ws)[1..] == Values(ws[1..]);
      FlushedLength(p);
      ScanTail(Parse(Flushed(p), p.colon, Value(ws[0]), true), ws[1..]);
    }
  }

  lemma FlushedLength(p: Parse)
    ensures |Flushed(p)| == |p.out| + 2
  {
  }

  lemma ScanTailStep(p: Parse, ws: seq<string>)
    requires InNumber(p) && |p.out| + 2 <= 16 && ws != [] && GroupTexts(ws)
    ensures Scan(p, TailOf(ws)) == Scan(Parse(Flushed(p), p.colon, Value(ws[0]), true), TailOf(ws[1..]))
  {
    hide Scan, GroupText, Value;
    ScanColonGroup(p, ws[0]);
    ScanJoin(p, ":" + ws[0], TailOf(ws[1..]));
  }

  /** "a:b:c" after a fresh start or "::" */
  lemma ScanGroups(p: Parse, ws: seq<string>)
    requires !p.saw && p.val == 0 && ws != [] && |p.out| + 2 * |ws| <= 16 && GroupTexts(ws)
    ensures Scan(p, JoinOf(ws)).Some?
    ensures var q := Scan(p, JoinOf(ws)).value;
            InNumber(q) && q.colon == p.colon && Flushed(q) == p.out + Bytes(Values(ws)) && |q.out| + 2 <= 16
  {
    hide Scan, TailOf, Bytes, Flushed, GroupText, Value;
    ScanGroup(p, ws[0]);
    ScanJoin(p, ws[0], TailOf(ws[1..]));
    FlushGroup(p.out, p.colon, Values(ws));
    assert Values(ws)[1..] == Values(ws[1..]);
    ScanTail(p.(val := Value(ws[0]), saw := true), ws[1..]);
    var q := Scan(p, JoinOf(ws)).value;
    FlushedLength(q);
    BytesLength(Values(ws));
  }

  lemma BytesLength(r: seq<Group>)
    ensures |Bytes(r)| == 2 * |r|
  {
  }

  /** The number in hand is written at the end, or by one more colon. */
  lemma FinishNumber(p: Parse)
    requires InNumber(p) && |p.out| + 2 <= 16
    ensures Finish(p) == Finish(Parse(Flushed(p), p.colon, 0, false))
    ensures Scan(p, ":") == Some(Parse(Flushed(p), p.colon, 0, false))
  {
    ScanOne(p, ':');
    hide Scan;
  }

  lemma FinishColon(out: seq<Byte>, c: nat)
    requires c <= |out| <= 16
    ensures Finish(Parse(out, Some(c), 0, false)) == Some(Shifted(out, c))
  {
  }

  /** One more colon behind the last group, or nothing */
  function Last(tail: bool): string {
    if tail then ":" else ""
  }

  /** Groups, with a colon behind the last one or not, come to the same end. */
  lemma ReadGroups(p: Parse, ws: seq<string>, tail: bool)
    requires !p.saw && p.val == 0 && |p.out| + 2 * |ws| <= 16 && GroupTexts(ws) && (tail ==> ws != [])
    ensures var q := Scan(p, JoinOf(ws) + Last(tail));
            q.Some? && Finish(q.value) == Finish(Parse(p.out + Bytes(Values(ws)), p.colon, 0, false))
  {
    ScanJoin(p, JoinOf(ws), Last(tail));
    if ws == [] {
      NoBytes(p.out);
    } else {
      hide Scan, JoinOf, Finish, Bytes, Flushed, GroupText, Value;
      ScanGroups(p, ws);
      FinishNumber(Scan(p, JoinOf(ws)).value);
      ScanNothing(Scan(p, JoinOf(ws)).value);
    }
  }

  lemma ScanNothing(p: Parse)
    ensures Scan(p, "") == Some(p)
  {
  }

  /** Groups l before "::" */
  lemma ReadLeft(l: seq<string>, rest: string)
    requires l != [] && |l| <= 8 && GroupTexts(l)
    ensures Scan(Start, JoinOf(l) + "::" + rest) == Scan(Parse(Bytes(Values(l)), Some(2 * |l|), 0, false), rest)
  {
    hide Scan, JoinOf, Bytes, Flushed, GroupText, Value;
    ScanGroups(Start, l);
    EmptyBytes(Bytes(Values(l)));
    BytesLength(Values(l));
    var q := Scan(Start, JoinOf(l)).value;
    ScanJoin(Start, JoinOf(l), "::" + rest);
    assert JoinOf(l) + ("::" + rest) == JoinOf(l) + "::" + rest;
    ScanJoin(q, "::", rest);
    TwoColons(q);
  }

  lemma EmptyBytes(x: seq<Byte>)
    ensures [] + x == x
  {
  }

  lemma TwoColons(q: Parse)
    requires InNumber(q) && |q.out| + 2 <= 16 && q.colon == None
    ensures Scan(q, "::") == Some(Parse(Flushed(q), Some(|Flushed(q)|), 0, false))
  {
    hide Scan;
    assert "::" == ":" + ":";
    ScanJoin(q, ":", ":");
    ScanOne(q, ':');
    ScanOne(Parse(Flushed(q), None, 0, false), ':');
  }

  lemma FieldStart(w: string)
    requires GroupText(w)
    ensures w[0] != ':'
  {
  }

  /** The shape of a text: groups l, perhaps "::" and groups r, perhaps one more colon */
  function ShapeText(l: seq<string>, d: bool, r: seq<string>, tail: bool): string {
    JoinOf(l) + (if d then "::" + JoinOf(r) else "") + Last(tail)
  }

  /** Which shapes are accepted. Eight groups without "::", or at most eight with it; a group is any
      number of digits of either case, where a NUL counts as a digit, as long as the number fits 16
      bits; one more colon may stand behind the last group. */
  ghost predicate Accepted(l: seq<string>, d: bool, r: seq<string>, tail: bool) {
    && GroupTexts(l) && GroupTexts(r)
    && (if d then |l| + |r| <= 8 else r == [] && |l| == 8)
    && (tail ==> if d then r != [] else l != [])
  }

  /** The address that is read from such a shape */
  function AddressRead(l: seq<string>, d: bool, r: seq<string>): seq<Byte>
    requires GroupTexts(l) && GroupTexts(r) && |l| + |r| <= 8
  {
    if d then Expanded(Values(l), Values(r)) else Bytes(Values(l))
  }

  /** What the parser makes of groups, "::", and groups */
  function Expanded(l: seq<Group>, r: seq<Group>): seq<Byte>
    requires |l| + |r| <= 8
  {
    Shifted(Bytes(l) + Bytes(r), 2 * |l|)
  }

  lemma ShapeStart(l: seq<string>, d: bool, r: seq<string>, tail: bool)
    requires Accepted(l, d, r, tail)
    ensures var t := ShapeText(l, d, r, tail);
            && (l != [] ==> |t| > 0 && t[0] != ':')
            && (l == [] ==> d && t == "::" + (JoinOf(r) + Last(tail)))
            && (d ==> t == JoinOf(l) + "::" + (JoinOf(r) + Last(tail)))
            && (!d ==> t == JoinOf(l) + Last(tail))
  {
    if l != [] { FieldStart(l[0]); }
    hide GroupText, TailOf;
  }

  lemma ScanShape(l: seq<string>, d: bool, r: seq<string>, tail: bool)
    requires Accepted(l, d, r, tail)
    ensures var t := ShapeText(l, d, r, tail);
            && (if t != "" && t[0] == ':' then |t| > 1 && t[1] == ':' else true) && t != ""
            && var q := Scan(Start, if t[0] == ':' then t[1..] else t);
            q.Some? && Finish(q.value) == Some(AddressRead(l, d, r))
  {
    hide Scan, JoinOf, Finish, Shifted, Bytes, GroupText, Value;
    ShapeStart(l, d, r, tail);
    BytesLength(Values(l));
    BytesLength(Values(r));
    var rest := JoinOf(r) + Last(tail);
    hide ShapeText, Last;
    if !d {
      ReadGroups(Start, l, tail);
      EmptyBytes(Bytes(Values(l)));
      FinishFull(Bytes(Values(l)));
    } else {
      var p := Parse(Bytes(Values(l)), Some(2 * |l|), 0, false);
      ReadGroups(p, r, tail);
      FinishColon(Bytes(Values(l)) + Bytes(Values(r)), 2 * |l|);
      if l == [] { LeadingColons(rest); } else { ReadLeft(l, rest); }
    }
  }

  lemma FinishFull(out: seq<Byte>)
    requires |out| == 16
    ensures Finish(Parse(out, None, 0, false)) == Some(out)
  {
  }

  lemma LeadingColons(rest: string)
    ensures var t := "::" + rest; t[0] == ':' && t[1] == ':'
    ensures Scan(Start, ("::" + rest)[1..]) == Scan(Parse(Bytes([]), Some(0), 0, false), rest)
  {
    hide Scan;
    assert ("::" + rest)[1..] == ":" + rest;
    ScanJoin(Start, ":", rest);
    ScanOne(Start, ':');
  }

  /** An accepted shape of at most 40 characters is parsed, with this address. */
  lemma ReadsShape(l: seq<string>, d: bool, r: seq<string>, tail: bool)
    requires Accepted(l, d, r, tail) && |ShapeText(l, d, r, tail)| <= MAX_STR_LEN
    ensures FromBuf(ShapeText(l, d, r, tail)) == Some(AddressRead(l, d, r))
  {
    hide Scan, Finish, ShapeText, Accepted, AddressRead;
    ShapeBounds(l, d, r, tail);
    ScanShape(l, d, r, tail);
  }

  lemma ShapeBounds(l: seq<string>, d: bool, r: seq<string>, tail: bool)
    requires Accepted(l, d, r, tail)
    ensures GroupTexts(l) && GroupTexts(r) && |l| + |r| <= 8
  {
  }

  // ---------- nothing else is accepted ----------

  /** The part of s before its first colon */
  function FieldLength(s: string): (n: nat)
    ensures n <= |s| && (n < |s| ==> s[n] == ':') && forall i :: 0 <= i < n ==> s[i] != ':'
  {
    if s == "" || s[0] == ':' then 0 else 1 + FieldLength(s[1..])
  }

  /** Bytes written when the number in hand, if any, is counted */
  function Written(p: Parse): nat {
    |p.out| + if p.saw then 2 else 0
  }

  predicate FreshAt(p: Parse) {
    !p.saw && p.val == 0 && |p.out| <= 16
  }

  /** A text that scans, read from a fresh state: it is empty, or a colon follows, or it starts with a
      group that ends it or that a colon ends. */
  lemma FirstField(p: Parse, s: string)
    requires FreshAt(p) && Scan(p, s).Some? && s != "" && s[0] != ':'
    ensures var n := FieldLength(s);
            && 0 < n && GroupText(s[..n])
            && (if n == |s| then s == s[..n] && Scan(p, s) == Some(p.(val := Value(s[..n]), saw := true))
                else
                  var q := Parse(p.out + [Value(s[..n]) / 256 % 256, Value(s[..n]) % 256], p.colon, 0, false);
                  && s == s[..n] + ":" + s[n + 1..]
                  && FreshAt(q) && Scan(p, s) == Scan(q, s[n + 1..]))
  {
    var n := FieldLength(s);
    var w, rest := s[..n], s[n..];
    assert s == w + rest;
    hide Scan, Value, ValueFrom;
    ScanJoin(p, w, rest);
    ScanField(p, w);
    if n < |s| {
      var p1 := p.(val := Value(w), saw := true);
      assert rest == ":" + s[n + 1..];
      ScanJoin(p1, ":", s[n + 1..]);
      ScanOne(p1, ':');
    } else {
      assert s == w;
    }
  }

  /** Joining one more group in front */
  lemma JoinMore(w: string, ws: seq<string>)
    ensures JoinOf([w] + ws) == w + TailOf(ws)
    ensures ws != [] ==> TailOf(ws) == ":" + JoinOf(ws)
    ensures ws == [] ==> TailOf(ws) == ""
  {
    assert ([w] + ws)[1..] == ws;
    if ws != [] { assert ":" + ws[0] + TailOf(ws[1..]) == ":" + (ws[0] + TailOf(ws[1..])); }
  }

  lemma GroupTextsMore(w: string, ws: seq<string>)
    requires GroupText(w) && GroupTexts(ws)
    ensures GroupTexts([w] + ws)
  {
  }

  /** Behind "::" only groups with single colons between them are left, and perhaps one more colon. */
  lemma {:induction false} RightShape(p: Parse, s: string) returns (r: seq<string>, tail: bool)
    requires FreshAt(p) && p.colon.Some? && Scan(p, s).Some?
    ensures GroupTexts(r) && s == JoinOf(r) + Last(tail) && (tail ==> r != [])
    ensures var q := Scan(p, s).value; q.colon == p.colon && Written(q) == |p.out| + 2 * |r|
    decreases |s|
  {
    if s == "" {
      r, tail := [], false;
    } else {
      assert s[0] != ':';
      FirstField(p, s);
      var n := FieldLength(s);
      var w := s[..n];
      hide Scan, GroupText, Value;
      if n == |s| {
        r, tail := [w], false;
        JoinMore(w, []);
      } else {
        var q := Parse(p.out + [Value(w) / 256 % 256, Value(w) % 256], p.colon, 0, false);
        var r', tail' := RightShape(q, s[n + 1..]);
        GroupTextsMore(w, r');
        JoinMore(w, r');
        OneMoreField(w, r', tail');
        r, tail := [w] + r', tail' || r' == [];
      }
    }
  }

  lemma OneMoreField(w: string, ws: seq<string>, tail: bool)
    requires tail ==> ws != []
    ensures w + ":" + (JoinOf(ws) + Last(tail)) == JoinOf([w] + ws) + Last(tail || ws == [])
  {
    JoinMore(w, ws);
    hide JoinOf, TailOf;
    if ws != [] {
      assert w + ":" + (JoinOf(ws) + Last(tail)) == w + (":" + JoinOf(ws)) + Last(tail);
    } else {
      NothingJoined();
      assert w + ":" + ("" + "") == w + "" + ":";
    }
  }

  lemma NothingJoined()
    ensures JoinOf([]) == ""
  {
  }

  /** What the part in front of and behind "::" looks like from a fresh state that has seen none: a
      colon that comes first is the second one of "::" when groups or the start came before it. */
  function PartText(l: seq<string>, d: bool, r: seq<string>, tail: bool): string {
    if d && l == [] then ":" + (JoinOf(r) + Last(tail)) else ShapeText(l, d, r, tail)
  }

  ghost predicate PartOk(l: seq<string>, d: bool, r: seq<string>, tail: bool) {
    GroupTexts(l) && GroupTexts(r) && (!d ==> r == []) && (tail ==> if d then r != [] else l != [])
  }

  lemma OneMorePart(w: string, l: seq<string>, d: bool, r: seq<string>, tail: bool)
    requires tail ==> if d then r != [] else l != []
    ensures w + ":" + PartText(l, d, r, tail) == ShapeText([w] + l, d, r, tail || (l == [] && !d))
  {
    JoinMore(w, l);
    NothingJoined();
    var rest := JoinOf(r) + Last(tail);
    hide JoinOf, TailOf;
    if l != [] {
      assert w + ":" + (JoinOf(l) + (if d then "::" + JoinOf(r) else "") + Last(tail))
          == w + (":" + JoinOf(l)) + (if d then "::" + JoinOf(r) else "") + Last(tail);
    } else if d {
      assert w + ":" + (":" + rest) == w + "" + ("::" + JoinOf(r)) + Last(tail);
    } else {
      assert w + ":" + ("" + "" + "") == w + "" + "" + ":";
    }
  }

  lemma {:induction false} LeftShape(p: Parse, s: string)
    returns (l: seq<string>, d: bool, r: seq<string>, tail: bool)
    requires FreshAt(p) && p.colon == None && Scan(p, s).Some?
    ensures PartOk(l, d, r, tail) && s == PartText(l, d, r, tail)
    ensures var q := Scan(p, s).value;
            && q.colon == (if d then Some(|p.out| + 2 * |l|) else None) && Written(q) == |p.out| + 2 * (|l| + |r|)
    decreases |s|
  {
    hide Scan, GroupText, Value, PartText, ShapeText, JoinOf;
    ShortParts();
    if s == "" {
      ScanNothing(p);
      l, d, r, tail := [], false, [], false;
    } else if s[0] == ':' {
      ColonFirst(p, s);
      l, d := [], true;
      r, tail := RightShape(p.(colon := Some(|p.out|)), s[1..]);
      ColonPart(r, tail);
    } else {
      FirstField(p, s);
      var n := FieldLength(s);
      var w := s[..n];
      if n == |s| {
        l, d, r, tail := [w], false, [], false;
        OneGroupPart(w);
      } else {
        var q := Parse(p.out + [Value(w) / 256 % 256, Value(w) % 256], p.colon, 0, false);
        var l', d', r', tail' := LeftShape(q, s[n + 1..]);
        OneMorePart(w, l', d', r', tail');
        GroupTextsMore(w, l');
        l, d, r, tail := [w] + l', d', r', tail' || (l' == [] && !d');
        NotOnlyColon(l, d, r, tail);
      }
    }
  }

  lemma ShortParts()
    ensures PartText([], false, [], false) == ""
  {
  }

  lemma ColonFirst(p: Parse, s: string)
    requires FreshAt(p) && p.colon == None && s != "" && s[0] == ':'
    ensures Scan(p, s) == Scan(p.(colon := Some(|p.out|)), s[1..]) && s == ":" + s[1..]
  {
  }

  lemma ColonPart(r: seq<string>, tail: bool)
    ensures PartText([], true, r, tail) == ":" + (JoinOf(r) + Last(tail))
  {
  }

  lemma OneGroupPart(w: string)
    ensures PartText([w], false, [], false) == w
  {
    JoinMore(w, []);
    assert w + "" == w && w + "" + "" == w;
  }

  lemma NotOnlyColon(l: seq<string>, d: bool, r: seq<string>, tail: bool)
    requires l != []
    ensures PartText(l, d, r, tail) == ShapeText(l, d, r, tail)
  {
  }

  lemma FinishNeeds(p: Parse)
    requires Finish(p).Some?
    ensures p.colon == None ==> Written(p) == 16
    ensures |p.out| <= 16 ==> Written(p) <= 16
  {
  }

  lemma {:induction false} ScanOutBound(p: Parse, s: string)
    requires |p.out| <= 16 && Scan(p, s).Some?
    ensures |Scan(p, s).value.out| <= 16
    decreases |s|
  {
    if s != "" { ScanOutBound(Feed(p, s[0]).value, s[1..]); }
  }

  /** An accepted text has an accepted shape. */
  lemma HasShape(t: string) returns (l: seq<string>, d: bool, r: seq<string>, tail: bool)
    requires FromBuf(t).Some?
    ensures Accepted(l, d, r, tail) && t == ShapeText(l, d, r, tail)
  {
    hide Scan, Finish, GroupText, GroupTexts, PartText, ShapeText;
    var s := if t[0] == ':' then t[1..] else t;
    l, d, r, tail := LeftShape(Start, s);
    ScanOutBound(Start, s);
    FinishNeeds(Scan(Start, s).value);
    if l != [] { NotOnlyColon(l, d, r, tail); FieldOfPart(l, d, r, tail); }
    ShortParts();
    if t[0] == ':' {
      assert l == [];
      EmptyParts(d, r, tail);
      ColonPart(r, tail);
      AllColons(r, tail);
      assert t == ":" + s;
    } else if l == [] {
      EmptyParts(d, r, tail);
      assert false;
    }
  }

  lemma AllColons(r: seq<string>, tail: bool)
    ensures ":" + (":" + (JoinOf(r) + Last(tail))) == ShapeText([], true, r, tail)
  {
    NothingJoined();
    hide JoinOf;
    assert ":" + (":" + (JoinOf(r) + Last(tail))) == "" + ("::" + JoinOf(r)) + Last(tail);
  }

  lemma EmptyParts(d: bool, r: seq<string>, tail: bool)
    requires PartOk([], d, r, tail)
    ensures if d then PartText([], d, r, tail) != "" && PartText([], d, r, tail)[0] == ':'
            else PartText([], d, r, tail) == ""
  {
  }

  lemma FieldOfPart(l: seq<string>, d: bool, r: seq<string>, tail: bool)
    requires l != [] && GroupTexts(l)
    ensures |ShapeText(l, d, r, tail)| > 0 && ShapeText(l, d, r, tail)[0] != ':'
  {
    FieldStart(l[0]);
    hide GroupText, TailOf;
  }

  /** Main result, exactly what is accepted. A text of 1 to 40 characters is parsed if and only if it
      has an accepted shape, and each of its shapes gives the address that is returned. */
  lemma AcceptsExactly(t: string)
    ensures FromBuf(t).Some? <==>
            |t| <= MAX_STR_LEN && exists l, d, r, tail :: Accepted(l, d, r, tail) && t == ShapeText(l, d, r, tail)
    ensures forall l, d, r, tail ::
              |t| <= MAX_STR_LEN && Accepted(l, d, r, tail) && t == ShapeText(l, d, r, tail) ==>
                GroupTexts(l) && GroupTexts(r) && |l| + |r| <= 8 && FromBuf(t) == Some(AddressRead(l, d, r))
  {
    if FromBuf(t).Some? {
      var l, d, r, tail := HasShape(t);
    }
    hide FromBuf, Accepted, ShapeText, AddressRead;
    forall l, d, r, tail | |t| <= MAX_STR_LEN && Accepted(l, d, r, tail) && t == ShapeText(l, d, r, tail)
      ensures GroupTexts(l) && GroupTexts(r) && |l| + |r| <= 8 && FromBuf(t) == Some(AddressRead(l, d, r))
    {
      ShapeBounds(l, d, r, tail);
      ReadsShape(l, d, r, tail);
    }
  }

  // ---------- groups in the usual notation ----------

  predicate HexChar(c: char) {
    '0' <= c <= '9' || 'a' <= c <= 'f' || 'A' <= c <= 'F'
  }

  function HexValue(c: char): (d: nat)
    requires HexChar(c)
    ensures d < 16
  {
    if c <= '9' then c as nat - '0' as nat
    else if c >= 'a' then c as nat - 'a' as nat + 10
    else c as nat - 'A' as nat + 10
  }

  predicate HexString(w: string) {
    forall i :: 0 <= i < |w| ==> HexChar(w[i])
  }

  /** The number that hexadecimal digits of either case stand for, behind a number v */
  function NumberFrom(v: nat, w: string): nat
    requires HexString(w)
    decreases |w|
  {
    if w == "" then v else NumberFrom(v * 16 + HexValue(w[0]), w[1..])
  }

  lemma {:induction false} NumberGrows(v: nat, w: string)
    requires HexString(w)
    ensures NumberFrom(v, w) >= v
    decreases |w|
  {
    if w != "" { NumberGrows(v * 16 + HexValue(w[0]), w[1..]); }
  }

  /** Without a NUL the parser reads the number, and refuses it exactly when it needs more than 16 bits. */
  lemma {:induction false} ValueIsNumber(v: nat, w: string)
    requires HexString(w) && v <= 0xffff
    ensures ValueFrom(v, w) == if NumberFrom(v, w) <= 0xffff then Some(NumberFrom(v, w)) else None
    decreases |w|
  {
    if w != "" {
      var n := v * 16 + HexValue(w[0]);
      assert ShiftIn(v, Digit(w[0]).value) == n;
      if n <= 0xffff { ValueIsNumber(n, w[1..]); } else { NumberGrows(n, w[1..]); }
    }
  }

  lemma {:induction false} FourDigits(v: nat, w: string)
    requires HexString(w) && |w| <= 4
    ensures |w| == 4 ==> NumberFrom(v, w) < (v + 1) * 0x10000
    ensures |w| == 3 ==> NumberFrom(v, w) < (v + 1) * 0x1000
    ensures |w| == 2 ==> NumberFrom(v, w) < (v + 1) * 0x100
    ensures |w| == 1 ==> NumberFrom(v, w) < (v + 1) * 0x10
    decreases |w|
  {
    if w != "" { FourDigits(v * 16 + HexValue(w[0]), w[1..]); }
  }

  /** A group by section 2.2 of RFC 4291: one to four hexadecimal digits */
  predicate StandardGroup(w: string) {
    1 <= |w| <= 4 && HexString(w)
  }

  /** What a group in a text is, digit by digit: it holds a NUL, or it is a number of at most 16 bits in
      hexadecimal digits of either case. */
  lemma GroupTextMeans(w: string)
    ensures (forall i :: 0 <= i < |w| ==> w[i] != '\0') ==>
              (GroupText(w) <==> w != "" && HexString(w) && NumberFrom(0, w) <= 0xffff)
    ensures GroupText(w) && HexString(w) ==> Value(w) == NumberFrom(0, w)
    ensures StandardGroup(w) ==> GroupText(w)
  {
    if HexString(w) { ValueIsNumber(0, w); }
    if StandardGroup(w) { FourDigits(0, w); }
    if ValueFrom(0, w).Some? { AllDigits(0, w); }
  }

  lemma {:induction false} AllDigits(v: nat, w: string)
    requires ValueFrom(v, w).Some?
    ensures forall i :: 0 <= i < |w| ==> HexChar(w[i]) || w[i] == '\0'
    decreases |w|
  {
    if w != "" {
      AllDigits(ShiftIn(v, Digit(w[0]).value), w[1..]);
      forall i | 0 <= i < |w| ensures HexChar(w[i]) || w[i] == '\0' { if i > 0 { assert w[i] == w[1..][i - 1]; } }
    }
  }

  ghost predicate StandardGroups(ws: seq<string>) {
    forall i :: 0 <= i < |ws| ==> StandardGroup(ws[i])
  }

  /** A text by section 2.2 of RFC 4291: eight groups, or "::" for one group or more */
  ghost predicate StandardShape(l: seq<string>, d: bool, r: seq<string>) {
    StandardGroups(l) && StandardGroups(r) && if d then |l| + |r| < 8 else r == [] && |l| == 8
  }

  /** The four ways in which an accepted text need not be a standard one: a group with a NUL or with
      more than four digits, one more colon at the end, or "::" beside eight groups */
  ghost predicate Exceptional(l: seq<string>, d: bool, r: seq<string>, tail: bool) {
    Accepted(l, d, r, tail) && (!StandardGroups(l + r) || tail || (d && |l| + |r| == 8))
  }

  lemma StandardOrException(l: seq<string>, d: bool, r: seq<string>, tail: bool)
    ensures Accepted(l, d, r, tail) <==> (!tail && StandardShape(l, d, r)) || Exceptional(l, d, r, tail)
  {
    hide GroupText, StandardGroup;
    forall w | StandardGroup(w) ensures GroupText(w) { GroupTextMeans(w); }
    assert StandardGroups(l + r) ==> StandardGroups(l) && StandardGroups(r) by {
      assert (l + r)[..|l|] == l && (l + r)[|l|..] == r;
    }
  }

  /** Main result, standard texts. Every standard text of at most 40 characters is accepted and gives
      the address it stands for, in either case and with or without leading zeros; and an accepted text
      that is not standard is one of the four exceptions. */
  lemma StandardTextsRead(l: seq<string>, d: bool, r: seq<string>)
    requires StandardShape(l, d, r) && |ShapeText(l, d, r, false)| <= MAX_STR_LEN
    ensures GroupTexts(l) && GroupTexts(r) && |l| + |r| <= 8
    ensures FromBuf(ShapeText(l, d, r, false))
            == Some(Bytes(Values(l)) + Zeros(16 - 2 * |l| - 2 * |r|) + Bytes(Values(r)))
  {
    hide ShapeText, Accepted, StandardShape, GroupTexts, Values, Bytes, FromBuf, AddressRead, Zeros, Exceptional;
    StandardAccepted(l, d, r);
    ReadsShape(l, d, r, false);
    StandardAddress(l, d, r);
  }

  lemma StandardAccepted(l: seq<string>, d: bool, r: seq<string>)
    requires StandardShape(l, d, r)
    ensures Accepted(l, d, r, false) && GroupTexts(l) && GroupTexts(r) && |l| + |r| <= 8
  {
    hide GroupTexts, StandardGroups, Exceptional;
    StandardOrException(l, d, r, false);
  }

  lemma StandardAddress(l: seq<string>, d: bool, r: seq<string>)
    requires StandardShape(l, d, r) && GroupTexts(l) && GroupTexts(r)
    ensures AddressRead(l, d, r) == Bytes(Values(l)) + Zeros(16 - 2 * |l| - 2 * |r|) + Bytes(Values(r))
  {
    hide GroupTexts, StandardGroups, Values, Bytes, Zeros, Shifted;
    ReadWithout(Values(l), d, Values(r));
  }

  /** With fewer than eight groups "::" stands for zeros, and eight groups stand for themselves. */
  lemma ReadWithout(x: seq<Group>, d: bool, y: seq<Group>)
    requires if d then |x| + |y| < 8 else y == [] && |x| == 8
    ensures (if d then Expanded(x, y) else Bytes(x)) == Bytes(x) + Zeros(16 - 2 * |x| - 2 * |y|) + Bytes(y)
  {
    BytesLength(x);
    BytesLength(y);
    if d {
      hide Bytes;
      Splice(Bytes(x), Bytes(y), 16 - 2 * |x| - 2 * |y|);
      ByteTriple(Bytes(x), Zeros(16 - 2 * |x| - 2 * |y|), Bytes(y));
    } else {
      assert Bytes(y) == [] && Zeros(0) == [];
      hide Bytes;
      assert Bytes(x) + [] + [] == Bytes(x);
    }
  }

  /** The same for all texts at once: accepted means standard, or one of the four exceptions. */
  lemma AcceptedMeans(t: string)
    ensures FromBuf(t).Some? <==>
            |t| <= MAX_STR_LEN && exists l, d, r, tail ::
              t == ShapeText(l, d, r, tail) && ((!tail && StandardShape(l, d, r)) || Exceptional(l, d, r, tail))
  {
    AcceptsExactly(t);
    hide FromBuf, Accepted, ShapeText, StandardShape, Exceptional;
    if FromBuf(t).Some? {
      var l, d, r, tail :| Accepted(l, d, r, tail) && t == ShapeText(l, d, r, tail);
      StandardOrException(l, d, r, tail);
    }
    if l, d, r, tail :| t == ShapeText(l, d, r, tail)
                        && ((!tail && StandardShape(l, d, r)) || Exceptional(l, d, r, tail)) {
      StandardOrException(l, d, r, tail);
    }
  }

  /** Where the parser goes wrong: "::" beside eight groups is accepted, and the groups behind it are
      lost. It reads an accepted text with "::" right exactly when fewer than eight groups are written
      or those behind "::" are zero. */
  lemma DoubleColonRightWhen(l: seq<string>, r: seq<string>, tail: bool)
    requires Accepted(l, true, r, tail) && |ShapeText(l, true, r, tail)| <= MAX_STR_LEN
    ensures GroupTexts(l) && GroupTexts(r) && |l| + |r| <= 8
    ensures FromBuf(ShapeText(l, true, r, tail))
            == Some(Bytes(Values(l)) + Zeros(16 - 2 * |l| - 2 * |r|) + Bytes(Values(r)))
            <==> |l| + |r| < 8 || forall i :: 0 <= i < |r| ==> Values(r)[i] == 0
  {
    hide ShapeText, Accepted, GroupTexts, Values, Bytes, FromBuf, Zeros, Expanded;
    ShapeBounds(l, true, r, tail);
    ReadsShape(l, true, r, tail);
    ExpandedRightWhen(Values(l), Values(r));
  }

  lemma ExpandedRightWhen(x: seq<Group>, y: seq<Group>)
    requires |x| + |y| <= 8
    ensures Expanded(x, y) == Bytes(x) + Zeros(16 - 2 * |x| - 2 * |y|) + Bytes(y)
            <==> |x| + |y| < 8 || forall i :: 0 <= i < |y| ==> y[i] == 0
  {
    hide *;
    if |x| + |y| < 8 {
      ReadWithout(x, true, y);
    } else {
      assert 16 - 2 * |x| - 2 * |y| == 0;
      LostGroups(x, y);
    }
  }

  // ---------- one text for each exception ----------

  lemma OneMore(w: string, ws: seq<string>, longer: seq<string>)
    requires longer == [w] + ws
    ensures TailOf(longer) == ":" + w + TailOf(ws) && JoinOf(longer) == w + TailOf(ws)
  {
    assert longer[1..] == ws;
  }

  lemma FourTails(a: string, b: string, c: string, d: string, ws: seq<string>)
    ensures TailOf([a, b, c, d] + ws) == ":" + a + (":" + b + (":" + c + (":" + d + TailOf(ws))))
    ensures JoinOf([a, b, c, d] + ws) == a + (":" + b + (":" + c + (":" + d + TailOf(ws))))
  {
    hide TailOf, JoinOf;
    OneMore(d, ws, [d] + ws);
    OneMore(c, [d] + ws, [c, d] + ws);
    OneMore(b, [c, d] + ws, [b, c, d] + ws);
    OneMore(a, [b, c, d] + ws, [a, b, c, d] + ws);
  }

  lemma OneToEightText()
    ensures JoinOf(["1", "2", "3", "4", "5", "6", "7", "8"]) == "1:2:3:4:5:6:7:8"
  {
    FourTails("5", "6", "7", "8", []);
    FourTails("1", "2", "3", "4", ["5", "6", "7", "8"]);
    assert TailOf([]) == "";
    hide TailOf, JoinOf;
    assert ["5", "6", "7", "8"] + [] == ["5", "6", "7", "8"];
    assert ["1", "2", "3", "4"] + ["5", "6", "7", "8"] == ["1", "2", "3", "4", "5", "6", "7", "8"];
    var right := ":" + "5" + (":" + "6" + (":" + "7" + (":" + "8" + "")));
    assert right == ":5:6:7:8";
    assert "1" + (":" + "2" + (":" + "3" + (":" + "4" + ":5:6:7:8"))) == "1:2:3:4:5:6:7:8";
  }

  lemma DecimalGroup(c: char)
    requires '0' <= c <= '9'
    ensures GroupText([c]) && Value([c]) == c as nat - '0' as nat
  {
    assert [c][1..] == "";
    ValueIsNumber(0, [c]);
  }

  lemma {:induction false} ValuesAre(ws: seq<string>, g: seq<Group>)
    requires |g| == |ws| && GroupTexts(ws) && forall i :: 0 <= i < |ws| ==> Value(ws[i]) == g[i]
    ensures Values(ws) == g
  {
    hide GroupText, Value;
    if ws != [] { ValuesAre(ws[1..], g[1..]); }
  }

  /** One more colon behind eight groups is accepted. */
  lemma TrailingColonAccepted()
    ensures FromBuf("1:2:3:4:5:6:7:8:") == Some(Bytes([1, 2, 3, 4, 5, 6, 7, 8]))
  {
    var ws := ["1", "2", "3", "4", "5", "6", "7", "8"];
    OneToEightText();
    hide GroupText, Value, JoinOf, TailOf, FromBuf;
    forall i | 0 <= i < 8 ensures GroupText(ws[i]) && Value(ws[i]) == i + 1 {
      DecimalGroup(ws[i][0]);
      assert ws[i] == [ws[i][0]];
    }
    ValuesAre(ws, [1, 2, 3, 4, 5, 6, 7, 8]);
    hide Values;
    assert GroupTexts([]);
    assert "1:2:3:4:5:6:7:8" + "" + ":" == "1:2:3:4:5:6:7:8:";
    ReadsShape(ws, false, [], true);
  }

  /** A NUL behind "::1" counts as a digit: the last group becomes 0x10. */
  lemma NulAccepted()
    ensures FromBuf("::1\0") == Some(Zeros(14) + [0, 0x10])
  {
    var ws := ["1\0"];
    NulDigit();
    hide GroupText, Value, FromBuf;
    ValuesAre(ws, [16]);
    assert GroupTexts([]) && Values([]) == [];
    assert ws[1..] == [] && "1\0" + "" == "1\0";
    assert "" + ("::" + "1\0") + "" == "::1\0";
    hide Values;
    ReadsShape([], true, ws, false);
    SixteenAlone();
  }

  lemma NulDigit()
    ensures GroupText("1\0") && Value("1\0") == 16
  {
    assert "1\0"[1..] == "\0" && "\0"[1..] == "";
    assert ValueFrom(16, "") == Some(16) && ValueFrom(1, "\0") == Some(16) && ValueFrom(0, "1\0") == Some(16);
  }

  lemma SixteenAlone()
    ensures Expanded([], [16]) == Zeros(14) + [0, 0x10]
  {
    SixteenBytes();
    hide Bytes, Zeros, Expanded;
    ReadWithout([], true, [16]);
    NothingBefore(Zeros(14), [0, 0x10]);
  }

  lemma SixteenBytes()
    ensures Bytes([16]) == [0, 0x10] && Bytes([]) == []
  {
    assert [16][1..] == [];
  }

  lemma NothingBefore(x: seq<Byte>, y: seq<Byte>)
    ensures [] + x + y == x + y
  {
  }

  lemma OneToSevenText()
    ensures JoinOf(["1", "2", "3", "4", "5", "6", "7"]) == "1:2:3:4:5:6:7"
  {
    OneMore("7", [], ["7"]);
    OneMore("6", ["7"], ["6", "7"]);
    OneMore("5", ["6", "7"], ["5", "6", "7"]);
    FourTails("1", "2", "3", "4", ["5", "6", "7"]);
    assert TailOf([]) == "";
    hide TailOf, JoinOf;
    assert ["1", "2", "3", "4"] + ["5", "6", "7"] == ["1", "2", "3", "4", "5", "6", "7"];
    assert ":" + "5" + (":" + "6" + (":" + "7" + "")) == ":5:6:7";
    assert "1" + (":" + "2" + (":" + "3" + (":" + "4" + ":5:6:7"))) == "1:2:3:4:5:6:7";
  }

  lemma OneToSeven()
    ensures var ws := ["1", "2", "3", "4", "5", "6", "7"]; GroupTexts(ws) && Values(ws) == [1, 2, 3, 4, 5, 6, 7]
  {
    hide GroupText, Value, Values;
    var ws := ["1", "2", "3", "4", "5", "6", "7"];
    var g: seq<Group> := [1, 2, 3, 4, 5, 6, 7];
    forall i | 0 <= i < 7 ensures GroupText(ws[i]) && Value(ws[i]) == g[i] {
      DecimalGroup(ws[i][0]);
      assert ws[i] == [ws[i][0]];
    }
    ValuesAre(ws, g);
  }

  lemma JustEight()
    ensures GroupTexts(["8"]) && Values(["8"]) == [8] && JoinOf(["8"]) == "8"
  {
    DecimalGroup('8');
    assert ["8"][1..] == [] && TailOf([]) == "";
    hide GroupText, Value;
  }

  /** The group behind "::" is lost beside seven others: the address ends in 0, not in 8. */
  lemma LastGroupLost()
    ensures FromBuf("1:2:3:4:5:6:7::8") == Some(Bytes([1, 2, 3, 4, 5, 6, 7]) + [0, 0])
  {
    hide GroupText, Value, Values, JoinOf, TailOf, FromBuf, Expanded, Bytes;
    OneToSevenText();
    OneToSeven();
    JustEight();
    assert "1:2:3:4:5:6:7" + ("::" + "8") + "" == "1:2:3:4:5:6:7::8";
    ReadsShape(["1", "2", "3", "4", "5", "6", "7"], true, ["8"], false);
    LostGroups([1, 2, 3, 4, 5, 6, 7], [8]);
    assert Zeros(2) == [0, 0];
  }

  /** A group of five digits is accepted. */
  lemma LongGroupAccepted()
    ensures FromBuf("::00001") == Some(Zeros(14) + [0, 1])
  {
    var ws := ["00001"];
    FiveDigits();
    OneMore("00001", [], ws);
    assert TailOf([]) == "" && JoinOf([]) == "";
    hide GroupText, Value, FromBuf, JoinOf, TailOf;
    ValuesAre(ws, [1]);
    assert GroupTexts([]) && Values([]) == [];
    hide Values;
    assert "" + ("::" + ("00001" + "")) + "" == "::00001";
    ReadsShape([], true, ws, false);
    OneAlone();
  }

  lemma FiveDigits()
    ensures GroupText("00001") && Value("00001") == 1
  {
    assert "00001"[1..] == "0001" && "0001"[1..] == "001" && "001"[1..] == "01" && "01"[1..] == "1" && "1"[1..] == "";
    assert ValueFrom(1, "") == Some(1) && ValueFrom(0, "1") == Some(1) && ValueFrom(0, "01") == Some(1);
    assert ValueFrom(0, "001") == Some(1) && ValueFrom(0, "0001") == Some(1);
  }

  lemma OneAlone()
    ensures Expanded([], [1]) == Zeros(14) + [0, 1]
  {
    assert [1][1..] == [];
    assert Bytes([1]) == [0, 1] && Bytes([]) == [];
    hide Bytes, Zeros, Expanded;
    ReadWithout([], true, [1]);
    NothingBefore(Zeros(14), [0, 1]);
  }

  // ---------- the printed text is read back ----------

  function Texts(l: seq<Group>): (ws: seq<string>)
    ensures |ws| == |l|
  {
    if l == [] then [] else [Hex(l[0])] + Texts(l[1..])
  }

  lemma HexIsGroup(v: Group)
    ensures GroupText(Hex(v)) && Value(Hex(v)) == v
  {
    ScanHex(Start, v);
    ScanField(Start, Hex(v));
    FirstOfHex(v / 256 / 16, v / 256 % 16, v % 256 / 16, v % 256 % 16);
    HexHasNoColon(v);
  }

  /** The digits printed for a group stand for its value in base 16. */
  lemma HexMeans(v: Group)
    ensures HexString(Hex(v)) && NumberFrom(0, Hex(v)) == v
  {
    HexShape(v);
    HexIsGroup(v);
    GroupTextMeans(Hex(v));
    hide Hex, GroupText;
    assert HexString(Hex(v));
  }

  lemma HexHasNoColon(v: Group)
    ensures forall i :: 0 <= i < |Hex(v)| ==> Hex(v)[i] != ':'
  {
    assert forall i :: 0 <= i < 16 ==> HEX_L[i] != ':';
  }

  lemma {:induction false} TextsRead(l: seq<Group>)
    ensures GroupTexts(Texts(l)) && Values(Texts(l)) == l
    ensures TailOf(Texts(l)) == Tail(l) && JoinOf(Texts(l)) == Join(l)
  {
    if l != [] {
      hide Hex, GroupText, Value;
      TextsRead(l[1..]);
      HexIsGroup(l[0]);
      assert Texts(l)[1..] == Texts(l[1..]);
      hide Texts;
    }
  }

  lemma ParseCompressed(l: seq<Group>, r: seq<Group>)
    requires |l| + |r| <= 8 && |Compressed(l, r)| <= MAX_STR_LEN
    ensures FromBuf(Compressed(l, r)) == Some(Expanded(l, r))
  {
    TextsRead(l);
    TextsRead(r);
    hide Texts, GroupText, Values, JoinOf, Join, FromBuf, Expanded;
    assert Join(l) + ("::" + Join(r)) + "" == Join(l) + "::" + Join(r);
    ReadsShape(Texts(l), true, Texts(r), false);
  }

  lemma ParseFull(g: seq<Group>)
    requires |g| == 8 && |Join(g)| <= MAX_STR_LEN
    ensures FromBuf(Join(g)) == Some(Bytes(g))
  {
    TextsRead(g);
    hide Texts, GroupText, Values, JoinOf, Join, FromBuf, Bytes;
    assert Join(g) + "" + "" == Join(g);
    assert GroupTexts([]);
    ReadsShape(Texts(g), false, [], false);
  }

  lemma {:induction false} ZeroBytes(g: seq<Group>)
    requires forall i :: 0 <= i < |g| ==> g[i] == 0
    ensures Bytes(g) == Zeros(2 * |g|)
  {
    if g != [] {
      ZeroBytes(g[1..]);
      assert Zeros(2 * |g|) == [0, 0] + Zeros(2 * |g| - 2);
    }
  }

  /** The groups around the chosen run and the run itself make the address. */
  lemma ExpandedRun(g: seq<Group>, best: Run)
    requires |g| == 8 && 0 <= best.base && 2 <= best.len && best.base + best.len <= 8
    requires forall k :: best.base <= k < best.base + best.len ==> g[k] == 0
    ensures |g[..best.base]| + |g[best.base + best.len..]| < 8
    ensures Expanded(g[..best.base], g[best.base + best.len..]) == Bytes(g)
  {
    var l, z, r := g[..best.base], g[best.base..best.base + best.len], g[best.base + best.len..];
    hide Bytes, Zeros, Expanded;
    ThreeParts(g, best.base, best.base + best.len);
    forall i | 0 <= i < |z| ensures z[i] == 0 { assert z[i] == g[best.base + i]; }
    AroundZeros(l, z, r);
  }

  lemma AroundZeros(l: seq<Group>, z: seq<Group>, r: seq<Group>)
    requires |l| + |z| + |r| == 8 && z != [] && forall i :: 0 <= i < |z| ==> z[i] == 0
    ensures Expanded(l, r) == Bytes(l + (z + r))
  {
    ZeroBytes(z);
    hide Bytes, Zeros, Expanded;
    BytesJoin(l, z + r);
    BytesJoin(z, r);
    ReadWithout(l, true, r);
    assert 16 - 2 * |l| - 2 * |r| == 2 * |z|;
    ByteTriple(Bytes(l), Zeros(2 * |z|), Bytes(r));
  }

  lemma ThreeParts(g: seq<Group>, i: nat, j: nat)
    requires i <= j <= |g|
    ensures g == g[..i] + (g[i..j] + g[j..])
  {
  }

  lemma Splice(x: seq<Byte>, y: seq<Byte>, n: nat)
    requires |x| + n + |y| == 16 && n > 0
    ensures Shifted(x + y, |x|) == x + (Zeros(n) + y)
  {
    assert (x + y)[..|x|] == x && (x + y)[|x|..] == y;
  }

  /** Main result, round trip. Parsing the printed text of any address gives it back. */
  lemma RoundTrip(a: Address)
    ensures FromBuf(ToText(a)) == Some(a)
  {
    var g := Groups(a);
    EightGroups(a);
    BestRun(g);
    BytesOfGroups(a);
    TextLength(a);
    var b := Best(g);
    hide Best, Emit, Join, FromBuf, Expanded, Bytes, Compressed;
    EmitShape(g, b);
    if b.base == -1 {
      ParseFull(g);
    } else {
      ParseCompressed(g[..b.base], g[b.base + b.len..]);
      ExpandedRun(g, b);
    }
  }

  /** Different addresses have different texts. */
  lemma TextsDiffer(a: Address, b: Address)
    requires ToText(a) == ToText(b)
    ensures a == b
  {
    RoundTrip(a);
    RoundTrip(b);
  }

  lemma LostGroups(l: seq<Group>, r: seq<Group>)
    requires |l| + |r| == 8
    ensures Expanded(l, r) == Bytes(l) + Zeros(2 * |r|)
    ensures Expanded(l, r) == Bytes(l) + Zeros(0) + Bytes(r) <==> forall i :: 0 <= i < |r| ==> r[i] == 0
  {
    BytesLength(l);
    BytesLength(r);
    LostBytes(Bytes(l), Bytes(r));
    hide Bytes, Zeros, Expanded, Shifted;
    if Bytes(r) == Zeros(2 * |r|) { BytesZero(r); }
    if forall i :: 0 <= i < |r| ==> r[i] == 0 { ZeroBytes(r); }
    assert Expanded(l, r) == Shifted(Bytes(l) + Bytes(r), 2 * |l|) by { ExpandedIs(l, r); }
  }

  lemma ExpandedIs(l: seq<Group>, r: seq<Group>)
    requires |l| + |r| <= 8
    ensures Expanded(l, r) == Shifted(Bytes(l) + Bytes(r), 2 * |l|)
  {
  }

  lemma LostBytes(x: seq<Byte>, y: seq<Byte>)
    requires |x| + |y| == 16
    ensures Shifted(x + y, |x|) == x + Zeros(|y|)
    ensures x + Zeros(|y|) == x + Zeros(0) + y <==> y == Zeros(|y|)
  {
    hide Zeros;
    assert (x + y)[..|x|] == x;
    assert |Zeros(0)| == 0 && |Zeros(|y|)| == |y| by { ZerosLength(0); ZerosLength(|y|); }
    assert x + Zeros(0) + y == x + y;
    assert (x + Zeros(|y|))[|x|..] == Zeros(|y|) && (x + y)[|x|..] == y;
  }

  lemma ZerosLength(n: nat)
    ensures |Zeros(n)| == n
  {
  }

  lemma {:induction false} BytesZero(g: seq<Group>)
    requires Bytes(g) == Zeros(2 * |g|)
    ensures forall i :: 0 <= i < |g| ==> g[i] == 0
  {
    if g != [] {
      assert Bytes(g)[..2] == [0, 0];
      assert Bytes(g)[2..] == Bytes(g[1..]);
      assert Zeros(2 * |g|)[2..] == Zeros(2 * |g| - 2);
      assert g[0] / 256 == 0 && g[0] % 256 == 0;
      BytesZero(g[1..]);
      forall i | 0 <= i < |g| ensures g[i] == 0 { if i > 0 { assert g[i] == g[1..][i - 1]; } }
    }
  }
}
