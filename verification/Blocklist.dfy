/**
 The list of addresses and networks a server refuses. An address is its bits, 32 of them for IPv4 and 128
 for IPv6; a text is what netip reads in it. Networks are compared by the addresses they cover.
 */
module Blocklist {
  import opened Options

  const MAX_ENTRIES := 2000

  type Bits = seq<bool>

  /** netip.Prefix: the network of the first `bits` bits of `addr`. */
  datatype Prefix = Prefix(addr: Bits, bits: nat)

  /** What netip makes of an entry: nothing, an address, or an address and a length. */
  datatype Text = Unreadable | Address(addr: Bits, zone: string) | Cidr(addr: Bits, bits: nat)

  datatype Problem =
    | NotAddress | TooWide | Special | TooMany
    | SameAs(line: nat) | CoveredBy(net: Prefix) | Covering(net: Prefix, line: nat)

  datatype Parsed = Ok(p: Prefix) | Err(problem: Problem)

  predicate IsAddress(a: Bits) {
    |a| == 32 || |a| == 128
  }

  /** netip hands out whole addresses and lengths within them. */
  predicate Readable(t: Text) {
    match t
    case Unreadable => true
    case Address(a, zone) => IsAddress(a) && (zone != "" ==> |a| == 128)
    case Cidr(a, n) => IsAddress(a) && n <= |a|
  }

  predicate ValidPrefix(p: Prefix) {
    IsAddress(p.addr) && p.bits <= |p.addr|
  }

  function Repeat(b: bool, n: nat): (s: Bits)
    ensures |s| == n && forall i :: 0 <= i < n ==> s[i] == b
  {
    seq(n, _ => b)
  }

  // ::ffff:0:0/96, the IPv4-mapped addresses.
  const MAPPED: Bits := Repeat(false, 80) + Repeat(true, 16)
  // 127/8, 224/4 and 169.254/16.
  const LOOPBACK4: Bits := [false] + Repeat(true, 7)
  const MULTICAST4: Bits := [true, true, true, false]
  const LINK_LOCAL4: Bits := [true, false, true, false, true, false, false, true] + Repeat(true, 7) + [false]
  // ::1, ff00::/8 and fe80::/10.
  const LOOPBACK6: Bits := Repeat(false, 127) + [true]
  const MULTICAST6: Bits := Repeat(true, 8)
  const LINK_LOCAL6: Bits := Repeat(true, 7) + [false, true, false]

  predicate Is4In6(a: Bits) {
    |a| == 128 && MAPPED <= a
  }

  predicate IsSpecial(a: Bits) {
    || a == Repeat(false, |a|)
    || (|a| == 32 && (LOOPBACK4 <= a || MULTICAST4 <= a || LINK_LOCAL4 <= a))
    || (|a| == 128 && (a == LOOPBACK6 || MULTICAST6 <= a || LINK_LOCAL6 <= a))
  }

  function Masked(p: Prefix): Prefix
    requires ValidPrefix(p)
  {
    Prefix(p.addr[..p.bits] + Repeat(false, |p.addr| - p.bits), p.bits)
  }

  function Unmapped(p: Prefix): Prefix {
    if Is4In6(p.addr) && p.bits >= 96 then Prefix(p.addr[96..], p.bits - 96) else p
  }

  function Read(t: Text): Option<Prefix> {
    match t
    case Unreadable => None
    case Address(a, zone) => if zone != "" then None else Some(Prefix(a, |a|))
    case Cidr(a, n) => Some(Prefix(a, n))
  }

  function Parse(t: Text): (r: Parsed)
    requires Readable(t)
  {
    match Read(t)
    case None => Err(NotAddress)
    case Some(raw) =>
      var p := Masked(Unmapped(raw));
      if (|p.addr| == 32 && p.bits < 8) || (|p.addr| == 128 && p.bits < 16) then Err(TooWide)
      else if IsSpecial(p.addr) then Err(Special)
      else Ok(p)
  }

  function Format(p: Prefix): Text {
    if p.bits == |p.addr| then Address(p.addr, "") else Cidr(p.addr, p.bits)
  }

  // ---- what a network covers ---------------------------------------------------------------

  ghost predicate Covers(p: Prefix, x: Bits) {
    && p.bits <= |p.addr| && |x| == |p.addr|
    && forall i :: 0 <= i < p.bits ==> x[i] == p.addr[i]
  }

  /**
   The network an entry names: the addresses of the length of `a` that agree with it on the first `n` bits. An
   IPv4-mapped address or a network of them names the IPv4 network it maps.
   */
  ghost predicate Names(t: Text, a: Bits, n: nat) {
    match t
    case Unreadable => false
    case Address(b, zone) => zone == "" && NamesNet(b, |b|, a, n)
    case Cidr(b, m) => NamesNet(b, m, a, n)
  }

  ghost predicate NamesNet(b: Bits, m: nat, a: Bits, n: nat) {
    if |b| == 128 && m >= 96 && (forall i :: 0 <= i < 80 ==> !b[i]) && (forall i :: 80 <= i < 96 ==> b[i])
    then a == b[96..] && n == m - 96
    else a == b && n == m
  }

  /** The addresses an entry stands for. */
  ghost predicate StandsFor(t: Text, x: Bits) {
    exists a, n: nat :: Names(t, a, n) && AgreeOn(x, a, n)
  }

  ghost predicate AgreeOn(x: Bits, a: Bits, n: nat) {
    |x| == |a| && n <= |a| && forall i :: 0 <= i < n ==> x[i] == a[i]
  }

  function Weight(b: bool, w: nat): nat {
    if b then w else 0
  }

  /** The number the bits from `k` to `k + 8` are. */
  function Byte(a: Bits, k: nat): nat
    requires k + 8 <= |a|
  {
    Weight(a[k], 128) + Weight(a[k + 1], 64) + Weight(a[k + 2], 32) + Weight(a[k + 3], 16)
    + Weight(a[k + 4], 8) + Weight(a[k + 5], 4) + Weight(a[k + 6], 2) + Weight(a[k + 7], 1)
  }

  /** Not the address of a public host: unspecified, 127/8, 224/4, 169.254/16, ::1, ff00::/8 or fe80::/10. */
  ghost predicate NotPublic(f: Bits)
    requires IsAddress(f)
  {
    || (forall i :: 0 <= i < |f| ==> !f[i])
    || (|f| == 32 && (Byte(f, 0) == 127 || 224 <= Byte(f, 0) < 240 || (Byte(f, 0) == 169 && Byte(f, 8) == 254)))
    || (|f| == 128 && (Byte(f, 0) == 255 || (Byte(f, 0) == 254 && 128 <= Byte(f, 8) < 192)))
    || (|f| == 128 && f[127] && forall i :: 0 <= i < 127 ==> !f[i])
  }

  /** The first address of the network. */
  ghost predicate IsFirst(f: Bits, a: Bits, n: nat) {
    |f| == |a| && forall i :: 0 <= i < |a| ==> f[i] == (i < n && a[i])
  }

  /** A network of too many addresses to be blocked at once. */
  ghost predicate Wide(a: Bits, n: nat) {
    n < if |a| == 32 then 8 else 16
  }

  ghost predicate Disjoint(p: Prefix, q: Prefix) {
    forall x :: !(Covers(p, x) && Covers(q, x))
  }

  ghost predicate SameAddresses(p: Prefix, q: Prefix) {
    forall x :: Covers(p, x) <==> Covers(q, x)
  }

  ghost predicate Within(p: Prefix, q: Prefix) {
    forall x :: Covers(p, x) ==> Covers(q, x)
  }

  /** netip's Overlaps: the two agree on the bits of the shorter one. */
  predicate Overlaps(p: Prefix, q: Prefix)
    requires ValidPrefix(p) && ValidPrefix(q)
  {
    p == q || (|p.addr| == |q.addr| && var m := if p.bits < q.bits then p.bits else q.bits; p.addr[..m] == q.addr[..m])
  }

  lemma OverlapsIff(p: Prefix, q: Prefix)
    requires ValidPrefix(p) && ValidPrefix(q)
    ensures Overlaps(p, q) <==> !Disjoint(p, q)
    ensures Overlaps(p, q) && p.bits <= q.bits ==> Within(q, p)
  {
    var m := if p.bits < q.bits then p.bits else q.bits;
    forall x | Covers(p, x) && Covers(q, x)
      ensures Overlaps(p, q)
    {
      assert p.addr[..m] == x[..m] == q.addr[..m];
    }
    if Overlaps(p, q) {
      assert forall i :: 0 <= i < m ==> p.addr[..m][i] == q.addr[..m][i];
      var x := if p.bits < q.bits then q.addr else p.addr;
      assert Covers(p, x) && Covers(q, x);
    }
  }

  predicate IsMasked(p: Prefix) {
    ValidPrefix(p) && forall i :: p.bits <= i < |p.addr| ==> !p.addr[i]
  }

  lemma LongerDiffers(p: Prefix, q: Prefix)
    requires ValidPrefix(p) && ValidPrefix(q) && p.bits < q.bits
    ensures !SameAddresses(p, q)
  {
    var x := if Covers(p, q.addr) then q.addr[p.bits := !q.addr[p.bits]] else q.addr;
    assert Covers(p, x) != Covers(q, x);
  }

  /** A masked prefix is the only one for its addresses. */
  lemma SameIff(p: Prefix, q: Prefix)
    requires IsMasked(p) && IsMasked(q)
    ensures SameAddresses(p, q) <==> p == q
  {
    if p.bits < q.bits {
      LongerDiffers(p, q);
    } else if q.bits < p.bits {
      LongerDiffers(q, p);
    } else if SameAddresses(p, q) {
      assert Covers(p, p.addr);
      assert p.addr == q.addr;
    }
  }

  // ---- one entry ---------------------------------------------------------------------------

  lemma NotMapped(a: Bits)
    requires |a| != 128 || !a[95] || a[..96] != MAPPED
    ensures !Is4In6(a)
  {
    assert |MAPPED| == 96 && MAPPED[95];
    assert MAPPED <= a ==> a[95] == MAPPED[95] && a[..96] == MAPPED;
  }

  lemma MappedIff(b: Bits)
    requires |b| == 128
    ensures Is4In6(b) <==> (forall i :: 0 <= i < 80 ==> !b[i]) && (forall i :: 80 <= i < 96 ==> b[i])
  {
    assert forall i :: 0 <= i < 96 ==> MAPPED[i] == (i >= 80);
    if (forall i :: 0 <= i < 80 ==> !b[i]) && (forall i :: 80 <= i < 96 ==> b[i]) {
      assert b[..96] == MAPPED;
    }
    if Is4In6(b) {
      assert forall i :: 0 <= i < 96 ==> b[i] == MAPPED[i];
    }
  }

  /** The network that is read in an entry is the one it names. */
  lemma ReadNames(t: Text, a: Bits, n: nat)
    requires Readable(t)
    ensures Names(t, a, n) <==> Read(t).Some? && Unmapped(Read(t).value) == Prefix(a, n)
  {
    if Read(t).Some? && |Read(t).value.addr| == 128 {
      MappedIff(Read(t).value.addr);
    }
  }

  lemma SpecialIff4(f: Bits)
    requires |f| == 32
    ensures IsSpecial(f) <==> NotPublic(f)
  {
    assert LOOPBACK4 <= f <==> Byte(f, 0) == 127;
    assert MULTICAST4 <= f <==> 224 <= Byte(f, 0) < 240;
    assert LINK_LOCAL4 <= f <==> Byte(f, 0) == 169 && Byte(f, 8) == 254;
  }

  lemma SpecialIff6(f: Bits)
    requires |f| == 128
    ensures IsSpecial(f) <==> NotPublic(f)
  {
    assert MULTICAST6 <= f <==> Byte(f, 0) == 255;
    assert LINK_LOCAL6 <= f <==> Byte(f, 0) == 254 && 128 <= Byte(f, 8) < 192;
    assert forall i :: 0 <= i < 128 ==> LOOPBACK6[i] == (i == 127);
    if f[127] && forall i :: 0 <= i < 127 ==> !f[i] {
      assert f == LOOPBACK6;
    }
  }

  lemma SpecialIff(f: Bits)
    requires IsAddress(f)
    ensures IsSpecial(f) <==> NotPublic(f)
  {
    if |f| == 32 {
      SpecialIff4(f);
    } else {
      SpecialIff6(f);
    }
  }

  /** What becomes of an entry that names a network: it is refused if that is wide or its first address not public. */
  lemma ParseIs(t: Text, a: Bits, n: nat, f: Bits)
    requires Readable(t) && Names(t, a, n) && IsFirst(f, a, n)
    ensures IsAddress(a) && n <= |a|
    ensures Parse(t) == if Wide(a, n) then Err(TooWide) else if NotPublic(f) then Err(Special) else Ok(Prefix(f, n))
  {
    hide IsSpecial, NotPublic, Is4In6, Names;
    ReadNames(t, a, n);
    SpecialIff(f);
    assert Masked(Prefix(a, n)).addr == f;
  }

  /** An entry is no address exactly if it names no network: it is unreadable or has a zone. */
  lemma NotAddressIff(t: Text)
    requires Readable(t)
    ensures Parse(t) == Err(NotAddress) <==> t.Unreadable? || (t.Address? && t.zone != "")
    ensures Parse(t) == Err(NotAddress) <==> forall a, n: nat :: !Names(t, a, n)
  {
    if Read(t).Some? {
      var p := Unmapped(Read(t).value);
      ReadNames(t, p.addr, p.bits);
    }
  }

  /** An entry that is not refused as no address names a network with a first address. */
  lemma NamedNet(t: Text) returns (a: Bits, n: nat, f: Bits)
    requires Readable(t) && Parse(t) != Err(NotAddress)
    ensures Names(t, a, n) && IsFirst(f, a, n)
  {
    var p := Unmapped(Read(t).value);
    a, n, f := p.addr, p.bits, Masked(p).addr;
    ReadNames(t, a, n);
  }

  /** What Parse returns is masked and never IPv4-mapped, so its text reads back as itself. */
  lemma ParsedForm(t: Text)
    requires Readable(t) && Parse(t).Ok?
    ensures IsMasked(Parse(t).p) && !Is4In6(Parse(t).p.addr)
  {
    var raw := Read(t).value;
    var p := Parse(t).p;
    if |p.addr| == 128 {
      assert raw == Unmapped(raw);
      assert p.bits >= 96 ==> raw.addr[..96] == p.addr[..96] && !(MAPPED <= raw.addr);
    }
    NotMapped(p.addr);
  }

  lemma ParseOfFormat(t: Text)
    requires Readable(t) && Parse(t).Ok?
    ensures Readable(Format(Parse(t).p)) && Parse(Format(Parse(t).p)) == Parse(t)
    // A single host is written as a bare address.
    ensures Format(Parse(t).p).Address? <==> forall x, y :: Covers(Parse(t).p, x) && Covers(Parse(t).p, y) ==> x == y
  {
    ParsedForm(t);
    var p := Parse(t).p;
    assert Read(Format(p)) == Some(p);
    assert Masked(p).addr == p.addr;
    SingleIff(p);
  }

  lemma SingleIff(p: Prefix)
    requires ValidPrefix(p)
    ensures p.bits == |p.addr| <==> forall x, y :: Covers(p, x) && Covers(p, y) ==> x == y
  {
    if p.bits < |p.addr| {
      var y := p.addr[p.bits := !p.addr[p.bits]];
      assert Covers(p, p.addr) && Covers(p, y) && y[p.bits] != p.addr[p.bits];
    }
  }

  /** An entry that parses stands for exactly the addresses its network covers. */
  lemma ParseCoversTheSame(t: Text, x: Bits)
    requires Readable(t) && Parse(t).Ok?
    ensures StandsFor(t, x) <==> Covers(Parse(t).p, x)
  {
    hide NotPublic, Parse, IsSpecial, Is4In6;
    var a, n, f := NamedNet(t);
    ParseIs(t, a, n, f);
    if StandsFor(t, x) {
      var b, m: nat :| Names(t, b, m) && AgreeOn(x, b, m);
      assert a == b && n == m;
    }
    assert Covers(Prefix(f, n), x) <==> AgreeOn(x, a, n);
  }

  /** An accepted network covers no special address, but for link-local ones under an IPv4 network wider than /16. */
  lemma SpecialCoveredIff(t: Text)
    requires Readable(t) && Parse(t).Ok?
    ensures var p := Parse(t).p;
            (exists x :: IsAddress(x) && NotPublic(x) && Covers(p, x))
            <==> |p.addr| == 32 && p.bits < 16 && p.addr[..p.bits] == LINK_LOCAL4[..p.bits]
  {
    var p := Parse(t).p;
    ParsedForm(t);
    forall x | IsAddress(x) && NotPublic(x) && Covers(p, x)
      ensures |p.addr| == 32 && p.bits < 16 && p.addr[..p.bits] == LINK_LOCAL4[..p.bits]
    {
      SpecialIff(x);
      SpecialUnder(p, x);
    }
    if |p.addr| == 32 && p.bits < 16 && p.addr[..p.bits] == LINK_LOCAL4[..p.bits] {
      var x := LINK_LOCAL4 + Repeat(false, 16);
      assert forall i :: 0 <= i < p.bits ==> p.addr[..p.bits][i] == LINK_LOCAL4[..p.bits][i];
      SpecialIff(x);
      assert IsAddress(x) && NotPublic(x) && Covers(p, x);
    }
  }

  lemma SpecialUnder(p: Prefix, x: Bits)
    requires IsMasked(p) && Covers(p, x) && IsSpecial(x)
    requires p.bits >= if |p.addr| == 32 then 8 else 16
    ensures IsSpecial(p.addr) || (|p.addr| == 32 && p.bits < 16 && p.addr[..p.bits] == LINK_LOCAL4[..p.bits])
  {
    assert |x| == |p.addr|;
    if x == Repeat(false, |x|) || x == LOOPBACK6 {
      assert forall i :: 0 <= i < |x| - 1 ==> !x[i];
      assert p.bits < |x| ==> p.addr == Repeat(false, |x|);
      assert p.bits == |x| ==> p.addr == x;
    } else if |x| == 128 {
      assert MULTICAST6 <= x ==> MULTICAST6 <= p.addr;
      assert LINK_LOCAL6 <= x ==> LINK_LOCAL6 <= p.addr;
    } else {
      assert LOOPBACK4 <= x ==> LOOPBACK4 <= p.addr;
      assert MULTICAST4 <= x ==> MULTICAST4 <= p.addr;
      assert LINK_LOCAL4 <= x && p.bits >= 16 ==> LINK_LOCAL4 <= p.addr;
    }
  }

  // ---- the list ----------------------------------------------------------------------------

  predicate AllReadable(ts: seq<Text>) {
    forall i :: 0 <= i < |ts| ==> Readable(ts[i])
  }

  predicate Parses(ts: seq<Text>, i: nat)
    requires AllReadable(ts) && i < |ts|
  {
    Parse(ts[i]).Ok?
  }

  /** The network of an entry that parses. */
  function Net(ts: seq<Text>, i: nat): Prefix
    requires AllReadable(ts) && i < |ts| && Parses(ts, i)
  {
    Parse(ts[i]).p
  }

  lemma NetIsMasked(ts: seq<Text>, i: nat)
    requires AllReadable(ts) && i < |ts| && Parses(ts, i)
    ensures IsMasked(Net(ts, i))
  {
    ParsedForm(ts[i]);
  }

  /** What is wrong with the later network `b` because of the earlier `a` on line `j`. */
  function Conflict(j: nat, a: Prefix, b: Prefix): Option<Problem>
    requires ValidPrefix(a) && ValidPrefix(b)
  {
    if a == b then Some(SameAs(j + 1))
    else if Overlaps(a, b) && a.bits <= b.bits then Some(CoveredBy(a))
    else if Overlaps(a, b) then Some(Covering(a, j + 1))
    else None
  }

  /** What is wrong with entry `i`: it does not parse, or it clashes with an earlier one nothing is wrong with. */
  function Fault(ts: seq<Text>, i: nat): (r: Option<Problem>)
    requires AllReadable(ts) && i < |ts|
    ensures r.None? ==> Parses(ts, i)
    decreases i, 1, 0
  {
    match Parse(ts[i])
    case Err(problem) => Some(problem)
    case Ok(p) => FirstClash(ts, i, 0)
  }

  function FirstClash(ts: seq<Text>, i: nat, from: nat): Option<Problem>
    requires AllReadable(ts) && i < |ts| && Parses(ts, i) && from <= i
    decreases i, 0, i - from
  {
    if from == i then None
    else if Fault(ts, from).None? && Clash(ts, from, i).Some? then Clash(ts, from, i)
    else FirstClash(ts, i, from + 1)
  }

  function Clash(ts: seq<Text>, j: nat, i: nat): Option<Problem>
    requires AllReadable(ts) && i < |ts| && j < |ts| && Parses(ts, i)
  {
    if !Parses(ts, j) then None
    else
      NetIsMasked(ts, i); NetIsMasked(ts, j);
      Conflict(j, Net(ts, j), Net(ts, i))
  }

  lemma ClashIff(ts: seq<Text>, j: nat, i: nat)
    requires AllReadable(ts) && i < |ts| && j < |ts| && Parses(ts, i) && Parses(ts, j)
    ensures Clash(ts, j, i).None? <==> Disjoint(Net(ts, j), Net(ts, i))
  {
    NetIsMasked(ts, i);
    NetIsMasked(ts, j);
    OverlapsIff(Net(ts, j), Net(ts, i));
  }

  /** Entry `j` is the first from `from` on that nothing is wrong with and that clashes with entry `i`. */
  ghost predicate IsFirstClash(ts: seq<Text>, i: nat, from: nat, j: nat)
    requires AllReadable(ts) && i < |ts| && Parses(ts, i)
  {
    && from <= j < i && Fault(ts, j).None? && Clash(ts, j, i).Some?
    && forall k :: from <= k < j && Fault(ts, k).None? ==> Clash(ts, k, i).None?
  }

  lemma {:induction false} FirstClashIs(ts: seq<Text>, i: nat, from: nat)
    requires AllReadable(ts) && i < |ts| && Parses(ts, i) && from <= i
    ensures FirstClash(ts, i, from).None? <==> forall j :: from <= j < i && Fault(ts, j).None? ==> Clash(ts, j, i).None?
    decreases i - from
  {
    if from < i {
      FirstClashIs(ts, i, from + 1);
    }
  }

  lemma {:induction false} FirstClashFound(ts: seq<Text>, i: nat, from: nat) returns (j: nat)
    requires AllReadable(ts) && i < |ts| && Parses(ts, i) && from <= i && FirstClash(ts, i, from).Some?
    ensures IsFirstClash(ts, i, from, j) && FirstClash(ts, i, from) == Clash(ts, j, i)
    decreases i - from
  {
    hide Clash, Parse, Conflict;
    if Fault(ts, from).None? && Clash(ts, from, i).Some? {
      j := from;
    } else {
      j := FirstClashFound(ts, i, from + 1);
    }
  }

  /** What a message says about entry `i` of the list. */
  ghost predicate Says(ts: seq<Text>, i: nat, problem: Problem)
    requires AllReadable(ts) && i < |ts|
  {
    match problem
    case NotAddress => forall a, n: nat :: !Names(ts[i], a, n)
    case TooWide => exists a, n: nat :: Names(ts[i], a, n) && Wide(a, n)
    case Special => exists a, n: nat, f :: Names(ts[i], a, n) && !Wide(a, n) && IsFirst(f, a, n) && IsAddress(f) && NotPublic(f)
    case SameAs(line) => EarlierLine(ts, i, line) && SameAddresses(Net(ts, i), Net(ts, line - 1))
    case CoveredBy(net) => (exists line: nat :: EarlierLine(ts, i, line) && Net(ts, line - 1) == net) && Inside(Net(ts, i), net)
    case Covering(net, line) => EarlierLine(ts, i, line) && Net(ts, line - 1) == net && Inside(net, Net(ts, i))
    case TooMany => false
  }

  /** The line is the first of those before entry `i` that nothing is wrong with and that share an address with it. */
  ghost predicate EarlierLine(ts: seq<Text>, i: nat, line: nat)
    requires AllReadable(ts) && i < |ts|
  {
    && 0 < line <= i && Parses(ts, i) && Parses(ts, line - 1) && Fault(ts, line - 1).None?
    && forall k :: 0 <= k < line - 1 && Fault(ts, k).None? ==> Disjoint(Net(ts, k), Net(ts, i))
  }

  ghost predicate Inside(p: Prefix, q: Prefix) {
    Within(p, q) && !SameAddresses(p, q)
  }

  /** What a message about the network `b` says of it and of the earlier network `a` on line `line`. */
  ghost predicate Tells(problem: Problem, a: Prefix, b: Prefix, line: nat) {
    match problem
    case SameAs(at) => at == line && SameAddresses(b, a)
    case CoveredBy(net) => net == a && Inside(b, a)
    case Covering(net, at) => net == a && at == line && Inside(a, b)
    case _ => false
  }

  lemma ConflictTells(j: nat, a: Prefix, b: Prefix)
    requires IsMasked(a) && IsMasked(b) && Conflict(j, a, b).Some?
    ensures Tells(Conflict(j, a, b).value, a, b, j + 1)
  {
    OverlapsIff(a, b);
    OverlapsIff(b, a);
    SameIff(a, b);
    SameIff(b, a);
  }

  lemma TellsSays(ts: seq<Text>, j: nat, i: nat, problem: Problem)
    requires AllReadable(ts) && i < |ts| && Parses(ts, i) && IsFirstClash(ts, i, 0, j)
    requires Tells(problem, Net(ts, j), Net(ts, i), j + 1)
    ensures Says(ts, i, problem)
  {
    forall k | 0 <= k < j && Fault(ts, k).None?
      ensures Disjoint(Net(ts, k), Net(ts, i))
    {
      ClashIff(ts, k, i);
    }
    assert EarlierLine(ts, i, j + 1);
  }

  lemma ClashSays(ts: seq<Text>, j: nat, i: nat)
    requires AllReadable(ts) && i < |ts| && Parses(ts, i) && IsFirstClash(ts, i, 0, j)
    ensures Says(ts, i, Clash(ts, j, i).value)
  {
    NetIsMasked(ts, i);
    NetIsMasked(ts, j);
    ConflictTells(j, Net(ts, j), Net(ts, i));
    TellsSays(ts, j, i, Clash(ts, j, i).value);
  }

  lemma RefusalSays(ts: seq<Text>, i: nat)
    requires AllReadable(ts) && i < |ts| && Parse(ts[i]).Err?
    ensures Says(ts, i, Parse(ts[i]).problem)
  {
    NotAddressIff(ts[i]);
    if Parse(ts[i]) != Err(NotAddress) {
      var a, n, f := NamedNet(ts[i]);
      ParseIs(ts[i], a, n, f);
    }
  }

  /** Every message is true of the entry it is put at. */
  lemma FaultSays(ts: seq<Text>, i: nat)
    requires AllReadable(ts) && i < |ts| && Fault(ts, i).Some?
    ensures Says(ts, i, Fault(ts, i).value)
  {
    if Parses(ts, i) {
      var j := FirstClashFound(ts, i, 0);
      ClashSays(ts, j, i);
    } else {
      RefusalSays(ts, i);
    }
  }

  /** Entries nothing is wrong with share no address, in any list. */
  lemma UnflaggedAreDisjoint(ts: seq<Text>, j: nat, i: nat)
    requires AllReadable(ts) && j < i < |ts| && Fault(ts, i).None? && Fault(ts, j).None?
    ensures Parses(ts, i) && Parses(ts, j) && Disjoint(Net(ts, j), Net(ts, i))
  {
    FirstClashIs(ts, i, 0);
    ClashIff(ts, j, i);
  }

  ghost predicate PairwiseDisjoint(ts: seq<Text>)
    requires AllReadable(ts)
  {
    && (forall i :: 0 <= i < |ts| ==> Parses(ts, i))
    && (forall j, i :: 0 <= j < i < |ts| ==> Disjoint(Net(ts, j), Net(ts, i)))
  }

  predicate Accepted(ts: seq<Text>)
    requires AllReadable(ts)
  {
    |ts| <= MAX_ENTRIES && forall i :: 0 <= i < |ts| ==> Fault(ts, i).None?
  }

  lemma AcceptedIff(ts: seq<Text>)
    requires AllReadable(ts)
    ensures Accepted(ts) <==> |ts| <= 2000 && PairwiseDisjoint(ts)
  {
    if Accepted(ts) {
      forall i | 0 <= i < |ts|
        ensures Parses(ts, i)
      {
        assert Fault(ts, i).None?;
      }
      forall j, i | 0 <= j < i < |ts|
        ensures Disjoint(Net(ts, j), Net(ts, i))
      {
        UnflaggedAreDisjoint(ts, j, i);
      }
    }
    if PairwiseDisjoint(ts) {
      forall i | 0 <= i < |ts|
        ensures Fault(ts, i).None?
      {
        forall j | 0 <= j < i
          ensures Clash(ts, j, i).None?
        {
          assert Disjoint(Net(ts, j), Net(ts, i));
          ClashIff(ts, j, i);
        }
        FirstClashIs(ts, i, 0);
        assert Parses(ts, i);
      }
    }
  }

  function Stored(ts: seq<Text>): (out: seq<Text>)
    requires AllReadable(ts) && forall i :: 0 <= i < |ts| ==> Parses(ts, i)
    ensures |out| == |ts|
  {
    seq(|ts|, i requires 0 <= i < |ts| => Format(Net(ts, i)))
  }

  lemma StoredParses(ts: seq<Text>)
    requires AllReadable(ts) && forall i :: 0 <= i < |ts| ==> Parses(ts, i)
    ensures AllReadable(Stored(ts))
    ensures forall i :: 0 <= i < |ts| ==> Parse(Stored(ts)[i]) == Parse(ts[i])
  {
    forall i | 0 <= i < |ts|
      ensures Readable(Stored(ts)[i]) && Parse(Stored(ts)[i]) == Parse(ts[i])
    {
      assert Parses(ts, i) && Stored(ts)[i] == Format(Net(ts, i));
      ParseOfFormat(ts[i]);
    }
  }

  /** What is stored stands for the same addresses, entry by entry, and storing it again changes nothing. */
  lemma StoredForm(ts: seq<Text>)
    requires AllReadable(ts) && Accepted(ts)
    ensures forall i :: 0 <= i < |ts| ==> Parses(ts, i)
    ensures AllReadable(Stored(ts)) && Accepted(Stored(ts))
    ensures (forall i :: 0 <= i < |ts| ==> Parses(Stored(ts), i)) && Stored(Stored(ts)) == Stored(ts)
    ensures forall i, x :: 0 <= i < |ts| ==> (StandsFor(Stored(ts)[i], x) <==> StandsFor(ts[i], x))
  {
    AcceptedIff(ts);
    StoredParses(ts);
    var out := Stored(ts);
    forall i | 0 <= i < |ts|
      ensures Parses(out, i) && Net(out, i) == Net(ts, i)
    {
      assert Parses(ts, i);
    }
    assert PairwiseDisjoint(out);
    AcceptedIff(out);
    forall i, x | 0 <= i < |ts|
      ensures StandsFor(out[i], x) <==> StandsFor(ts[i], x)
    {
      assert Parses(ts, i) && Parses(out, i);
      ParseCoversTheSame(ts[i], x);
      ParseCoversTheSame(out[i], x);
    }
    assert Stored(out) == out;
  }

  ghost predicate Reported(ts: seq<Text>, i: nat, problems: map<int, Problem>)
    requires AllReadable(ts) && i < |ts|
  {
    if i in problems then Fault(ts, i) == Some(problems[i]) else Fault(ts, i) == None
  }

  /** What the first pass knows of entry `i`: its network or why it has none. */
  ghost predicate ReadOff(ts: seq<Text>, i: nat, net: Prefix, problems: map<int, Problem>)
    requires AllReadable(ts) && i < |ts|
  {
    Parse(ts[i]) == if i in problems then Err(problems[i]) else Ok(net)
  }

  method ParseAll(ts: seq<Text>) returns (parsed: array<Prefix>, problems: map<int, Problem>)
    requires AllReadable(ts)
    ensures parsed.Length == |ts| && (forall k :: k in problems ==> 0 <= k < |ts|)
    ensures forall i :: 0 <= i < |ts| ==> ReadOff(ts, i, parsed[i], problems)
  {
    parsed, problems := new Prefix[|ts|](_ => Prefix([], 0)), map[];
    for i := 0 to |ts|
      invariant forall k :: k in problems ==> 0 <= k < i
      invariant forall k :: 0 <= k < i ==> ReadOff(ts, k, parsed[k], problems)
    {
      match Parse(ts[i])
      case Err(problem) => problems := problems[i := problem];
      case Ok(p) => parsed[i] := p;
    }
  }

  /** The inner loop: the first earlier entry that clashes with entry `i`. */
  method ClashOf(ts: seq<Text>, parsed: array<Prefix>, problems: map<int, Problem>, i: nat) returns (found: Option<Problem>)
    requires AllReadable(ts) && i < |ts| && Parses(ts, i) && parsed.Length == |ts|
    requires forall k :: 0 <= k < i ==> Reported(ts, k, problems)
    requires forall k :: 0 <= k <= i && Parses(ts, k) ==> parsed[k] == Net(ts, k)
    ensures found == Fault(ts, i)
  {
    for j := 0 to i
      invariant FirstClash(ts, i, j) == FirstClash(ts, i, 0)
    {
      assert Reported(ts, j, problems);
      if j !in problems {
        NetIsMasked(ts, i);
        NetIsMasked(ts, j);
        found := Conflict(j, parsed[j], parsed[i]);
        if found.Some? {
          return;
        }
      }
    }
    found := None;
  }

  method FlagClashes(ts: seq<Text>, parsed: array<Prefix>, unread: map<int, Problem>) returns (problems: map<int, Problem>)
    requires AllReadable(ts) && parsed.Length == |ts| && forall k :: k in unread ==> 0 <= k < |ts|
    requires forall i :: 0 <= i < |ts| ==> ReadOff(ts, i, parsed[i], unread)
    ensures forall k :: k in problems ==> 0 <= k < |ts|
    ensures forall i :: 0 <= i < |ts| ==> Reported(ts, i, problems)
  {
    problems := unread;
    for i := 0 to |ts|
      invariant forall k :: k in problems ==> 0 <= k < |ts|
      invariant forall k :: 0 <= k < i ==> Reported(ts, k, problems)
      invariant forall k :: i <= k < |ts| ==> ReadOff(ts, k, parsed[k], problems)
    {
      assert ReadOff(ts, i, parsed[i], problems);
      if i !in problems {
        forall k | 0 <= k <= i && Parses(ts, k)
          ensures parsed[k] == Net(ts, k)
        {
          assert ReadOff(ts, k, parsed[k], unread);
        }
        var found := ClashOf(ts, parsed, problems, i);
        if found.Some? {
          ghost var before := problems;
          problems := problems[i := found.value];
          forall k | 0 <= k < i
            ensures Reported(ts, k, problems)
          {
            assert Reported(ts, k, before);
          }
        }
      }
    }
  }

  method Normalize(ts: seq<Text>) returns (out: seq<Text>, problems: map<int, Problem>)
    requires AllReadable(ts)
    ensures |ts| > 2000 ==> out == [] && problems == map[-1 := TooMany]
    ensures |ts| <= 2000 ==>
              && (forall k :: k in problems ==> 0 <= k < |ts|)
              && (forall i :: 0 <= i < |ts| ==> Reported(ts, i, problems))
    ensures Accepted(ts) <==> problems == map[]
    ensures if problems == map[] then (forall i :: 0 <= i < |ts| ==> Parses(ts, i)) && out == Stored(ts) else out == []
  {
    out, problems := [], map[];
    if |ts| > MAX_ENTRIES {
      problems := problems[-1 := TooMany];
      assert -1 in problems;
      return;
    }
    var parsed, unread := ParseAll(ts);
    problems := FlagClashes(ts, parsed, unread);
    assert Accepted(ts) ==> problems == map[] by {
      if Accepted(ts) {
        forall i | 0 <= i < |ts|
          ensures i !in problems
        {
          assert Reported(ts, i, problems);
        }
      }
    }
    if problems != map[] {
      return;
    }
    forall i | 0 <= i < |ts|
      ensures Fault(ts, i).None? && Parses(ts, i) && parsed[i] == Net(ts, i)
    {
      assert Reported(ts, i, problems) && ReadOff(ts, i, parsed[i], unread);
    }
    for i := 0 to |ts|
      invariant |out| == i && forall k :: 0 <= k < i ==> out[k] == Format(Net(ts, k))
    {
      out := out + [Format(parsed[i])];
    }
    assert out == Stored(ts);
  }
}
