/**
 The search for the next unused IPv4 address of a subnet (GetNextIP, pkg/utils/utils.go). An address
 is a byte string as in Go's net package: nil is empty, an IPv4 address is kept in its 16-byte
 IPv4-mapped form (section 2.5.5.2 of RFC 4291), and a subnet is a CIDR block (section 3.1 of RFC 4632).
 */
module NextIP {
  type byte = b: int | 0 <= b < 256

  type IP = seq<byte>

  datatype IPNet = IPNet(base: nat, prefixLen: nat)

  datatype Result = Found(ip: IP) | ErrInternal

  predicate V4Mapped(ip: IP) {
    |ip| == 16 && (forall i :: 0 <= i < 10 ==> ip[i] == 0) && ip[10] == 255 && ip[11] == 255
  }

  /** The number an IPv4 address stands for. */
  function V4(ip: IP): (n: nat)
    requires |ip| == 16
    ensures n < 0x1_0000_0000
  {
    (ip[12] as int) * 0x100_0000 + (ip[13] as int) * 0x1_0000 + (ip[14] as int) * 0x100 + ip[15] as int
  }

  function Pow2(n: nat): (p: nat)
    ensures p > 0
  {
    if n == 0 then 1 else 2 * Pow2(n - 1)
  }

  predicate ValidNet(ipnet: IPNet) { ipnet.base < 0x1_0000_0000 && ipnet.prefixLen <= 32 }

  /** net.IPNet.Contains: an IPv4 address whose first prefixLen bits are those of the base. */
  predicate Contains(ipnet: IPNet, ip: IP)
    requires ValidNet(ipnet)
  {
    var block := Pow2(32 - ipnet.prefixLen);
    V4Mapped(ip) && V4(ip) / block == ipnet.base / block
  }

  // ---------------------------------------------------------------- the successor

  /** What the inner loop does to the bytes 0 .. j, from the last one down. */
  function BumpFrom(ip: IP, j: int): (r: IP)
    requires -1 <= j < |ip|
    ensures |r| == |ip|
    ensures forall i :: j < i < |ip| ==> r[i] == ip[i]
    decreases j + 1
  {
    if j == -1 then ip
    else
      var b := if ip[j] < 3 then 3 else ip[j];
      if b == 254 then BumpFrom(ip, j - 1)
      else if b == 255 then BumpFrom(ip[j := 0], j - 1)
      else ip[j := b + 1]
  }

  function Next(ip: IP): (r: IP)
    ensures |r| == |ip|
  {
    BumpFrom(ip, |ip| - 1)
  }

  /** The k-th candidate of a search that starts at an address. */
  ghost function Candidate(start: IP, k: nat): (ip: IP)
    ensures |ip| == |start|
  {
    if k == 0 then start else Next(Candidate(start, k - 1))
  }

  /** The candidates before the k-th are inside the subnet, and those after the start are used. */
  ghost predicate Passed(used: set<IP>, ipnet: IPNet, start: IP, k: nat)
    requires ValidNet(ipnet)
  {
    forall i: nat :: i < k ==> Contains(ipnet, Candidate(start, i)) && (i > 0 ==> Candidate(start, i) in used)
  }

  /** The search stops at the k-th candidate: the first unused one, or the first one outside. */
  ghost predicate StopsAt(used: set<IP>, ipnet: IPNet, start: IP, k: nat, r: Result)
    requires ValidNet(ipnet)
  {
    && Passed(used, ipnet, start, k)
    && match r
       case Found(ip) => k > 0 && ip == Candidate(start, k) && ip !in used
       case ErrInternal => !Contains(ipnet, Candidate(start, k)) && (k > 0 ==> Candidate(start, k) in used)
  }

  /** net.ParseIP(ip.String()): the 16-byte form, nil for nil. */
  function To16(ip: IP): IP
    requires |ip| in {0, 4, 16}
  {
    if |ip| == 4 then [0, 0, 0, 0, 0, 0, 0, 0, 0, 0, 255, 255] + ip else ip
  }

  /** A larger IPv4 address, or an address that has left the IPv4-mapped form for good. */
  ghost predicate Beyond(n: int, ip: IP) {
    |ip| == 16 && ((V4Mapped(ip) && V4(ip) > n) || Left(ip))
  }

  ghost predicate Left(ip: IP) {
    |ip| == 16 && (forall i :: 0 <= i < 16 ==> ip[i] != 255)
  }

  lemma {:induction false} NextOfLeft(ip: IP)
    requires Left(ip)
    ensures Left(Next(ip))
  {
    BumpKeepsLeft(ip, 15);
  }

  lemma {:induction false} BumpKeepsLeft(ip: IP, j: int)
    requires -1 <= j < |ip| && Left(ip)
    ensures Left(BumpFrom(ip, j))
    decreases j + 1
  {
    if j >= 0 { BumpKeepsLeft(ip, j - 1); }
  }

  /** Although a full byte is not reset by the carry, the successor of an IPv4 address is larger. */
  lemma NextIsLarger(ip: IP)
    requires V4Mapped(ip)
    ensures Beyond(V4(ip), Next(ip))
  {
    if ip[15] !in {254, 255} {
    } else if ip[14] !in {254, 255} {
      LastBytes(ip, 14);
    } else if ip[13] !in {254, 255} {
      LastBytes(ip, 13);
    } else if ip[12] !in {254, 255} {
      LastBytes(ip, 12);
    } else {
      LastBytes(ip, 11);
      LeaveV4(ip);
    }
  }

  /** The bytes after position j are full: the carry has passed them, clearing those that are 255. */
  lemma LastBytes(ip: IP, j: nat)
    requires |ip| == 16 && j < 16
    requires forall i :: j < i < 16 ==> ip[i] in {254, 255}
    ensures Next(ip) == BumpFrom(Cleared(ip, j), j)
  {
    CarryDown(ip, j, 15);
  }

  ghost function Cleared(ip: IP, j: nat): (r: IP)
    requires j < |ip|
    ensures |r| == |ip|
    ensures forall i :: 0 <= i < |ip| ==> r[i] == if j < i && ip[i] == 255 then 0 else ip[i]
  {
    seq(|ip|, i requires 0 <= i < |ip| => if j < i && ip[i] == 255 then 0 else ip[i])
  }

  lemma {:induction false} CarryDown(ip: IP, j: nat, k: nat)
    requires j <= k < |ip|
    requires forall i :: j < i <= k ==> ip[i] in {254, 255}
    ensures BumpFrom(if k + 1 < |ip| then Cleared(ip, k) else ip, k) == BumpFrom(Cleared(ip, j), j)
    decreases k - j
  {
    var now := if k + 1 < |ip| then Cleared(ip, k) else ip;
    if j < k {
      CarryDown(ip, j, k - 1);
      assert Cleared(ip, k - 1) == if ip[k] == 255 then now[k := 0] else now;
    } else {
      assert now == Cleared(ip, j);
    }
  }

  lemma LeaveV4(ip: IP)
    requires V4Mapped(ip)
    requires forall i :: 12 <= i < 16 ==> ip[i] in {254, 255}
    ensures Left(BumpFrom(Cleared(ip, 11), 11))
  {
    var c := Cleared(ip, 11);
    var d := c[11 := 0];
    var e := d[10 := 0];
    assert BumpFrom(c, 11) == BumpFrom(d, 10) == BumpFrom(e, 9) == e[9 := 4];
  }

  lemma NextOfBeyond(n: int, ip: IP)
    requires Beyond(n, ip)
    ensures Beyond(n, Next(ip))
  {
    if V4Mapped(ip) { NextIsLarger(ip); } else { NextOfLeft(ip); }
  }

  lemma NotV4WhenLeft(ip: IP)
    requires Left(ip)
    ensures !V4Mapped(ip)
  {
    assert ip[10] != 255;
  }

  /** GetNextIP, with the 16-byte copy of the last address bumped in place. */
  method GetNextIP(used: set<IP>, ipnet: IPNet, last: IP) returns (r: Result)
    requires ValidNet(ipnet) && |last| in {0, 4, 16}
    ensures exists k: nat :: StopsAt(used, ipnet, To16(last), k, r)
  {
    hide Next, BumpFrom, Pow2, V4;
    ghost var start := To16(last);
    var copy := To16(last);
    var ip := new byte[|copy|](i requires 0 <= i < |copy| => copy[i]);
    assert ip[..] == start;
    ghost var k := 0;
    while Contains(ipnet, ip[..])
      invariant ip[..] == Candidate(start, k)
      invariant Passed(used, ipnet, start, k)
      invariant k > 0 ==> ip[..] in used
      decreases if V4Mapped(ip[..]) then 0x1_0000_0000 - V4(ip[..]) else 0
    {
      ghost var before := ip[..];
      Bump(ip);
      NextIsLarger(before);
      if Left(ip[..]) { NotV4WhenLeft(ip[..]); }
      k := k + 1;
      assert Passed(used, ipnet, start, k);
      if ip[..] !in used {
        r := Found(ip[..]);
        assert StopsAt(used, ipnet, start, k, r);
        return;
      }
    }
    r := ErrInternal;
    assert StopsAt(used, ipnet, start, k, r);
  }

  /** The inner loop: from the last byte down, skip the reserved values and carry. */
  method Bump(ip: array<byte>)
    modifies ip
    ensures ip[..] == Next(old(ip[..]))
  {
    ghost var before := ip[..];
    var j := ip.Length - 1;
    while j >= 0
      invariant -1 <= j < ip.Length
      invariant BumpFrom(ip[..], j) == Next(before)
    {
      ghost var now := ip[..];
      var low := ip[j] < 3;
      if low {
        ip[j] := 3;
      }
      if ip[j] == 254 {
        j := j - 1;
        continue;
      }
      ip[j] := ((ip[j] as int) + 1) % 256;
      assert ip[..] == now[j := ip[j]];
      if ip[j] > 0 {
        break;
      }
      j := j - 1;
    }
  }

  // ---------------------------------------------------------------- results

  lemma {:induction false} BeyondForGood(n: int, start: IP, j: nat, k: nat)
    requires j <= k && Beyond(n, Candidate(start, j))
    ensures Beyond(n, Candidate(start, k))
    decreases k
  {
    if j < k {
      BeyondForGood(n, start, j, k - 1);
      NextOfBeyond(n, Candidate(start, k - 1));
    }
  }

  lemma DivMono(x: nat, y: nat, b: nat)
    requires b > 0 && x <= y
    ensures x / b <= y / b
  {
    var d := x / b - y / b;
    assert x == (x / b) * b + x % b && y == (y / b) * b + y % b;
    assert d * b < b;
    assert d >= 1 ==> d * b >= b;
  }

  /** A subnet has no holes. */
  lemma Convex(ipnet: IPNet, x: IP, y: IP, z: IP)
    requires ValidNet(ipnet) && Contains(ipnet, x) && Contains(ipnet, z)
    requires V4Mapped(y) && V4(x) <= V4(y) <= V4(z)
    ensures Contains(ipnet, y)
  {
    var block := Pow2(32 - ipnet.prefixLen);
    DivMono(V4(x), V4(y), block);
    DivMono(V4(y), V4(z), block);
  }

  /** Once the search has left the subnet, no later candidate is inside. */
  lemma NeverReturns(ipnet: IPNet, start: IP, j: nat, k: nat)
    requires ValidNet(ipnet) && Contains(ipnet, start) && j <= k
    requires !Contains(ipnet, Candidate(start, j))
    ensures !Contains(ipnet, Candidate(start, k))
  {
    var y, z := Candidate(start, j), Candidate(start, k);
    NextIsLarger(start);
    BeyondForGood(V4(start), start, 1, j) by { assert Candidate(start, 1) == Next(Candidate(start, 0)); }
    if V4Mapped(y) {
      BeyondForGood(V4(y) - 1, start, j, k);
      if V4Mapped(z) && Contains(ipnet, z) {
        if Left(z) { NotV4WhenLeft(z); }
        if Left(y) { NotV4WhenLeft(y); }
        Convex(ipnet, start, y, z);
        assert false;
      }
    } else {
      assert Left(y);
      BeyondForGood(0x1_0000_0000, start, j, k);
      if Left(z) { NotV4WhenLeft(z); }
    }
  }

  lemma PassedAt(used: set<IP>, ipnet: IPNet, start: IP, k: nat, i: nat)
    requires ValidNet(ipnet) && Passed(used, ipnet, start, k) && i < k
    ensures Contains(ipnet, Candidate(start, i)) && (i > 0 ==> Candidate(start, i) in used)
  {
  }

  /** The result does not depend on anything but the chain: there is only one place to stop. */
  lemma StopIsUnique(used: set<IP>, ipnet: IPNet, start: IP, j: nat, r: Result, k: nat, r': Result)
    requires ValidNet(ipnet)
    requires StopsAt(used, ipnet, start, j, r) && StopsAt(used, ipnet, start, k, r')
    ensures r == r'
  {
    if j < k { PassedAt(used, ipnet, start, k, j); }
    if k < j { PassedAt(used, ipnet, start, j, k); }
  }

  ghost predicate FreeInside(used: set<IP>, ipnet: IPNet, start: IP, k: nat)
    requires ValidNet(ipnet)
  {
    k > 0 && Contains(ipnet, Candidate(start, k)) && Candidate(start, k) !in used
  }

  /**
   From a start inside the subnet, the search returns an address of the subnet exactly when some
   candidate on its chain is inside the subnet and unused. In every other case it either fails or
   returns the first candidate outside the subnet.
   */
  lemma StaysInSubnet(used: set<IP>, ipnet: IPNet, start: IP, k: nat, r: Result)
    requires ValidNet(ipnet) && Contains(ipnet, start) && StopsAt(used, ipnet, start, k, r)
    ensures (r.Found? && Contains(ipnet, r.ip)) <==> exists m: nat :: FreeInside(used, ipnet, start, m)
  {
    if r.Found? && Contains(ipnet, r.ip) {
      assert FreeInside(used, ipnet, start, k);
    }
    if m: nat :| FreeInside(used, ipnet, start, m) {
      assert m < k ==> Candidate(start, m) in used;
      if !Contains(ipnet, Candidate(start, k)) {
        NeverReturns(ipnet, start, k, m);
        assert false;
      }
    }
  }

  /** The address just below the end of a subnet, with every candidate inside the subnet used. */
  lemma LeavesTheSubnet()
    ensures var ipnet, start := IPNet(0x0a00_0000, 24), [0, 0, 0, 0, 0, 0, 0, 0, 0, 0, 255, 255, 10, 0, 0, 254];
            && Contains(ipnet, start)
            && StopsAt({}, ipnet, start, 1, Found(start[14 := 4]))
            && !Contains(ipnet, start[14 := 4])
  {
    var start: IP := [0, 0, 0, 0, 0, 0, 0, 0, 0, 0, 255, 255, 10, 0, 0, 254];
    assert Pow2(8) == 256 by { assert Pow2(4) == 16; }
    assert BumpFrom(start, 15) == BumpFrom(start, 14) == start[14 := 4];
    assert Candidate(start, 0) == start && Candidate(start, 1) == Next(start);
    assert Passed({}, IPNet(0x0a00_0000, 24), start, 1);
  }

  ghost predicate UsableLastByte(b: byte) { 4 <= b <= 254 }

  lemma NextLastByte(ip: IP)
    requires |ip| == 16
    ensures UsableLastByte(Next(ip)[15]) <==> ip[15] != 255
  {
  }

  /** No candidate ends in a reserved byte, exactly when the start does not end in 255. */
  lemma LastBytesUsable(start: IP)
    requires |start| == 16
    ensures (forall k: nat :: k > 0 ==> UsableLastByte(Candidate(start, k)[15])) <==> start[15] != 255
  {
    if start[15] != 255 {
      forall k: nat | k > 0 ensures UsableLastByte(Candidate(start, k)[15]) { LastByteUsable(start, k); }
    } else {
      NextLastByte(start);
      assert Candidate(start, 0) == start;
      assert !UsableLastByte(Candidate(start, 1)[15]);
    }
  }

  lemma {:induction false} LastByteUsable(start: IP, k: nat)
    requires |start| == 16 && start[15] != 255 && k > 0
    ensures UsableLastByte(Candidate(start, k)[15])
  {
    if k > 1 { LastByteUsable(start, k - 1); }
    NextLastByte(Candidate(start, k - 1));
  }
}
