/**
 Addresses of a CIDR prefix. The program works byte by byte and bit by bit; here that is tied to
 the address as one big number: a prefix of `ones` bits is an interval of 2^(bits - ones) numbers.
 */
module IpRanges {
  import opened Wrappers
  import opened Bytes
  import opened Bits
  import opened Sums

  /** The address as a big-endian number. */
  function Value(b: seq<Byte>): nat {
    if b == [] then 0 else Value(b[..|b| - 1]) * 0x100 + b[|b| - 1] as int
  }

  /** The host bits in byte i of an address with `ones` network bits. */
  function HostBits(ones: nat, i: nat): (h: nat)
    ensures h <= 8
  {
    if 8 * i + 8 <= ones then 0
    else if 8 * i >= ones then 8
    else 8 - (ones - 8 * i)
  }

  /** The host bits in the first k bytes. */
  function HostBitsIn(ones: nat, k: nat): nat {
    if 8 * k <= ones then 0 else 8 * k - ones
  }

  /** The values of the host bits in byte i. */
  function HostSize(ones: nat, i: nat): (p: nat)
    ensures 1 <= p <= 0x100
  {
    Pow2Grows(HostBits(ones, i), 8);
    assert Pow2(8) == 2 * 2 * Pow2(6) && Pow2(6) == 2 * 2 * Pow2(4) && Pow2(4) == 2 * 2 * Pow2(2);
    Pow2(HostBits(ones, i))
  }

  function Mask(n: nat, ones: nat): seq<Byte> {
    seq(n, i requires 0 <= i < n => 0x100 - HostSize(ones, i))
  }

  /** A network address: its host bits are clear. */
  ghost predicate Network(ip: seq<Byte>, ones: nat) {
    ones <= 8 * |ip| && forall i :: 0 <= i < |ip| ==> ip[i] % HostSize(ones, i) == 0
  }

  /** The address has the network bits of the prefix. */
  ghost predicate InPrefix(ip: seq<Byte>, ones: nat, a: seq<Byte>) {
    |a| == |ip| && forall i :: 0 <= i < |ip| ==> a[i] - a[i] % HostSize(ones, i) == ip[i]
  }

  // ----- Bytes and numbers -----

  lemma ValueNext(b: seq<Byte>, k: nat)
    requires k < |b|
    ensures Value(b[..k + 1]) == Value(b[..k]) * 0x100 + b[k] as int
  {
    assert b[..k + 1][..k] == b[..k];
  }

  lemma Value4(b: seq<Byte>)
    requires |b| == 4
    ensures Value(b) == GetU32(b, 0)
  {
    ValueNext(b, 0);
    ValueNext(b, 1);
    ValueNext(b, 2);
    ValueNext(b, 3);
    assert b[..4] == b;
  }

  lemma {:induction false} ValueIsInjective(a: seq<Byte>, b: seq<Byte>)
    requires |a| == |b| && Value(a) == Value(b)
    ensures a == b
  {
    if a == [] {
    } else {
      ValueIsInjective(a[..|a| - 1], b[..|b| - 1]);
      assert a == a[..|a| - 1] + [a[|a| - 1]] && b == b[..|b| - 1] + [b[|b| - 1]];
    }
  }

  lemma SmallPowers()
    ensures Pow2(0) == 1 && Pow2(8) == 0x100
  {
    assert Pow2(8) == 2 * 2 * Pow2(6) && Pow2(6) == 2 * 2 * Pow2(4) && Pow2(4) == 2 * 2 * Pow2(2);
  }

  /** How the host part grows by one byte. */
  lemma HostPartNext(ones: nat, k: nat)
    ensures var p, q, s := Pow2(HostBitsIn(ones, k)), Pow2(HostBitsIn(ones, k + 1)), HostSize(ones, k);
            if 8 * k >= ones then s == 0x100 && q == 0x100 * p else p == 1 && q == s
  {
    SmallPowers();
    if 8 * k >= ones {
      Pow2Add(8, HostBitsIn(ones, k));
    }
  }

  /** One more byte of a number whose low part is dropped. */
  lemma DropNext(v: nat, x: nat, p: nat, q: nat, s: nat, h: nat)
    requires p > 0 && x < 0x100 && h <= 8 && s == Pow2(h)
    requires (s == 0x100 && q == 0x100 * p) || (p == 1 && q == s)
    ensures q > 0
    ensures (v - v % p) * 0x100 + (x - x % s) == (v * 0x100 + x) - (v * 0x100 + x) % q
  {
    if s == 0x100 && q == 0x100 * p {
      ModScale(v, x, p);
    } else {
      ModSmall(v, x, h);
    }
  }

  /** Taking the network bits of each byte takes those of the number. */
  lemma {:induction false} NetworkPart(a: seq<Byte>, net: seq<Byte>, ones: nat, k: nat)
    requires |net| == |a| && k <= |a|
    requires forall i :: 0 <= i < |a| ==> net[i] == a[i] - a[i] % HostSize(ones, i)
    ensures Value(net[..k]) == Value(a[..k]) - Value(a[..k]) % Pow2(HostBitsIn(ones, k))
  {
    hide Value, Pow2;
    if k > 0 {
      var j := k - 1;
      NetworkPart(a, net, ones, j);
      ValueNext(a, j);
      ValueNext(net, j);
      HostPartNext(ones, j);
      DropNext(Value(a[..j]), a[j], Pow2(HostBitsIn(ones, j)), Pow2(HostBitsIn(ones, k)), HostSize(ones, j),
               HostBits(ones, j));
    } else {
      SmallPowers();
      EmptyValue(a, net);
    }
  }

  lemma EmptyValue(a: seq<Byte>, b: seq<Byte>)
    ensures Value(a[..0]) == Value(b[..0]) == 0
  {
  }

  lemma ModScale(v: nat, x: nat, p: nat)
    requires p > 0 && x < 0x100
    ensures (v * 0x100 + x) % (0x100 * p) == v % p * 0x100 + x
  {
    var q, r := v / p, v % p;
    assert v == q * p + r;
    assert v * 0x100 + x == q * (0x100 * p) + (r * 0x100 + x) by {
      assert q * p * 0x100 == q * (0x100 * p);
    }
    ModUnique(v * 0x100 + x, 0x100 * p, q, r * 0x100 + x);
  }

  lemma ModUnique(n: nat, d: nat, q: nat, r: nat)
    requires d > 0 && r < d && n == q * d + r
    ensures n % d == r
  {
    var q', r' := n / d, n % d;
    assert n == q' * d + r';
    if q' < q {
      assert (q' + 1) * d <= q * d by { MulMono(q' + 1, q, d); }
    } else if q' > q {
      assert (q + 1) * d <= q' * d by { MulMono(q + 1, q', d); }
    }
  }

  /** 256 is a multiple of 2^h, so whole bytes do not change the low h bits. */
  lemma ModSmall(v: nat, x: nat, h: nat)
    requires h <= 8
    ensures (v * 0x100 + x) % Pow2(h) == x % Pow2(h)
  {
    var c, s := Pow2(8 - h), Pow2(h);
    SmallPowers();
    Pow2Add(8 - h, h);
    hide Pow2;
    DivMod(x, s);
    ModSmallAt(v, x, c, s, x / s, x % s);
  }

  lemma DivMod(x: nat, s: nat)
    requires s > 0
    ensures x == x / s * s + x % s && 0 <= x % s < s && x / s >= 0
  {
  }

  lemma ModSmallAt(v: nat, x: nat, c: nat, s: nat, q: nat, r: nat)
    requires s > 0 && c * s == 0x100 && r < s && x == q * s + r
    ensures (v * 0x100 + x) % s == r
  {
    Regroup(v, c, s, q, 0x100);
    var big := v * c + q;
    assert v * 0x100 + x == big * s + r;
    ModUnique(v * 0x100 + x, s, big, r);
  }

  lemma Regroup(v: nat, c: nat, s: nat, q: nat, t: nat)
    requires t == c * s
    ensures v * t + q * s == (v * c + q) * s
  {
  }

  // ----- A prefix is an interval -----

  lemma RoundsDown(x: nat, s: nat)
    requires s > 0
    ensures 0 <= x - x % s <= x
  {
    DivMod(x, s);
    MulMono(0, x / s, s);
  }

  function NetworkByte(x: Byte, s: nat): (n: Byte)
    requires s > 0
    ensures n == x - x % s
  {
    RoundsDown(x, s);
    x - x % s
  }

  function NetworkBytes(a: seq<Byte>, ones: nat): seq<Byte> {
    seq(|a|, i requires 0 <= i < |a| => NetworkByte(a[i], HostSize(ones, i)))
  }

  lemma Floor(v: nat, a: nat, p: nat)
    requires p > 0 && v % p == 0
    ensures a - a % p == v <==> v <= a < v + p
  {
    DivMod(a, p);
    DivMod(v, p);
    if v <= a < v + p {
      ModUnique(a, p, v / p, a - v);
    }
  }

  lemma NetworkIsMultiple(ip: seq<Byte>, ones: nat)
    requires Network(ip, ones)
    ensures Value(ip) % Pow2(8 * |ip| - ones) == 0
  {
    NetworkPart(ip, ip, ones, |ip|);
    assert ip[..|ip|] == ip;
  }

  /** A network address is a multiple of the size of its prefix. */
  lemma NetworkIs(ip: seq<Byte>, ones: nat)
    ensures Network(ip, ones) <==> ones <= 8 * |ip| && Value(ip) % Pow2(8 * |ip| - ones) == 0
  {
    hide Value, Pow2, HostSize;
    if Network(ip, ones) {
      NetworkIsMultiple(ip, ones);
    }
    if ones <= 8 * |ip| && Value(ip) % Pow2(8 * |ip| - ones) == 0 {
      var net := NetworkBytes(ip, ones);
      NetworkPart(ip, net, ones, |ip|);
      assert net[..|ip|] == net && ip[..|ip|] == ip;
      ValueIsInjective(net, ip);
      forall i | 0 <= i < |ip| ensures ip[i] % HostSize(ones, i) == 0 {
        assert net[i] == ip[i];
      }
    }
  }

  /** The addresses of a prefix are the numbers from its network address on, 2^(bits - ones) of them. */
  lemma PrefixIsInterval(ip: seq<Byte>, ones: nat, a: seq<Byte>)
    requires Network(ip, ones) && |a| == |ip|
    ensures InPrefix(ip, ones, a) <==> Value(ip) <= Value(a) < Value(ip) + Pow2(8 * |ip| - ones)
  {
    hide Value, Pow2, HostSize;
    var net := NetworkBytes(a, ones);
    NetworkPart(a, net, ones, |a|);
    assert a[..|a|] == a && net[..|a|] == net;
    NetworkIsMultiple(ip, ones);
    Floor(Value(ip), Value(a), Pow2(8 * |ip| - ones));
    if Value(net) == Value(ip) {
      ValueIsInjective(net, ip);
    }
    if InPrefix(ip, ones, a) {
      assert net == ip;
    }
  }

  lemma ByteRoom(x: Byte, h: nat)
    requires h <= 8 && x % Pow2(h) == 0
    ensures x + Pow2(h) <= 0x100
  {
    hide Pow2;
    SmallPowers();
    Pow2Add(8 - h, h);
    RoomBelow(x, Pow2(8 - h), Pow2(h));
  }

  lemma RoomBelow(x: Byte, c: nat, s: nat)
    requires s > 0 && c * s == 0x100 && x % s == 0
    ensures x + s <= 0x100
  {
    DivMod(x, s);
    if x / s + 1 > c {
      MulMono(c, x / s, s);
    } else {
      MulMono(x / s + 1, c, s);
    }
  }

  lemma RoomAt(ip: seq<Byte>, ones: nat, i: nat)
    requires Network(ip, ones) && i < |ip|
    ensures ip[i] + HostSize(ones, i) <= 0x100
  {
    assert ip[i] % HostSize(ones, i) == 0;
    ByteRoom(ip[i], HostBits(ones, i));
  }

  /** All host bits set. */
  ghost predicate IsLast(ip: seq<Byte>, ones: nat, last: seq<Byte>) {
    |last| == |ip| && forall i :: 0 <= i < |ip| ==> last[i] == ip[i] + HostSize(ones, i) - 1
  }

  lemma {:induction false} LastPart(ip: seq<Byte>, last: seq<Byte>, ones: nat, k: nat)
    requires k <= |ip| && IsLast(ip, ones, last)
    ensures Value(last[..k]) == Value(ip[..k]) + Pow2(HostBitsIn(ones, k)) - 1
  {
    hide Value, Pow2;
    if k > 0 {
      LastPart(ip, last, ones, k - 1);
      ValueNext(ip, k - 1);
      ValueNext(last, k - 1);
      HostPartNext(ones, k - 1);
    } else {
      SmallPowers();
      EmptyValue(ip, last);
    }
  }

  /** The last address is network + 2^(bits - ones) - 1, and the largest of the prefix. */
  lemma LastIsLargest(ip: seq<Byte>, ones: nat, last: seq<Byte>)
    requires Network(ip, ones) && IsLast(ip, ones, last)
    ensures Value(last) == Value(ip) + Pow2(8 * |ip| - ones) - 1
    ensures InPrefix(ip, ones, last)
    ensures forall a :: InPrefix(ip, ones, a) ==> Value(ip) <= Value(a) <= Value(last)
  {
    LastPart(ip, last, ones, |ip|);
    assert ip[..|ip|] == ip && last[..|ip|] == last;
    PrefixIsInterval(ip, ones, last);
    forall a | InPrefix(ip, ones, a) ensures Value(ip) <= Value(a) <= Value(last) {
      PrefixIsInterval(ip, ones, a);
    }
  }

  // ----- Masks -----

  lemma AndHostMask(y: nat, h: nat)
    ensures BitAnd(y, Pow2(h) - 1) == y % Pow2(h)
  {
    DivMod(y, Pow2(h));
    AndLow(y / Pow2(h), y % Pow2(h), h);
  }

  lemma OrHostBits(x: nat, y: nat, h: nat)
    requires x % Pow2(h) == 0 && y < Pow2(h)
    ensures BitOr(x, y) == x + y
  {
    DivMod(x, Pow2(h));
    OrFills(x / Pow2(h), y, h);
  }

  lemma OneLess(c: nat, p: nat)
    requires c > 0
    ensures (c - 1) * p == c * p - p
  {
  }

  /** `and` with a mask of leading ones takes the network bits. */
  lemma AndNetworkMask(x: nat, h: nat, w: nat)
    requires h <= w && x < Pow2(w)
    ensures Pow2(h) <= Pow2(w) && BitAnd(x, Pow2(w) - Pow2(h)) == x - x % Pow2(h)
  {
    var p, k, c := Pow2(h), x / Pow2(h), Pow2(w - h);
    Pow2Grows(h, w);
    Pow2Add(w - h, h);
    hide Pow2, BitAnd;
    DivMod(x, p);
    if k >= c {
      MulMono(c, k, p);
    }
    OneLess(c, p);
    AndHigh(k, x % p, c - 1, h);
    AndOnes(k, w - h);
  }

  lemma AndByteMask(x: Byte, ones: nat, i: nat)
    ensures BitAnd(x, 0x100 - HostSize(ones, i)) == x - x % HostSize(ones, i)
  {
    SmallPowers();
    AndNetworkMask(x, HostBits(ones, i), 8);
  }

  /** An IPv6 address that stands for an IPv4 one: in ::ffff:0:0/96. */
  predicate IsMapped(ip: seq<Byte>) {
    |ip| == 16 && (forall i :: 0 <= i < 10 ==> ip[i] == 0) && ip[10] == 0xFF && ip[11] == 0xFF
  }

  /** The shortest form of an address. */
  function Shortened(ip: seq<Byte>): seq<Byte> {
    if IsMapped(ip) then ip[12..] else ip
  }

  /**
   The library's containment test: compares the masked bytes of the network with those of the
   shortest form of the address, and refuses a form of another length.
   */
  method Contains(ip: seq<Byte>, mask: seq<Byte>, a: seq<Byte>) returns (r: bool)
    requires |ip| == |mask| && !IsMapped(ip)
    ensures var x := Shortened(a);
            r <==> |x| == |ip| && forall i :: 0 <= i < |ip| ==> BitAnd(ip[i], mask[i]) == BitAnd(x[i], mask[i])
  {
    var x := Shortened(a);
    if |x| != |ip| {
      return false;
    }
    for i := 0 to |x|
      invariant forall k :: 0 <= k < i ==> BitAnd(ip[k], mask[k]) == BitAnd(x[k], mask[k])
    {
      if BitAnd(ip[i], mask[i]) != BitAnd(x[i], mask[i]) {
        return false;
      }
    }
    return true;
  }

  /** For a network and its own mask, that comparison is membership in the prefix. */
  lemma ContainsIsInPrefix(ip: seq<Byte>, ones: nat, a: seq<Byte>)
    requires Network(ip, ones) && |a| == |ip|
    ensures var mask := Mask(|ip|, ones);
            InPrefix(ip, ones, a) <==> forall i :: 0 <= i < |ip| ==> BitAnd(ip[i], mask[i]) == BitAnd(a[i], mask[i])
  {
    var mask := Mask(|ip|, ones);
    forall i | 0 <= i < |ip|
      ensures BitAnd(ip[i], mask[i]) == ip[i] && BitAnd(a[i], mask[i]) == a[i] - a[i] % HostSize(ones, i)
    {
      AndByteMask(ip[i], ones, i);
      AndByteMask(a[i], ones, i);
    }
  }

  /** The mask as a number: ones network bits followed by zeros. */
  lemma MaskValue(ones: nat)
    requires ones <= 32
    ensures GetU32(Mask(4, ones), 0) == 0x1_0000_0000 - Pow2(32 - ones)
  {
    hide Pow2, GetU32, Value, Network, InPrefix, HostBits;
    var zeros, mask := Zeros(4), Mask(4, ones);
    var host := seq(4, i requires 0 <= i < 4 => HostSize(ones, i) - 1);
    ZeroIsNetwork(4, ones);
    LastIsLargest(zeros, ones, host);
    Complement(mask, host);
    ZeroValue();
    Value4(host);
    Value4(mask);
  }

  lemma ZeroValue()
    ensures Value(Zeros(4)) == 0
  {
    Value4(Zeros(4));
  }

  lemma ZeroIsNetwork(n: nat, ones: nat)
    requires ones <= 8 * n
    ensures Network(Zeros(n), ones)
  {
    forall i | 0 <= i < n ensures Zeros(n)[i] % HostSize(ones, i) == 0 {
      ZeroMod(HostSize(ones, i));
    }
  }

  lemma ZeroMod(s: nat)
    requires s > 0
    ensures 0 % s == 0
  {
  }

  lemma Complement(mask: seq<Byte>, host: seq<Byte>)
    requires |mask| == |host| == 4 && forall i :: 0 <= i < 4 ==> mask[i] as int + host[i] as int == 0xFF
    ensures GetU32(mask, 0) + GetU32(host, 0) == MAX_U32
  {
  }

  // ----- IPv4 -----

  /** No address is 0; an address of 16 bytes counts by its last four, any other by its first four. */
  method IPToNum(ip: Option<seq<Byte>>) returns (num: U32)
    requires ip.Some? ==> |ip.value| >= 4
    ensures num == if ip.None? then 0 else GetU32(ip.value, if |ip.value| == 16 then 12 else 0)
  {
    if ip.None? {
      return 0;
    }
    if |ip.value| == 16 {
      return GetU32(ip.value, 12);
    }
    return GetU32(ip.value, 0);
  }

  function NumToIP(num: U32): (ip: seq<Byte>)
    ensures |ip| == 4 && GetU32(ip, 0) == num
  {
    PutU32(num)
  }

  /** The last IPv4 address of a network: no 32-bit overflow, all host bits set. */
  method GetLastIP(ip: seq<Byte>, mask: seq<Byte>, ghost ones: nat) returns (last: seq<Byte>)
    requires |ip| == 4 && Network(ip, ones) && mask == Mask(4, ones)
    ensures |last| == 4 && GetU32(last, 0) == GetU32(ip, 0) + Pow2(32 - ones) - 1
  {
    MaskValue(ones);
    NetworkIsMultiple(ip, ones);
    Value4(ip);
    var v, m := GetU32(ip, 0), GetU32(mask, 0);
    OrHostBits(v, MAX_U32 - m, 32 - ones);
    LastFits(ip, ones);
    last := NumToIP(BitOr(v, MAX_U32 - m));
  }

  lemma LastFits(ip: seq<Byte>, ones: nat)
    requires |ip| == 4 && Network(ip, ones)
    ensures GetU32(ip, 0) + Pow2(32 - ones) - 1 <= MAX_U32
  {
    hide Pow2, Value, GetU32, HostSize, Network;
    forall i | 0 <= i < 4 ensures ip[i] + HostSize(ones, i) <= 0x100 {
      RoomAt(ip, ones, i);
    }
    var last := seq(4, i requires 0 <= i < 4 => ip[i] + HostSize(ones, i) - 1);
    LastIsLargest(ip, ones, last);
    Value4(ip);
    Value4(last);
  }

  /**
   A random IPv4 address of a network: the only one of a /32, else any from the first up to but
   not including the last. The containment guard never fails.
   */
  method RandomIP(ip: seq<Byte>, mask: seq<Byte>, ghost ones: nat, draw: Option<nat>) returns (r: Result<seq<Byte>>)
    requires |ip| == 4 && Network(ip, ones) && mask == Mask(4, ones)
    ensures r.Err? <==> ones < 32 && draw.None?
    ensures r.Ok? ==> InPrefix(ip, ones, r.value)
    ensures r.Ok? ==>
              var first, size := GetU32(ip, 0), Pow2(32 - ones);
              if ones == 32 then r.value == ip
              else size > 1 && GetU32(r.value, 0) == first + draw.value % (size - 1)
  {
    hide Pow2, Value, GetU32, HostSize, Network, InPrefix, Mask, IsMapped, Shortened, BitAnd;
    NetworkFits(ip, ones);
    FourBytes(ip);
    var ipMax := GetLastIP(ip, mask, ones);
    var ipMinNum := IPToNum(Some(ip));
    var ipMaxNum := IPToNum(Some(ipMax));
    LastFits(ip, ones);
    HostCount(ones);
    var randIP;
    if ipMinNum == ipMaxNum {
      randIP := NumToIP(ipMinNum);
      SameNumber(randIP, ip);
    } else {
      var rangeSize := ipMaxNum - ipMinNum;
      if draw.None? {
        return Err("generate random IP offset");
      }
      var offset := draw.value % rangeSize;
      randIP := NumToIP(offset + ipMinNum);
    }
    NumberInRange(ip, ones, randIP);
    PassesGuard(ip, ones, randIP);
    var contained := Contains(ip, mask, randIP);
    if contained {
      return Ok(randIP);
    }
    assert false;
  }

  lemma SameNumber(a: seq<Byte>, b: seq<Byte>)
    requires |a| == |b| == 4 && GetU32(a, 0) == GetU32(b, 0)
    ensures a == b
  {
    hide Value, GetU32;
    Value4(a);
    Value4(b);
    ValueIsInjective(a, b);
  }

  /** The numbers of a network's addresses. */
  lemma NumberInRange(ip: seq<Byte>, ones: nat, a: seq<Byte>)
    requires |ip| == |a| == 4 && Network(ip, ones)
    requires GetU32(ip, 0) <= GetU32(a, 0) < GetU32(ip, 0) + Pow2(32 - ones)
    ensures InPrefix(ip, ones, a)
  {
    hide Value, GetU32, Pow2, Network, InPrefix;
    Value4(ip);
    Value4(a);
    PrefixIsInterval(ip, ones, a);
  }

  /** The containment test passes every IPv4 address of the network. */
  lemma PassesGuard(ip: seq<Byte>, ones: nat, a: seq<Byte>)
    requires |ip| == |a| == 4 && Network(ip, ones) && InPrefix(ip, ones, a)
    ensures var x, mask := Shortened(a), Mask(4, ones);
            |x| == |mask| == 4 && forall i :: 0 <= i < 4 ==> BitAnd(ip[i], mask[i]) == BitAnd(x[i], mask[i])
  {
    hide IsMapped, Shortened, BitAnd, HostSize, Network, InPrefix;
    FourBytes(a);
    ContainsIsInPrefix(ip, ones, a);
  }

  lemma FourBytes(ip: seq<Byte>)
    requires |ip| == 4
    ensures !IsMapped(ip) && Shortened(ip) == ip
  {
  }

  lemma NetworkFits(ip: seq<Byte>, ones: nat)
    requires Network(ip, ones)
    ensures ones <= 8 * |ip| && |Mask(|ip|, ones)| == |ip|
  {
  }

  lemma HostCount(ones: nat)
    requires ones <= 32
    ensures Pow2(32 - ones) == 1 <==> ones == 32
  {
    if ones < 32 {
      Pow2Grows(1, 32 - ones);
    }
  }

  // ----- IPv6 -----

  /** A byte with its low bits set, built bit by bit. */
  method HostMask(hostBitInByte: nat) returns (mask: Byte)
    requires hostBitInByte < 8
    ensures mask == Pow2(hostBitInByte) - 1
  {
    mask := 0;
    for b := 0 to hostBitInByte
      invariant mask == Pow2(b) - 1
    {
      OrNextBit(b);
      Pow2Grows(b + 1, 8);
      SmallPowers();
      mask := BitOr(mask, Pow2(b));
    }
  }

  /** The network's bits and the host bits of the random bytes, in every byte. */
  ghost predicate Mixes(ip: seq<Byte>, ones: nat, host: seq<Byte>, r: seq<Byte>) {
    |r| == |ip| == |host| && forall i :: 0 <= i < |ip| ==> r[i] == ip[i] + host[i] % HostSize(ones, i)
  }

  lemma MixOr(x: Byte, y: Byte, h: nat)
    requires h <= 8 && x % Pow2(h) == 0
    ensures x + y % Pow2(h) < 0x100
    ensures BitOr(x, BitAnd(y, Pow2(h) - 1)) == x + y % Pow2(h)
  {
    ByteRoom(x, h);
    AndHostMask(y, h);
    hide Pow2, BitOr, BitAnd;
    DivMod(y, Pow2(h));
    OrHostBits(x, y % Pow2(h), h);
  }

  lemma MixByte(x: Byte, y: Byte, ones: nat, i: nat)
    requires x % HostSize(ones, i) == 0
    ensures x + y % HostSize(ones, i) < 0x100
    ensures HostBits(ones, i) == 8 ==> x == 0 && y % HostSize(ones, i) == y
    ensures HostBits(ones, i) == 0 ==> y % HostSize(ones, i) == 0
    ensures BitOr(x, BitAnd(y, HostSize(ones, i) - 1)) == x + y % HostSize(ones, i)
  {
    SmallPowers();
    HostSizeIs(ones, i);
    hide Pow2, HostSize, BitOr, BitAnd;
    MixOr(x, y, HostBits(ones, i));
  }

  lemma FillByte(x: Byte, ones: nat, i: nat)
    requires x % HostSize(ones, i) == 0
    ensures x + HostSize(ones, i) <= 0x100
    ensures HostBits(ones, i) == 8 ==> x == 0 && HostSize(ones, i) == 0x100
    ensures HostBits(ones, i) == 0 ==> HostSize(ones, i) == 1
    ensures BitOr(x, HostSize(ones, i) - 1) == x + HostSize(ones, i) - 1
  {
    var h := HostBits(ones, i);
    SmallPowers();
    ByteRoom(x, h);
    OrHostBits(x, Pow2(h) - 1, h);
  }

  /** Byte i of the address: kept, replaced, or split inside. */
  method MixedByte(netByte: Byte, hostByte: Byte, ones: nat, i: nat) returns (z: Byte)
    requires netByte % HostSize(ones, i) == 0
    ensures z == netByte + hostByte % HostSize(ones, i)
  {
    hide Pow2, HostSize;
    MixByte(netByte, hostByte, ones, i);
    var byteBit := i * 8;
    if byteBit + 8 <= ones {
      z := netByte;
    } else if byteBit >= ones {
      z := hostByte;
    } else {
      var mask := HostMask(8 - (ones - byteBit));
      HostSizeIs(ones, i);
      z := BitOr(netByte, BitAnd(hostByte, mask));
    }
  }

  lemma OneMix(ip: seq<Byte>, ones: nat, host: seq<Byte>, a: seq<Byte>, b: seq<Byte>)
    requires Mixes(ip, ones, host, a) && Mixes(ip, ones, host, b)
    ensures a == b
  {
    hide HostSize;
  }

  /** These random bytes make an address that stands for an IPv4 one. */
  ghost predicate MakesMapped(ip: seq<Byte>, ones: nat, host: seq<Byte>) {
    exists a :: Mixes(ip, ones, host, a) && IsMapped(a)
  }

  /**
   A random IPv6 address: exactly the network bits kept, exactly the host bits random. The final
   containment test refuses an address that stands for an IPv4 one, and no other.
   */
  method RandomIPv6(netIP: seq<Byte>, ones: nat, random: Option<seq<Byte>>) returns (r: Result<array<Byte>>)
    requires |netIP| == 16 && Network(netIP, ones)
    requires random.Some? ==> |random.value| == 16
    ensures r.Err? <==>
              || IsMapped(netIP)
              || (ones < 128 && (random.None? || MakesMapped(netIP, ones, random.value)))
    ensures r.Ok? && ones == 128 ==> r.value[..] == netIP
    ensures r.Ok? && ones < 128 ==> Mixes(netIP, ones, random.value, r.value[..])
    ensures r.Ok? ==> InPrefix(netIP, ones, r.value[..])
  {
    hide Pow2, HostBits, InPrefix, IsMapped, Network, Mask;
    NetworkBits(netIP, ones);
    if IsMapped(netIP) {
      return Err("CIDR is IPv4, use RandomIP instead");
    }
    var ip := new Byte[16](i requires 0 <= i < 16 => netIP[i]);
    assert ip[..] == netIP;
    var hostBits := 128 - ones;
    if hostBits == 0 {
      PrefixIsInterval(netIP, ones, netIP);
      return Ok(ip);
    }
    if random.None? {
      return Err("generating random bytes");
    }
    var hostBytes := random.value;
    for i := 0 to 16
      invariant forall k :: 0 <= k < i ==> ip[k] == netIP[k] + hostBytes[k] % HostSize(ones, k)
      invariant forall k :: i <= k < 16 ==> ip[k] == netIP[k]
    {
      ip[i] := MixedByte(netIP[i], hostBytes[i], ones, i);
    }
    assert Mixes(netIP, ones, hostBytes, ip[..]);
    MixesIsPrefix(netIP, ones, ip[..]);
    MappedOnlyRefused(netIP, ones, hostBytes, ip[..]);
    var contained := Contains(netIP, Mask(16, ones), ip[..]);
    if contained {
      return Ok(ip);
    }
    return Err("random IPv6 out of range");
  }

  lemma NetworkBits(ip: seq<Byte>, ones: nat)
    requires Network(ip, ones)
    ensures ones <= 8 * |ip| && forall i :: 0 <= i < |ip| ==> ip[i] % HostSize(ones, i) == 0
    ensures |Mask(|ip|, ones)| == |ip|
  {
  }

  /** What the containment test says of a mixed address. */
  lemma MappedOnlyRefused(netIP: seq<Byte>, ones: nat, host: seq<Byte>, a: seq<Byte>)
    requires |netIP| == 16 && Network(netIP, ones) && Mixes(netIP, ones, host, a) && InPrefix(netIP, ones, a)
    ensures IsMapped(a) <==> MakesMapped(netIP, ones, host)
    ensures var mask, x := Mask(16, ones), Shortened(a);
            |mask| == 16
            && (!IsMapped(a) <==>
                  |x| == 16 && forall i :: 0 <= i < 16 ==> BitAnd(netIP[i], mask[i]) == BitAnd(x[i], mask[i]))
  {
    hide Mixes, InPrefix, Network, HostSize, BitAnd;
    NetworkFits(netIP, ones);
    PrefixSize(netIP, ones, a);
    ContainsIsInPrefix(netIP, ones, a);
    if MakesMapped(netIP, ones, host) {
      var b :| Mixes(netIP, ones, host, b) && IsMapped(b);
      OneMix(netIP, ones, host, a, b);
    }
  }

  lemma PrefixSize(ip: seq<Byte>, ones: nat, a: seq<Byte>)
    requires InPrefix(ip, ones, a)
    ensures |a| == |ip|
  {
  }

  /** The first address that stands for an IPv4 one. */
  const FIRST_MAPPED: seq<Byte> := [0, 0, 0, 0, 0, 0, 0, 0, 0, 0, 0xFF, 0xFF, 0, 0, 0, 0]

  lemma FirstMappedValue()
    ensures Value(FIRST_MAPPED) == 0xFFFF_0000_0000
  {
    var b := FIRST_MAPPED;
    assert Value(b[..0]) == 0;
    hide Value;
    for k := 0 to 10
      invariant Value(b[..k]) == 0
    {
      ValueNext(b, k);
    }
    ValueNext(b, 10);
    ValueNext(b, 11);
    ValueNext(b, 12);
    ValueNext(b, 13);
    ValueNext(b, 14);
    ValueNext(b, 15);
    assert b[..16] == b;
  }

  lemma MappedPrefix(ip: seq<Byte>)
    requires |ip| == 16
    ensures Network(FIRST_MAPPED, 96) && (IsMapped(ip) <==> InPrefix(FIRST_MAPPED, 96, ip))
  {
    forall i | 0 <= i < 12 ensures HostSize(96, i) == 1 {
      FixedByte(96, i);
    }
    forall i | 12 <= i < 16 ensures HostSize(96, i) == 0x100 {
      SmallPowers();
    }
    hide HostSize;
  }

  /** As numbers, the addresses that stand for IPv4 ones are those of ::ffff:0:0/96. */
  lemma MappedIs(ip: seq<Byte>)
    requires |ip| == 16
    ensures IsMapped(ip) <==> 0xFFFF_0000_0000 <= Value(ip) < 0x1_0000_0000_0000
  {
    hide Value, Network, InPrefix, IsMapped;
    MappedPrefix(ip);
    PrefixIsInterval(FIRST_MAPPED, 96, ip);
    FirstMappedValue();
    Pow2Add(16, 16);
    Pow2Add(8, 8);
    SmallPowers();
  }

  /** Some random bytes are refused exactly when the prefix holds that address. */
  lemma RefusesSome(netIP: seq<Byte>, ones: nat)
    requires |netIP| == 16 && Network(netIP, ones) && !IsMapped(netIP)
    ensures (exists host :: MakesMapped(netIP, ones, host)) <==> InPrefix(netIP, ones, FIRST_MAPPED)
  {
    hide HostSize, Network;
    if InPrefix(netIP, ones, FIRST_MAPPED) {
      MixesIsPrefix(netIP, ones, FIRST_MAPPED);
      assert MakesMapped(netIP, ones, FIRST_MAPPED);
    }
    if host :| MakesMapped(netIP, ones, host) {
      var a :| Mixes(netIP, ones, host, a) && IsMapped(a);
      MixesIsPrefix(netIP, ones, a);
      MappedAlike(netIP, ones, a);
    }
  }

  /** In a prefix of fewer than 96 bits the last four bytes are free. */
  lemma MappedAlike(netIP: seq<Byte>, ones: nat, a: seq<Byte>)
    requires InPrefix(netIP, ones, a) && IsMapped(a) && !IsMapped(netIP)
    ensures InPrefix(netIP, ones, FIRST_MAPPED)
  {
    hide HostSize;
    forall i | 0 <= i < 16 ensures FIRST_MAPPED[i] - FIRST_MAPPED[i] % HostSize(ones, i) == netIP[i] {
      if i < 12 {
        assert FIRST_MAPPED[i] == a[i];
      } else if ones < 96 {
        WholeByte(ones, i);
      } else {
        forall k | 0 <= k < 12 ensures netIP[k] == a[k] {
          FixedByte(ones, k);
        }
        assert false;
      }
    }
  }

  lemma WholeByte(ones: nat, i: nat)
    requires ones < 96 && 12 <= i
    ensures HostSize(ones, i) == 0x100
  {
    SmallPowers();
  }

  lemma FixedByte(ones: nat, i: nat)
    requires ones >= 96 && i < 12
    ensures HostSize(ones, i) == 1
  {
    SmallPowers();
  }

  lemma HostSizeIs(ones: nat, i: nat)
    ensures HostSize(ones, i) == Pow2(HostBits(ones, i))
  {
  }

  lemma HostBitsAt(ones: nat, i: nat)
    ensures 8 * i + 8 <= ones ==> HostBits(ones, i) == 0
    ensures 8 * i >= ones ==> HostBits(ones, i) == 8
    ensures 8 * i < ones < 8 * i + 8 ==> HostBits(ones, i) == 8 - (ones - 8 * i)
  {
  }

  /** Bytes that add up in every place make numbers that add up. */
  lemma {:induction false} ValuesAdd(a: seq<Byte>, b: seq<Byte>, c: seq<Byte>, d: seq<Byte>)
    requires |a| == |b| == |c| == |d|
    requires forall i :: 0 <= i < |a| ==> a[i] as int + b[i] as int == c[i] as int + d[i] as int
    ensures Value(a) + Value(b) == Value(c) + Value(d)
  {
    if a == [] {
    } else {
      var n := |a| - 1;
      ValuesAdd(a[..n], b[..n], c[..n], d[..n]);
    }
  }

  /** As a number, a mixed address is the network's plus the random number's low 8 * |ip| - ones bits. */
  lemma MixesIs(ip: seq<Byte>, ones: nat, host: seq<Byte>, r: seq<Byte>)
    requires Network(ip, ones) && Mixes(ip, ones, host, r)
    ensures Value(r) == Value(ip) + Value(host) % Pow2(8 * |ip| - ones)
  {
    hide Value, Pow2, HostSize;
    var net := NetworkBytes(host, ones);
    NetworkPart(host, net, ones, |host|);
    assert net[..|host|] == net && host[..|host|] == host;
    ValuesAdd(r, net, ip, host);
  }

  /** The last IPv6 address: every host bit set. */
  method GetLastIPv6(netIP: seq<Byte>, ones: nat) returns (ip: array<Byte>)
    requires |netIP| == 16 && Network(netIP, ones)
    ensures IsLast(netIP, ones, ip[..])
    ensures Value(ip[..]) == Value(netIP) + Pow2(128 - ones) - 1
  {
    hide Pow2, HostSize, Value, HostBits, InPrefix;
    ip := new Byte[16](i requires 0 <= i < 16 => netIP[i]);
    for i := 0 to 16
      invariant forall k :: 0 <= k < i ==> ip[k] == netIP[k] + HostSize(ones, k) - 1
      invariant forall k :: i <= k < 16 ==> ip[k] == netIP[k]
    {
      FillByte(netIP[i], ones, i);
      HostBitsAt(ones, i);
      var byteBit := i * 8;
      if byteBit + 8 <= ones {
      } else if byteBit >= ones {
        ip[i] := 0xff;
      } else {
        var mask := HostMask(8 - (ones - byteBit));
        HostSizeIs(ones, i);
        ip[i] := BitOr(netIP[i], mask);
      }
    }
    assert IsLast(netIP, ones, ip[..]);
    LastIsLargest(netIP, ones, ip[..]);
  }

  /** Mixed addresses lie in the prefix, and every address of the prefix is one, for its own bytes. */
  lemma MixesIsPrefix(ip: seq<Byte>, ones: nat, r: seq<Byte>)
    requires Network(ip, ones)
    ensures InPrefix(ip, ones, r) <==> exists host :: Mixes(ip, ones, host, r)
    ensures InPrefix(ip, ones, r) ==> Mixes(ip, ones, r, r)
  {
    if InPrefix(ip, ones, r) {
      assert Mixes(ip, ones, r, r);
    }
    forall host | Mixes(ip, ones, host, r) ensures InPrefix(ip, ones, r) {
      forall i | 0 <= i < |ip| ensures r[i] - r[i] % HostSize(ones, i) == ip[i] {
        var s := HostSize(ones, i);
        DivMod(ip[i], s);
        ModUnique(r[i], s, ip[i] as int / s, host[i] as int % s);
      }
    }
  }
}
