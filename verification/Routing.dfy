/** RoutingInfo: the address tables of a Host and the longest-prefix match. */
module Routing {
  import opened Options
  import opened Checksum

  type Ipv4 = a: seq<Byte> | |a| == 4 witness [0, 0, 0, 0]
  type Mac = a: seq<Byte> | |a| == 6 witness [0, 0, 0, 0, 0, 0]

  // ----- Shifts and masks -----

  function Shr(a: nat, r: nat): nat
    decreases r
  {
    if r == 0 then a else Shr(a / 2, r - 1)
  }

  function Shl(a: nat, r: nat): nat {
    if r == 0 then a else 2 * Shl(a, r - 1)
  }

  function BitAnd(a: nat, b: nat): nat {
    if a == 0 || b == 0 then 0 else 2 * BitAnd(a / 2, b / 2) + (if a % 2 == 1 && b % 2 == 1 then 1 else 0)
  }

  /** uint8_t full = 0xFF; full >>= remove; full <<= remove. */
  function HighMask(remove: nat): nat {
    Shl(Shr(0xFF, remove), remove) % 256
  }

  function Ones(j: nat): nat {
    if j == 0 then 0 else 2 * Ones(j - 1) + 1
  }

  lemma {:induction false} ShrOfOnes(j: nat, r: nat)
    requires r <= j
    ensures Shr(Ones(j), r) == Ones(j - r)
    decreases r
  {
    if r > 0 {
      ShrOfOnes(j - 1, r - 1);
    }
  }

  lemma {:induction false} ShrBound(x: nat, j: nat, r: nat)
    requires r <= j && x <= Ones(j)
    ensures Shr(x, r) <= Ones(j - r)
    decreases r
  {
    if r > 0 {
      ShrBound(x / 2, j - 1, r - 1);
    }
  }

  lemma {:induction false} ShlOfOnesBound(j: nat, r: nat)
    ensures Shl(Ones(j), r) <= Ones(j + r)
    decreases r
  {
    if r > 0 {
      ShlOfOnesBound(j, r - 1);
    }
  }

  lemma {:induction false} AndOfShifted(a: nat, k: nat, r: nat)
    ensures BitAnd(a, Shl(k, r)) == Shl(BitAnd(Shr(a, r), k), r)
    decreases r
  {
    if r > 0 {
      AndOfShifted(a / 2, k, r - 1);
      AndOfDouble(a, Shl(k, r - 1));
    }
  }

  lemma AndOfDouble(a: nat, m: nat)
    ensures BitAnd(a, 2 * m) == 2 * BitAnd(a / 2, m)
  {
    assert (2 * m) / 2 == m && (2 * m) % 2 == 0;
  }

  lemma {:induction false} AndOfOnes(a: nat, j: nat)
    requires a <= Ones(j)
    ensures BitAnd(a, Ones(j)) == a
    decreases j
  {
    if j > 0 {
      AndOfOnes(a / 2, j - 1);
    }
  }

  lemma {:induction false} ShlInjective(a: nat, b: nat, r: nat)
    ensures Shl(a, r) == Shl(b, r) <==> a == b
    decreases r
  {
    if r > 0 {
      ShlInjective(a, b, r - 1);
    }
  }

  lemma OnesOfEight()
    ensures Ones(8) == 255
  {
    assert Ones(4) == 15;
  }

  lemma MaskIsShiftedOnes(remove: nat)
    requires 1 <= remove <= 7
    ensures HighMask(remove) == Shl(Ones(8 - remove), remove)
  {
    OnesOfEight();
    ShrOfOnes(8, remove);
    ShlOfOnesBound(8 - remove, remove);
  }

  lemma MaskClears(x: nat, j: nat, r: nat)
    requires Shr(x, r) <= Ones(j)
    ensures BitAnd(x, Shl(Ones(j), r)) == Shl(Shr(x, r), r)
  {
    AndOfShifted(x, Ones(j), r);
    AndOfOnes(Shr(x, r), j);
  }

  /** Masking a byte clears exactly its lowest `remove` bits. */
  lemma MaskedByte(x: Byte, remove: nat)
    requires 1 <= remove <= 7
    ensures BitAnd(x, HighMask(remove)) == Shl(Shr(x, remove), remove)
  {
    OnesOfEight();
    MaskIsShiftedOnes(remove);
    ShrBound(x, 8, remove);
    MaskClears(x, 8 - remove, remove);
  }

  lemma MaskedBytesEqual(x: Byte, y: Byte, remove: nat)
    requires 1 <= remove <= 7
    ensures BitAnd(x, HighMask(remove)) == BitAnd(y, HighMask(remove)) <==> Shr(x, remove) == Shr(y, remove)
  {
    MaskedByte(x, remove);
    MaskedByte(y, remove);
    ShlInjective(Shr(x, remove), Shr(y, remove), remove);
  }

  // ----- Addresses as numbers -----

  /** The number an address denotes, first byte most significant. */
  function Value(a: seq<Byte>): nat
    decreases |a|
  {
    if a == [] then 0 else Value(a[..|a| - 1]) * 256 + a[|a| - 1]
  }

  lemma {:induction false} ValueInjective(a: seq<Byte>, b: seq<Byte>)
    requires |a| == |b|
    ensures Value(a) == Value(b) <==> a == b
    decreases |a|
  {
    if a != [] {
      var n := |a| - 1;
      ValueInjective(a[..n], b[..n]);
      assert a == a[..n] + [a[n]] && b == b[..n] + [b[n]];
    }
  }

  lemma {:induction false} ShrAdd(x: nat, a: nat, b: nat)
    ensures Shr(x, a + b) == Shr(Shr(x, a), b)
    decreases a
  {
    if a > 0 {
      ShrAdd(x / 2, a - 1, b);
    }
  }

  lemma DropByte(v: nat, x: Byte, k: nat)
    requires k >= 8
    ensures Shr(v * 256 + x, k) == Shr(v, k - 8)
  {
    ShrAdd(v * 256 + x, 8, k - 8);
    ShrEight(v * 256 + x);
  }

  lemma ShrEight(y: nat)
    ensures Shr(y, 8) == y / 256
  {
    ShrAdd(y, 4, 4);
    ShrFour(y);
    ShrFour(y / 16);
  }

  lemma ShrFour(y: nat)
    ensures Shr(y, 4) == y / 16
  {
    ShrAdd(y, 2, 2);
    assert Shr(y, 2) == y / 2 / 2;
    assert Shr(y / 4, 2) == y / 4 / 2 / 2;
  }

  /** Below a byte, shifting compares the higher bytes whole and the last one shifted. */
  lemma {:induction false} ShiftWithin(u: nat, v: nat, x: nat, y: nat, k: nat, b: nat)
    requires k <= b && x <= Ones(b) && y <= Ones(b)
    ensures Shr(Shl(u, b) + x, k) == Shr(Shl(v, b) + y, k) <==> u == v && Shr(x, k) == Shr(y, k)
    decreases k
  {
    if k == 0 {
      ShlSplit(u, v, x, y, b);
    } else {
      assert (Shl(u, b) + x) / 2 == Shl(u, b - 1) + x / 2;
      assert (Shl(v, b) + y) / 2 == Shl(v, b - 1) + y / 2;
      ShiftWithin(u, v, x / 2, y / 2, k - 1, b - 1);
    }
  }

  lemma {:induction false} ShlSplit(u: nat, v: nat, x: nat, y: nat, b: nat)
    requires x <= Ones(b) && y <= Ones(b)
    ensures Shl(u, b) + x == Shl(v, b) + y <==> u == v && x == y
    decreases b
  {
    if b > 0 {
      ShlSplit(u, v, x / 2, y / 2, b - 1);
    }
  }

  lemma ShlTwo(v: nat, r: nat)
    ensures Shl(v, r + 2) == 4 * Shl(v, r)
  {
    assert Shl(v, r + 2) == 2 * Shl(v, r + 1);
  }

  lemma ShlEight(v: nat)
    ensures Shl(v, 8) == v * 256
  {
    ShlTwo(v, 0);
    ShlTwo(v, 2);
    ShlTwo(v, 4);
    ShlTwo(v, 6);
  }

  /** The first `p` bits agree, as the source compares them: whole bytes, then a masked one. */
  ghost predicate BytesAgree(a: seq<Byte>, m: seq<Byte>, p: nat)
    requires |a| == |m| && p <= 8 * |a|
  {
    && (forall i :: 0 <= i < p / 8 ==> a[i] == m[i])
    && (p % 8 > 0 ==> Shr(a[p / 8], 8 - p % 8) == Shr(m[p / 8], 8 - p % 8))
  }

  lemma ValueSnoc(a: seq<Byte>)
    requires a != []
    ensures Value(a) == Value(a[..|a| - 1]) * 256 + a[|a| - 1]
  {
  }

  lemma EarlierBytesAgree(a: seq<Byte>, m: seq<Byte>, p: nat)
    requires |a| == |m| && a != [] && p <= 8 * |a| - 8
    ensures BytesAgree(a, m, p) <==> BytesAgree(a[..|a| - 1], m[..|a| - 1], p)
  {
  }

  lemma ShiftedEarlier(a: seq<Byte>, k: nat)
    requires a != [] && k >= 8
    ensures Shr(Value(a), k) == Shr(Value(a[..|a| - 1]), k - 8)
  {
    ValueSnoc(a);
    DropByte(Value(a[..|a| - 1]), a[|a| - 1], k);
  }

  lemma ShiftWithinByte(u: nat, v: nat, x: Byte, y: Byte, k: nat)
    requires k < 8
    ensures Shr(u * 256 + x, k) == Shr(v * 256 + y, k) <==> u == v && Shr(x, k) == Shr(y, k)
  {
    OnesOfEight();
    ShlEight(u);
    ShlEight(v);
    ShiftWithin(u, v, x, y, k, 8);
  }

  lemma ShiftedLast(a: seq<Byte>, m: seq<Byte>, k: nat)
    requires |a| == |m| && a != [] && k < 8
    ensures var n := |a| - 1;
      Shr(Value(a), k) == Shr(Value(m), k) <==> a[..n] == m[..n] && Shr(a[n], k) == Shr(m[n], k)
  {
    var n := |a| - 1;
    ValueSnoc(a);
    ValueSnoc(m);
    ShiftWithinByte(Value(a[..n]), Value(m[..n]), a[n], m[n], k);
    ValueInjective(a[..n], m[..n]);
  }

  function Pow2(k: nat): (r: nat)
    ensures r > 0
  {
    if k == 0 then 1 else 2 * Pow2(k - 1)
  }

  lemma DivideTwice(x: nat, a: nat, m: nat)
    requires a > 0 && m > 0
    ensures x / a / m == x / (a * m)
  {
    var y, z := x / a, x % a;
    var q, r := y / m, y % m;
    assert y == q * m + r;
    Regroup(x, a, m, q, r, z);
    QuotientIs(x, a * m, q, a * r + z);
  }

  lemma Regroup(x: nat, a: nat, m: nat, q: nat, r: nat, z: nat)
    requires x == a * (q * m + r) + z && z < a && r < m
    ensures a * r + z < a * m && x == q * (a * m) + (a * r + z)
  {
    assert a * (r + 1) <= a * m;
  }

  lemma QuotientIs(x: nat, n: nat, q: nat, r: nat)
    requires x == q * n + r && r < n
    ensures x / n == q
  {
    var d := x / n - q;
    assert x == (x / n) * n + x % n;
    assert d * n == r - x % n;
    if d != 0 {
      LargeMultiple(d, n);
    }
  }

  lemma LargeMultiple(d: int, n: int)
    requires d != 0 && n > 0
    ensures d * n >= n || d * n <= -n
  {
    if d > 0 {
      assert d * n >= n;
    } else {
      assert d * n <= -n;
    }
  }

  /** Shifting right is division by a power of two. */
  lemma {:induction false} ShrIsDivision(x: nat, k: nat)
    ensures Shr(x, k) == x / Pow2(k)
    decreases k
  {
    if k > 0 {
      ShrIsDivision(x / 2, k - 1);
      DivideTwice(x, 2, Pow2(k - 1));
    }
  }

  /** Comparing bytes and a masked byte is comparing the addresses shifted right. */
  lemma {:induction false} BytesAgreeIffShifted(a: seq<Byte>, m: seq<Byte>, p: nat)
    requires |a| == |m| && p <= 8 * |a|
    ensures BytesAgree(a, m, p) <==> Shr(Value(a), 8 * |a| - p) == Shr(Value(m), 8 * |a| - p)
    decreases |a|
  {
    if a != [] {
      var n, k := |a| - 1, 8 * |a| - p;
      if k >= 8 {
        BytesAgreeIffShifted(a[..n], m[..n], p);
        ShiftedEarlier(a, k);
        ShiftedEarlier(m, k);
        EarlierBytesAgree(a, m, p);
      } else {
        ShiftedLast(a, m, k);
        LastByteAgrees(a, m, p);
      }
    }
  }

  lemma LastByteAgrees(a: seq<Byte>, m: seq<Byte>, p: nat)
    requires |a| == |m| && a != [] && 8 * |a| - 8 < p <= 8 * |a|
    ensures var n := |a| - 1; var k := 8 * |a| - p;
      BytesAgree(a, m, p) <==> a[..n] == m[..n] && Shr(a[n], k) == Shr(m[n], k)
  {
    var n, k := |a| - 1, 8 * |a| - p;
    if k == 0 {
      assert p / 8 == |a| && p % 8 == 0;
      assert a[..n] == m[..n] && a[n] == m[n] ==> forall i :: 0 <= i < |a| ==> a[i] == m[i] by {
        if a[..n] == m[..n] && a[n] == m[n] {
          forall i | 0 <= i < |a| ensures a[i] == m[i] {
            if i < n {
              assert a[i] == a[..n][i] && m[i] == m[..n][i];
            }
          }
        }
      }
    } else {
      assert p / 8 == n && p % 8 == 8 - k;
      assert (forall i :: 0 <= i < n ==> a[i] == m[i]) <==> a[..n] == m[..n];
    }
  }

  // ----- The table -----

  datatype RouteEntry = RouteEntry(mask: Ipv4, prefix: int, port: int)
  datatype MacEntry = MacEntry(mac: Mac, port: int)
  datatype ArpEntry = ArpEntry(ip: Ipv4, mac: Mac)

  /** C's division and remainder by 8, truncating toward zero. */
  function TruncDiv8(p: int): int {
    if p >= 0 then p / 8 else -((-p) / 8)
  }

  function TruncMod8(p: int): int {
    if p >= 0 then p % 8 else -((-p) % 8)
  }

  /** A route applies: its prefix is positive and the first `prefix` bits of the two
      32-bit addresses are the same. */
  predicate Applies(e: RouteEntry, ip: Ipv4) {
    1 <= e.prefix <= 32 && Shr(Value(ip), 32 - e.prefix) == Shr(Value(e.mask), 32 - e.prefix)
  }

  /** As numbers: the two addresses agree after division by 2^(32 - prefix). */
  lemma AppliesByDivision(e: RouteEntry, ip: Ipv4)
    ensures Applies(e, ip) <==> 1 <= e.prefix <= 32 && Value(ip) / Pow2(32 - e.prefix) == Value(e.mask) / Pow2(32 - e.prefix)
  {
    if 1 <= e.prefix <= 32 {
      ShrIsDivision(Value(ip), 32 - e.prefix);
      ShrIsDivision(Value(e.mask), 32 - e.prefix);
    }
  }

  /** `port` is that of the longest applicable route, the earliest among equals; 0 if none applies. */
  ghost predicate IsBestPort(routes: seq<RouteEntry>, ip: Ipv4, port: int) {
    if exists i :: 0 <= i < |routes| && Applies(routes[i], ip) then
      exists i :: 0 <= i < |routes| && Wins(routes, ip, i) && port == routes[i].port
    else port == 0
  }

  ghost predicate Wins(routes: seq<RouteEntry>, ip: Ipv4, i: nat)
    requires i < |routes|
  {
    && Applies(routes[i], ip)
    && (forall j :: 0 <= j < |routes| && Applies(routes[j], ip) ==>
          routes[j].prefix < routes[i].prefix || (routes[j].prefix == routes[i].prefix && i <= j))
  }

  /** At most one port is best. */
  lemma BestPortIsUnique(routes: seq<RouteEntry>, ip: Ipv4, p: int, q: int)
    requires IsBestPort(routes, ip, p) && IsBestPort(routes, ip, q)
    ensures p == q
  {
    if exists i :: 0 <= i < |routes| && Applies(routes[i], ip) {
      var i :| 0 <= i < |routes| && Wins(routes, ip, i) && p == routes[i].port;
      var j :| 0 <= j < |routes| && Wins(routes, ip, j) && q == routes[j].port;
      assert i <= j && j <= i;
    }
  }

  /** Adding a route changes the lookup exactly for the addresses it applies to and for
      which no applicable route is as long. */
  lemma AddedRoute(routes: seq<RouteEntry>, e: RouteEntry, ip: Ipv4, p: int)
    requires IsBestPort(routes, ip, p)
    ensures IsBestPort(routes + [e], ip,
      if Applies(e, ip) && !(exists j :: 0 <= j < |routes| && Applies(routes[j], ip) && routes[j].prefix >= e.prefix) then e.port else p)
  {
    if Applies(e, ip) && !(exists j :: 0 <= j < |routes| && Applies(routes[j], ip) && routes[j].prefix >= e.prefix) {
      LastWins(routes, e, ip);
    } else if exists i :: 0 <= i < |routes| && Applies(routes[i], ip) {
      var i :| 0 <= i < |routes| && Wins(routes, ip, i) && p == routes[i].port;
      StillWins(routes, e, ip, i);
    }
  }

  lemma LastWins(routes: seq<RouteEntry>, e: RouteEntry, ip: Ipv4)
    requires Applies(e, ip) && forall j :: 0 <= j < |routes| && Applies(routes[j], ip) ==> routes[j].prefix < e.prefix
    ensures IsBestPort(routes + [e], ip, e.port)
  {
    var all, n := routes + [e], |routes|;
    assert all[n] == e && Applies(all[n], ip) && Wins(all, ip, n);
  }

  lemma StillWins(routes: seq<RouteEntry>, e: RouteEntry, ip: Ipv4, i: nat)
    requires i < |routes| && Wins(routes, ip, i) && (Applies(e, ip) ==> e.prefix <= routes[i].prefix)
    ensures IsBestPort(routes + [e], ip, routes[i].port)
  {
    var all := routes + [e];
    assert all[i] == routes[i] && Applies(all[i], ip) && Wins(all, ip, i);
  }

  class RoutingInfo {
    var macs: seq<MacEntry>
    var arps: seq<ArpEntry>
    var routes: seq<RouteEntry>

    constructor ()
      ensures macs == [] && arps == [] && routes == []
    {
      macs, arps, routes := [], [], [];
    }

    method SetRoutingTable(mask: Ipv4, prefix: int, port: int)
      modifies this`routes
      ensures routes == old(routes) + [RouteEntry(mask, prefix, port)]
    {
      routes := routes + [RouteEntry(mask, prefix, port)];
    }

    method GetMACAddr(port: int) returns (r: Option<Mac>)
      ensures r.None? <==> forall i :: 0 <= i < |macs| ==> macs[i].port != port
      ensures r.Some? ==> exists i :: 0 <= i < |macs| && macs[i] == MacEntry(r.value, port) && forall j :: 0 <= j < i ==> macs[j].port != port
    {
      for i := 0 to |macs|
        invariant forall j :: 0 <= j < i ==> macs[j].port != port
      {
        if macs[i].port == port {
          return Some(macs[i].mac);
        }
      }
      r := None;
    }

    method GetARPTable(ip: Ipv4) returns (r: Option<Mac>)
      ensures r.None? <==> forall i :: 0 <= i < |arps| ==> arps[i].ip != ip
      ensures r.Some? ==> exists i :: 0 <= i < |arps| && arps[i] == ArpEntry(ip, r.value) && forall j :: 0 <= j < i ==> arps[j].ip != ip
    {
      for i := 0 to |arps|
        invariant forall j :: 0 <= j < i ==> arps[j].ip != ip
      {
        if ip == arps[i].ip {
          return Some(arps[i].mac);
        }
      }
      r := None;
    }

    /** The inner loop and the masked byte of getRoutingTable. */
    method Matches(e: RouteEntry, ip: Ipv4) returns (matches: bool)
      requires e.prefix <= 32
      ensures matches <==> e.prefix <= 0 || Applies(e, ip)
    {
      matches := true;
      var k := 0;
      while k < TruncDiv8(e.prefix)
        invariant 0 <= k <= 4 && (if e.prefix >= 0 then k <= TruncDiv8(e.prefix) else k == 0)
        invariant matches <==> forall i :: 0 <= i < k ==> ip[i] == e.mask[i]
      {
        if ip[k] != e.mask[k] {
          matches := false;
        }
        k := k + 1;
      }
      var remaining := TruncMod8(e.prefix);
      if remaining > 0 {
        var remove := 8 - remaining;
        var at := TruncDiv8(e.prefix);
        MaskedBytesEqual(ip[at], e.mask[at], remove);
        if BitAnd(ip[at], HighMask(remove)) != BitAnd(e.mask[at], HighMask(remove)) {
          matches := false;
        }
      }
      if e.prefix >= 1 {
        BytesAgreeIffShifted(ip, e.mask, e.prefix);
      }
    }

    /** getRoutingTable is the longest-prefix match on 32-bit addresses.  A prefix above 32
        would read past the address in the source. */
    method GetRoutingTable(ip: Ipv4) returns (port: int)
      requires forall i :: 0 <= i < |routes| ==> routes[i].prefix <= 32
      ensures IsBestPort(routes, ip, port)
    {
      var current := 0;
      port := 0;
      ghost var best := 0;
      for i := 0 to |routes|
        invariant 0 <= current
        invariant current == 0 ==> port == 0 && forall j :: 0 <= j < i ==> !Applies(routes[j], ip)
        invariant current > 0 ==> best < i && Wins(routes[..i], ip, best) && port == routes[best].port && current == routes[best].prefix
      {
        var matches := Matches(routes[i], ip);
        if matches && routes[i].prefix > current {
          current := routes[i].prefix;
          port := routes[i].port;
          best := i;
        }
      }
      assert routes[..|routes|] == routes;
    }
  }
}
