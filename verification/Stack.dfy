/** The IPv4 and Ethernet modules: building the headers of an outgoing packet in place,
    checking them at the other end, and the round trip from one transport module to its
    namesake on the peer. */
module Stack {
  import opened Options
  import opened Checksum
  import opened Routing

  datatype Transport = TCP | UDP | OSPF

  function Protocol(t: Transport): Byte {
    match t
    case TCP => 0x06
    case UDP => 0x11
    case OSPF => 0x59
  }

  /** What IPv4 does with a packet from Ethernet. */
  datatype Verdict = WrongChecksum | Ignored | Deliver(to: Transport, warned: bool)

  // ----- The header as a value -----

  /** The option-less header of section 3.1 of RFC 791 with a zero checksum field. */
  function Blank(packet: seq<Byte>, t: Transport, id: nat): (h: seq<Byte>)
    requires |packet| >= 34 && id < 65536
    ensures |h| == 20
  {
    var size := (|packet| - 14) % 65536;
    [0x45, 0, size / 256, size % 256, id / 256, id % 256, 0x40, 0, 64, Protocol(t), 0, 0] + packet[26..34]
  }

  function HeaderChecksum(h: seq<Byte>): (c: nat)
    ensures c < 65536
  {
    65535 - OnesSum(h)
  }

  /** A header with its checksum filled in. */
  function Sealed(b: seq<Byte>): (h: seq<Byte>)
    requires |b| == 20
    ensures |h| == 20
  {
    var c := HeaderChecksum(b);
    b[10 := c / 256][11 := c % 256]
  }

  function Header(packet: seq<Byte>, t: Transport, id: nat): (h: seq<Byte>)
    requires |packet| >= 34 && id < 65536
    ensures |h| == 20
  {
    Sealed(Blank(packet, t, id))
  }

  function WithHeader(packet: seq<Byte>, t: Transport, id: nat): (r: seq<Byte>)
    requires |packet| >= 34 && id < 65536
    ensures |r| == |packet|
  {
    packet[..14] + Header(packet, t, id) + packet[34..]
  }

  /** The receiving side of packetArrived. */
  function Judge(packet: seq<Byte>): Verdict
    requires |packet| >= 34
  {
    var sum := OnesSum(packet[14..34]);
    if sum != 0xFFFF && sum != 0 then WrongChecksum
    else if packet[23] == 0x06 then Deliver(TCP, sum == 0)
    else if packet[23] == 0x11 then Deliver(UDP, sum == 0)
    else if packet[23] == 0x59 then Deliver(OSPF, sum == 0)
    else Ignored
  }

  lemma SumWithField(b: seq<Byte>, c: nat)
    requires |b| == 20 && b[10] == 0 && b[11] == 0 && c < 65536
    ensures var h: seq<Byte> := b[10 := c / 256][11 := c % 256]; WordSum(h) == WordSum(b) + c
  {
    var field: seq<Byte> := [c / 256, c % 256];
    var h: seq<Byte> := b[10 := c / 256][11 := c % 256];
    assert b == b[..10] + ([0, 0] + b[12..]);
    assert h == b[..10] + (field + b[12..]);
    ReplaceWords([], b[..10], [0, 0], field, b[12..]);
    assert [] + b == b && [] + h == h;
    TwoBytes([0, 0]);
    TwoBytes(field);
  }

  /** The header that IPv4 builds sums to exactly 0xFFFF, never to 0. */
  lemma BuiltHeaderSums(packet: seq<Byte>, t: Transport, id: nat)
    requires |packet| >= 34 && id < 65536
    ensures OnesSum(Header(packet, t, id)) == 0xFFFF
  {
    var b := Blank(packet, t, id);
    var c := HeaderChecksum(b);
    SumWithField(b, c);
    OnesSumIsCanon(b);
    OnesSumIsCanon(Header(packet, t, id));
    ZeroSum(b);
    assert b[0] == 0x45;
    ComplementSums(WordSum(b));
  }

  lemma HeaderBytes(b: seq<Byte>, packet: seq<Byte>, t: Transport, id: nat)
    requires |packet| >= 34 && id < 65536 && |b| == 20
    requires b[0] == 0x45 && b[1] == 0 && Word(b[2], b[3]) == (|packet| - 14) % 65536 && Word(b[4], b[5]) == id
    requires b[6] == 0x40 && b[7] == 0 && b[8] == 64 && b[9] == Protocol(t) && b[10] == 0 && b[11] == 0
    requires b[12..] == packet[26..34]
    ensures b == Blank(packet, t, id)
  {
    assert b == b[..12] + b[12..];
    assert b[..12] == Blank(packet, t, id)[..12];
  }

  /** A correct header with one aligned word replaced is rejected if and only if the two
      words differ modulo 65535, that is, differ and are not 0x0000 and 0xFFFF. */
  lemma HeaderChangeIsRejected(frame: seq<Byte>, at: nat, w: seq<Byte>)
    requires |frame| >= 34 && 14 <= at <= 32 && at % 2 == 0 && |w| == 2
    requires OnesSum(frame[14..34]) == 0xFFFF
    ensures Judge(Overwrite(frame, at, w)) == WrongChecksum
      <==> Word(w[0], w[1]) % 65535 != Word(frame[at], frame[at + 1]) % 65535
  {
    var r := Overwrite(frame, at, w);
    var a, x, b := frame[14..at], frame[at..at + 2], frame[at + 2..34];
    assert frame[14..34] == a + (x + b);
    assert r[14..34] == a + (w + b);
    TwoBytes(x);
    TwoBytes(w);
    WordSwapped(a, x, w, b);
  }

  lemma WordSwapped(a: seq<Byte>, x: seq<Byte>, w: seq<Byte>, b: seq<Byte>)
    requires |a| % 2 == 0 && |x| == |w| == 2 && OnesSum(a + (x + b)) == 0xFFFF
    ensures OnesSum(a + (w + b)) != 0xFFFF && OnesSum(a + (w + b)) != 0 <==> WordSum(x) % 65535 != WordSum(w) % 65535
  {
    assert [] + (a + (x + b)) == a + (x + b) && [] + (a + (w + b)) == a + (w + b);
    ReplaceWords([], a, x, w, b);
    OnesSumIsCanon(a + (x + b));
    OnesSumIsCanon(a + (w + b));
    AllOnesLost(WordSum(a + (x + b)), WordSum(a + (w + b)), WordSum(x), WordSum(w));
  }

  /** The header by its fields: version 4, five words, no DSCP, the length, the identification,
      "do not fragment" and offset 0, time to live 64, the protocol number (6, 17 or 89),
      the addresses; the rest of the packet is as it was. */
  lemma HeaderFields(packet: seq<Byte>, t: Transport, id: nat)
    requires |packet| >= 34 && id < 65536
    ensures var p := WithHeader(packet, t, id);
      && p[14] / 16 == 4 && p[14] % 16 == 5 && p[15] == 0
      && Word(p[16], p[17]) == (|packet| - 14) % 65536 && Word(p[18], p[19]) == id
      && p[20] == 0x40 && p[21] == 0 && p[22] == 64
      && p[23] == (if t == TCP then 6 else if t == UDP then 17 else 89)
      && p[..14] == packet[..14] && p[26..] == packet[26..]
  {
    var p, h := WithHeader(packet, t, id), Header(packet, t, id);
    assert p[14..34] == h;
    assert forall k :: 0 <= k < 10 ==> p[14 + k] == h[k] == Blank(packet, t, id)[k];
    HeaderKeepsRest(packet, t, id);
  }

  lemma HeaderKeepsRest(packet: seq<Byte>, t: Transport, id: nat)
    requires |packet| >= 34 && id < 65536
    ensures var p := WithHeader(packet, t, id); p[..14] == packet[..14] && p[26..] == packet[26..]
  {
    var p, h := WithHeader(packet, t, id), Header(packet, t, id);
    assert p[26..] == h[12..] + packet[34..];
    assert h[12..] == packet[26..34];
    assert packet[26..] == packet[26..34] + packet[34..];
  }

  /** A packet is delivered exactly by its protocol number and with a header sum of 0xFFFF,
      or of 0, which warns. */
  lemma JudgeIs(packet: seq<Byte>, t: Transport, warned: bool)
    requires |packet| >= 34
    ensures Judge(packet) == Deliver(t, warned) <==>
      && OnesSum(packet[14..34]) == (if warned then 0 else 0xFFFF)
      && packet[23] == (if t == TCP then 6 else if t == UDP then 17 else 89)
    ensures Judge(packet) == WrongChecksum <==> OnesSum(packet[14..34]) != 0 && OnesSum(packet[14..34]) != 0xFFFF
  {
  }

  // ----- IPv4 -----

  class IPv4 {
    var identification: nat

    ghost predicate Valid()
      reads this
    {
      identification < 65536
    }

    constructor ()
      ensures Valid() && identification == 0
    {
      identification := 0;
    }

    /** The first six bytes: version and length, DSCP, total length, identification. */
    method WriteFirst(packet: array<Byte>)
      requires Valid() && packet.Length >= 34
      modifies this, packet
      ensures Valid() && identification == (old(identification) + 1) % 65536
      ensures packet[14] == 0x45 && packet[15] == 0
      ensures Word(packet[16], packet[17]) == (packet.Length - 14) % 65536 && Word(packet[18], packet[19]) == old(identification)
      ensures forall k :: 0 <= k < packet.Length && !(14 <= k < 20) ==> packet[k] == old(packet[k])
    {
      packet[14] := 0x45;
      packet[15] := 0;
      var size := (packet.Length - 14) % 65536;
      packet[16] := size / 256;
      packet[17] := size % 256;
      var id := identification;
      identification := (identification + 1) % 65536;
      packet[18] := id / 256;
      packet[19] := id % 256;
    }

    /** The next six: flags and offset, TTL, protocol, a zero checksum. */
    method WriteSecond(packet: array<Byte>, t: Transport)
      requires packet.Length >= 34
      modifies packet
      ensures packet[20] == 0x40 && packet[21] == 0 && packet[22] == 64 && packet[23] == Protocol(t)
      ensures packet[24] == 0 && packet[25] == 0
      ensures forall k :: 0 <= k < packet.Length && !(20 <= k < 26) ==> packet[k] == old(packet[k])
    {
      packet[20] := 0x40;
      packet[21] := 0;
      packet[22] := 64;
      packet[23] := Protocol(t);
      packet[24] := 0;
      packet[25] := 0;
    }

    method WriteFields(packet: array<Byte>, t: Transport)
      requires Valid() && packet.Length >= 34
      modifies this, packet
      ensures Valid() && identification == (old(identification) + 1) % 65536
      ensures packet[14..34] == Blank(old(packet[..]), t, old(identification))
      ensures packet[..14] == old(packet[..14]) && packet[34..] == old(packet[34..])
    {
      ghost var was, id := packet[..], identification;
      WriteFirst(packet);
      WriteSecond(packet, t);
      ghost var b := packet[14..34];
      assert b[12..] == was[26..34];
      HeaderBytes(b, was, t, id);
    }

    /** The checksum of the header just written, complemented, in network order. */
    method WriteChecksum(packet: array<Byte>)
      requires packet.Length >= 34
      modifies packet
      ensures packet[14..34] == Sealed(old(packet[14..34]))
      ensures packet[..14] == old(packet[..14]) && packet[34..] == old(packet[34..])
    {
      var header := packet[14..34];
      var sum := OneSum(header);
      var checksum := 65535 - sum;
      packet[24] := checksum / 256;
      packet[25] := checksum % 256;
    }

    /** packetArrived from a transport module. */
    method Encapsulate(packet: array<Byte>, t: Transport)
      requires Valid() && packet.Length >= 34
      modifies this, packet
      ensures Valid() && identification == (old(identification) + 1) % 65536
      ensures packet[..] == WithHeader(old(packet[..]), t, old(identification))
    {
      ghost var was := packet[..];
      assert was[..14] == packet[..14] && was[34..] == packet[34..];
      WriteFields(packet, t);
      WriteChecksum(packet);
      assert packet[..] == packet[..14] + packet[14..34] + packet[34..];
    }

    /** packetArrived from Ethernet. */
    method Decapsulate(packet: array<Byte>) returns (v: Verdict)
      requires packet.Length >= 34 && packet[12] == 0x08 && packet[13] == 0x00
      ensures v == Judge(packet[..])
    {
      assert packet[14..34] == packet[..][14..34];
      var sum := OneSum(packet[14..34]);
      if sum != 0xFFFF {
        if sum != 0 {
          return WrongChecksum;
        }
      }
      var protocol := packet[23];
      if protocol == 0x06 {
        v := Deliver(TCP, sum == 0);
      } else if protocol == 0x11 {
        v := Deliver(UDP, sum == 0);
      } else if protocol == 0x59 {
        v := Deliver(OSPF, sum == 0);
      } else {
        v := Ignored;
      }
    }
  }

  // ----- Ethernet -----

  const BROADCAST_MAC: Mac := [0xFF, 0xFF, 0xFF, 0xFF, 0xFF, 0xFF]

  /** Limited broadcast and the two OSPF multicast groups. */
  predicate IsBroadcast(ip: Ipv4) {
    ip == [255, 255, 255, 255] || ip == [224, 0, 0, 5] || ip == [224, 0, 0, 6]
  }

  datatype EtherVerdict = ToIPv4 | ToIPv6 | Unsupported

  function EtherType(packet: seq<Byte>): EtherVerdict
    requires |packet| >= 14
  {
    if packet[12] == 0x08 && packet[13] == 0x00 then ToIPv4
    else if packet[12] == 0x86 && packet[13] == 0xDD then ToIPv6
    else Unsupported
  }

  /** By the 16-bit ethertype. */
  lemma EtherTypeIs(packet: seq<Byte>)
    requires |packet| >= 14
    ensures EtherType(packet) == ToIPv4 <==> Word(packet[12], packet[13]) == 0x0800
    ensures EtherType(packet) == ToIPv6 <==> Word(packet[12], packet[13]) == 0x86DD
  {
  }

  /** Limited broadcast, AllSPFRouters and AllDRouters as numbers. */
  lemma BroadcastAddresses(ip: Ipv4)
    ensures IsBroadcast(ip) <==> Value(ip) == 0xFFFF_FFFF || Value(ip) == 0xE000_0005 || Value(ip) == 0xE000_0006
  {
    FourByteValue([255, 255, 255, 255]);
    FourByteValue([224, 0, 0, 5]);
    FourByteValue([224, 0, 0, 6]);
    ValueInjective(ip, [255, 255, 255, 255]);
    ValueInjective(ip, [224, 0, 0, 5]);
    ValueInjective(ip, [224, 0, 0, 6]);
  }

  lemma FourByteValue(a: seq<Byte>)
    requires |a| == 4
    ensures Value(a) == Word(a[0], a[1]) * 65536 + Word(a[2], a[3])
  {
    assert a[..3][..2] == a[..2] && a[..2][..1] == a[..1] && a[..1][..0] == [];
    assert Value(a[..1]) == a[0];
    assert Value(a[..2]) == Word(a[0], a[1]);
    assert Value(a[..3]) == Word(a[0], a[1]) * 256 + a[2];
  }

  /** The destination's MAC comes first, then the sender's, then the ethertype. */
  lemma FrameIs(packet: seq<Byte>, dst: Mac, src: Mac)
    requires |packet| >= 14
    ensures var f := WithFrame(packet, dst, src);
      f[0..6] == dst && f[6..12] == src && Word(f[12], f[13]) == 0x0800 && f[14..] == packet[14..]
  {
  }

  function WithFrame(packet: seq<Byte>, dst: Mac, src: Mac): (r: seq<Byte>)
    requires |packet| >= 14
    ensures |r| == |packet|
  {
    dst + src + [0x08, 0x00] + packet[14..]
  }

  /** The first MAC set for a port, as getMACAddr finds it. */
  ghost predicate PortMac(info: RoutingInfo, port: int, mac: Mac)
    reads info
  {
    exists i :: 0 <= i < |info.macs| && info.macs[i] == MacEntry(mac, port) && forall j :: 0 <= j < i ==> info.macs[j].port != port
  }

  ghost predicate Resolves(info: RoutingInfo, ip: Ipv4, mac: Mac)
    reads info
  {
    exists i :: 0 <= i < |info.arps| && info.arps[i] == ArpEntry(ip, mac) && forall j :: 0 <= j < i ==> info.arps[j].ip != ip
  }

  ghost predicate NoMac(info: RoutingInfo, port: int)
    reads info
  {
    forall i :: 0 <= i < |info.macs| ==> info.macs[i].port != port
  }

  ghost predicate NoArp(info: RoutingInfo, ip: Ipv4)
    reads info
  {
    forall i :: 0 <= i < |info.arps| ==> info.arps[i].ip != ip
  }

  /** The port the routing table gives for `key` has the MAC address `mac`. */
  ghost predicate LeavesBy(info: RoutingInfo, key: Ipv4, mac: Mac)
    reads info
  {
    exists port :: IsBestPort(info.routes, key, port) && PortMac(info, port, mac)
  }

  /** The port the routing table gives for `key` has no MAC address. */
  ghost predicate NoWayOut(info: RoutingInfo, key: Ipv4)
    reads info
  {
    exists port :: IsBestPort(info.routes, key, port) && NoMac(info, port)
  }

  /** packetArrived from IPv4: ethertype, then the two MAC addresses, or a drop. */
  method Frame(info: RoutingInfo, packet: array<Byte>) returns (sent: bool, ghost dst: Mac, ghost src: Mac)
    requires packet.Length >= 34
    requires forall i :: 0 <= i < |info.routes| ==> info.routes[i].prefix <= 32
    modifies packet
    ensures sent ==> packet[..] == WithFrame(old(packet[..]), dst, src)
    ensures var from, to := old(packet[26..30]), old(packet[30..34]);
      && (sent && IsBroadcast(to) ==> dst == [0xFF, 0xFF, 0xFF, 0xFF, 0xFF, 0xFF] && LeavesBy(info, from, src))
      && (sent && !IsBroadcast(to) ==> Resolves(info, to, dst) && LeavesBy(info, to, src))
      && (!sent && IsBroadcast(to) ==> NoWayOut(info, from))
      && (!sent && !IsBroadcast(to) ==> NoWayOut(info, to) || NoArp(info, to))
  {
    dst, src := BROADCAST_MAC, BROADCAST_MAC;
    packet[12] := 0x08;
    packet[13] := 0x00;
    var to: Ipv4 := packet[30..34];
    var from: Ipv4 := packet[26..30];
    assert from == old(packet[26..30]) && to == old(packet[30..34]);
    if IsBroadcast(to) {
      var port := info.GetRoutingTable(from);
      var mac := info.GetMACAddr(port);
      if mac.None? {
        assert NoMac(info, port);
        return false, dst, src;
      }
      src := mac.value;
      assert PortMac(info, port, src);
      WriteMacs(packet, BROADCAST_MAC, mac.value);
    } else {
      var port := info.GetRoutingTable(to);
      var mac := info.GetMACAddr(port);
      var peer := info.GetARPTable(to);
      if mac.None? {
        assert NoMac(info, port);
        return false, dst, src;
      }
      if peer.None? {
        assert NoArp(info, to);
        return false, dst, src;
      }
      dst, src := peer.value, mac.value;
      assert PortMac(info, port, src) && Resolves(info, to, dst);
      WriteMacs(packet, peer.value, mac.value);
    }
    sent := true;
  }

  method WriteMacs(packet: array<Byte>, dst: Mac, src: Mac)
    requires packet.Length >= 34 && packet[12] == 0x08 && packet[13] == 0x00
    modifies packet
    ensures packet[..] == WithFrame(old(packet[..]), dst, src)
  {
    for i := 0 to 6
      invariant forall k :: 0 <= k < i ==> packet[k] == dst[k] && packet[6 + k] == src[k]
      invariant forall k :: 12 <= k < packet.Length ==> packet[k] == old(packet[k])
    {
      packet[i] := dst[i];
      packet[6 + i] := src[i];
    }
  }

  /** packetArrived from the Host. */
  method Demultiplex(packet: array<Byte>) returns (v: EtherVerdict)
    requires packet.Length >= 14
    ensures v == EtherType(packet[..])
  {
    var first, second := packet[12], packet[13];
    if first == 0x08 && second == 0x00 {
      v := ToIPv4;
    } else if first == 0x86 && second == 0xDD {
      v := ToIPv6;
    } else {
      v := Unsupported;
    }
  }

  // ----- The round trip -----

  /** What leaves the sender is accepted by the peer: the Ethernet module hands it to IPv4,
      IPv4 finds the sum 0xFFFF (no warning) and delivers it to the module of the same
      name; every byte from the source address on is untouched. */
  lemma RoundTrip(packet: seq<Byte>, t: Transport, id: nat, dst: Mac, src: Mac)
    requires |packet| >= 34 && id < 65536
    ensures var frame := WithFrame(WithHeader(packet, t, id), dst, src);
      && EtherType(frame) == ToIPv4
      && Judge(frame) == Deliver(t, false)
      && |frame| == |packet| && frame[26..] == packet[26..]
  {
    var p := WithHeader(packet, t, id);
    var frame := WithFrame(p, dst, src);
    BuiltHeaderSums(packet, t, id);
    assert frame[14..] == p[14..] == Header(packet, t, id) + packet[34..];
    assert frame[14..34] == Header(packet, t, id);
    assert frame[23] == Header(packet, t, id)[9];
    assert frame[26..] == Header(packet, t, id)[12..] + packet[34..];
    assert packet[26..] == packet[26..34] + packet[34..];
  }

  /** The length field tells the true length exactly for packets of at most 65549 bytes. */
  lemma LengthField(packet: seq<Byte>, t: Transport, id: nat)
    requires |packet| >= 34 && id < 65536
    ensures var h := Header(packet, t, id); Word(h[2], h[3]) == |packet| - 14 <==> |packet| <= 65549
  {
  }

  /** The two modules in sequence, on one host and then on its peer. */
  method SendAndReceive(packet: array<Byte>, t: Transport, ip: IPv4, info: RoutingInfo, peer: IPv4)
    returns (e: EtherVerdict, r: Option<Verdict>)
    requires ip.Valid() && packet.Length >= 34
    requires forall i :: 0 <= i < |info.routes| ==> info.routes[i].prefix <= 32
    modifies packet, ip
    ensures r.Some? ==> e == ToIPv4 && r.value == Deliver(t, false)
    ensures r.None? ==> var from, to := old(packet[26..30]), old(packet[30..34]);
      if IsBroadcast(to) then NoWayOut(info, from) else NoWayOut(info, to) || NoArp(info, to)
    ensures r.Some? ==> packet[26..] == old(packet[26..])
  {
    ghost var was, id := packet[..], ip.identification;
    ip.Encapsulate(packet, t);
    HeaderKeepsAddresses(was, t, id);
    assert packet[..] == WithHeader(was, t, id);
    assert packet[26..30] == packet[..][26..30] && packet[30..34] == packet[..][30..34];
    var sent, dst, src := Frame(info, packet);
    if !sent {
      return Unsupported, None;
    }
    RoundTrip(was, t, id, dst, src);
    assert packet[26..] == packet[..][26..];
    e := Demultiplex(packet);
    assert e == ToIPv4;
    var v := peer.Decapsulate(packet);
    r := Some(v);
  }

  lemma HeaderKeepsAddresses(packet: seq<Byte>, t: Transport, id: nat)
    requires |packet| >= 34 && id < 65536
    ensures var p := WithHeader(packet, t, id); p[26..30] == packet[26..30] && p[30..34] == packet[30..34]
  {
    var p := WithHeader(packet, t, id);
    assert p[26..34] == Header(packet, t, id)[12..] == packet[26..34];
    assert p[26..30] == p[26..34][..4] && p[30..34] == p[26..34][4..];
    assert packet[26..30] == packet[26..34][..4] && packet[30..34] == packet[26..34][4..];
  }
}
