/** Switch: forwarding by destination MAC through NetworkUtil's integer encoding, flooding
    of unknown destinations, and the corruption an unreliable switch adds. */
module Switch {
  import opened Checksum
  import opened Routing
  import Stack

  // ----- arrayToUINT64 and UINT64ToArray -----

  function Pow256(n: nat): (r: nat)
    ensures r > 0
  {
    if n == 0 then 1 else 256 * Pow256(n - 1)
  }

  /** The number with the given bytes, least significant first. */
  function FromBytes(a: seq<Byte>): nat {
    if a == [] then 0 else a[0] + 256 * FromBytes(a[1..])
  }

  /** The lowest `n` bytes of a number, least significant first. */
  function ToBytes(v: nat, n: nat): (a: seq<Byte>)
    ensures |a| == n
    decreases n
  {
    if n == 0 then [] else [v % 256] + ToBytes(v / 256, n - 1)
  }

  lemma {:induction false} FromBytesBound(a: seq<Byte>)
    ensures FromBytes(a) < Pow256(|a|)
  {
    if a != [] {
      FromBytesBound(a[1..]);
    }
  }

  lemma {:induction false} FromBytesSnoc(a: seq<Byte>, x: Byte)
    ensures FromBytes(a + [x]) == FromBytes(a) + x * Pow256(|a|)
  {
    if a == [] {
      assert a + [x] == [x];
      assert FromBytes([x][1..]) == 0;
    } else {
      FromBytesSnoc(a[1..], x);
      assert (a + [x])[1..] == a[1..] + [x];
      assert 256 * (x * Pow256(|a| - 1)) == x * Pow256(|a|);
    }
  }

  /** The two encodings are inverse to each other. */
  lemma {:induction false} BytesRoundTrip(a: seq<Byte>)
    ensures ToBytes(FromBytes(a), |a|) == a
  {
    if a != [] {
      BytesRoundTrip(a[1..]);
      assert FromBytes(a) % 256 == a[0] && FromBytes(a) / 256 == FromBytes(a[1..]);
      assert a == [a[0]] + a[1..];
    }
  }

  lemma {:induction false} NumberRoundTrip(v: nat, n: nat)
    requires v < Pow256(n)
    ensures FromBytes(ToBytes(v, n)) == v
    decreases n
  {
    if n > 0 {
      NumberRoundTrip(v / 256, n - 1);
      assert ToBytes(v, n)[1..] == ToBytes(v / 256, n - 1);
    }
  }

  lemma FromBytesInjective(a: seq<Byte>, b: seq<Byte>)
    requires |a| == |b|
    ensures FromBytes(a) == FromBytes(b) <==> a == b
  {
    BytesRoundTrip(a);
    BytesRoundTrip(b);
  }

  lemma Pow256Of8()
    ensures Pow256(8) == 0x1_0000_0000_0000_0000
  {
    assert Pow256(4) == 0x1_0000_0000;
    assert Pow256(6) == 0x1_0000_0000_0000;
  }

  lemma {:induction false} Pow256Grows(n: nat, m: nat)
    requires n <= m
    ensures Pow256(n) <= Pow256(m)
    decreases m - n
  {
    if n < m {
      Pow256Grows(n, m - 1);
    }
  }

  /** arrayToUINT64 for at most 8 bytes; the sum fits 64 bits. */
  method ArrayToUINT64(a: seq<Byte>) returns (sum: nat)
    requires |a| <= 8
    ensures sum == FromBytes(a) && sum < 0x1_0000_0000_0000_0000
  {
    sum := 0;
    var shifted: nat := 1;
    for k := 0 to |a|
      invariant sum == FromBytes(a[..k]) && shifted == Pow256(k)
    {
      assert a[..k + 1] == a[..k] + [a[k]];
      FromBytesSnoc(a[..k], a[k]);
      sum := sum + a[k] * shifted;
      shifted := 256 * shifted;
    }
    assert a[..|a|] == a;
    FromBytesBound(a);
    Pow256Grows(|a|, 8);
    Pow256Of8();
  }

  /** val >> (8 * k). */
  function ShiftBytes(v: nat, k: nat): nat
    decreases k
  {
    if k == 0 then v else ShiftBytes(v / 256, k - 1)
  }

  lemma {:induction false} ToBytesAt(v: nat, n: nat, k: nat)
    requires k < n
    ensures ToBytes(v, n)[k] == ShiftBytes(v, k) % 256
    decreases n
  {
    if k > 0 {
      ToBytesAt(v / 256, n - 1, k - 1);
    }
  }

  lemma {:induction false} ShiftIsDivision(v: nat, k: nat)
    ensures ShiftBytes(v, k) == v / Pow256(k)
    decreases k
  {
    if k > 0 {
      ShiftIsDivision(v / 256, k - 1);
      DivideTwice(v, 256, Pow256(k - 1));
    }
  }

  /** Byte k of the array has the weight 256^k. */
  lemma BytesAreDigits(v: nat, n: nat, k: nat)
    requires k < n
    ensures ToBytes(v, n)[k] == v / Pow256(k) % 256
  {
    ToBytesAt(v, n, k);
    ShiftIsDivision(v, k);
  }

  method UINT64ToArray(v: nat, n: nat) returns (a: seq<Byte>)
    requires n <= 8
    ensures a == ToBytes(v, n)
  {
    a := [];
    for k := 0 to n
      invariant |a| == k && forall i :: 0 <= i < k ==> a[i] == ToBytes(v, n)[i]
    {
      ToBytesAt(v, n, k);
      a := a + [ShiftBytes(v, k) % 256];
    }
  }

  // ----- Forwarding -----

  type MacTable = map<nat, set<Mac>>

  predicate Knows(t: MacTable, wire: nat, mac: Mac) {
    wire in t && mac in t[wire]
  }

  predicate Wanted(t: MacTable, wire: nat, mac: Mac) {
    mac == Stack.BROADCAST_MAC || Knows(t, wire, mac)
  }

  /** The ports the first loop sends to, in port order. */
  function Listed(ports: seq<nat>, t: MacTable, ingress: nat, mac: Mac): seq<nat> {
    if ports == [] then []
    else (if ports[0] != ingress && Wanted(t, ports[0], mac) then [ports[0]] else []) + Listed(ports[1..], t, ingress, mac)
  }

  function Others(ports: seq<nat>, ingress: nat): seq<nat> {
    if ports == [] then [] else (if ports[0] != ingress then [ports[0]] else []) + Others(ports[1..], ingress)
  }

  /** Where a packet goes: the listed ports, or everywhere else if there are none. */
  function Targets(ports: seq<nat>, t: MacTable, ingress: nat, mac: Mac): seq<nat> {
    if Listed(ports, t, ingress, mac) != [] then Listed(ports, t, ingress, mac) else Others(ports, ingress)
  }

  ghost predicate Distinct(s: seq<nat>) {
    forall i, j :: 0 <= i < j < |s| ==> s[i] != s[j]
  }

  lemma {:induction false} ListedMembers(ports: seq<nat>, t: MacTable, ingress: nat, mac: Mac)
    ensures forall w :: w in Listed(ports, t, ingress, mac) <==> w in ports && w != ingress && Wanted(t, w, mac)
    ensures Distinct(ports) ==> Distinct(Listed(ports, t, ingress, mac))
  {
    if ports != [] {
      ListedMembers(ports[1..], t, ingress, mac);
      assert ports == [ports[0]] + ports[1..];
      var rest := Listed(ports[1..], t, ingress, mac);
      if Distinct(ports) {
        assert ports[0] !in ports[1..];
        assert ports[0] !in rest;
      }
    }
  }

  lemma {:induction false} OthersMembers(ports: seq<nat>, ingress: nat)
    ensures forall w :: w in Others(ports, ingress) <==> w in ports && w != ingress
    ensures Distinct(ports) ==> Distinct(Others(ports, ingress))
  {
    if ports != [] {
      OthersMembers(ports[1..], ingress);
      assert ports == [ports[0]] + ports[1..];
      if Distinct(ports) {
        assert ports[0] !in ports[1..];
        assert ports[0] !in Others(ports[1..], ingress);
      }
    }
  }

  lemma {:induction false} ListedSnoc(ports: seq<nat>, i: nat, t: MacTable, ingress: nat, mac: Mac)
    requires i < |ports|
    ensures Listed(ports[..i + 1], t, ingress, mac)
         == Listed(ports[..i], t, ingress, mac) + if ports[i] != ingress && Wanted(t, ports[i], mac) then [ports[i]] else []
  {
    if i == 0 {
      assert ports[..1][1..] == [];
    } else {
      ListedSnoc(ports[1..], i - 1, t, ingress, mac);
      assert ports[..i + 1][1..] == ports[1..][..i] && ports[..i][1..] == ports[1..][..i - 1];
    }
  }

  lemma {:induction false} OthersSnoc(ports: seq<nat>, i: nat, ingress: nat)
    requires i < |ports|
    ensures Others(ports[..i + 1], ingress) == Others(ports[..i], ingress) + if ports[i] != ingress then [ports[i]] else []
  {
    if i == 0 {
      assert ports[..1][1..] == [];
    } else {
      OthersSnoc(ports[1..], i - 1, ingress);
      assert ports[..i + 1][1..] == ports[1..][..i] && ports[..i][1..] == ports[1..][..i - 1];
    }
  }

  /** With distinct wires: one copy for each chosen port and none for the ingress.  Chosen
      are all other ports for a broadcast, else the other ports that know the address,
      else all other ports. */
  lemma ForwardingIsExact(ports: seq<nat>, t: MacTable, ingress: nat, mac: Mac, w: nat)
    requires Distinct(ports)
    ensures Distinct(Targets(ports, t, ingress, mac)) && ingress !in Targets(ports, t, ingress, mac)
    ensures w in Targets(ports, t, ingress, mac) <==>
      && w in ports && w != ingress
      && (mac == [0xFF, 0xFF, 0xFF, 0xFF, 0xFF, 0xFF] || Knows(t, w, mac) || !(exists v :: v in ports && v != ingress && Knows(t, v, mac)))
  {
    ListedMembers(ports, t, ingress, mac);
    OthersMembers(ports, ingress);
    var listed := Listed(ports, t, ingress, mac);
    if listed != [] {
      assert listed[0] in ports && listed[0] != ingress && Wanted(t, listed[0], mac);
    } else {
      assert forall v :: v in ports && v != ingress ==> v !in listed;
    }
  }

  // ----- Unreliable switches -----

  /** drop_base after one more forwarded copy. */
  function NextDropBase(b: real): real {
    if b < 0.15 then 0.01 else b - 0.1
  }

  /** ...and after n more, starting from b. */
  function DropBase(b: real, n: nat): real {
    if n == 0 then b else NextDropBase(DropBase(b, n - 1))
  }

  /** The damage rate falls from 0.9 by tenths to 0.1 and is 0.01 from the tenth copy on. */
  lemma {:induction false} DropBaseSettles(n: nat)
    ensures DropBase(1.0, n) == if n <= 9 then 1.0 - n as real / 10.0 else 0.01
  {
    if n > 0 {
      DropBaseSettles(n - 1);
    }
  }

  /** Damage leaves everything up to the TCP ports alone, so IPv4 at the receiver accepts a
      damaged frame exactly as it accepts the original: only TCP can notice. */
  lemma DamageIsInvisibleToIPv4(frame: seq<Byte>)
    requires |frame| >= 34
    ensures Stack.EtherType(Damage(frame)) == Stack.EtherType(frame)
    ensures Stack.Judge(Damage(frame)) == Stack.Judge(frame)
  {
    assert Damage(frame)[..34] == frame[..34];
    assert Damage(frame)[14..34] == Damage(frame)[..34][14..34];
    assert frame[14..34] == frame[..34][14..34];
    assert Damage(frame)[23] == Damage(frame)[..34][23] && frame[23] == frame[..34][23];
    assert Damage(frame)[12] == Damage(frame)[..34][12] && Damage(frame)[13] == Damage(frame)[..34][13];
    assert frame[12] == frame[..34][12] && frame[13] == frame[..34][13];
  }

  // ----- The class -----

  datatype Sent = Sent(wire: nat, packet: seq<Byte>)

  function Wires(sends: seq<Sent>): seq<nat> {
    seq(|sends|, i requires 0 <= i < |sends| => sends[i].wire)
  }

  lemma WiresSnoc(sends: seq<Sent>, x: Sent)
    ensures Wires(sends + [x]) == Wires(sends) + [x.wire]
  {
  }

  class Switch {
    const ports: seq<nat>
    const unreliable: bool
    var macTable: map<nat, set<nat>>
    var dropBase: real
    ghost var learned: MacTable

    /** The integer table holds exactly the encodings of the addresses added. */
    ghost predicate Valid()
      reads this
    {
      macTable.Keys == learned.Keys &&
      forall w, mac: Mac :: w in learned ==> (mac in learned[w] <==> FromBytes(mac) in macTable[w])
    }

    constructor (ports: seq<nat>, unreliable: bool)
      ensures Valid() && learned == map[] && this.ports == ports && this.unreliable == unreliable && dropBase == 1.0
    {
      this.ports, this.unreliable := ports, unreliable;
      macTable, dropBase, learned := map[], 1.0, map[];
    }

    method AddMACEntry(port: nat, mac: Mac)
      requires Valid() && port < |ports|
      modifies this`macTable, this`learned
      ensures Valid()
      ensures learned == old(learned)[ports[port] := (if ports[port] in old(learned) then old(learned)[ports[port]] else {}) + {mac}]
    {
      var macInt := ArrayToUINT64(mac);
      var wire := ports[port];
      if wire !in macTable {
        macTable := macTable[wire := {}];
        learned := learned[wire := {}];
      }
      forall m: Mac ensures FromBytes(m) == macInt <==> m == mac {
        FromBytesInjective(m, mac);
      }
      macTable := macTable[wire := macTable[wire] + {macInt}];
      learned := learned[wire := learned[wire] + {mac}];
    }

    /** The clone for one port, damaged if the switch is unreliable and the dice say so. */
    method Copy(packet: seq<Byte>, roll: real) returns (copy: seq<Byte>)
      modifies this`dropBase
      ensures dropBase == if unreliable then NextDropBase(old(dropBase)) else old(dropBase)
      ensures copy == if unreliable && roll < dropBase then Damage(packet) else packet
    {
      var drop := false;
      if unreliable {
        if dropBase < 0.15 {
          dropBase := 0.01;
        } else {
          dropBase := dropBase - 0.1;
        }
        if roll < dropBase {
          drop := true;
        }
      }
      copy := packet;
      if drop {
        copy := Damage(packet);
      }
    }

    /** The test made for one port, on integers, is the test on addresses. */
    lemma IntegerTest(mac: Mac, wire: nat)
      requires Valid()
      ensures FromBytes(mac) == FromBytes(Stack.BROADCAST_MAC) || (wire in macTable && FromBytes(mac) in macTable[wire])
              <==> Wanted(learned, wire, mac)
    {
      FromBytesInjective(mac, Stack.BROADCAST_MAC);
    }

    /** The k-th copy is damaged exactly if the k-th random number is below the rate then
        in force, and the rate moves once for each copy. */
    ghost predicate Copied(sends: seq<Sent>, packet: seq<Byte>, dice: seq<real>, base: real)
      reads this`dropBase
    {
      && |sends| <= |dice|
      && dropBase == (if unreliable then DropBase(base, |sends|) else base)
      && forall k :: 0 <= k < |sends| ==>
           sends[k].packet == if unreliable && dice[k] < DropBase(base, k + 1) then Damage(packet) else packet
    }

    /** One more copy. */
    method SendCopy(wire: nat, packet: seq<Byte>, dice: seq<real>, sends: seq<Sent>, ghost base: real) returns (more: seq<Sent>)
      requires |sends| < |dice| && Copied(sends, packet, dice, base)
      modifies this`dropBase
      ensures more != [] && Wires(more) == Wires(sends) + [wire] && Copied(more, packet, dice, base)
    {
      var copy := Copy(packet, dice[|sends|]);
      WiresSnoc(sends, Sent(wire, copy));
      more := sends + [Sent(wire, copy)];
    }

    /** The first loop; `dice` holds the random numbers in the order they are drawn. */
    method SendListed(ingress: nat, packet: seq<Byte>, dice: seq<real>) returns (found: bool, sends: seq<Sent>)
      requires Valid() && |packet| >= 6 && |dice| >= |ports|
      modifies this`dropBase
      ensures Valid() && Wires(sends) == Listed(ports, learned, ingress, packet[..6]) && (found <==> sends != [])
      ensures Copied(sends, packet, dice, old(dropBase))
    {
      var mac: Mac := packet[..6];
      var macInt := ArrayToUINT64(mac);
      var broadInt := ArrayToUINT64(Stack.BROADCAST_MAC);
      found, sends := false, [];
      for i := 0 to |ports|
        invariant Valid() && |sends| <= i
        invariant Wires(sends) == Listed(ports[..i], learned, ingress, mac)
        invariant found <==> sends != []
        invariant Copied(sends, packet, dice, old(dropBase))
      {
        var wire := ports[i];
        ListedSnoc(ports, i, learned, ingress, mac);
        IntegerTest(mac, wire);
        if ingress != wire {
          if macInt == broadInt || (wire in macTable && macInt in macTable[wire]) {
            found := true;
            sends := SendCopy(wire, packet, dice, sends, old(dropBase));
          }
        }
      }
      assert ports[..|ports|] == ports;
    }

    /** packetArrived: the listed ports, or everywhere else (undamaged) if there are none. */
    method PacketArrived(ingress: nat, packet: seq<Byte>, dice: seq<real>) returns (sends: seq<Sent>)
      requires Valid() && |packet| >= 6 && |dice| >= |ports|
      modifies this`dropBase
      ensures Valid() && Wires(sends) == Targets(ports, learned, ingress, packet[..6])
      ensures if Listed(ports, learned, ingress, packet[..6]) != [] then Copied(sends, packet, dice, old(dropBase))
              else dropBase == old(dropBase) && forall k :: 0 <= k < |sends| ==> sends[k].packet == packet
    {
      var found;
      found, sends := SendListed(ingress, packet, dice);
      if !found {
        sends := Flood(ingress, packet);
      }
    }

    /** The second loop: every port but the ingress. */
    method Flood(ingress: nat, packet: seq<Byte>) returns (sends: seq<Sent>)
      ensures Wires(sends) == Others(ports, ingress)
      ensures forall k :: 0 <= k < |sends| ==> sends[k].packet == packet
    {
      sends := [];
      for i := 0 to |ports|
        invariant Wires(sends) == Others(ports[..i], ingress)
        invariant forall k :: 0 <= k < |sends| ==> sends[k].packet == packet
      {
        OthersSnoc(ports, i, ingress);
        if ingress != ports[i] {
          WiresSnoc(sends, Sent(ports[i], packet));
          sends := sends + [Sent(ports[i], packet)];
        }
      }
      assert ports[..|ports|] == ports;
    }
  }
}
