/** One output port of a Link: a queue drained by CHECK_QUEUE messages, with random
    eviction when it is full.  The history beside it numbers the arrivals, so that what
    was sent, queued and evicted can be told apart. */
module LinkPort {
  import opened Wire

  datatype Packet = Packet(tag: nat, size: nat)

  /** The Link's module id, its queue limit (0 for none), and the transmission time of a
      packet by its size. */
  datatype Config = Config(me: nat, limit: nat, delay: nat -> nat)

  function LinkConfig(me: nat, bps: nat, limit: nat): Config {
    Config(me, limit, size => TransDelay(size, bps))
  }

  datatype Port = Port(queue: seq<Packet>, avail: nat)

  // ----- The two operations -----

  function RemoveAt<T>(s: seq<T>, i: nat): seq<T>
    requires i < |s|
  {
    s[..i] + s[i + 1..]
  }

  /** sendPacket evicts when a limit is set and reached. */
  predicate Evicts(cfg: Config, n: nat, index: nat) {
    cfg.limit != 0 && n >= cfg.limit && index < n
  }

  /** The random index lies in the upper half of a full queue. */
  predicate Choice(cfg: Config, index: nat) {
    cfg.limit != 0 ==> cfg.limit / 2 <= index < cfg.limit
  }

  /** The index drawn from a random number between limit/2 and limit. */
  function DropIndex(limit: nat, rand: real): nat
    requires limit != 0 && 0.0 <= rand
  {
    if rand.Floor >= limit then limit - 1 else rand.Floor
  }

  function Push<T>(cfg: Config, q: seq<T>, x: T, index: nat): seq<T> {
    (if Evicts(cfg, |q|, index) then RemoveAt(q, index) else q) + [x]
  }

  /** sendPacket on the port. */
  function Enqueue(cfg: Config, p: Port, packet: Packet, index: nat): Port {
    p.(queue := Push(cfg, p.queue, packet, index))
  }

  function Delay(cfg: Config, packet: Packet): nat {
    cfg.delay(packet.size)
  }

  /** The CHECK_QUEUE branch once its guard holds: the head leaves. */
  function Dequeue(cfg: Config, p: Port, now: nat): Port
    requires p.queue != []
  {
    Port(p.queue[1..], now + Delay(cfg, p.queue[0]))
  }

  /** wait_time: how long until the line is free. */
  function Wait(p: Port, now: nat): nat {
    if p.avail > now then p.avail - now else 0
  }

  // ----- History -----

  datatype Arrived = Arrived(time: nat, packet: Packet)

  /** `time`: when the packet is handed to the wire. */
  datatype Departed = Departed(index: nat, time: nat)

  /** `slots[i]` is the arrival number of the i-th packet in the queue. */
  datatype Log = Log(arrivals: seq<Arrived>, slots: seq<nat>, departures: seq<Departed>, evicted: set<nat>)

  const NO_LOG := Log([], [], [], {})

  function LogEnqueue(cfg: Config, l: Log, packet: Packet, index: nat, now: nat): Log {
    l.(arrivals := l.arrivals + [Arrived(now, packet)],
       slots := Push(cfg, l.slots, |l.arrivals|, index),
       evicted := if Evicts(cfg, |l.slots|, index) then l.evicted + {l.slots[index]} else l.evicted)
  }

  function LogDequeue(cfg: Config, l: Log, p: Port, now: nat): Log
    requires p.queue != [] && l.slots != []
  {
    l.(slots := l.slots[1..], departures := l.departures + [Departed(l.slots[0], now + Delay(cfg, p.queue[0]))])
  }

  // ----- The invariant of one port -----

  ghost predicate QueueOk(cfg: Config, p: Port, l: Log) {
    && |l.slots| == |p.queue|
    && (cfg.limit != 0 ==> |p.queue| <= cfg.limit)
    && (forall i :: 0 <= i < |l.slots| ==> l.slots[i] < |l.arrivals| && p.queue[i] == l.arrivals[l.slots[i]].packet)
  }

  /** Order is kept: departed packets, then the queue, in order of arrival. */
  ghost predicate OrderOk(l: Log) {
    && (forall i, j :: 0 <= i < j < |l.slots| ==> l.slots[i] < l.slots[j])
    && (forall i, j :: 0 <= i < j < |l.departures| ==> l.departures[i].index < l.departures[j].index)
    && (forall i, j :: 0 <= i < |l.departures| && 0 <= j < |l.slots| ==> l.departures[i].index < l.slots[j])
    && (forall i :: 0 <= i < |l.departures| ==> l.departures[i].index < |l.arrivals|)
  }

  ghost predicate Left(l: Log, a: nat) {
    exists i :: 0 <= i < |l.departures| && l.departures[i].index == a
  }

  /** Every arrival is queued, departed or evicted, and only one of these. */
  ghost predicate AccountOk(cfg: Config, l: Log) {
    && (forall a :: 0 <= a < |l.arrivals| ==> a in l.slots || Left(l, a) || a in l.evicted)
    && (forall a :: a in l.evicted ==> a < |l.arrivals| && a !in l.slots && !Left(l, a))
    && (cfg.limit == 0 ==> l.evicted == {})
  }

  function Previous(l: Log, j: nat): nat
    requires j <= |l.departures|
  {
    if j == 0 then 0 else l.departures[j - 1].time
  }

  /** Departure `j` left at the time the wire's recursion gives for it. */
  ghost predicate OnTime(cfg: Config, l: Log, j: nat)
    requires j < |l.departures|
  {
    var d := l.departures[j];
    && d.index < |l.arrivals|
    && d.time == Max(l.arrivals[d.index].time, Previous(l, j)) + Delay(cfg, l.arrivals[d.index].packet)
  }

  /** The wire's recursion on the packets that get through. */
  ghost predicate TimingOk(cfg: Config, p: Port, l: Log, now: nat) {
    && (forall i :: 0 <= i < |l.arrivals| ==> l.arrivals[i].time <= now)
    && (forall i, j :: 0 <= i < j < |l.arrivals| ==> l.arrivals[i].time <= l.arrivals[j].time)
    && p.avail == Previous(l, |l.departures|)
    && (forall j :: 0 <= j < |l.departures| ==> OnTime(cfg, l, j))
  }

  ghost predicate PortOk(cfg: Config, p: Port, l: Log, now: nat) {
    QueueOk(cfg, p, l) && OrderOk(l) && AccountOk(cfg, l) && TimingOk(cfg, p, l, now)
  }

  /** When the head of the queue must be sent. */
  function HeadDue(p: Port, l: Log): nat
    requires l.slots != [] && l.slots[0] < |l.arrivals|
  {
    Max(l.arrivals[l.slots[0]].time, p.avail)
  }

  lemma EmptyPortOk(cfg: Config, now: nat)
    ensures PortOk(cfg, Port([], 0), NO_LOG, now)
  {
  }

  lemma LaterPortOk(cfg: Config, p: Port, l: Log, now: nat, later: nat)
    requires PortOk(cfg, p, l, now) && now <= later
    ensures PortOk(cfg, p, l, later)
  {
  }

  // ----- sendPacket keeps it -----

  lemma PushAt<T>(cfg: Config, q: seq<T>, x: T, index: nat)
    ensures var r := Push(cfg, q, x, index); var e := Evicts(cfg, |q|, index);
      && |r| == (if e then |q| else |q| + 1)
      && r[|r| - 1] == x
      && forall i :: 0 <= i < |r| - 1 ==> r[i] == q[if e && i >= index then i + 1 else i]
  {
  }

  lemma EnqueueQueue(cfg: Config, p: Port, l: Log, packet: Packet, index: nat, now: nat)
    requires QueueOk(cfg, p, l) && Choice(cfg, index)
    ensures QueueOk(cfg, Enqueue(cfg, p, packet, index), LogEnqueue(cfg, l, packet, index, now))
  {
    PushAt(cfg, p.queue, packet, index);
    PushAt(cfg, l.slots, |l.arrivals|, index);
    var p', l' := Enqueue(cfg, p, packet, index), LogEnqueue(cfg, l, packet, index, now);
    forall i | 0 <= i < |l'.slots| ensures l'.slots[i] < |l'.arrivals| && p'.queue[i] == l'.arrivals[l'.slots[i]].packet {
      if i < |l'.slots| - 1 {
        var k := if Evicts(cfg, |l.slots|, index) && i >= index then i + 1 else i;
        assert l'.slots[i] == l.slots[k] && p'.queue[i] == p.queue[k];
      }
    }
  }

  lemma EnqueueOrder(cfg: Config, l: Log, packet: Packet, index: nat, now: nat)
    requires OrderOk(l) && forall i :: 0 <= i < |l.slots| ==> l.slots[i] < |l.arrivals|
    ensures OrderOk(LogEnqueue(cfg, l, packet, index, now))
  {
  }

  /** Who is in the queue after a push. */
  lemma PushMembers(cfg: Config, q: seq<nat>, x: nat, index: nat)
    requires forall i, j :: 0 <= i < j < |q| ==> q[i] < q[j]
    ensures forall a :: a in Push(cfg, q, x, index) <==> a == x || (a in q && !(Evicts(cfg, |q|, index) && a == q[index]))
  {
    if Evicts(cfg, |q|, index) {
      assert q == q[..index] + [q[index]] + q[index + 1..];
    }
  }

  lemma EnqueueAccount(cfg: Config, l: Log, packet: Packet, index: nat, now: nat)
    requires OrderOk(l) && AccountOk(cfg, l) && forall i :: 0 <= i < |l.slots| ==> l.slots[i] < |l.arrivals|
    ensures AccountOk(cfg, LogEnqueue(cfg, l, packet, index, now))
  {
    var l' := LogEnqueue(cfg, l, packet, index, now);
    PushMembers(cfg, l.slots, |l.arrivals|, index);
    assert forall a :: Left(l', a) <==> Left(l, a);
  }

  lemma EnqueueTiming(cfg: Config, p: Port, l: Log, packet: Packet, index: nat, now: nat)
    requires TimingOk(cfg, p, l, now)
    ensures TimingOk(cfg, Enqueue(cfg, p, packet, index), LogEnqueue(cfg, l, packet, index, now), now)
  {
    var l' := LogEnqueue(cfg, l, packet, index, now);
    forall j | 0 <= j < |l'.departures| ensures OnTime(cfg, l', j) {
      assert OnTime(cfg, l, j);
    }
  }

  lemma EnqueueKeepsPort(cfg: Config, p: Port, l: Log, packet: Packet, index: nat, now: nat)
    requires PortOk(cfg, p, l, now) && Choice(cfg, index)
    ensures PortOk(cfg, Enqueue(cfg, p, packet, index), LogEnqueue(cfg, l, packet, index, now), now)
  {
    EnqueueQueue(cfg, p, l, packet, index, now);
    EnqueueOrder(cfg, l, packet, index, now);
    EnqueueAccount(cfg, l, packet, index, now);
    EnqueueTiming(cfg, p, l, packet, index, now);
  }

  /** With any limit but 1 the head of a non-empty queue is never the one evicted. */
  lemma HeadStays(cfg: Config, p: Port, l: Log, packet: Packet, index: nat, now: nat)
    requires QueueOk(cfg, p, l) && Choice(cfg, index) && cfg.limit != 1 && p.queue != []
    ensures var l' := LogEnqueue(cfg, l, packet, index, now);
      l'.slots != [] && l'.slots[0] == l.slots[0] && l'.arrivals[l'.slots[0]] == l.arrivals[l.slots[0]]
  {
  }

  // ----- CHECK_QUEUE keeps it -----

  lemma DequeueAccount(cfg: Config, p: Port, l: Log, now: nat)
    requires OrderOk(l) && AccountOk(cfg, l) && p.queue != [] && l.slots != []
    ensures AccountOk(cfg, LogDequeue(cfg, l, p, now))
  {
    var l' := LogDequeue(cfg, l, p, now);
    var n := |l.departures|;
    assert l'.departures[n].index == l.slots[0];
    assert Left(l', l.slots[0]);
    forall a | Left(l, a) ensures Left(l', a) {
      var i :| 0 <= i < n && l.departures[i].index == a;
      assert l'.departures[i].index == a;
    }
    assert forall a :: Left(l', a) ==> Left(l, a) || a == l.slots[0];
    forall a | a in l.slots && a != l.slots[0] ensures a in l'.slots {
      var i :| 0 <= i < |l.slots| && l.slots[i] == a;
      assert l'.slots[i - 1] == a;
    }
  }

  lemma DequeueTiming(cfg: Config, p: Port, l: Log, now: nat)
    requires QueueOk(cfg, p, l) && p.queue != [] && TimingOk(cfg, p, l, now) && now == HeadDue(p, l)
    ensures TimingOk(cfg, Dequeue(cfg, p, now), LogDequeue(cfg, l, p, now), now)
  {
    var l' := LogDequeue(cfg, l, p, now);
    var n := |l.departures|;
    forall j | 0 <= j < |l'.departures| ensures OnTime(cfg, l', j) {
      if j < n {
        assert OnTime(cfg, l, j);
        assert Previous(l', j) == Previous(l, j);
      } else {
        assert Previous(l', n) == Previous(l, n) == p.avail;
      }
    }
  }

  lemma DequeueQueue(cfg: Config, p: Port, l: Log, now: nat)
    requires QueueOk(cfg, p, l) && p.queue != []
    ensures QueueOk(cfg, Dequeue(cfg, p, now), LogDequeue(cfg, l, p, now))
  {
  }

  lemma DequeueOrder(cfg: Config, p: Port, l: Log, now: nat)
    requires OrderOk(l) && p.queue != [] && l.slots != [] && l.slots[0] < |l.arrivals|
    ensures OrderOk(LogDequeue(cfg, l, p, now))
  {
  }

  lemma DequeueKeepsPort(cfg: Config, p: Port, l: Log, now: nat)
    requires PortOk(cfg, p, l, now) && p.queue != [] && now == HeadDue(p, l)
    ensures PortOk(cfg, Dequeue(cfg, p, now), LogDequeue(cfg, l, p, now), now)
  {
    DequeueQueue(cfg, p, l, now);
    DequeueOrder(cfg, p, l, now);
    DequeueAccount(cfg, p, l, now);
    DequeueTiming(cfg, p, l, now);
  }

  // ----- What the invariant says -----

  /** With an unbounded queue nothing is lost or reordered: the n-th arrival is the n-th to leave. */
  lemma UnboundedDepartsInOrder(cfg: Config, p: Port, l: Log, now: nat, j: nat)
    requires PortOk(cfg, p, l, now) && cfg.limit == 0 && j < |l.departures|
    ensures l.departures[j].index == j
    decreases j
  {
    if j > 0 {
      UnboundedDepartsInOrder(cfg, p, l, now, j - 1);
    }
    if l.departures[j].index > j {
      assert j in l.slots || Left(l, j);
      if Left(l, j) {
        var i :| 0 <= i < |l.departures| && l.departures[i].index == j;
        if i < j {
          UnboundedDepartsInOrder(cfg, p, l, now, i);
        }
      }
    }
  }

  /** The arrivals as the wire would see them. */
  function AsWire(cfg: Config, l: Log, n: nat): seq<Arrival>
    requires n <= |l.arrivals|
  {
    seq(n, i requires 0 <= i < n => Arrival(l.arrivals[i].time, Delay(cfg, l.arrivals[i].packet)))
  }

  /** The event-driven queue hands its n-th packet to the wire at exactly the time the
      wire's own recursion gives on the same arrivals. */
  lemma {:induction false} DeparturesFollowWire(cfg: Config, p: Port, l: Log, now: nat, j: nat)
    requires PortOk(cfg, p, l, now) && cfg.limit == 0 && j < |l.departures|
    ensures j < |l.arrivals| && l.departures[j] == Departed(j, Avail(0, AsWire(cfg, l, j + 1)))
    decreases j
  {
    UnboundedDepartsInOrder(cfg, p, l, now, j);
    var xs := AsWire(cfg, l, j + 1);
    assert xs[..j] == AsWire(cfg, l, j);
    assert OnTime(cfg, l, j);
    if j > 0 {
      DeparturesFollowWire(cfg, p, l, now, j - 1);
    } else {
      assert Avail(0, AsWire(cfg, l, 0)) == 0;
    }
  }

  /** `a` can no longer be evicted: it has left, or stands in the lower half of the queue. */
  ghost predicate Secure(cfg: Config, l: Log, a: nat) {
    Left(l, a) || exists i :: 0 <= i < |l.slots| && l.slots[i] == a && (cfg.limit == 0 || i < cfg.limit / 2)
  }

  lemma EnqueueKeepsSecure(cfg: Config, l: Log, packet: Packet, index: nat, now: nat, a: nat)
    requires Secure(cfg, l, a) && Choice(cfg, index)
    ensures Secure(cfg, LogEnqueue(cfg, l, packet, index, now), a)
  {
    var l' := LogEnqueue(cfg, l, packet, index, now);
    if Left(l, a) {
      assert Left(l', a);
    } else {
      var i :| 0 <= i < |l.slots| && l.slots[i] == a && (cfg.limit == 0 || i < cfg.limit / 2);
      assert l'.slots[i] == a;
    }
  }

  lemma DequeueKeepsSecure(cfg: Config, l: Log, p: Port, now: nat, a: nat)
    requires Secure(cfg, l, a) && p.queue != [] && l.slots != []
    ensures Secure(cfg, LogDequeue(cfg, l, p, now), a)
  {
    var l' := LogDequeue(cfg, l, p, now);
    if Left(l, a) {
      var i :| 0 <= i < |l.departures| && l.departures[i].index == a;
      assert l'.departures[i].index == a;
    } else {
      var i :| 0 <= i < |l.slots| && l.slots[i] == a && (cfg.limit == 0 || i < cfg.limit / 2);
      if i == 0 {
        assert l'.departures[|l.departures|].index == a;
      } else {
        assert l'.slots[i - 1] == a;
      }
    }
  }

  lemma SecureIsNotEvicted(cfg: Config, l: Log, a: nat)
    requires AccountOk(cfg, l) && Secure(cfg, l, a)
    ensures a !in l.evicted
  {
  }

  // ----- Conservation -----

  function Elements(s: seq<nat>): set<nat> {
    set x | x in s
  }

  lemma {:induction false} IncreasingCard(s: seq<nat>)
    requires forall i, j :: 0 <= i < j < |s| ==> s[i] < s[j]
    ensures |Elements(s)| == |s|
    decreases |s|
  {
    if s != [] {
      var n := |s| - 1;
      IncreasingCard(s[..n]);
      assert s == s[..n] + [s[n]];
      assert Elements(s) == Elements(s[..n]) + {s[n]};
      assert s[n] !in s[..n];
    }
  }

  function Upto(n: nat): (r: set<nat>)
    ensures |r| == n && forall i :: i in r <==> 0 <= i < n
  {
    if n == 0 then {} else Upto(n - 1) + {n - 1}
  }

  function DepartedIndexes(l: Log): seq<nat> {
    seq(|l.departures|, i requires 0 <= i < |l.departures| => l.departures[i].index)
  }

  lemma DepartedMembers(l: Log, a: nat)
    ensures a in Elements(DepartedIndexes(l)) <==> Left(l, a)
  {
    if Left(l, a) {
      var i :| 0 <= i < |l.departures| && l.departures[i].index == a;
      assert DepartedIndexes(l)[i] == a;
    }
  }

  lemma ThreeWayCard(d: set<nat>, q: set<nat>, e: set<nat>)
    requires d !! q && d !! e && q !! e
    ensures |d + q + e| == |d| + |q| + |e|
  {
    assert (d + q) !! e;
  }

  lemma Partition(cfg: Config, l: Log, a: nat)
    requires OrderOk(l) && AccountOk(cfg, l) && forall i :: 0 <= i < |l.slots| ==> l.slots[i] < |l.arrivals|
    ensures a in Elements(DepartedIndexes(l)) ==> a !in l.slots && a !in l.evicted
    ensures a in l.slots ==> a !in l.evicted
    ensures a < |l.arrivals| <==> a in Elements(DepartedIndexes(l)) || a in l.slots || a in l.evicted
  {
    DepartedMembers(l, a);
  }

  ghost predicate Splits(d: set<nat>, q: set<nat>, e: set<nat>, n: nat) {
    d !! q && d !! e && q !! e && d + q + e == Upto(n)
  }

  lemma PartitionSets(cfg: Config, l: Log, d: set<nat>, q: set<nat>)
    requires OrderOk(l) && AccountOk(cfg, l) && forall i :: 0 <= i < |l.slots| ==> l.slots[i] < |l.arrivals|
    requires d == Elements(DepartedIndexes(l)) && q == Elements(l.slots)
    ensures Splits(d, q, l.evicted, |l.arrivals|)
  {
    var u := Upto(|l.arrivals|);
    forall a: nat
      ensures (a in d ==> a !in q && a !in l.evicted) && (a in q ==> a !in l.evicted)
      ensures a in u <==> a in d || a in q || a in l.evicted
    {
      Partition(cfg, l, a);
    }
  }

  lemma SplitCards(d: set<nat>, q: set<nat>, e: set<nat>, n: nat)
    requires Splits(d, q, e, n)
    ensures n == |d| + |q| + |e|
  {
    ThreeWayCard(d, q, e);
  }

  lemma IndexesIncrease(l: Log)
    requires OrderOk(l)
    ensures |Elements(DepartedIndexes(l))| == |l.departures| && |Elements(l.slots)| == |l.slots|
  {
    IncreasingCard(DepartedIndexes(l));
    IncreasingCard(l.slots);
  }

  /** Every packet accepted is sent, queued or evicted, and counted once. */
  lemma Conservation(cfg: Config, p: Port, l: Log, now: nat)
    requires PortOk(cfg, p, l, now)
    ensures |l.arrivals| == |l.departures| + |p.queue| + |l.evicted|
  {
    IndexesIncrease(l);
    var d, q := Elements(DepartedIndexes(l)), Elements(l.slots);
    PartitionSets(cfg, l, d, q);
    SplitCards(d, q, l.evicted, |l.arrivals|);
  }
}
