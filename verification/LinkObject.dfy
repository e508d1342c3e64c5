/** Link as a class: the output queues, the nextAvailable map, sendPacket with its
    eviction, and the CHECK_QUEUE branch, proved against modules LinkPort and LinkNetwork. */
module LinkObject {
  import opened Scheduler
  import opened LinkPort
  import opened Wire
  import LN = LinkNetwork

  class Link {
    const me: nat
    var bps: nat
    var maxQueueLength: nat
    var outputQueue: map<nat, seq<Packet>>
    var nextAvailable: map<nat, nat>

    function Cfg(): Config
      reads this
    {
      LinkConfig(me, bps, maxQueueLength)
    }

    /** Both maps give a default to a port never used: an empty queue, free at time 0. */
    function PortAt(p: nat): Port
      reads this
    {
      Port(if p in outputQueue then outputQueue[p] else [], if p in nextAvailable then nextAvailable[p] else 0)
    }

    constructor (me: nat)
      ensures this.me == me && bps == 1_000_000_000 && maxQueueLength == 0
      ensures forall p :: PortAt(p) == Port([], 0)
    {
      this.me, bps, maxQueueLength := me, 1_000_000_000, 0;
      outputQueue, nextAvailable := map[], map[];
    }

    /** The iterator walk to the packet to evict. */
    method FindVictim(q: seq<Packet>, index: nat) returns (iter: nat)
      requires index < |q|
      ensures iter == index
    {
      iter := 0;
      var k := 0;
      while k < index
        invariant k == iter <= index
      {
        iter := iter + 1;
        k := k + 1;
      }
      assert iter != |q|;
    }

    /** sendPacket: `rand` is the random number, drawn between half the limit and the limit.
        A queue with room keeps all its packets, a full one loses the packet at the index
        drawn, nothing else changes, and a CHECK_QUEUE is sent exactly when the packet is
        alone in its queue. */
    method SendPacket(port: nat, packet: Packet, rand: real, now: nat) returns (sends: seq<Effect<LN.Payload>>)
      requires maxQueueLength != 0 ==> (maxQueueLength / 2) as real <= rand <= maxQueueLength as real
      requires maxQueueLength != 0 ==> |PortAt(port).queue| <= maxQueueLength
      modifies this`outputQueue
      ensures maxQueueLength == 0 || |old(PortAt(port)).queue| < maxQueueLength ==>
        PortAt(port).queue == old(PortAt(port)).queue + [packet]
      ensures maxQueueLength != 0 ==> PortAt(port) == Enqueue(Cfg(), old(PortAt(port)), packet, DropIndex(maxQueueLength, rand))
      ensures PortAt(port).avail == old(PortAt(port)).avail
      ensures forall p :: p != port ==> PortAt(p) == old(PortAt(p))
      ensures maxQueueLength != 0 ==> |PortAt(port).queue| <= maxQueueLength
      ensures sends == if |PortAt(port).queue| == 1 then [LN.TokenFor(Cfg(), port, Wait(old(PortAt(port)), now))] else []
    {
      var queue := PortAt(port).queue;
      var avail := PortAt(port).avail;
      if maxQueueLength != 0 && |queue| >= maxQueueLength {
        var index := rand.Floor;
        if index >= maxQueueLength {
          index := maxQueueLength - 1;
        }
        if index < |queue| {
          var iter := FindVictim(queue, index);
          queue := queue[..iter] + queue[iter + 1..];
        }
      }
      assert maxQueueLength == 0 || |queue| < maxQueueLength;
      queue := queue + [packet];
      outputQueue := outputQueue[port := queue];
      if |queue| == 1 {
        var wait := 0;
        if avail > now {
          wait := wait + (avail - now);
        }
        sends := [LN.TokenFor(Cfg(), port, wait)];
      } else {
        sends := [];
      }
    }

    /** The CHECK_QUEUE branch.  The source asserts that the queue is not empty. */
    method CheckQueue(port: nat, now: nat) returns (sends: seq<Effect<LN.Payload>>)
      requires PortAt(port).queue != []
      modifies this
      ensures bps == old(bps) && maxQueueLength == old(maxQueueLength)
      ensures forall p :: p != port ==> PortAt(p) == old(PortAt(p))
      ensures now >= old(PortAt(port)).avail ==>
        && PortAt(port) == Dequeue(Cfg(), old(PortAt(port)), now)
        && PortAt(port).queue == old(PortAt(port)).queue[1..]
        && PortAt(port).avail == now + TransDelay(old(PortAt(port)).queue[0].size, bps)
        && sends == LN.CheckEffects(Cfg(), old(PortAt(port)), port, now)
      ensures now < old(PortAt(port)).avail ==> PortAt(port) == old(PortAt(port)) && sends == []
    {
      sends := [];
      var queue := PortAt(port).queue;
      if now >= PortAt(port).avail {
        var packet := queue[0];
        queue := queue[1..];
        outputQueue := outputQueue[port := queue];
        var transDelay := Cfg().delay(packet.size);
        nextAvailable := nextAvailable[port := now + transDelay];
        sends := [Send(me, port, LN.ToPort(packet), transDelay)];
        if |queue| > 0 {
          var wait := 0;
          if nextAvailable[port] > now {
            wait := wait + (nextAvailable[port] - now);
          }
          assert wait == transDelay;
          sends := sends + [LN.TokenFor(Cfg(), port, wait)];
        }
      }
    }
  }
}
