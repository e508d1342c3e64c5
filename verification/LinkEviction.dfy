/** Which packets a bounded Link loses: exactly one for each sendPacket that finds its queue
    full, and it is the packet at the random index. */
module LinkEviction {
  import opened Options
  import opened Scheduler
  import opened LinkPort
  import opened LinkTheorems
  import LN = LinkNetwork

  // ----- One sendPacket -----

  /** A queue with room only grows; a full one loses exactly the packet at the index. */
  lemma OnlyAFullQueueLoses(cfg: Config, p: Port, x: Packet, index: nat)
    requires Choice(cfg, index) && (cfg.limit != 0 ==> |p.queue| <= cfg.limit)
    ensures Enqueue(cfg, p, x, index).avail == p.avail
    ensures cfg.limit == 0 || |p.queue| < cfg.limit ==> Enqueue(cfg, p, x, index).queue == p.queue + [x]
    ensures cfg.limit != 0 && |p.queue| == cfg.limit ==>
      Enqueue(cfg, p, x, index).queue == p.queue[..index] + p.queue[index + 1..] + [x]
  {
  }

  /** The arrival that this call evicts from port `p`: one if the call is for `p` and finds
      `limit` packets in its queue. */
  function Victim(cfg: Config, net: Net, f: LN.Forward, p: nat): set<nat> {
    var ln := LN.LineOf(net, p);
    if f.port == p && cfg.limit != 0 && |ln.port.queue| == cfg.limit && f.index < |ln.log.slots| then {ln.log.slots[f.index]} else {}
  }

  lemma ForwardEvicts(cfg: Config, net: Net, f: LN.Forward, p: nat)
    requires LinkPort.QueueOk(cfg, LN.LineOf(net, p).port, LN.LineOf(net, p).log) && Choice(cfg, f.index)
    ensures LN.LineOf(LN.DoForward(cfg, net, f), p).log.evicted == LN.LineOf(net, p).log.evicted + Victim(cfg, net, f, p)
    ensures LinkPort.QueueOk(cfg, LN.LineOf(LN.DoForward(cfg, net, f), p).port, LN.LineOf(LN.DoForward(cfg, net, f), p).log)
  {
    if f.port == p {
      EnqueueQueue(cfg, LN.LineOf(net, p).port, LN.LineOf(net, p).log, f.packet, f.index, net.sys.now);
    }
  }

  // ----- Whole runs -----

  function Victims(cfg: Config, net: Net, fs: seq<LN.Forward>, p: nat): set<nat>
    decreases |fs|
  {
    if fs == [] then {} else Victim(cfg, net, fs[0], p) + Victims(cfg, LN.DoForward(cfg, net, fs[0]), fs[1..], p)
  }

  lemma {:induction false} ForwardsEvict(cfg: Config, net: Net, fs: seq<LN.Forward>, p: nat)
    requires LinkPort.QueueOk(cfg, LN.LineOf(net, p).port, LN.LineOf(net, p).log) && LN.Choices(cfg, fs)
    ensures LN.LineOf(LN.DoForwards(cfg, net, fs), p).log.evicted == LN.LineOf(net, p).log.evicted + Victims(cfg, net, fs, p)
    decreases |fs|
  {
    if fs != [] {
      ForwardEvicts(cfg, net, fs[0], p);
      ForwardsEvict(cfg, LN.DoForward(cfg, net, fs[0]), fs[1..], p);
    }
  }

  function TurnVictims(cfg: Config, net: Net, t: LN.LinkTurn, p: nat): set<nat>
    requires t.id in LN.Woken(net, t).sys.queue
  {
    var m := LN.Woken(net, t).sys.queue[t.id];
    if m.cancelled || m.to != cfg.me || m.payload.CheckQueue? then {} else Victims(cfg, LN.Popped(net, t), t.forwards, p)
  }

  lemma TurnEvicts(cfg: Config, net: Net, t: LN.LinkTurn, p: nat)
    requires LinkPort.QueueOk(cfg, LN.LineOf(net, p).port, LN.LineOf(net, p).log)
    requires LN.Enabled(cfg, net, t) && LN.Safe(cfg, net, t)
    ensures LN.LineOf(LN.TakeTurn(cfg, net, t), p).log.evicted == LN.LineOf(net, p).log.evicted + TurnVictims(cfg, net, t, p)
  {
    var q := LN.Popped(net, t);
    assert LN.LineOf(q, p) == LN.LineOf(net, p);
    ForwardsEvict(cfg, q, t.forwards, p);
    assert LN.LineOf(LN.TakeTurn(cfg, net, t), p) == LN.LineOf(LN.Handled(cfg, net, t), p);
  }

  function RunVictims(cfg: Config, net: Net, turns: seq<LN.LinkTurn>, p: nat): set<nat>
    requires LN.Possible(cfg, net, turns)
    decreases |turns|
  {
    if turns == [] then {} else TurnVictims(cfg, net, turns[0], p) + RunVictims(cfg, LN.TakeTurn(cfg, net, turns[0]), turns[1..], p)
  }

  lemma LineQueueOk(cfg: Config, net: Net, p: nat)
    requires LN.Inv(cfg, net, None)
    ensures LinkPort.QueueOk(cfg, LN.LineOf(net, p).port, LN.LineOf(net, p).log)
  {
    LN.LineOfOk(cfg, net, p);
  }

  lemma {:induction false} RunEvicts(cfg: Config, net: Net, turns: seq<LN.LinkTurn>, p: nat)
    requires cfg.limit != 1 && LN.Inv(cfg, net, None) && LN.Possible(cfg, net, turns)
    ensures LN.LineOf(LN.Continue(cfg, net, turns), p).log.evicted == LN.LineOf(net, p).log.evicted + RunVictims(cfg, net, turns, p)
    decreases |turns|
  {
    if turns != [] {
      LineQueueOk(cfg, net, p);
      TurnEvicts(cfg, net, turns[0], p);
      LN.TurnKeepsInv(cfg, net, turns[0]);
      RunEvicts(cfg, LN.TakeTurn(cfg, net, turns[0]), turns[1..], p);
    }
  }

  /** Over every run, what a port has lost is exactly what the sendPacket calls that found
      its queue full evicted. */
  lemma LossesAreEvictions(cfg: Config, turns: seq<LN.LinkTurn>, p: nat)
    requires cfg.limit != 1 && LN.Possible(cfg, LN.Start(), turns)
    ensures LN.LineOf(LN.Continue(cfg, LN.Start(), turns), p).log.evicted == RunVictims(cfg, LN.Start(), turns, p)
  {
    LN.StartInv(cfg);
    RunEvicts(cfg, LN.Start(), turns, p);
  }

  // ----- The random index -----

  /** The random number, rounded down and cut to the last position, is an allowed choice. */
  lemma DropIndexIsChoice(cfg: Config, rand: real)
    requires cfg.limit != 0 && (cfg.limit / 2) as real <= rand <= cfg.limit as real
    ensures Choice(cfg, DropIndex(cfg.limit, rand))
    ensures var index := DropIndex(cfg.limit, rand) as real;
      index <= rand && (rand < index + 1.0 || (rand == cfg.limit as real && index == (cfg.limit - 1) as real))
  {
  }

  /** Every allowed choice can be drawn. */
  lemma EveryChoiceIsDrawn(cfg: Config, index: nat)
    requires cfg.limit != 0 && Choice(cfg, index)
    ensures (cfg.limit / 2) as real <= index as real <= cfg.limit as real && DropIndex(cfg.limit, index as real) == index
  {
  }
}
