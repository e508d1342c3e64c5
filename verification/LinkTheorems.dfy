/** What every run of a Link inside the scheduler guarantees. */
module LinkTheorems {
  import opened Options
  import opened Scheduler
  import opened LinkPort
  import LN = LinkNetwork
  import Wire

  type Net = LN.Net

  // ----- The token -----

  function Tokens(cfg: Config, s: State<LN.Payload>, p: nat): set<nat> {
    set id | id in s.queue && LN.IsToken(cfg, s.queue[id]) && s.queue[id].payload.port == p
  }

  /** In every reachable state a busy port has exactly one pending CHECK_QUEUE, due no
      earlier than the line is free, and a quiet port has none. */
  lemma OneTokenPerBusyPort(cfg: Config, turns: seq<LN.LinkTurn>, p: nat)
    requires cfg.limit != 1 && LN.Possible(cfg, LN.Start(), turns)
    ensures var net := LN.Continue(cfg, LN.Start(), turns);
      && |Tokens(cfg, net.sys, p)| == (if LN.LineOf(net, p).port.queue == [] then 0 else 1)
      && (forall id :: id in Tokens(cfg, net.sys, p) ==> net.sys.queue[id].wakeup >= LN.LineOf(net, p).port.avail)
  {
    LN.StartInv(cfg);
    LN.RunKeepsInv(cfg, LN.Start(), turns);
    var net := LN.Continue(cfg, LN.Start(), turns);
    if LN.LineOf(net, p).port.queue == [] {
      assert Tokens(cfg, net.sys, p) == {};
    } else {
      var id :| id in net.sys.queue && LN.IsToken(cfg, net.sys.queue[id]) && net.sys.queue[id].payload.port == p;
      assert Tokens(cfg, net.sys, p) == {id};
    }
  }

  // ----- Timing -----

  /** With an unbounded queue, for every arrival sequence and every interleaving with other
      ports and modules, the n-th packet leaves for the wire at exactly the time the
      wire's recursion gives on the same arrivals. */
  lemma LinkRefinesWire(cfg: Config, turns: seq<LN.LinkTurn>, p: nat, j: nat)
    requires cfg.limit == 0 && LN.Possible(cfg, LN.Start(), turns)
    requires j < |LN.LineOf(LN.Continue(cfg, LN.Start(), turns), p).log.departures|
    ensures var log := LN.LineOf(LN.Continue(cfg, LN.Start(), turns), p).log;
      j < |log.arrivals| && log.departures[j] == Departed(j, Wire.Avail(0, AsWire(cfg, log, j + 1)))
  {
    LN.StartInv(cfg);
    LN.RunKeepsInv(cfg, LN.Start(), turns);
    var net := LN.Continue(cfg, LN.Start(), turns);
    LN.LineOfOk(cfg, net, p);
    DeparturesFollowWire(cfg, LN.LineOf(net, p).port, LN.LineOf(net, p).log, net.sys.now, j);
  }

  function Sizes(log: Log, n: nat): seq<nat>
    requires n <= |log.arrivals|
  {
    seq(n, i requires 0 <= i < n => log.arrivals[i].packet.size)
  }

  function Times(log: Log, n: nat): seq<nat>
    requires n <= |log.arrivals|
  {
    seq(n, i requires 0 <= i < n => log.arrivals[i].time)
  }

  /** A Link and a Wire of the same speed agree: given the same packets at the same times,
      the Link's departures are the values a Wire's nextAvailable takes, whatever value up
      to the first arrival it starts from. */
  lemma LinkAndWireAgree(me: nat, bps: nat, turns: seq<LN.LinkTurn>, p: nat, j: nat, init: nat)
    requires var cfg := LinkConfig(me, bps, 0);
      && LN.Possible(cfg, LN.Start(), turns)
      && j < |LN.LineOf(LN.Continue(cfg, LN.Start(), turns), p).log.departures|
    requires var log := LN.LineOf(LN.Continue(LinkConfig(me, bps, 0), LN.Start(), turns), p).log;
      |log.arrivals| > 0 && init <= log.arrivals[0].time
    ensures var log := LN.LineOf(LN.Continue(LinkConfig(me, bps, 0), LN.Start(), turns), p).log;
      j < |log.arrivals| && log.departures[j].time == Wire.Avail(init, Wire.Arrivals(Sizes(log, j + 1), Times(log, j + 1), bps))
  {
    var cfg := LinkConfig(me, bps, 0);
    LinkRefinesWire(cfg, turns, p, j);
    var log := LN.LineOf(LN.Continue(cfg, LN.Start(), turns), p).log;
    var xs := AsWire(cfg, log, j + 1);
    assert xs == Wire.Arrivals(Sizes(log, j + 1), Times(log, j + 1), bps);
    Wire.InitialValueIsIrrelevant(init, xs);
  }

  // ----- Progress -----

  /** When the wire would begin to transmit arrival `a`. */
  function BeginsAt(cfg: Config, log: Log, a: nat): nat
    requires a < |log.arrivals|
  {
    Wire.Max(log.arrivals[a].time, Wire.Avail(0, AsWire(cfg, log, a)))
  }

  /** The head of an unbounded queue is the first arrival that has not left. */
  lemma HeadIsNext(cfg: Config, port: Port, log: Log, now: nat)
    requires PortOk(cfg, port, log, now) && cfg.limit == 0 && |log.departures| < |log.arrivals|
    ensures log.slots != [] && log.slots[0] == |log.departures|
  {
    var n := |log.departures|;
    forall i | 0 <= i < n ensures log.departures[i].index == i {
      UnboundedDepartsInOrder(cfg, port, log, now, i);
    }
    assert n in log.slots;
  }

  lemma HeadBegins(cfg: Config, port: Port, log: Log, now: nat)
    requires PortOk(cfg, port, log, now) && cfg.limit == 0 && |log.departures| < |log.arrivals|
    ensures log.slots != [] && log.slots[0] == |log.departures| && HeadDue(port, log) == BeginsAt(cfg, log, |log.departures|)
  {
    HeadIsNext(cfg, port, log, now);
    var n := |log.departures|;
    if n > 0 {
      DeparturesFollowWire(cfg, port, log, now, n - 1);
    } else {
      assert AsWire(cfg, log, 0) == [];
    }
  }

  lemma LaterBeginsLater(cfg: Config, port: Port, log: Log, now: nat, n: nat, a: nat)
    requires TimingOk(cfg, port, log, now) && n <= a < |log.arrivals|
    ensures BeginsAt(cfg, log, n) <= BeginsAt(cfg, log, a)
  {
    var xs := AsWire(cfg, log, a);
    assert xs[..n] == AsWire(cfg, log, n) && xs[..a] == xs;
    Wire.AvailGrows(0, xs, n, a);
  }

  /** No queue gets stuck, whatever the limit: once nothing due by `till` is left in the
      scheduler, a packet still queued had not arrived by `till`, or the line is not free
      by then. */
  lemma NothingGetsStuck(cfg: Config, turns: seq<LN.LinkTurn>, p: nat, till: nat, i: nat)
    requires cfg.limit != 1 && LN.Possible(cfg, LN.Start(), turns)
    requires forall id :: id in LN.Continue(cfg, LN.Start(), turns).sys.queue ==>
      LN.Continue(cfg, LN.Start(), turns).sys.queue[id].wakeup > till
    requires i < |LN.LineOf(LN.Continue(cfg, LN.Start(), turns), p).log.slots|
    ensures var ln := LN.LineOf(LN.Continue(cfg, LN.Start(), turns), p);
      ln.log.slots[i] < |ln.log.arrivals| && Wire.Max(ln.log.arrivals[ln.log.slots[i]].time, ln.port.avail) > till
  {
    LN.StartInv(cfg);
    LN.RunKeepsInv(cfg, LN.Start(), turns);
    var net := LN.Continue(cfg, LN.Start(), turns);
    LN.LineOfOk(cfg, net, p);
    HeadDueAfter(cfg, net, p, till);
  }

  lemma HeadDueAfter(cfg: Config, net: Net, p: nat, till: nat)
    requires LN.Inv(cfg, net, None) && LN.LineOf(net, p).port.queue != []
    requires forall id :: id in net.sys.queue ==> net.sys.queue[id].wakeup > till
    ensures var ln := LN.LineOf(net, p);
      ln.log.slots != [] && ln.log.slots[0] < |ln.log.arrivals| && HeadDue(ln.port, ln.log) > till
  {
    var id :| id in net.sys.queue && LN.IsToken(cfg, net.sys.queue[id]) && net.sys.queue[id].payload.port == p;
    assert LN.Due(LN.LineOf(net, p), net.sys.queue[id].wakeup);
  }

  /** With an unbounded queue: every packet whose transmission the wire would have begun by
      `till` has left the Link. */
  lemma EverythingBegunHasLeft(cfg: Config, turns: seq<LN.LinkTurn>, p: nat, till: nat, a: nat)
    requires cfg.limit == 0 && LN.Possible(cfg, LN.Start(), turns)
    requires forall id :: id in LN.Continue(cfg, LN.Start(), turns).sys.queue ==>
      LN.Continue(cfg, LN.Start(), turns).sys.queue[id].wakeup > till
    requires var log := LN.LineOf(LN.Continue(cfg, LN.Start(), turns), p).log;
      a < |log.arrivals| && BeginsAt(cfg, log, a) <= till
    ensures a < |LN.LineOf(LN.Continue(cfg, LN.Start(), turns), p).log.departures|
  {
    LN.StartInv(cfg);
    LN.RunKeepsInv(cfg, LN.Start(), turns);
    var net := LN.Continue(cfg, LN.Start(), turns);
    LN.LineOfOk(cfg, net, p);
    var ln := LN.LineOf(net, p);
    var n := |ln.log.departures|;
    if n <= a {
      HeadBegins(cfg, ln.port, ln.log, net.sys.now);
      LaterBeginsLater(cfg, ln.port, ln.log, net.sys.now, n, a);
    }
  }

  // ----- The Link's run is a run of the scheduler -----

  function ForwardEffects(cfg: Config, net: Net, fs: seq<LN.Forward>): seq<Effect<LN.Payload>>
    decreases |fs|
  {
    if fs == [] then []
    else
      var ln := LN.LineOf(net, fs[0].port);
      (if |Enqueue(cfg, ln.port, fs[0].packet, fs[0].index).queue| == 1
       then [LN.TokenFor(cfg, fs[0].port, Wait(ln.port, net.sys.now))] else [])
      + ForwardEffects(cfg, LN.DoForward(cfg, net, fs[0]), fs[1..])
  }

  lemma {:induction false} ApplyAllConcat(s: State<LN.Payload>, a: seq<Effect<LN.Payload>>, b: seq<Effect<LN.Payload>>)
    ensures ApplyAll(s, a + b) == ApplyAll(ApplyAll(s, a), b)
    decreases |a|
  {
    if a == [] {
      assert a + b == b;
    } else {
      assert (a + b)[0] == a[0] && (a + b)[1..] == a[1..] + b;
      ApplyAllConcat(Apply(s, a[0]), a[1..], b);
    }
  }

  lemma ApplyOne(s: State<LN.Payload>, e: Effect<LN.Payload>)
    ensures ApplyAll(s, [e]) == Apply(s, e)
  {
    assert [e][1..] == [];
    assert ApplyAll(Apply(s, e), []) == Apply(s, e);
  }

  lemma {:induction false} ForwardsAreEffects(cfg: Config, net: Net, fs: seq<LN.Forward>)
    ensures LN.DoForwards(cfg, net, fs).sys == ApplyAll(net.sys, ForwardEffects(cfg, net, fs))
    decreases |fs|
  {
    if fs != [] {
      var ln := LN.LineOf(net, fs[0].port);
      var e := LN.TokenFor(cfg, fs[0].port, Wait(ln.port, net.sys.now));
      var rest := ForwardEffects(cfg, LN.DoForward(cfg, net, fs[0]), fs[1..]);
      ForwardsAreEffects(cfg, LN.DoForward(cfg, net, fs[0]), fs[1..]);
      if |Enqueue(cfg, ln.port, fs[0].packet, fs[0].index).queue| == 1 {
        ApplyOne(net.sys, e);
        ApplyAllConcat(net.sys, [e], rest);
      } else {
        assert [] + rest == rest;
      }
    }
  }

  /** The effects of the Link's handler in this turn. */
  function HandlerEffects(cfg: Config, net: Net, t: LN.LinkTurn): seq<Effect<LN.Payload>>
    requires LN.Enabled(cfg, net, t) && LN.Safe(cfg, net, t)
  {
    var m := LN.Woken(net, t).sys.queue[t.id];
    var q := LN.Popped(net, t);
    if m.cancelled || m.to != cfg.me then []
    else if m.payload.CheckQueue? then LN.CheckEffects(cfg, LN.LineOf(q, m.payload.port).port, m.payload.port, q.sys.now)
    else ForwardEffects(cfg, q, t.forwards)
  }

  function SchedulerTurn(cfg: Config, net: Net, t: LN.LinkTurn): Turn<LN.Payload>
    requires LN.Enabled(cfg, net, t) && LN.Safe(cfg, net, t)
  {
    Turn(t.awoken, t.id, HandlerEffects(cfg, net, t) + t.others)
  }

  lemma TurnIsSchedulerTurn(cfg: Config, net: Net, t: LN.LinkTurn, h: History<LN.Payload>)
    requires LN.Enabled(cfg, net, t) && LN.Safe(cfg, net, t) && h.state == net.sys
    ensures Scheduler.Enabled(h, SchedulerTurn(cfg, net, t))
    ensures Scheduler.TakeTurn(h, SchedulerTurn(cfg, net, t)).state == LN.TakeTurn(cfg, net, t).sys
  {
    var st := SchedulerTurn(cfg, net, t);
    TurnState(h, st);
    var q := LN.Popped(net, t);
    ForwardsAreEffects(cfg, q, t.forwards);
    assert LN.Handled(cfg, net, t).sys == ApplyAll(q.sys, HandlerEffects(cfg, net, t));
    ApplyAllConcat(q.sys, HandlerEffects(cfg, net, t), t.others);
  }

  function SchedulerTurns(cfg: Config, net: Net, turns: seq<LN.LinkTurn>): seq<Turn<LN.Payload>>
    requires LN.Possible(cfg, net, turns)
    decreases |turns|
  {
    if turns == [] then []
    else [SchedulerTurn(cfg, net, turns[0])] + SchedulerTurns(cfg, LN.TakeTurn(cfg, net, turns[0]), turns[1..])
  }

  /** Every run of the Link is a run of the scheduler, so all that module Scheduler proves
      (order, exactly-once handling, delivery on time) holds for it. */
  lemma {:induction false} LinkRunsInScheduler(cfg: Config, net: Net, turns: seq<LN.LinkTurn>, h: History<LN.Payload>)
    requires LN.Possible(cfg, net, turns) && h.state == net.sys
    ensures Scheduler.Possible(h, SchedulerTurns(cfg, net, turns))
    ensures Scheduler.Continue(h, SchedulerTurns(cfg, net, turns)).state == LN.Continue(cfg, net, turns).sys
    decreases |turns|
  {
    if turns != [] {
      var t := turns[0];
      TurnIsSchedulerTurn(cfg, net, t, h);
      var st := SchedulerTurn(cfg, net, t);
      var all := SchedulerTurns(cfg, net, turns);
      LinkRunsInScheduler(cfg, LN.TakeTurn(cfg, net, t), turns[1..], Scheduler.TakeTurn(h, st));
      assert all[0] == st && all[1..] == SchedulerTurns(cfg, LN.TakeTurn(cfg, net, t), turns[1..]);
    }
  }

  // ----- Bounded queues -----

  /** With a limit of 2 or more: the queue never exceeds the limit, what is sent is a
      subsequence of what arrived, nothing is lost or duplicated unaccounted for, and the
      packets that get through leave at the times the wire's recursion gives for them. */
  lemma BoundedLink(cfg: Config, turns: seq<LN.LinkTurn>, p: nat)
    requires cfg.limit >= 2 && LN.Possible(cfg, LN.Start(), turns)
    ensures var ln := LN.LineOf(LN.Continue(cfg, LN.Start(), turns), p);
      && |ln.port.queue| <= cfg.limit
      && (forall i, j :: 0 <= i < j < |ln.log.departures| ==> ln.log.departures[i].index < ln.log.departures[j].index)
      && (forall j :: 0 <= j < |ln.log.departures| ==> OnTime(cfg, ln.log, j))
      && |ln.log.arrivals| == |ln.log.departures| + |ln.port.queue| + |ln.log.evicted|
  {
    LN.StartInv(cfg);
    LN.RunKeepsInv(cfg, LN.Start(), turns);
    var net := LN.Continue(cfg, LN.Start(), turns);
    LN.LineOfOk(cfg, net, p);
    Conservation(cfg, LN.LineOf(net, p).port, LN.LineOf(net, p).log, net.sys.now);
  }

  lemma {:induction false} ForwardsKeepSecure(cfg: Config, net: Net, fs: seq<LN.Forward>, p: nat, a: nat)
    requires Secure(cfg, LN.LineOf(net, p).log, a) && LN.Choices(cfg, fs)
    ensures Secure(cfg, LN.LineOf(LN.DoForwards(cfg, net, fs), p).log, a)
    decreases |fs|
  {
    if fs != [] {
      if fs[0].port == p {
        EnqueueKeepsSecure(cfg, LN.LineOf(net, p).log, fs[0].packet, fs[0].index, net.sys.now, a);
      }
      ForwardsKeepSecure(cfg, LN.DoForward(cfg, net, fs[0]), fs[1..], p, a);
    }
  }

  lemma TurnKeepsSecure(cfg: Config, net: Net, t: LN.LinkTurn, p: nat, a: nat)
    requires Secure(cfg, LN.LineOf(net, p).log, a) && LN.Enabled(cfg, net, t) && LN.Safe(cfg, net, t)
    ensures Secure(cfg, LN.LineOf(LN.TakeTurn(cfg, net, t), p).log, a)
  {
    var m := LN.Woken(net, t).sys.queue[t.id];
    var q := LN.Popped(net, t);
    assert LN.LineOf(q, p) == LN.LineOf(net, p);
    if !m.cancelled && m.to == cfg.me {
      if m.payload.CheckQueue? {
        if m.payload.port == p {
          DequeueKeepsSecure(cfg, LN.LineOf(q, p).log, LN.LineOf(q, p).port, q.sys.now, a);
        }
      } else {
        ForwardsKeepSecure(cfg, q, t.forwards, p, a);
      }
    }
    assert LN.LineOf(LN.TakeTurn(cfg, net, t), p) == LN.LineOf(LN.Handled(cfg, net, t), p);
  }

  lemma {:induction false} RunKeepsSecure(cfg: Config, net: Net, turns: seq<LN.LinkTurn>, p: nat, a: nat)
    requires Secure(cfg, LN.LineOf(net, p).log, a) && LN.Possible(cfg, net, turns)
    ensures Secure(cfg, LN.LineOf(LN.Continue(cfg, net, turns), p).log, a)
    decreases |turns|
  {
    if turns != [] {
      TurnKeepsSecure(cfg, net, turns[0], p, a);
      RunKeepsSecure(cfg, LN.TakeTurn(cfg, net, turns[0]), turns[1..], p, a);
    }
  }

  /** A packet that once stood at a queue position below limit / 2 is never evicted,
      whatever happens later. */
  lemma LowerHalfIsNeverEvicted(cfg: Config, before: seq<LN.LinkTurn>, after: seq<LN.LinkTurn>, p: nat, i: nat)
    requires cfg.limit >= 2 && LN.Possible(cfg, LN.Start(), before)
    requires LN.Possible(cfg, LN.Continue(cfg, LN.Start(), before), after)
    requires i < cfg.limit / 2 && i < |LN.LineOf(LN.Continue(cfg, LN.Start(), before), p).log.slots|
    ensures var mid := LN.Continue(cfg, LN.Start(), before);
      LN.LineOf(mid, p).log.slots[i] !in LN.LineOf(LN.Continue(cfg, mid, after), p).log.evicted
  {
    LN.StartInv(cfg);
    LN.RunKeepsInv(cfg, LN.Start(), before);
    var mid := LN.Continue(cfg, LN.Start(), before);
    LN.RunKeepsInv(cfg, mid, after);
    var end := LN.Continue(cfg, mid, after);
    var a := LN.LineOf(mid, p).log.slots[i];
    assert Secure(cfg, LN.LineOf(mid, p).log, a);
    RunKeepsSecure(cfg, mid, after, p, a);
    LN.LineOfOk(cfg, end, p);
    SecureIsNotEvicted(cfg, LN.LineOf(end, p).log, a);
  }

  // ----- A limit of one -----

  ghost predicate AlwaysSafe(cfg: Config) {
    forall turns, t :: LN.Possible(cfg, LN.Start(), turns) && LN.Enabled(cfg, LN.Continue(cfg, LN.Start(), turns), t) ==>
      LN.Safe(cfg, LN.Continue(cfg, LN.Start(), turns), t)
  }

  lemma Prepend(cfg: Config, net: Net, t: LN.LinkTurn, turns: seq<LN.LinkTurn>)
    requires LN.Enabled(cfg, net, t) && LN.Safe(cfg, net, t) && LN.Possible(cfg, LN.TakeTurn(cfg, net, t), turns)
    ensures LN.Possible(cfg, net, [t] + turns)
    ensures LN.Continue(cfg, net, [t] + turns) == LN.Continue(cfg, LN.TakeTurn(cfg, net, t), turns)
  {
    assert ([t] + turns)[0] == t && ([t] + turns)[1..] == turns;
  }

  function Check(cfg: Config, port: nat): Message<LN.Payload> {
    Message(cfg.me, cfg.me, LN.CheckQueue(port), 0, false)
  }

  /** With limit 1 every packet that arrives leaves one packet in the queue and sends one
      more CHECK_QUEUE. */
  lemma ForwardAtLimitOne(cfg: Config, q: Net, port: nat, packet: Packet) returns (b: Net)
    requires cfg.limit == 1 && q.sys.now == 0 && LN.LineOf(q, port).port.avail == 0
    requires |LN.LineOf(q, port).port.queue| == |LN.LineOf(q, port).log.slots| <= 1
    ensures b == LN.DoForwards(cfg, q, [LN.Forward(port, packet, 0)])
    ensures b.sys == q.sys.(lastId := q.sys.lastId + 1, queue := q.sys.queue[q.sys.lastId + 1 := Check(cfg, port)])
    ensures LN.LineOf(b, port).port == Port([packet], 0) && |LN.LineOf(b, port).log.slots| == 1
  {
    var f := LN.Forward(port, packet, 0);
    b := LN.DoForward(cfg, q, f);
    assert [f][1..] == [];
    assert LN.DoForwards(cfg, b, []) == b;
  }

  /** A turn in which the Link gets one packet for `port` and nothing else happens. */
  lemma ArrivalTurn(cfg: Config, n: Net, t: LN.LinkTurn, port: nat, packet: Packet)
    requires cfg.limit == 1 && t.awoken == [] && t.others == [] && t.forwards == [LN.Forward(port, packet, 0)]
    requires IsTop(n.sys.queue, t.id) && n.sys.queue[t.id] == Message(cfg.me + 1, cfg.me, LN.Other(0), 0, false)
    requires LN.LineOf(n, port).port.avail == 0 && |LN.LineOf(n, port).port.queue| == |LN.LineOf(n, port).log.slots| <= 1
    ensures LN.Enabled(cfg, n, t) && LN.Safe(cfg, n, t)
    ensures var n' := LN.TakeTurn(cfg, n, t);
      && n'.sys == State(0, n.sys.lastId + 1, (n.sys.queue - {t.id})[n.sys.lastId + 1 := Check(cfg, port)], None)
      && LN.LineOf(n', port).port == Port([packet], 0) && |LN.LineOf(n', port).log.slots| == 1
  {
    assert LN.Woken(n, t) == n;
    var b := ForwardAtLimitOne(cfg, LN.Popped(n, t), port, packet);
    assert LN.Handled(cfg, n, t) == b;
    assert ApplyAll(b.sys, []) == b.sys;
  }

  /** Both packets are on their way to the Link. */
  lemma TwoArrivals(cfg: Config, t0: LN.LinkTurn, t1: LN.LinkTurn, port: nat, packet: Packet) returns (n2: Net)
    requires cfg.limit == 1
    requires var m := Send(cfg.me + 1, cfg.me, LN.Other(0), 0); var f := LN.Forward(port, packet, 0);
      t0 == LN.LinkTurn([m, m], 1, [f], []) && t1 == LN.LinkTurn([], 2, [f], [])
    ensures LN.Possible(cfg, LN.Start(), [t0] + ([t1] + [])) && n2 == LN.Continue(cfg, LN.Start(), [t0] + ([t1] + []))
    ensures n2.sys == State(0, 4, map[3 := Check(cfg, port), 4 := Check(cfg, port)], None)
    ensures LN.LineOf(n2, port).port == Port([packet], 0) && |LN.LineOf(n2, port).log.slots| == 1
  {
    var m := Send(cfg.me + 1, cfg.me, LN.Other(0), 0);
    var start := LN.Start();
    ApplyOne(Apply(start.sys, m), m);
    assert [m, m][1..] == [m];
    var awake := start.(sys := ApplyAll(start.sys, t0.awoken));
    var first := t0.(awoken := []);
    ArrivalTurn(cfg, awake, first, port, packet);
    var n1 := LN.TakeTurn(cfg, awake, first);
    assert LN.Woken(start, t0) == awake && LN.Woken(awake, first) == awake;
    assert LN.TakeTurn(cfg, start, t0) == n1;
    ArrivalTurn(cfg, n1, t1, port, packet);
    n2 := LN.TakeTurn(cfg, n1, t1);
    Prepend(cfg, n1, t1, []);
    Prepend(cfg, start, t0, [t1] + []);
    assert n2.sys.queue == map[3 := Check(cfg, port), 4 := Check(cfg, port)];
  }

  /** Two packets arriving together, each forwarded once to the same port: the second evicts
      the first from a queue of one and sets a second CHECK_QUEUE, which then finds the
      queue empty. */
  lemma LimitOneFails(cfg: Config)
    requires cfg.limit == 1
    ensures !AlwaysSafe(cfg)
  {
    var port, packet := cfg.me + 2, Packet(0, 0);
    var m, f := Send(cfg.me + 1, cfg.me, LN.Other(0), 0), LN.Forward(port, packet, 0);
    var t0, t1 := LN.LinkTurn([m, m], 1, [f], []), LN.LinkTurn([], 2, [f], []);
    var t2, t3 := LN.LinkTurn([], 3, [], []), LN.LinkTurn([], 4, [], []);
    var n2 := TwoArrivals(cfg, t0, t1, port, packet);
    SecondTokenFails(cfg, n2, port, t2, t3);
    Prepend(cfg, n2, t2, []);
    ContinueConcat(cfg, LN.Start(), [t0] + ([t1] + []), [t2] + []);
    assert !LN.Safe(cfg, LN.Continue(cfg, LN.Start(), [t0] + ([t1] + []) + ([t2] + [])), t3);
  }

  lemma {:induction false} ContinueConcat(cfg: Config, net: Net, a: seq<LN.LinkTurn>, b: seq<LN.LinkTurn>)
    requires LN.Possible(cfg, net, a) && LN.Possible(cfg, LN.Continue(cfg, net, a), b)
    ensures LN.Possible(cfg, net, a + b) && LN.Continue(cfg, net, a + b) == LN.Continue(cfg, LN.Continue(cfg, net, a), b)
    decreases |a|
  {
    if a == [] {
      assert a + b == b;
    } else {
      assert (a + b)[0] == a[0] && (a + b)[1..] == a[1..] + b;
      ContinueConcat(cfg, LN.TakeTurn(cfg, net, a[0]), a[1..], b);
    }
  }

  lemma SecondTokenFails(cfg: Config, n1: Net, port: nat, t2: LN.LinkTurn, t3: LN.LinkTurn)
    requires cfg.limit == 1 && t2 == LN.LinkTurn([], 3, [], []) && t3 == LN.LinkTurn([], 4, [], [])
    requires n1.sys == State(0, 4, map[3 := Check(cfg, port), 4 := Check(cfg, port)], None)
    requires LN.LineOf(n1, port).port.avail == 0 && |LN.LineOf(n1, port).port.queue| == 1 && |LN.LineOf(n1, port).log.slots| == 1
    ensures LN.Enabled(cfg, n1, t2) && LN.Safe(cfg, n1, t2)
    ensures var n2 := LN.TakeTurn(cfg, n1, t2); LN.Enabled(cfg, n2, t3) && !LN.Safe(cfg, n2, t3)
  {
    assert LN.Woken(n1, t2) == n1;
    var q := LN.Popped(n1, t2);
    var ln := LN.LineOf(n1, port);
    var c := LN.DoCheck(cfg, q, port);
    var out := Send(cfg.me, port, LN.ToPort(ln.port.queue[0]), Delay(cfg, ln.port.queue[0]));
    assert LN.CheckEffects(cfg, ln.port, port, 0) == [out];
    ApplyOne(q.sys, out);
    var n2 := LN.TakeTurn(cfg, n1, t2);
    assert n2.sys.queue.Keys == {4, 5};
    assert LN.Woken(n2, t3) == n2;
    assert LN.LineOf(n2, port).port.queue == [];
  }

  /** The Link is safe in all its runs if and only if its queue limit is not 1. */
  lemma SafeIffLimitNotOne(cfg: Config)
    ensures AlwaysSafe(cfg) <==> cfg.limit != 1
  {
    if cfg.limit == 1 {
      LimitOneFails(cfg);
    } else {
      forall turns, t | LN.Possible(cfg, LN.Start(), turns) && LN.Enabled(cfg, LN.Continue(cfg, LN.Start(), turns), t)
        ensures LN.Safe(cfg, LN.Continue(cfg, LN.Start(), turns), t)
      {
        LN.StartInv(cfg);
        LN.RunKeepsInv(cfg, LN.Start(), turns);
        LN.TurnKeepsInv(cfg, LN.Continue(cfg, LN.Start(), turns), t);
      }
    }
  }
}
