/** The Link's departures as messages of the scheduler: over every run, what a Link records
    as sent is what the scheduler's log and trace show. */
module LinkHandover {
  import opened Options
  import opened Scheduler
  import opened LinkPort
  import opened LinkTheorems
  import LN = LinkNetwork
  import Wire

  /** The turn handles the CHECK_QUEUE of port `p`. */
  predicate HandsOver(cfg: Config, net: Net, t: LN.LinkTurn, p: nat)
    requires t.id in LN.Woken(net, t).sys.queue
  {
    var m := LN.Woken(net, t).sys.queue[t.id];
    !m.cancelled && LN.IsToken(cfg, m) && m.payload.port == p
  }

  /** The id of the message that carries the packet. */
  function HandoverIds(cfg: Config, net: Net, t: LN.LinkTurn, p: nat): seq<nat>
    requires t.id in LN.Woken(net, t).sys.queue
  {
    if HandsOver(cfg, net, t, p) then [LN.Woken(net, t).sys.lastId + 1] else []
  }

  function SentIds(cfg: Config, net: Net, turns: seq<LN.LinkTurn>, p: nat): seq<nat>
    requires LN.Possible(cfg, net, turns)
    decreases |turns|
  {
    if turns == [] then []
    else HandoverIds(cfg, net, turns[0], p) + SentIds(cfg, LN.TakeTurn(cfg, net, turns[0]), turns[1..], p)
  }

  /** Departure `j` of the port as a message: from the Link to the port's wire, with the
      packet that arrived as number `departures[j].index`, due at the recorded time. */
  function HandoverMessage(cfg: Config, log: Log, p: nat, j: nat): Message<LN.Payload>
    requires j < |log.departures| && log.departures[j].index < |log.arrivals|
  {
    Message(cfg.me, p, LN.ToPort(log.arrivals[log.departures[j].index].packet), log.departures[j].time, false)
  }

  ghost predicate Handed(cfg: Config, h: History<LN.Payload>, log: Log, p: nat, ids: seq<nat>) {
    && |ids| == |log.departures|
    && (forall j :: 0 <= j < |ids| ==>
          log.departures[j].index < |log.arrivals| && ids[j] in h.log && h.log[ids[j]] == HandoverMessage(cfg, log, p, j))
    && (forall i, j :: 0 <= i < j < |ids| ==> ids[i] < ids[j])
  }

  ghost predicate LogGrows(h: History<LN.Payload>, h': History<LN.Payload>) {
    forall k :: k in h.log ==> k in h'.log && h'.log[k] == h.log[k]
  }

  lemma TurnGrowsLog(h: History<LN.Payload>, t: Turn<LN.Payload>)
    requires Scheduler.Inv(h) && Scheduler.Enabled(h, t)
    ensures Scheduler.Inv(Scheduler.TakeTurn(h, t)) && LogGrows(h, Scheduler.TakeTurn(h, t))
  {
    TurnKeepsInv(h, t);
    forall id | id in h.log ensures id in Scheduler.TakeTurn(h, t).log && Scheduler.TakeTurn(h, t).log[id] == h.log[id] {
      TurnNeverRewritesLog(h, t, id);
    }
  }

  // ----- A turn that hands nothing over -----

  /** Nothing leaves, and arrivals are only added. */
  ghost predicate OnlyArrivals(a: Log, b: Log) {
    b.departures == a.departures && a.arrivals <= b.arrivals
  }

  lemma {:induction false} ForwardsOnlyArrive(cfg: Config, net: Net, fs: seq<LN.Forward>, p: nat)
    ensures OnlyArrivals(LN.LineOf(net, p).log, LN.LineOf(LN.DoForwards(cfg, net, fs), p).log)
    decreases |fs|
  {
    if fs != [] {
      ForwardsOnlyArrive(cfg, LN.DoForward(cfg, net, fs[0]), fs[1..], p);
    }
  }

  lemma QuietTurn(cfg: Config, net: Net, t: LN.LinkTurn, p: nat)
    requires LN.Enabled(cfg, net, t) && LN.Safe(cfg, net, t) && !HandsOver(cfg, net, t, p)
    ensures OnlyArrivals(LN.LineOf(net, p).log, LN.LineOf(LN.TakeTurn(cfg, net, t), p).log)
  {
    var q := LN.Popped(net, t);
    assert LN.LineOf(q, p) == LN.LineOf(net, p);
    ForwardsOnlyArrive(cfg, q, t.forwards, p);
    assert LN.LineOf(LN.TakeTurn(cfg, net, t), p) == LN.LineOf(LN.Handled(cfg, net, t), p);
  }

  lemma HandedStays(cfg: Config, h: History<LN.Payload>, h': History<LN.Payload>, a: Log, b: Log, p: nat, ids: seq<nat>)
    requires Handed(cfg, h, a, p, ids) && LogGrows(h, h') && OnlyArrivals(a, b)
    ensures Handed(cfg, h', b, p, ids)
  {
    forall j | 0 <= j < |ids|
      ensures b.departures[j].index < |b.arrivals| && HandoverMessage(cfg, b, p, j) == HandoverMessage(cfg, a, p, j)
    {
      assert b.arrivals[a.departures[j].index] == a.arrivals[a.departures[j].index];
    }
  }

  // ----- A turn that hands a packet over -----

  lemma BusyTurn(cfg: Config, net: Net, t: LN.LinkTurn, p: nat)
    requires LN.Enabled(cfg, net, t) && LN.Safe(cfg, net, t) && HandsOver(cfg, net, t, p)
    ensures var q := LN.Popped(net, t); var ln := LN.LineOf(net, p);
      && ln.port.queue != [] && ln.log.slots != []
      && LN.LineOf(LN.TakeTurn(cfg, net, t), p).log == LogDequeue(cfg, ln.log, ln.port, q.sys.now)
      && q.sys.now == LN.Woken(net, t).sys.queue[t.id].wakeup
  {
    var q := LN.Popped(net, t);
    assert LN.LineOf(q, p) == LN.LineOf(net, p);
    assert LN.LineOf(LN.TakeTurn(cfg, net, t), p) == LN.LineOf(LN.Handled(cfg, net, t), p);
  }

  /** The packet's message is the first that the handler sends. */
  lemma HandoverLogged(cfg: Config, net: Net, t: LN.LinkTurn, h: History<LN.Payload>, p: nat)
    requires LN.Enabled(cfg, net, t) && LN.Safe(cfg, net, t) && HandsOver(cfg, net, t, p)
    requires Scheduler.Inv(h) && h.state == net.sys && Scheduler.Enabled(h, SchedulerTurn(cfg, net, t))
    ensures var id := LN.Woken(net, t).sys.lastId + 1;
            var h' := Scheduler.TakeTurn(h, SchedulerTurn(cfg, net, t));
            var ln := LN.LineOf(net, p);
      && id !in h.log && ln.port.queue != []
      && id in h'.log
      && h'.log[id] == Message(cfg.me, p, LN.ToPort(ln.port.queue[0]), LN.Popped(net, t).sys.now + Delay(cfg, ln.port.queue[0]), false)
  {
    var st := SchedulerTurn(cfg, net, t);
    IssueAllState(h, t.awoken);
    BusyTurn(cfg, net, t, p);
    var ln := LN.LineOf(net, p);
    assert st.handlers[0] == Send(cfg.me, p, LN.ToPort(ln.port.queue[0]), Delay(cfg, ln.port.queue[0]));
    FirstEffectLogged(h, st);
  }

  lemma HandedExtends(cfg: Config, h: History<LN.Payload>, h': History<LN.Payload>, port: Port, log: Log, now: nat, p: nat, ids: seq<nat>, id: nat)
    requires Scheduler.Inv(h) && Handed(cfg, h, log, p, ids) && LogGrows(h, h') && LinkPort.QueueOk(cfg, port, log) && port.queue != []
    requires id !in h.log && id >= 1 && id in h'.log
    requires h'.log[id] == Message(cfg.me, p, LN.ToPort(port.queue[0]), now + Delay(cfg, port.queue[0]), false)
    ensures Handed(cfg, h', LogDequeue(cfg, log, port, now), p, ids + [id])
  {
    var b, n := LogDequeue(cfg, log, port, now), |ids|;
    assert forall j :: 0 <= j < n ==> ids[j] in h.log;
    forall j | 0 <= j < n ensures HandoverMessage(cfg, b, p, j) == HandoverMessage(cfg, log, p, j) {
      assert b.departures[j] == log.departures[j];
    }
    assert b.departures[n] == Departed(log.slots[0], now + Delay(cfg, port.queue[0]));
  }

  // ----- Runs -----

  lemma BusyTurnHands(cfg: Config, net: Net, t: LN.LinkTurn, h: History<LN.Payload>, h': History<LN.Payload>, p: nat, ids: seq<nat>)
    requires LN.Enabled(cfg, net, t) && LN.Safe(cfg, net, t) && HandsOver(cfg, net, t, p)
    requires LinkPort.QueueOk(cfg, LN.LineOf(net, p).port, LN.LineOf(net, p).log)
    requires Scheduler.Inv(h) && h.state == net.sys && Handed(cfg, h, LN.LineOf(net, p).log, p, ids)
    requires Scheduler.Enabled(h, SchedulerTurn(cfg, net, t)) && h' == Scheduler.TakeTurn(h, SchedulerTurn(cfg, net, t)) && LogGrows(h, h')
    ensures Handed(cfg, h', LN.LineOf(LN.TakeTurn(cfg, net, t), p).log, p, ids + [LN.Woken(net, t).sys.lastId + 1])
  {
    var ln := LN.LineOf(net, p);
    BusyTurn(cfg, net, t, p);
    HandoverLogged(cfg, net, t, h, p);
    HandedExtends(cfg, h, h', ln.port, ln.log, LN.Popped(net, t).sys.now, p, ids, LN.Woken(net, t).sys.lastId + 1);
  }

  lemma TurnHands(cfg: Config, net: Net, t: LN.LinkTurn, h: History<LN.Payload>, h': History<LN.Payload>, p: nat, ids: seq<nat>)
    requires LN.Enabled(cfg, net, t) && LN.Safe(cfg, net, t)
    requires LinkPort.QueueOk(cfg, LN.LineOf(net, p).port, LN.LineOf(net, p).log)
    requires Scheduler.Inv(h) && h.state == net.sys && Handed(cfg, h, LN.LineOf(net, p).log, p, ids)
    requires Scheduler.Enabled(h, SchedulerTurn(cfg, net, t)) && h' == Scheduler.TakeTurn(h, SchedulerTurn(cfg, net, t)) && LogGrows(h, h')
    ensures Handed(cfg, h', LN.LineOf(LN.TakeTurn(cfg, net, t), p).log, p, ids + HandoverIds(cfg, net, t, p))
  {
    if HandsOver(cfg, net, t, p) {
      BusyTurnHands(cfg, net, t, h, h', p, ids);
    } else {
      QuietTurn(cfg, net, t, p);
      HandedStays(cfg, h, h', LN.LineOf(net, p).log, LN.LineOf(LN.TakeTurn(cfg, net, t), p).log, p, ids);
      assert ids + [] == ids;
    }
  }

  /** The Link and the scheduler's history side by side. */
  ghost predicate Together(cfg: Config, net: Net, h: History<LN.Payload>, p: nat, ids: seq<nat>) {
    LN.Inv(cfg, net, None) && Scheduler.Inv(h) && h.state == net.sys && Handed(cfg, h, LN.LineOf(net, p).log, p, ids)
  }

  lemma QueueOfLine(cfg: Config, net: Net, p: nat)
    requires LN.Inv(cfg, net, None)
    ensures LinkPort.QueueOk(cfg, LN.LineOf(net, p).port, LN.LineOf(net, p).log)
  {
    LN.LineOfOk(cfg, net, p);
  }

  lemma TurnTogether(cfg: Config, net: Net, t: LN.LinkTurn, h: History<LN.Payload>, p: nat, ids: seq<nat>)
    requires cfg.limit != 1 && Together(cfg, net, h, p, ids) && LN.Enabled(cfg, net, t) && LN.Safe(cfg, net, t)
    ensures Scheduler.Enabled(h, SchedulerTurn(cfg, net, t))
    ensures Together(cfg, LN.TakeTurn(cfg, net, t), Scheduler.TakeTurn(h, SchedulerTurn(cfg, net, t)), p, ids + HandoverIds(cfg, net, t, p))
  {
    TurnIsSchedulerTurn(cfg, net, t, h);
    TurnGrowsLog(h, SchedulerTurn(cfg, net, t));
    QueueOfLine(cfg, net, p);
    TurnHands(cfg, net, t, h, Scheduler.TakeTurn(h, SchedulerTurn(cfg, net, t)), p, ids);
    LN.TurnKeepsInv(cfg, net, t);
  }

  lemma UnfoldRun(cfg: Config, net: Net, turns: seq<LN.LinkTurn>, h: History<LN.Payload>, p: nat, ids: seq<nat>)
    requires LN.Possible(cfg, net, turns) && turns != [] && Scheduler.Enabled(h, SchedulerTurn(cfg, net, turns[0]))
    requires Scheduler.Possible(Scheduler.TakeTurn(h, SchedulerTurn(cfg, net, turns[0])), SchedulerTurns(cfg, LN.TakeTurn(cfg, net, turns[0]), turns[1..]))
    ensures Scheduler.Possible(h, SchedulerTurns(cfg, net, turns))
    ensures Scheduler.Continue(h, SchedulerTurns(cfg, net, turns)) ==
      Scheduler.Continue(Scheduler.TakeTurn(h, SchedulerTurn(cfg, net, turns[0])), SchedulerTurns(cfg, LN.TakeTurn(cfg, net, turns[0]), turns[1..]))
    ensures LN.Continue(cfg, net, turns) == LN.Continue(cfg, LN.TakeTurn(cfg, net, turns[0]), turns[1..])
    ensures ids + SentIds(cfg, net, turns, p) ==
      ids + HandoverIds(cfg, net, turns[0], p) + SentIds(cfg, LN.TakeTurn(cfg, net, turns[0]), turns[1..], p)
  {
    var all, st, rest := SchedulerTurns(cfg, net, turns), SchedulerTurn(cfg, net, turns[0]), SchedulerTurns(cfg, LN.TakeTurn(cfg, net, turns[0]), turns[1..]);
    assert all[0] == st && all[1..] == rest;
  }

  lemma {:induction false} RunTogether(cfg: Config, net: Net, turns: seq<LN.LinkTurn>, h: History<LN.Payload>, p: nat, ids: seq<nat>)
    requires cfg.limit != 1 && LN.Possible(cfg, net, turns) && Together(cfg, net, h, p, ids)
    ensures Scheduler.Possible(h, SchedulerTurns(cfg, net, turns))
    ensures Together(cfg, LN.Continue(cfg, net, turns), Scheduler.Continue(h, SchedulerTurns(cfg, net, turns)), p,
                     ids + SentIds(cfg, net, turns, p))
    decreases |turns|
  {
    if turns == [] {
      assert ids + [] == ids;
    } else {
      var t := turns[0];
      TurnTogether(cfg, net, t, h, p, ids);
      RunTogether(cfg, LN.TakeTurn(cfg, net, t), turns[1..], Scheduler.TakeTurn(h, SchedulerTurn(cfg, net, t)), p,
                  ids + HandoverIds(cfg, net, t, p));
      UnfoldRun(cfg, net, turns, h, p, ids);
    }
  }

  /** The scheduler's history of a Link's run. */
  function HistoryOf(cfg: Config, turns: seq<LN.LinkTurn>): History<LN.Payload>
    requires LN.Possible(cfg, LN.Start(), turns) && Scheduler.Possible(Blank(), SchedulerTurns(cfg, LN.Start(), turns))
  {
    Scheduler.Continue(Blank(), SchedulerTurns(cfg, LN.Start(), turns))
  }

  lemma RunHanded(cfg: Config, turns: seq<LN.LinkTurn>, p: nat)
    requires cfg.limit != 1 && LN.Possible(cfg, LN.Start(), turns)
    ensures Scheduler.Possible(Blank(), SchedulerTurns(cfg, LN.Start(), turns))
    ensures Scheduler.Inv(HistoryOf(cfg, turns)) && HistoryOf(cfg, turns).state == LN.Continue(cfg, LN.Start(), turns).sys
    ensures Handed(cfg, HistoryOf(cfg, turns), LN.LineOf(LN.Continue(cfg, LN.Start(), turns), p).log, p, SentIds(cfg, LN.Start(), turns, p))
  {
    LN.StartInv(cfg);
    BlankInv<LN.Payload>();
    RunTogether(cfg, LN.Start(), turns, Blank(), p, []);
    assert [] + SentIds(cfg, LN.Start(), turns, p) == SentIds(cfg, LN.Start(), turns, p);
  }

  /** Over every run with a limit other than 1: departure j of a port is one message of the
      scheduler, from the Link to the port's wire, carrying the packet that arrived as number
      `departures[j].index` and due at the recorded time; the ids increase with j, and each
      message is still queued or was handled exactly once. */
  lemma DeparturesAreMessages(cfg: Config, turns: seq<LN.LinkTurn>, p: nat)
    requires cfg.limit != 1 && LN.Possible(cfg, LN.Start(), turns)
    ensures Scheduler.Possible(Blank(), SchedulerTurns(cfg, LN.Start(), turns))
    ensures HistoryOf(cfg, turns).state == LN.Continue(cfg, LN.Start(), turns).sys
    ensures var h := HistoryOf(cfg, turns);
            var ids, log := SentIds(cfg, LN.Start(), turns, p), LN.LineOf(LN.Continue(cfg, LN.Start(), turns), p).log;
      && |ids| == |log.departures|
      && (forall j :: 0 <= j < |ids| ==>
            && log.departures[j].index < |log.arrivals| && ids[j] in h.log
            && h.log[ids[j]] == Message(cfg.me, p, LN.ToPort(log.arrivals[log.departures[j].index].packet), log.departures[j].time, false))
      && (forall i, j :: 0 <= i < j < |ids| ==> ids[i] < ids[j])
      && (forall j :: 0 <= j < |ids| ==> (ids[j] !in h.state.queue <==> OccursOnce(h.trace, ids[j])))
  {
    RunHanded(cfg, turns, p);
    EachHandledOnce(HistoryOf(cfg, turns), SentIds(cfg, LN.Start(), turns, p));
  }

  lemma EachHandledOnce(h: History<LN.Payload>, ids: seq<nat>)
    requires Scheduler.Inv(h) && forall j :: 0 <= j < |ids| ==> ids[j] in h.log
    ensures forall j :: 0 <= j < |ids| ==> (ids[j] !in h.state.queue <==> OccursOnce(h.trace, ids[j]))
  {
    forall j | 0 <= j < |ids| ensures ids[j] !in h.state.queue <==> OccursOnce(h.trace, ids[j]) {
      if ids[j] !in h.state.queue {
        HandledOnce(h, ids[j]);
      }
    }
  }

  /** With an unbounded queue the scheduler's log shows the n-th arrival handed over at
      exactly the time the wire's recursion gives. */
  lemma MessagesFollowWire(cfg: Config, turns: seq<LN.LinkTurn>, p: nat, j: nat)
    requires cfg.limit == 0 && LN.Possible(cfg, LN.Start(), turns) && j < |SentIds(cfg, LN.Start(), turns, p)|
    ensures Scheduler.Possible(Blank(), SchedulerTurns(cfg, LN.Start(), turns))
    ensures var h, id := HistoryOf(cfg, turns), SentIds(cfg, LN.Start(), turns, p)[j];
            var log := LN.LineOf(LN.Continue(cfg, LN.Start(), turns), p).log;
      && j < |log.arrivals| && id in h.log
      && h.log[id] == Message(cfg.me, p, LN.ToPort(log.arrivals[j].packet), Wire.Avail(0, AsWire(cfg, log, j + 1)), false)
  {
    DeparturesAreMessages(cfg, turns, p);
    LinkRefinesWire(cfg, turns, p, j);
  }

  lemma {:induction false} DeparturesRise(cfg: Config, log: Log, i: nat, j: nat)
    requires i <= j < |log.departures| && forall k :: 0 <= k < |log.departures| ==> OnTime(cfg, log, k)
    ensures log.departures[i].time <= log.departures[j].time
    decreases j
  {
    if i < j {
      DeparturesRise(cfg, log, i, j - 1);
      assert OnTime(cfg, log, j);
    }
  }

  /** Whatever the limit, packets come out of the trace in the order in which they left. */
  lemma LinkIsFifo(cfg: Config, turns: seq<LN.LinkTurn>, p: nat, i: nat, j: nat, at: nat)
    requires cfg.limit != 1 && LN.Possible(cfg, LN.Start(), turns) && i < j < |SentIds(cfg, LN.Start(), turns, p)|
    requires Scheduler.Possible(Blank(), SchedulerTurns(cfg, LN.Start(), turns))
    requires var h := HistoryOf(cfg, turns); at < |h.trace| && h.trace[at].id == SentIds(cfg, LN.Start(), turns, p)[j]
    ensures exists k :: 0 <= k < at && HistoryOf(cfg, turns).trace[k].id == SentIds(cfg, LN.Start(), turns, p)[i]
  {
    RunHanded(cfg, turns, p);
    RunOnTime(cfg, turns, p);
    var ids, log := SentIds(cfg, LN.Start(), turns, p), LN.LineOf(LN.Continue(cfg, LN.Start(), turns), p).log;
    DeparturesRise(cfg, log, i, j);
    FifoInHistory(HistoryOf(cfg, turns), ids[i], ids[j], at);
  }

  lemma RunOnTime(cfg: Config, turns: seq<LN.LinkTurn>, p: nat)
    requires cfg.limit != 1 && LN.Possible(cfg, LN.Start(), turns)
    ensures var log := LN.LineOf(LN.Continue(cfg, LN.Start(), turns), p).log;
      forall k :: 0 <= k < |log.departures| ==> OnTime(cfg, log, k)
  {
    LN.StartInv(cfg);
    LN.RunKeepsInv(cfg, LN.Start(), turns);
    LN.LineOfOk(cfg, LN.Continue(cfg, LN.Start(), turns), p);
  }
}
