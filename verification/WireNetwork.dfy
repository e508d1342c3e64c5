/** A Wire running inside the scheduler, beside any other modules.  The other modules may
    send and cancel whatever they like, in any name. */
module WireNetwork {
  import opened Options
  import opened Scheduler
  import W = Wire

  datatype Payload = ToPort(tag: nat, size: nat) | FromPort(tag: nat, size: nat) | Other(tag: nat)

  /** `delay` gives the transmission time of a packet by its size; `created` is the time at
      which the Wire was made. */
  datatype Config = Config(me: nat, left: nat, right: nat, settings: W.Settings, delay: nat -> nat, created: nat)

  function WireConfig(me: nat, left: nat, right: nat, settings: W.Settings, bps: nat, created: nat): Config {
    Config(me, left, right, settings, size => W.TransDelay(size, bps), created)
  }

  /** One direction: nextAvailable, and the ids of the messages sent that way. */
  datatype Line = Line(avail: nat, sent: seq<nat>)

  datatype Net = Net(h: History<Payload>, toLeft: Line, toRight: Line)

  function EndOf(cfg: Config, d: nat): nat {
    if d == 0 then cfg.left else cfg.right
  }

  function LineTo(net: Net, d: nat): Line {
    if d == 0 then net.toLeft else net.toRight
  }

  function Size(p: Payload): nat {
    if p.Other? then 0 else p.size
  }

  // ----- The handler -----

  /** Which way the handler sends a popped message on, if it does. */
  function Input(cfg: Config, m: Message<Payload>): Option<nat> {
    if m.cancelled || m.to != cfg.me || !m.payload.ToPort? then None else W.Opposite(cfg.left, cfg.right, m.from)
  }

  function Through(cfg: Config, ln: Line, m: Message<Payload>): (avail: nat)
    ensures avail >= m.wakeup
  {
    W.Max(m.wakeup, ln.avail) + cfg.delay(Size(m.payload))
  }

  /** messageReceived: the packet for the other end. */
  function Relay(cfg: Config, ln: Line, d: nat, m: Message<Payload>): Effect<Payload> {
    Send(cfg.me, EndOf(cfg, d), FromPort(m.payload.tag, Size(m.payload)), W.SendDelay(cfg.settings, Through(cfg, ln, m), m.wakeup))
  }

  /** The message a turn pops. */
  function Popped(net: Net, t: Turn<Payload>): Message<Payload>
    requires Enabled(net.h, t)
  {
    IssueAll(net.h, t.awoken).state.queue[t.id]
  }

  function Effects(cfg: Config, net: Net, t: Turn<Payload>): seq<Effect<Payload>>
    requires Enabled(net.h, t)
  {
    var m := Popped(net, t);
    match Input(cfg, m)
    case None => []
    case Some(d) => [Relay(cfg, LineTo(net, d), d, m)]
  }

  /** `t.handlers` is what the other modules do; the Wire's own effects come first. */
  function WholeTurn(cfg: Config, net: Net, t: Turn<Payload>): Turn<Payload>
    requires Enabled(net.h, t)
  {
    t.(handlers := Effects(cfg, net, t) + t.handlers)
  }

  function NextLine(cfg: Config, net: Net, t: Turn<Payload>, d: nat): Line
    requires Enabled(net.h, t)
  {
    var ln := LineTo(net, d);
    if Input(cfg, Popped(net, t)) != Some(d) then ln
    else Line(Through(cfg, ln, Popped(net, t)), ln.sent + [IssueAll(net.h, t.awoken).state.lastId + 1])
  }

  function Step(cfg: Config, net: Net, t: Turn<Payload>): Net
    requires Enabled(net.h, t)
  {
    Net(TakeTurn(net.h, WholeTurn(cfg, net, t)), NextLine(cfg, net, t, 0), NextLine(cfg, net, t, 1))
  }

  predicate Possible(cfg: Config, net: Net, turns: seq<Turn<Payload>>)
    decreases |turns|
  {
    turns == [] || (Enabled(net.h, turns[0]) && Possible(cfg, Step(cfg, net, turns[0]), turns[1..]))
  }

  function Continue(cfg: Config, net: Net, turns: seq<Turn<Payload>>): Net
    requires Possible(cfg, net, turns)
    decreases |turns|
  {
    if turns == [] then net else Continue(cfg, Step(cfg, net, turns[0]), turns[1..])
  }

  function Start(cfg: Config): Net {
    Net(Blank(), Line(cfg.created, []), Line(cfg.created, []))
  }

  // ----- What went in -----

  /** The packets handed to the Wire for end `d`, in the order of the trace. */
  function Inputs(cfg: Config, trace: seq<Entry<Payload>>, d: nat): seq<Message<Payload>>
    decreases |trace|
  {
    if trace == [] then []
    else
      var n := |trace| - 1;
      if Input(cfg, trace[n].message) == Some(d) then Inputs(cfg, trace[..n], d) + [trace[n].message] else Inputs(cfg, trace[..n], d)
  }

  function AsArrivals(cfg: Config, ms: seq<Message<Payload>>): (xs: seq<W.Arrival>)
    ensures |xs| == |ms|
  {
    seq(|ms|, i requires 0 <= i < |ms| => W.Arrival(ms[i].wakeup, cfg.delay(Size(ms[i].payload))))
  }

  /** A Wire of a given speed is busy with each packet for its transmission delay. */
  lemma WireSpeed(me: nat, left: nat, right: nat, settings: W.Settings, bps: nat, created: nat, ms: seq<Message<Payload>>)
    requires forall i :: 0 <= i < |ms| ==> ms[i].payload.ToPort?
    ensures var xs := AsArrivals(WireConfig(me, left, right, settings, bps, created), ms);
      forall i :: 0 <= i < |ms| ==> xs[i] == W.Arrival(ms[i].wakeup, W.TransDelay(ms[i].payload.size, bps))
  {
    var cfg := WireConfig(me, left, right, settings, bps, created);
    forall i | 0 <= i < |ms|
      ensures AsArrivals(cfg, ms)[i] == W.Arrival(ms[i].wakeup, W.TransDelay(ms[i].payload.size, bps))
    {
      assert cfg.delay(ms[i].payload.size) == W.TransDelay(ms[i].payload.size, bps);
      assert AsArrivals(cfg, ms)[i] == W.Arrival(ms[i].wakeup, cfg.delay(Size(ms[i].payload)));
    }
  }

  /** What the handler sends on: a packet for a port that reaches the Wire uncancelled, from
      one end and for the other, provided both are connected. */
  lemma InputIs(cfg: Config, m: Message<Payload>, d: nat)
    ensures Input(cfg, m) == Some(d) <==>
      && !m.cancelled && m.to == cfg.me && m.payload.ToPort?
      && ((d == 1 && m.from == cfg.left && cfg.right != 0) || (d == 0 && m.from == cfg.right && m.from != cfg.left && cfg.left != 0))
  {
  }

  lemma {:induction false} InputsAre(cfg: Config, trace: seq<Entry<Payload>>, d: nat, i: nat)
    requires i < |Inputs(cfg, trace, d)|
    ensures Input(cfg, Inputs(cfg, trace, d)[i]) == Some(d)
    decreases |trace|
  {
    var n := |trace| - 1;
    if i < |Inputs(cfg, trace[..n], d)| {
      InputsAre(cfg, trace[..n], d, i);
    }
  }

  // ----- The invariant -----

  /** The message sent for the i-th packet: for the other end, with the same packet, due at
      the time of the delivery rule. */
  function Due(cfg: Config, ms: seq<Message<Payload>>, d: nat, i: nat): Message<Payload>
    requires i < |ms|
  {
    Message(cfg.me, EndOf(cfg, d), FromPort(if ms[i].payload.Other? then 0 else ms[i].payload.tag, Size(ms[i].payload)),
            W.DeliveryTime(cfg.settings, cfg.created, AsArrivals(cfg, ms), i), false)
  }

  ghost predicate SentOk(cfg: Config, h: History<Payload>, ms: seq<Message<Payload>>, sent: seq<nat>, d: nat) {
    && |sent| == |ms|
    && (forall i :: 0 <= i < |sent| ==> sent[i] in h.log && h.log[sent[i]] == Due(cfg, ms, d, i))
    && (forall i, j :: 0 <= i < j < |sent| ==> sent[i] < sent[j])
  }

  ghost predicate LineOk(cfg: Config, h: History<Payload>, ln: Line, d: nat) {
    var ms := Inputs(cfg, h.trace, d);
    SentOk(cfg, h, ms, ln.sent, d) && ln.avail == W.Avail(cfg.created, AsArrivals(cfg, ms))
  }

  ghost predicate NetInv(cfg: Config, net: Net) {
    Inv(net.h) && LineOk(cfg, net.h, net.toLeft, 0) && LineOk(cfg, net.h, net.toRight, 1)
  }

  lemma InputsSnoc(cfg: Config, trace: seq<Entry<Payload>>, e: Entry<Payload>, d: nat)
    ensures Inputs(cfg, trace + [e], d) ==
      if Input(cfg, e.message) == Some(d) then Inputs(cfg, trace, d) + [e.message] else Inputs(cfg, trace, d)
  {
    assert (trace + [e])[..|trace|] == trace;
  }

  lemma DueStays(cfg: Config, ms: seq<Message<Payload>>, m: Message<Payload>, d: nat, i: nat)
    requires i < |ms|
    ensures Due(cfg, ms + [m], d, i) == Due(cfg, ms, d, i)
  {
    var xs, ys := AsArrivals(cfg, ms), AsArrivals(cfg, ms + [m]);
    assert xs[..i + 1] == ys[..i + 1];
  }

  lemma DueLast(cfg: Config, ms: seq<Message<Payload>>, m: Message<Payload>, ln: Line, d: nat)
    requires ln.avail == W.Avail(cfg.created, AsArrivals(cfg, ms)) && m.payload.ToPort?
    ensures W.Avail(cfg.created, AsArrivals(cfg, ms + [m])) == Through(cfg, ln, m)
    ensures var e := Relay(cfg, ln, d, m); Due(cfg, ms + [m], d, |ms|) == Message(e.from, e.to, e.payload, m.wakeup + e.delay, false)
  {
    var ys := AsArrivals(cfg, ms + [m]);
    assert ys[..|ms|] == AsArrivals(cfg, ms) && ys[..|ms| + 1] == ys;
  }

  /** A turn keeps the log, and the Wire's message is the first one its handler sends. */
  lemma TurnLog(cfg: Config, net: Net, t: Turn<Payload>)
    requires Inv(net.h) && Enabled(net.h, t)
    ensures var h' := TakeTurn(net.h, WholeTurn(cfg, net, t));
      && Inv(h') && h'.trace == net.h.trace + [Entry(t.id, Popped(net, t))]
      && (forall id :: id in net.h.log ==> id in h'.log && h'.log[id] == net.h.log[id])
  {
    var w := WholeTurn(cfg, net, t);
    TurnKeepsInv(net.h, w);
    UnderWayInv(net.h, w);
    forall id | id in net.h.log ensures id in TakeTurn(net.h, w).log && TakeTurn(net.h, w).log[id] == net.h.log[id] {
      TurnNeverRewritesLog(net.h, w, id);
    }
  }

  lemma RelayLogged(cfg: Config, net: Net, t: Turn<Payload>, d: nat)
    requires Inv(net.h) && Enabled(net.h, t) && Input(cfg, Popped(net, t)) == Some(d)
    ensures var id := IssueAll(net.h, t.awoken).state.lastId + 1;
            var e := Relay(cfg, LineTo(net, d), d, Popped(net, t));
            var h' := TakeTurn(net.h, WholeTurn(cfg, net, t));
      && id !in net.h.log
      && id in h'.log && h'.log[id] == Message(e.from, e.to, e.payload, Popped(net, t).wakeup + e.delay, false)
  {
    FirstEffectLogged(net.h, WholeTurn(cfg, net, t));
  }

  lemma LineKept(cfg: Config, net: Net, t: Turn<Payload>, d: nat)
    requires Inv(net.h) && Enabled(net.h, t) && LineOk(cfg, net.h, LineTo(net, d), d)
    requires Input(cfg, Popped(net, t)) != Some(d)
    ensures LineOk(cfg, Step(cfg, net, t).h, NextLine(cfg, net, t, d), d)
  {
    TurnLog(cfg, net, t);
    InputsSnoc(cfg, net.h.trace, Entry(t.id, Popped(net, t)), d);
    SentKept(cfg, net.h, Step(cfg, net, t).h, Inputs(cfg, net.h.trace, d), LineTo(net, d).sent, d);
  }

  lemma SentKept(cfg: Config, h: History<Payload>, h': History<Payload>, ms: seq<Message<Payload>>, sent: seq<nat>, d: nat)
    requires SentOk(cfg, h, ms, sent, d) && forall k :: k in h.log ==> k in h'.log && h'.log[k] == h.log[k]
    ensures SentOk(cfg, h', ms, sent, d)
  {
  }

  lemma LineExtended(cfg: Config, net: Net, t: Turn<Payload>, d: nat)
    requires Inv(net.h) && Enabled(net.h, t) && LineOk(cfg, net.h, LineTo(net, d), d)
    requires Input(cfg, Popped(net, t)) == Some(d)
    ensures LineOk(cfg, Step(cfg, net, t).h, NextLine(cfg, net, t, d), d)
  {
    TurnLog(cfg, net, t);
    RelayLogged(cfg, net, t, d);
    var id, h' := IssueAll(net.h, t.awoken).state.lastId + 1, TakeTurn(net.h, WholeTurn(cfg, net, t));
    OneMoreRelayed(cfg, net.h, h', t.id, Popped(net, t), LineTo(net, d), id, d);
    NextLineIs(cfg, net, t, d, Popped(net, t), LineTo(net, d), id);
  }

  lemma NextLineIs(cfg: Config, net: Net, t: Turn<Payload>, d: nat, m: Message<Payload>, ln: Line, id: nat)
    requires Enabled(net.h, t) && m == Popped(net, t) && Input(cfg, m) == Some(d)
    requires ln == LineTo(net, d) && id == IssueAll(net.h, t.awoken).state.lastId + 1
    ensures NextLine(cfg, net, t, d) == Line(Through(cfg, ln, m), ln.sent + [id])
  {
  }

  lemma OneMoreRelayed(cfg: Config, h: History<Payload>, h': History<Payload>, popped: nat, m: Message<Payload>, ln: Line, id: nat, d: nat)
    requires Inv(h) && LineOk(cfg, h, ln, d) && Input(cfg, m) == Some(d) && h'.trace == h.trace + [Entry(popped, m)]
    requires forall k :: k in h.log ==> k in h'.log && h'.log[k] == h.log[k]
    requires id !in h.log && id >= 1 && id in h'.log
    requires var e := Relay(cfg, ln, d, m); h'.log[id] == Message(e.from, e.to, e.payload, m.wakeup + e.delay, false)
    ensures LineOk(cfg, h', Line(Through(cfg, ln, m), ln.sent + [id]), d)
  {
    InputsSnoc(cfg, h.trace, Entry(popped, m), d);
    var ms := Inputs(cfg, h.trace, d);
    DueLast(cfg, ms, m, ln, d);
    forall i | 0 <= i < |ms| ensures Due(cfg, ms + [m], d, i) == Due(cfg, ms, d, i) {
      DueStays(cfg, ms, m, d, i);
    }
    SentExtended(cfg, h, h', ms, m, ln.sent, id, d);
  }

  lemma SentExtended(cfg: Config, h: History<Payload>, h': History<Payload>, ms: seq<Message<Payload>>, m: Message<Payload>,
                     sent: seq<nat>, id: nat, d: nat)
    requires Inv(h) && SentOk(cfg, h, ms, sent, d) && id !in h.log && id >= 1
    requires forall k :: k in h.log ==> k in h'.log && h'.log[k] == h.log[k]
    requires id in h'.log && h'.log[id] == Due(cfg, ms + [m], d, |ms|)
    requires forall i :: 0 <= i < |ms| ==> Due(cfg, ms + [m], d, i) == Due(cfg, ms, d, i)
    ensures SentOk(cfg, h', ms + [m], sent + [id], d)
  {
    assert forall i :: 0 <= i < |sent| ==> sent[i] in h.log;
  }

  lemma StepKeepsInv(cfg: Config, net: Net, t: Turn<Payload>)
    requires NetInv(cfg, net) && Enabled(net.h, t)
    ensures NetInv(cfg, Step(cfg, net, t))
  {
    TurnLog(cfg, net, t);
    forall d | d == 0 || d == 1 ensures LineOk(cfg, Step(cfg, net, t).h, NextLine(cfg, net, t, d), d) {
      if Input(cfg, Popped(net, t)) == Some(d) {
        LineExtended(cfg, net, t, d);
      } else {
        LineKept(cfg, net, t, d);
      }
    }
  }

  lemma {:induction false} RunKeepsInv(cfg: Config, net: Net, turns: seq<Turn<Payload>>)
    requires NetInv(cfg, net) && Possible(cfg, net, turns)
    ensures NetInv(cfg, Continue(cfg, net, turns))
    decreases |turns|
  {
    if turns != [] {
      StepKeepsInv(cfg, net, turns[0]);
      RunKeepsInv(cfg, Step(cfg, net, turns[0]), turns[1..]);
    }
  }

  lemma StartInv(cfg: Config)
    ensures NetInv(cfg, Start(cfg))
  {
    BlankInv<Payload>();
  }

  // ----- What every run guarantees -----

  /** Every packet popped for the Wire is answered by exactly one message: from the Wire to
      the end the packet did not come from, with the same packet, due at the delivery time
      of the n-th arrival of its direction; its id is larger than those before it, and it is
      either still queued or was handled exactly once. */
  lemma WireDelivers(cfg: Config, turns: seq<Turn<Payload>>, d: nat, i: nat)
    requires Possible(cfg, Start(cfg), turns) && d < 2
    requires i < |Inputs(cfg, Continue(cfg, Start(cfg), turns).h.trace, d)|
    ensures var net := Continue(cfg, Start(cfg), turns);
            var ms, sent := Inputs(cfg, net.h.trace, d), LineTo(net, d).sent;
      && |sent| == |ms|
      && ms[i].payload.ToPort? && ms[i].to == cfg.me && ms[i].from == (if d == 0 then cfg.right else cfg.left)
      && sent[i] in net.h.log
      && net.h.log[sent[i]] == Message(cfg.me, if d == 0 then cfg.left else cfg.right,
           FromPort(ms[i].payload.tag, ms[i].payload.size), W.DeliveryTime(cfg.settings, cfg.created, AsArrivals(cfg, ms), i), false)
      && (forall j :: 0 <= j < i ==> sent[j] < sent[i])
      && (sent[i] !in net.h.state.queue <==> OccursOnce(net.h.trace, sent[i]))
  {
    LineHolds(cfg, turns, d);
    var net := Continue(cfg, Start(cfg), turns);
    InputsAre(cfg, net.h.trace, d, i);
    InputIs(cfg, Inputs(cfg, net.h.trace, d)[i], d);
    var id := LineTo(net, d).sent[i];
    if id !in net.h.state.queue {
      HandledOnce(net.h, id);
    }
  }

  ghost predicate Rising(ms: seq<Message<Payload>>, last: nat) {
    && (forall i, j :: 0 <= i < j < |ms| ==> ms[i].wakeup <= ms[j].wakeup)
    && (forall i :: 0 <= i < |ms| ==> ms[i].wakeup <= last)
  }

  /** Packets enter in the order of the trace. */
  lemma {:induction false} InputsInOrder(cfg: Config, trace: seq<Entry<Payload>>, d: nat, last: nat)
    requires forall i, j :: 0 <= i < j < |trace| ==> trace[i].message.wakeup <= trace[j].message.wakeup
    requires forall i :: 0 <= i < |trace| ==> trace[i].message.wakeup <= last
    ensures Rising(Inputs(cfg, trace, d), last)
    decreases |trace|
  {
    if trace != [] {
      var n := |trace| - 1;
      InputsInOrder(cfg, trace[..n], d, trace[n].message.wakeup);
    }
  }

  lemma DueInOrder(cfg: Config, h: History<Payload>, d: nat, i: nat, j: nat)
    requires TraceOrdered(h) && TraceOk(h) && i < j < |Inputs(cfg, h.trace, d)|
    ensures var ms := Inputs(cfg, h.trace, d); Due(cfg, ms, d, i).wakeup <= Due(cfg, ms, d, j).wakeup
  {
    InputsInOrder(cfg, h.trace, d, h.state.now);
    W.DeliveriesNeverOvertake(cfg.settings, cfg.created, AsArrivals(cfg, Inputs(cfg, h.trace, d)), i, j);
  }

  lemma LineHolds(cfg: Config, turns: seq<Turn<Payload>>, d: nat)
    requires Possible(cfg, Start(cfg), turns) && d < 2
    ensures var net := Continue(cfg, Start(cfg), turns); Inv(net.h) && LineOk(cfg, net.h, LineTo(net, d), d)
  {
    StartInv(cfg);
    RunKeepsInv(cfg, Start(cfg), turns);
  }

  lemma LineIsFifo(cfg: Config, h: History<Payload>, ln: Line, d: nat, i: nat, j: nat, at: nat)
    requires Inv(h) && LineOk(cfg, h, ln, d) && i < j < |ln.sent|
    requires at < |h.trace| && h.trace[at].id == ln.sent[j]
    ensures exists k :: 0 <= k < at && h.trace[k].id == ln.sent[i]
  {
    DueInOrder(cfg, h, d, i, j);
    FifoInHistory(h, ln.sent[i], ln.sent[j], at);
  }

  /** In every run the packets of one direction are handed over in the order in which they
      entered the Wire, even when they are due at the same instant. */
  lemma WireIsFifo(cfg: Config, turns: seq<Turn<Payload>>, d: nat, i: nat, j: nat, at: nat)
    requires Possible(cfg, Start(cfg), turns) && d < 2
    requires var net := Continue(cfg, Start(cfg), turns);
      i < j < |LineTo(net, d).sent| && at < |net.h.trace| && net.h.trace[at].id == LineTo(net, d).sent[j]
    ensures var net := Continue(cfg, Start(cfg), turns);
      exists k :: 0 <= k < at && net.h.trace[k].id == LineTo(net, d).sent[i]
  {
    LineHolds(cfg, turns, d);
    var net := Continue(cfg, Start(cfg), turns);
    LineIsFifo(cfg, net.h, LineTo(net, d), d, i, j, at);
  }
}
