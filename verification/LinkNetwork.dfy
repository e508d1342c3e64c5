/** A Link running inside the scheduler, beside any other modules.  The Link's only claim
    on the scheduler is one CHECK_QUEUE message to itself for each busy port; everything
    else in the system may send and cancel as it likes, except the Link's own messages. */
module LinkNetwork {
  import opened Options
  import opened Scheduler
  import opened LinkPort

  datatype Payload = CheckQueue(port: nat) | ToPort(packet: Packet) | Other(tag: nat)

  datatype Line = Line(port: Port, log: Log)

  datatype Net = Net(sys: State<Payload>, lines: map<nat, Line>)

  /** One call of sendPacket by the Link's packetArrived. */
  datatype Forward = Forward(port: nat, packet: Packet, index: nat)

  /** One pass of the scheduler's loop: the woken threads, the message popped, the
      sendPacket calls if it is a packet for the Link, and what other modules do. */
  datatype LinkTurn = LinkTurn(awoken: seq<Effect<Payload>>, id: nat, forwards: seq<Forward>, others: seq<Effect<Payload>>)

  const QUIET_LINE := Line(Port([], 0), NO_LOG)

  function LineOf(net: Net, p: nat): Line {
    if p in net.lines then net.lines[p] else QUIET_LINE
  }

  predicate IsToken(cfg: Config, m: Message<Payload>) {
    m.to == cfg.me && m.payload.CheckQueue?
  }

  // ----- Other modules -----

  /** Another module sends in its own name and does not know the Link's message ids. */
  predicate Foreign(cfg: Config, s: State<Payload>, e: Effect<Payload>) {
    match e
    case Send(from, to, payload, _) => from != cfg.me && !(to == cfg.me && payload.CheckQueue?)
    case Cancel(id) => id in s.queue ==> s.queue[id].from != cfg.me
  }

  predicate ForeignAll(cfg: Config, s: State<Payload>, es: seq<Effect<Payload>>)
    decreases |es|
  {
    es == [] || (Foreign(cfg, s, es[0]) && ForeignAll(cfg, Apply(s, es[0]), es[1..]))
  }

  // ----- The Link's two handlers -----

  function TokenFor(cfg: Config, port: nat, wait: nat): Effect<Payload> {
    Send(cfg.me, cfg.me, CheckQueue(port), wait)
  }

  /** sendPacket. */
  function DoForward(cfg: Config, net: Net, f: Forward): Net {
    var ln := LineOf(net, f.port);
    var port := Enqueue(cfg, ln.port, f.packet, f.index);
    var log := LogEnqueue(cfg, ln.log, f.packet, f.index, net.sys.now);
    var sys := if |port.queue| == 1 then Apply(net.sys, TokenFor(cfg, f.port, Wait(ln.port, net.sys.now))) else net.sys;
    Net(sys, net.lines[f.port := Line(port, log)])
  }

  function DoForwards(cfg: Config, net: Net, fs: seq<Forward>): Net
    decreases |fs|
  {
    if fs == [] then net else DoForwards(cfg, DoForward(cfg, net, fs[0]), fs[1..])
  }

  /** The messages sent by the CHECK_QUEUE branch: the packet, and the next token. */
  function CheckEffects(cfg: Config, p: Port, port: nat, now: nat): seq<Effect<Payload>>
    requires p.queue != []
  {
    var p' := Dequeue(cfg, p, now);
    [Send(cfg.me, port, ToPort(p.queue[0]), Delay(cfg, p.queue[0]))]
    + if p'.queue != [] then [TokenFor(cfg, port, Wait(p', now))] else []
  }

  /** The CHECK_QUEUE branch of messageReceived, guard included. */
  function DoCheck(cfg: Config, net: Net, port: nat): Net
    requires LineOf(net, port).port.queue != [] && LineOf(net, port).log.slots != []
  {
    var ln := LineOf(net, port);
    if net.sys.now < ln.port.avail then net
    else
      Net(ApplyAll(net.sys, CheckEffects(cfg, ln.port, port, net.sys.now)),
          net.lines[port := Line(Dequeue(cfg, ln.port, net.sys.now), LogDequeue(cfg, ln.log, ln.port, net.sys.now))])
  }

  // ----- The invariant -----

  ghost predicate SysOk(s: State<Payload>) {
    forall id :: id in s.queue ==> 1 <= id <= s.lastId && s.now <= s.queue[id].wakeup
  }

  ghost predicate Due(ln: Line, at: nat) {
    && ln.port.queue != [] && ln.log.slots != [] && ln.log.slots[0] < |ln.log.arrivals|
    && at == HeadDue(ln.port, ln.log)
  }

  /** Every pending CHECK_QUEUE is the Link's own, uncancelled, and set for the instant the
      head of its non-empty queue is due. */
  ghost predicate TokensOk(cfg: Config, net: Net) {
    forall id :: id in net.sys.queue && IsToken(cfg, net.sys.queue[id]) ==>
      && net.sys.queue[id].from == cfg.me && !net.sys.queue[id].cancelled
      && Due(LineOf(net, net.sys.queue[id].payload.port), net.sys.queue[id].wakeup)
  }

  ghost predicate TokensUnique(cfg: Config, s: State<Payload>) {
    forall i, j :: i in s.queue && j in s.queue && i != j && IsToken(cfg, s.queue[i]) && IsToken(cfg, s.queue[j]) ==>
      s.queue[i].payload.port != s.queue[j].payload.port
  }

  ghost predicate HasToken(cfg: Config, s: State<Payload>, p: nat) {
    exists id :: id in s.queue && IsToken(cfg, s.queue[id]) && s.queue[id].payload.port == p
  }

  /** Every busy port has its token, except the port whose token is being handled. */
  ghost predicate TokensPresent(cfg: Config, net: Net, handled: Option<nat>) {
    && (forall p :: p in net.lines && net.lines[p].port.queue != [] && handled != Some(p) ==> HasToken(cfg, net.sys, p))
    && (handled.Some? ==> !HasToken(cfg, net.sys, handled.value))
  }

  ghost predicate LinesOk(cfg: Config, net: Net) {
    forall p :: p in net.lines ==> PortOk(cfg, net.lines[p].port, net.lines[p].log, net.sys.now)
  }

  ghost predicate TokenInv(cfg: Config, net: Net, handled: Option<nat>) {
    SysOk(net.sys) && TokensOk(cfg, net) && TokensUnique(cfg, net.sys) && TokensPresent(cfg, net, handled)
  }

  ghost predicate Inv(cfg: Config, net: Net, handled: Option<nat>) {
    TokenInv(cfg, net, handled) && LinesOk(cfg, net)
  }

  // ----- Effects that are not tokens -----

  predicate NotToken(cfg: Config, e: Effect<Payload>) {
    e.Send? && !(e.to == cfg.me && e.payload.CheckQueue?)
  }

  lemma SendTokens(cfg: Config, s: State<Payload>, e: Effect<Payload>)
    requires SysOk(s) && NotToken(cfg, e)
    ensures forall p :: HasToken(cfg, Apply(s, e), p) <==> HasToken(cfg, s, p)
  {
    var s' := Apply(s, e);
    forall p | HasToken(cfg, s, p) ensures HasToken(cfg, s', p) {
      var id :| id in s.queue && IsToken(cfg, s.queue[id]) && s.queue[id].payload.port == p;
      assert s'.queue[id] == s.queue[id];
    }
  }

  lemma SendKeepsTokens(cfg: Config, net: Net, e: Effect<Payload>, handled: Option<nat>)
    requires TokenInv(cfg, net, handled) && NotToken(cfg, e)
    ensures TokenInv(cfg, net.(sys := Apply(net.sys, e)), handled)
  {
    SendTokens(cfg, net.sys, e);
  }

  lemma CancelKeepsTokens(cfg: Config, net: Net, e: Effect<Payload>, handled: Option<nat>)
    requires TokenInv(cfg, net, handled) && e.Cancel? && Foreign(cfg, net.sys, e)
    ensures TokenInv(cfg, net.(sys := Apply(net.sys, e)), handled)
  {
    var s, s' := net.sys, Apply(net.sys, e);
    assert forall id :: id in s.queue && IsToken(cfg, s.queue[id]) ==> s'.queue[id] == s.queue[id];
    assert forall p :: HasToken(cfg, s, p) <==> HasToken(cfg, s', p);
  }

  lemma {:induction false} ForeignKeepsTokens(cfg: Config, net: Net, es: seq<Effect<Payload>>)
    requires TokenInv(cfg, net, None) && ForeignAll(cfg, net.sys, es)
    ensures TokenInv(cfg, net.(sys := ApplyAll(net.sys, es)), None) && ApplyAll(net.sys, es).now == net.sys.now
    decreases |es|
  {
    if es != [] {
      if es[0].Send? {
        SendKeepsTokens(cfg, net, es[0], None);
      } else {
        CancelKeepsTokens(cfg, net, es[0], None);
      }
      ForeignKeepsTokens(cfg, net.(sys := Apply(net.sys, es[0])), es[1..]);
    }
  }

  lemma ForeignKeepsInv(cfg: Config, net: Net, es: seq<Effect<Payload>>)
    requires Inv(cfg, net, None) && ForeignAll(cfg, net.sys, es)
    ensures Inv(cfg, net.(sys := ApplyAll(net.sys, es)), None)
  {
    ForeignKeepsTokens(cfg, net, es);
  }

  // ----- Tokens -----

  /** A token sent for a busy port that has none. */
  lemma TokenSent(cfg: Config, net: Net, p: nat, wait: nat)
    requires TokenInv(cfg, net, Some(p)) && Due(LineOf(net, p), net.sys.now + wait)
    ensures TokenInv(cfg, net.(sys := Apply(net.sys, TokenFor(cfg, p, wait))), None)
  {
    var s, s' := net.sys, Apply(net.sys, TokenFor(cfg, p, wait));
    var k := s.lastId + 1;
    assert k !in s.queue && s'.queue[k].payload == CheckQueue(p);
    assert HasToken(cfg, s', p);
    forall q | HasToken(cfg, s, q) ensures HasToken(cfg, s', q) {
      var id :| id in s.queue && IsToken(cfg, s.queue[id]) && s.queue[id].payload.port == q;
      assert s'.queue[id] == s.queue[id];
    }
  }

  /** Popping the next message, whatever it is, never passes a token by. */
  lemma PopKeepsTokens(cfg: Config, net: Net, id: nat)
    requires TokenInv(cfg, net, None) && IsTop(net.sys.queue, id)
    ensures var m := net.sys.queue[id];
      TokenInv(cfg, net.(sys := Pop(net.sys, id)), if IsToken(cfg, m) then Some(m.payload.port) else None)
  {
    var s, s' := net.sys, Pop(net.sys, id);
    assert forall i :: i in s'.queue <==> i in s.queue && i != id;
    forall p | HasToken(cfg, s, p) && !(IsToken(cfg, s.queue[id]) && s.queue[id].payload.port == p) ensures HasToken(cfg, s', p) {
      var i :| i in s.queue && IsToken(cfg, s.queue[i]) && s.queue[i].payload.port == p;
      assert s'.queue[i] == s.queue[i];
    }
  }

  lemma LinesLater(cfg: Config, net: Net, sys: State<Payload>)
    requires LinesOk(cfg, net) && net.sys.now <= sys.now
    ensures LinesOk(cfg, net.(sys := sys))
  {
    forall p | p in net.lines ensures PortOk(cfg, net.lines[p].port, net.lines[p].log, sys.now) {
      LaterPortOk(cfg, net.lines[p].port, net.lines[p].log, net.sys.now, sys.now);
    }
  }

  // ----- sendPacket -----

  /** Changing the line of a port whose head stays due at the same time. */
  lemma LineChanged(cfg: Config, net: Net, p: nat, ln: Line)
    requires TokenInv(cfg, net, None) && LineOf(net, p).port.queue != []
    requires forall at :: Due(LineOf(net, p), at) ==> Due(ln, at)
    ensures TokenInv(cfg, net.(lines := net.lines[p := ln]), None)
  {
    assert p in net.lines;
  }

  /** Giving a quiet port its first packet. */
  lemma LineStarted(cfg: Config, net: Net, p: nat, ln: Line)
    requires TokenInv(cfg, net, None) && LineOf(net, p).port.queue == []
    ensures TokenInv(cfg, net.(lines := net.lines[p := ln]), Some(p))
  {
    assert forall id :: id in net.sys.queue && IsToken(cfg, net.sys.queue[id]) ==> net.sys.queue[id].payload.port != p;
  }

  lemma LineSet(cfg: Config, net: Net, p: nat, ln: Line)
    requires LinesOk(cfg, net) && PortOk(cfg, ln.port, ln.log, net.sys.now)
    ensures LinesOk(cfg, net.(lines := net.lines[p := ln]))
  {
  }

  lemma LineOfOk(cfg: Config, net: Net, p: nat)
    requires LinesOk(cfg, net)
    ensures PortOk(cfg, LineOf(net, p).port, LineOf(net, p).log, net.sys.now)
  {
    EmptyPortOk(cfg, net.sys.now);
  }

  lemma ForwardKeepsTokens(cfg: Config, net: Net, f: Forward)
    requires TokenInv(cfg, net, None) && cfg.limit != 1 && Choice(cfg, f.index)
    requires PortOk(cfg, LineOf(net, f.port).port, LineOf(net, f.port).log, net.sys.now)
    ensures TokenInv(cfg, DoForward(cfg, net, f), None)
  {
    var ln := LineOf(net, f.port);
    var now := net.sys.now;
    var ln' := Line(Enqueue(cfg, ln.port, f.packet, f.index), LogEnqueue(cfg, ln.log, f.packet, f.index, now));
    var net' := net.(lines := net.lines[f.port := ln']);
    if ln.port.queue == [] {
      LineStarted(cfg, net, f.port, ln');
      assert ln'.log.slots == [|ln.log.arrivals|] && ln'.log.arrivals[|ln.log.arrivals|].time == now;
      TokenSent(cfg, net', f.port, Wait(ln.port, now));
      assert DoForward(cfg, net, f) == net'.(sys := Apply(net.sys, TokenFor(cfg, f.port, Wait(ln.port, now))));
    } else {
      HeadStays(cfg, ln.port, ln.log, f.packet, f.index, now);
      LineChanged(cfg, net, f.port, ln');
      PushAt(cfg, ln.port.queue, f.packet, f.index);
      assert DoForward(cfg, net, f) == net';
    }
  }

  lemma ForwardKeepsInv(cfg: Config, net: Net, f: Forward)
    requires Inv(cfg, net, None) && cfg.limit != 1 && Choice(cfg, f.index)
    ensures Inv(cfg, DoForward(cfg, net, f), None)
  {
    LineOfOk(cfg, net, f.port);
    ForwardKeepsTokens(cfg, net, f);
    var ln := LineOf(net, f.port);
    EnqueueKeepsPort(cfg, ln.port, ln.log, f.packet, f.index, net.sys.now);
    var ln' := Line(Enqueue(cfg, ln.port, f.packet, f.index), LogEnqueue(cfg, ln.log, f.packet, f.index, net.sys.now));
    LineSet(cfg, net, f.port, ln');
    LinesLater(cfg, net.(lines := net.lines[f.port := ln']), DoForward(cfg, net, f).sys);
  }

  predicate Choices(cfg: Config, fs: seq<Forward>) {
    forall i :: 0 <= i < |fs| ==> Choice(cfg, fs[i].index)
  }

  lemma {:induction false} ForwardsKeepInv(cfg: Config, net: Net, fs: seq<Forward>)
    requires Inv(cfg, net, None) && cfg.limit != 1 && Choices(cfg, fs)
    ensures Inv(cfg, DoForwards(cfg, net, fs), None)
    decreases |fs|
  {
    if fs != [] {
      ForwardKeepsInv(cfg, net, fs[0]);
      ForwardsKeepInv(cfg, DoForward(cfg, net, fs[0]), fs[1..]);
    }
  }

  // ----- CHECK_QUEUE -----

  /** The line of the handled port may change freely: it has no token. */
  lemma HandledLineSet(cfg: Config, net: Net, p: nat, ln: Line)
    requires TokenInv(cfg, net, Some(p))
    ensures TokenInv(cfg, net.(lines := net.lines[p := ln]), Some(p))
    ensures ln.port.queue == [] ==> TokenInv(cfg, net.(lines := net.lines[p := ln]), None)
  {
    assert forall id :: id in net.sys.queue && IsToken(cfg, net.sys.queue[id]) ==> net.sys.queue[id].payload.port != p;
  }

  lemma CheckKeepsTokens(cfg: Config, net: Net, p: nat)
    requires TokenInv(cfg, net, Some(p)) && Due(LineOf(net, p), net.sys.now)
    requires PortOk(cfg, LineOf(net, p).port, LineOf(net, p).log, net.sys.now)
    ensures TokenInv(cfg, DoCheck(cfg, net, p), None)
  {
    var ln, now := LineOf(net, p), net.sys.now;
    var ln' := Line(Dequeue(cfg, ln.port, now), LogDequeue(cfg, ln.log, ln.port, now));
    var out := Send(cfg.me, p, ToPort(ln.port.queue[0]), Delay(cfg, ln.port.queue[0]));
    var net1 := net.(lines := net.lines[p := ln']);
    HandledLineSet(cfg, net, p, ln');
    var es := CheckEffects(cfg, ln.port, p, now);
    assert es[0] == out;
    if ln'.port.queue == [] {
      SendKeepsTokens(cfg, net1, out, None);
      assert es[1..] == [];
      assert ApplyAll(Apply(net.sys, out), []) == Apply(net.sys, out);
      assert DoCheck(cfg, net, p) == net1.(sys := Apply(net.sys, out));
    } else {
      SendKeepsTokens(cfg, net1, out, Some(p));
      var net2 := net1.(sys := Apply(net.sys, out));
      NextHeadDue(cfg, ln, now);
      TokenSent(cfg, net2, p, Wait(ln'.port, now));
      var next := TokenFor(cfg, p, Wait(ln'.port, now));
      assert es[1..] == [next] && [next][1..] == [];
      assert ApplyAll(Apply(net.sys, out), [next]) == Apply(Apply(net.sys, out), next);
      assert DoCheck(cfg, net, p) == net2.(sys := Apply(net2.sys, TokenFor(cfg, p, Wait(ln'.port, now))));
    }
  }

  /** The next packet is due when the line is free again: it has arrived already. */
  lemma NextHeadDue(cfg: Config, ln: Line, now: nat)
    requires PortOk(cfg, ln.port, ln.log, now) && |ln.port.queue| > 1
    ensures var ln' := Line(Dequeue(cfg, ln.port, now), LogDequeue(cfg, ln.log, ln.port, now));
      Due(ln', now + Wait(ln'.port, now)) && Wait(ln'.port, now) == Delay(cfg, ln.port.queue[0])
  {
    assert ln.log.slots[1..][0] == ln.log.slots[1];
  }

  lemma CheckKeepsInv(cfg: Config, net: Net, p: nat)
    requires Inv(cfg, net, Some(p)) && Due(LineOf(net, p), net.sys.now)
    ensures Inv(cfg, DoCheck(cfg, net, p), None)
  {
    LineOfOk(cfg, net, p);
    CheckKeepsTokens(cfg, net, p);
    var ln, now := LineOf(net, p), net.sys.now;
    DequeueKeepsPort(cfg, ln.port, ln.log, now);
    var ln' := Line(Dequeue(cfg, ln.port, now), LogDequeue(cfg, ln.log, ln.port, now));
    LineSet(cfg, net, p, ln');
    EffectsKeepTime(net.sys, CheckEffects(cfg, ln.port, p, now));
    LinesLater(cfg, net.(lines := net.lines[p := ln']), DoCheck(cfg, net, p).sys);
  }

  // ----- Turns and runs -----

  function Woken(net: Net, t: LinkTurn): Net {
    net.(sys := ApplyAll(net.sys, t.awoken))
  }

  /** The message is popped; the clock stands at its wakeup time. */
  function Popped(net: Net, t: LinkTurn): Net
    requires t.id in Woken(net, t).sys.queue
  {
    Woken(net, t).(sys := Pop(Woken(net, t).sys, t.id))
  }

  /** What the source asserts while the Link handles the message: a CHECK_QUEUE finds its
      queue non-empty, and its guard holds so that the head is sent. */
  predicate CheckIsFine(net: Net, port: nat) {
    LineOf(net, port).port.queue != [] && LineOf(net, port).log.slots != [] && net.sys.now >= LineOf(net, port).port.avail
  }

  predicate Safe(cfg: Config, net: Net, t: LinkTurn)
    requires t.id in Woken(net, t).sys.queue
  {
    var m := Woken(net, t).sys.queue[t.id];
    !m.cancelled && IsToken(cfg, m) ==> CheckIsFine(Popped(net, t), m.payload.port)
  }

  /** What the Link does with the popped message. */
  function Handled(cfg: Config, net: Net, t: LinkTurn): Net
    requires t.id in Woken(net, t).sys.queue && Safe(cfg, net, t)
  {
    var m := Woken(net, t).sys.queue[t.id];
    if m.cancelled || m.to != cfg.me then Popped(net, t)
    else if m.payload.CheckQueue? then DoCheck(cfg, Popped(net, t), m.payload.port)
    else DoForwards(cfg, Popped(net, t), t.forwards)
  }

  predicate Enabled(cfg: Config, net: Net, t: LinkTurn) {
    ForeignAll(cfg, net.sys, t.awoken) && IsTop(Woken(net, t).sys.queue, t.id) && Choices(cfg, t.forwards)
    && (Safe(cfg, net, t) ==> ForeignAll(cfg, Handled(cfg, net, t).sys, t.others))
  }

  function TakeTurn(cfg: Config, net: Net, t: LinkTurn): Net
    requires Enabled(cfg, net, t) && Safe(cfg, net, t)
  {
    var h := Handled(cfg, net, t);
    h.(sys := Finish(ApplyAll(h.sys, t.others)))
  }

  lemma HandledKeepsInv(cfg: Config, net: Net, t: LinkTurn)
    requires Inv(cfg, Woken(net, t), None) && IsTop(Woken(net, t).sys.queue, t.id)
    requires cfg.limit != 1 && Choices(cfg, t.forwards)
    ensures Safe(cfg, net, t) && Inv(cfg, Handled(cfg, net, t), None)
  {
    var w := Woken(net, t);
    var m := w.sys.queue[t.id];
    PopKeepsTokens(cfg, w, t.id);
    LinesLater(cfg, w, Pop(w.sys, t.id));
    if IsToken(cfg, m) {
      assert Due(LineOf(w, m.payload.port), m.wakeup);
      CheckKeepsInv(cfg, Popped(net, t), m.payload.port);
    } else {
      ForwardsKeepInv(cfg, Popped(net, t), t.forwards);
    }
  }

  lemma TurnKeepsInv(cfg: Config, net: Net, t: LinkTurn)
    requires Inv(cfg, net, None) && cfg.limit != 1 && Enabled(cfg, net, t)
    ensures Safe(cfg, net, t) && Inv(cfg, TakeTurn(cfg, net, t), None)
  {
    ForeignKeepsInv(cfg, net, t.awoken);
    HandledKeepsInv(cfg, net, t);
    var h := Handled(cfg, net, t);
    ForeignKeepsInv(cfg, h, t.others);
    FinishKeepsInv(cfg, h.(sys := ApplyAll(h.sys, t.others)));
  }

  lemma FinishKeepsInv(cfg: Config, net: Net)
    requires Inv(cfg, net, None)
    ensures Inv(cfg, net.(sys := Finish(net.sys)), None)
  {
    var s := Finish(net.sys);
    assert s.queue == net.sys.queue && s.now == net.sys.now;
    assert forall p :: HasToken(cfg, net.sys, p) ==> HasToken(cfg, s, p);
    LinesLater(cfg, net, s);
  }

  predicate Possible(cfg: Config, net: Net, turns: seq<LinkTurn>)
    decreases |turns|
  {
    turns == [] ||
    (Enabled(cfg, net, turns[0]) && Safe(cfg, net, turns[0]) && Possible(cfg, TakeTurn(cfg, net, turns[0]), turns[1..]))
  }

  function Continue(cfg: Config, net: Net, turns: seq<LinkTurn>): Net
    requires Possible(cfg, net, turns)
    decreases |turns|
  {
    if turns == [] then net else Continue(cfg, TakeTurn(cfg, net, turns[0]), turns[1..])
  }

  function Start(): Net {
    Net(Initial(), map[])
  }

  lemma StartInv(cfg: Config)
    ensures Inv(cfg, Start(), None)
  {
  }

  lemma {:induction false} RunKeepsInv(cfg: Config, net: Net, turns: seq<LinkTurn>)
    requires Inv(cfg, net, None) && cfg.limit != 1 && Possible(cfg, net, turns)
    ensures Inv(cfg, Continue(cfg, net, turns), None)
    decreases |turns|
  {
    if turns != [] {
      TurnKeepsInv(cfg, net, turns[0]);
      RunKeepsInv(cfg, TakeTurn(cfg, net, turns[0]), turns[1..]);
    }
  }
}
