/** The event scheduler of E::System as a value-level specification, and what every
    execution of it guarantees whatever the modules' handlers do.

    A module handler is an arbitrary finite list of effects: sends with a delay and
    cancellations.  Virtual time and message ids are unbounded (`nat`). */
module Scheduler {
  import opened Options

  /** What a TimerContainer carries. */
  datatype Message<P> = Message(from: nat, to: nat, payload: P, wakeup: nat, cancelled: bool)

  /** `queue` is timerQueue; `current` is the message popped and being handled, if any.
      activeTimer and activeUUID hold the ids of both. */
  datatype State<P> = State(now: nat, lastId: nat, queue: map<nat, Message<P>>, current: Option<nat>)

  datatype Effect<P> =
    | Send(from: nat, to: nat, payload: P, delay: nat)
    | Cancel(id: nat)

  /** One pass of the loop in `run`: what the woken threads do, the message popped, and
      what the handlers (messageReceived, messageFinished, messageCancelled) do. */
  datatype Turn<P> = Turn(awoken: seq<Effect<P>>, id: nat, handlers: seq<Effect<P>>)

  datatype Entry<P> = Entry(id: nat, message: Message<P>)

  /** The state together with everything observed so far: `log` holds every message as it
      was sent (due at send time plus delay), `trace` the popped messages in order, and
      `withdrawn` the ids for which cancelMessage succeeded while they were queued. */
  datatype History<P> = History(state: State<P>, log: map<nat, Message<P>>, trace: seq<Entry<P>>, withdrawn: set<nat>)

  /** Dispatch order: TimerContainerLess read from the top of the priority queue. */
  predicate Before(w: nat, i: nat, w': nat, i': nat) {
    w < w' || (w == w' && i < i')
  }

  predicate IsTop<P>(q: map<nat, Message<P>>, id: nat) {
    id in q && forall j :: j in q && j != id ==> Before(q[id].wakeup, id, q[j].wakeup, j)
  }

  function Initial<P>(): State<P> {
    State(0, 0, map[], None)
  }

  function Blank<P>(): History<P> {
    History(Initial(), map[], [], {})
  }

  // ----- Single operations -----

  function Sent<P>(s: State<P>, e: Effect<P>): Message<P>
    requires e.Send?
  {
    Message(e.from, e.to, e.payload, s.now + e.delay, false)
  }

  /** The value returned by cancelMessage: the id is still in activeTimer. */
  predicate CancelResult<P>(s: State<P>, id: nat) {
    id in s.queue || s.current == Some(id)
  }

  function Apply<P>(s: State<P>, e: Effect<P>): State<P> {
    match e
    case Send(_, _, _, _) => s.(lastId := s.lastId + 1, queue := s.queue[s.lastId + 1 := Sent(s, e)])
    case Cancel(id) => if id in s.queue then s.(queue := s.queue[id := s.queue[id].(cancelled := true)]) else s
  }

  function ApplyAll<P>(s: State<P>, es: seq<Effect<P>>): State<P>
    decreases |es|
  {
    if es == [] then s else ApplyAll(Apply(s, es[0]), es[1..])
  }

  function Pop<P>(s: State<P>, id: nat): State<P>
    requires id in s.queue
  {
    s.(now := s.queue[id].wakeup, queue := s.queue - {id}, current := Some(id))
  }

  function Finish<P>(s: State<P>): State<P> {
    s.(current := None)
  }

  // ----- The same operations on histories -----

  function Issue<P>(h: History<P>, e: Effect<P>): History<P> {
    match e
    case Send(from, to, payload, delay) =>
      h.(state := Apply(h.state, e), log := h.log[h.state.lastId + 1 := Message(from, to, payload, h.state.now + delay, false)])
    case Cancel(id) =>
      h.(state := Apply(h.state, e),
         withdrawn := if id in h.state.queue then h.withdrawn + {id} else h.withdrawn)
  }

  function IssueAll<P>(h: History<P>, es: seq<Effect<P>>): History<P>
    decreases |es|
  {
    if es == [] then h else IssueAll(Issue(h, es[0]), es[1..])
  }

  function Dispatch<P>(h: History<P>, id: nat): History<P>
    requires id in h.state.queue
  {
    h.(state := Pop(h.state, id), trace := h.trace + [Entry(id, h.state.queue[id])])
  }

  predicate Enabled<P>(h: History<P>, t: Turn<P>) {
    IsTop(IssueAll(h, t.awoken).state.queue, t.id)
  }

  /** Inside a turn, when the handlers have done `t.handlers`. */
  function UnderWay<P>(h: History<P>, t: Turn<P>): History<P>
    requires Enabled(h, t)
  {
    IssueAll(Dispatch(IssueAll(h, t.awoken), t.id), t.handlers)
  }

  function TakeTurn<P>(h: History<P>, t: Turn<P>): History<P>
    requires Enabled(h, t)
  {
    var h' := UnderWay(h, t);
    h'.(state := Finish(h'.state))
  }

  predicate Possible<P>(h: History<P>, turns: seq<Turn<P>>)
    decreases |turns|
  {
    turns == [] || (Enabled(h, turns[0]) && Possible(TakeTurn(h, turns[0]), turns[1..]))
  }

  function Continue<P>(h: History<P>, turns: seq<Turn<P>>): History<P>
    requires Possible(h, turns)
    decreases |turns|
  {
    if turns == [] then h else Continue(TakeTurn(h, turns[0]), turns[1..])
  }

  // ----- The invariant -----

  ghost predicate SameBut<P>(a: Message<P>, b: Message<P>) {
    a.(cancelled := false) == b
  }

  ghost predicate LogComplete<P>(h: History<P>) {
    && (forall id :: id in h.log <==> 1 <= id <= h.state.lastId)
    && (forall id :: id in h.log ==> id in h.state.queue || exists i :: 0 <= i < |h.trace| && h.trace[i].id == id)
  }

  ghost predicate QueueOk<P>(h: History<P>) {
    forall id :: id in h.state.queue ==>
      && id in h.log
      && SameBut(h.state.queue[id], h.log[id])
      && h.state.now <= h.state.queue[id].wakeup
      && (h.state.queue[id].cancelled <==> id in h.withdrawn)
  }

  ghost predicate TraceOk<P>(h: History<P>) {
    forall i :: 0 <= i < |h.trace| ==>
      && h.trace[i].id in h.log
      && SameBut(h.trace[i].message, h.log[h.trace[i].id])
      && h.trace[i].message.wakeup <= h.state.now
      && (h.trace[i].message.cancelled <==> h.trace[i].id in h.withdrawn)
  }

  ghost predicate TraceOrdered<P>(h: History<P>) {
    && (forall i, j :: 0 <= i < j < |h.trace| ==>
          Before(h.trace[i].message.wakeup, h.trace[i].id, h.trace[j].message.wakeup, h.trace[j].id))
    && (forall i, id :: 0 <= i < |h.trace| && id in h.state.queue ==>
          Before(h.trace[i].message.wakeup, h.trace[i].id, h.state.queue[id].wakeup, id))
  }

  ghost predicate Inv<P>(h: History<P>) {
    LogComplete(h) && QueueOk(h) && TraceOk(h) && TraceOrdered(h)
    && (forall id :: id in h.withdrawn ==> id in h.log)
  }

  lemma SendKeepsLog<P>(h: History<P>, e: Effect<P>)
    requires LogComplete(h) && e.Send?
    ensures LogComplete(Issue(h, e))
  {
    assert h.state.lastId + 1 !in h.log;
  }

  lemma SendKeepsOrder<P>(h: History<P>, e: Effect<P>)
    requires LogComplete(h) && TraceOk(h) && TraceOrdered(h) && e.Send?
    ensures TraceOrdered(Issue(h, e))
  {
    assert forall i :: 0 <= i < |h.trace| ==> h.trace[i].id in h.log;
  }

  lemma SendKeepsInv<P>(h: History<P>, e: Effect<P>)
    requires Inv(h) && e.Send?
    ensures Inv(Issue(h, e))
  {
    SendKeepsLog(h, e);
    SendKeepsOrder(h, e);
    assert h.state.lastId + 1 !in h.log;
  }

  lemma CancelKeepsInv<P>(h: History<P>, e: Effect<P>)
    requires Inv(h) && e.Cancel?
    ensures Inv(Issue(h, e))
  {
    if e.id in h.state.queue {
      assert forall i :: 0 <= i < |h.trace| ==> h.trace[i].id != e.id;
      assert Issue(h, e).state.queue.Keys == h.state.queue.Keys;
    }
  }

  lemma IssueKeepsInv<P>(h: History<P>, e: Effect<P>)
    requires Inv(h)
    ensures Inv(Issue(h, e))
  {
    if e.Send? {
      SendKeepsInv(h, e);
    } else {
      CancelKeepsInv(h, e);
    }
  }

  lemma {:induction false} IssueAllKeepsInv<P>(h: History<P>, es: seq<Effect<P>>)
    requires Inv(h)
    ensures Inv(IssueAll(h, es))
    ensures IssueAll(h, es).trace == h.trace
    ensures h.withdrawn <= IssueAll(h, es).withdrawn
    ensures h.log.Keys <= IssueAll(h, es).log.Keys
    decreases |es|
  {
    if es != [] {
      IssueKeepsInv(h, es[0]);
      IssueAllKeepsInv(Issue(h, es[0]), es[1..]);
    }
  }

  lemma DispatchKeepsLog<P>(h: History<P>, id: nat)
    requires LogComplete(h) && id in h.state.queue
    ensures LogComplete(Dispatch(h, id))
  {
    var h' := Dispatch(h, id);
    assert h'.trace[|h.trace|].id == id;
    forall j | j in h'.log ensures j in h'.state.queue || exists i :: 0 <= i < |h'.trace| && h'.trace[i].id == j {
      if j !in h.state.queue {
        var i :| 0 <= i < |h.trace| && h.trace[i].id == j;
        assert h'.trace[i].id == j;
      }
    }
  }

  lemma DispatchKeepsOrder<P>(h: History<P>, id: nat)
    requires TraceOrdered(h) && IsTop(h.state.queue, id)
    ensures TraceOrdered(Dispatch(h, id))
  {
  }

  lemma DispatchKeepsInv<P>(h: History<P>, id: nat)
    requires Inv(h) && IsTop(h.state.queue, id)
    ensures Inv(Dispatch(h, id))
  {
    DispatchKeepsLog(h, id);
    DispatchKeepsOrder(h, id);
  }

  lemma FinishKeepsInv<P>(h: History<P>)
    requires Inv(h)
    ensures Inv(h.(state := Finish(h.state)))
  {
  }

  lemma UnderWayInv<P>(h: History<P>, t: Turn<P>)
    requires Inv(h) && Enabled(h, t)
    ensures Inv(UnderWay(h, t))
    ensures UnderWay(h, t).trace == h.trace + [Entry(t.id, IssueAll(h, t.awoken).state.queue[t.id])]
    ensures h.withdrawn <= UnderWay(h, t).withdrawn
  {
    IssueAllKeepsInv(h, t.awoken);
    DispatchKeepsInv(IssueAll(h, t.awoken), t.id);
    IssueAllKeepsInv(Dispatch(IssueAll(h, t.awoken), t.id), t.handlers);
  }

  lemma TurnKeepsInv<P>(h: History<P>, t: Turn<P>)
    requires Inv(h) && Enabled(h, t)
    ensures Inv(TakeTurn(h, t))
    ensures h.trace < TakeTurn(h, t).trace && |TakeTurn(h, t).trace| == |h.trace| + 1
    ensures h.withdrawn <= TakeTurn(h, t).withdrawn
  {
    UnderWayInv(h, t);
    FinishKeepsInv(UnderWay(h, t));
  }

  lemma {:induction false} RunKeepsInv<P>(h: History<P>, turns: seq<Turn<P>>)
    requires Inv(h) && Possible(h, turns)
    ensures Inv(Continue(h, turns))
    ensures h.trace <= Continue(h, turns).trace
    ensures |Continue(h, turns).trace| == |h.trace| + |turns|
    ensures h.withdrawn <= Continue(h, turns).withdrawn
    decreases |turns|
  {
    if turns != [] {
      TurnKeepsInv(h, turns[0]);
      RunKeepsInv(TakeTurn(h, turns[0]), turns[1..]);
    }
  }

  lemma BlankInv<P>()
    ensures Inv(Blank<P>())
  {
  }

  // ----- What every execution guarantees -----

  ghost predicate Received<P>(h: History<P>, id: nat) {
    exists i :: 0 <= i < |h.trace| && h.trace[i].id == id && !h.trace[i].message.cancelled
  }

  /** messageCancelled was called for `id`, at virtual time `at`. */
  ghost predicate ReturnedToSender<P>(h: History<P>, id: nat, at: nat) {
    exists i :: 0 <= i < |h.trace| && h.trace[i].id == id && h.trace[i].message.cancelled && h.trace[i].message.wakeup == at
  }

  ghost predicate OccursOnce<P>(trace: seq<Entry<P>>, id: nat) {
    exists i :: 0 <= i < |trace| && trace[i].id == id && forall j :: 0 <= j < |trace| && trace[j].id == id ==> j == i
  }

  /** Virtual time never goes back and messages due together are handled in the order
      in which they were sent. */
  lemma DispatchOrder<P>(turns: seq<Turn<P>>, i: nat, j: nat)
    requires Possible(Blank(), turns)
    requires i < j < |turns|
    ensures var trace := Continue(Blank(), turns).trace;
      && |trace| == |turns|
      && trace[i].message.wakeup <= trace[j].message.wakeup <= Continue(Blank(), turns).state.now
      && (trace[i].message.wakeup == trace[j].message.wakeup ==> trace[i].id < trace[j].id)
  {
    BlankInv<P>();
    RunKeepsInv(Blank(), turns);
  }

  /** A point between two effects of a run: at the head of the loop, when the woken threads
      have done `since`, or inside a turn, when the handlers have done `turn.handlers`. */
  datatype Stage<P> = AtHead(since: seq<Effect<P>>) | Inside(turn: Turn<P>)

  predicate Reachable<P>(turns: seq<Turn<P>>, stage: Stage<P>) {
    Possible(Blank(), turns) && (stage.Inside? ==> Enabled(Continue(Blank(), turns), stage.turn))
  }

  function Reached<P>(turns: seq<Turn<P>>, stage: Stage<P>): History<P>
    requires Reachable(turns, stage)
  {
    var h := Continue(Blank(), turns);
    match stage
    case AtHead(since) => IssueAll(h, since)
    case Inside(turn) => UnderWay(h, turn)
  }

  lemma ReachedInv<P>(turns: seq<Turn<P>>, stage: Stage<P>)
    requires Reachable(turns, stage)
    ensures Inv(Reached(turns, stage))
  {
    BlankInv<P>();
    RunKeepsInv(Blank(), turns);
    match stage
    case AtHead(since) => IssueAllKeepsInv(Continue(Blank(), turns), since);
    case Inside(turn) => UnderWayInv(Continue(Blank(), turns), turn);
  }

  lemma HandledOnce<P>(h: History<P>, id: nat)
    requires Inv(h) && id in h.log && id !in h.state.queue
    ensures OccursOnce(h.trace, id)
  {
    var i :| 0 <= i < |h.trace| && h.trace[i].id == id;
    forall j | 0 <= j < |h.trace| && h.trace[j].id == id ensures j == i {
      assert h.trace[j].message.wakeup == h.log[id].wakeup == h.trace[i].message.wakeup;
    }
  }

  /** Between any two effects of any run, every id ever issued is either still queued or was
      popped exactly once, unchanged and exactly when it was due. */
  lemma ExactlyOnce<P>(turns: seq<Turn<P>>, stage: Stage<P>, id: nat)
    requires Reachable(turns, stage)
    requires 1 <= id <= Reached(turns, stage).state.lastId
    ensures var h := Reached(turns, stage);
      && id in h.log
      && (id in h.state.queue <==> !OccursOnce(h.trace, id))
      && (id in h.state.queue <==> forall i :: 0 <= i < |h.trace| ==> h.trace[i].id != id)
      && (forall i :: 0 <= i < |h.trace| && h.trace[i].id == id ==> SameBut(h.trace[i].message, h.log[id]))
  {
    ReachedInv(turns, stage);
    var h := Reached(turns, stage);
    if id !in h.state.queue {
      HandledOnce(h, id);
    }
  }

  lemma FifoInHistory<P>(h: History<P>, a: nat, b: nat, j: nat)
    requires Inv(h) && a < b && a in h.log && b in h.log && h.log[a].wakeup <= h.log[b].wakeup
    requires j < |h.trace| && h.trace[j].id == b
    ensures exists i :: 0 <= i < j && h.trace[i].id == a
  {
    assert a !in h.state.queue;
    var i :| 0 <= i < |h.trace| && h.trace[i].id == a;
    assert h.trace[i].message.wakeup == h.log[a].wakeup && h.trace[j].message.wakeup == h.log[b].wakeup;
    assert i < j;
  }

  /** Of two messages, the one sent first and due no later is handled first. */
  lemma FifoDelivery<P>(turns: seq<Turn<P>>, stage: Stage<P>, a: nat, b: nat, j: nat)
    requires Reachable(turns, stage) && a < b
    requires var h := Reached(turns, stage);
      && a in h.log && b in h.log && h.log[a].wakeup <= h.log[b].wakeup
      && j < |h.trace| && h.trace[j].id == b
    ensures exists i :: 0 <= i < j && Reached(turns, stage).trace[i].id == a
  {
    ReachedInv(turns, stage);
    FifoInHistory(Reached(turns, stage), a, b, j);
  }

  /** The exit conditions of the loop in `run(till)`: the queue is empty, or `till` is set
      and passed. */
  ghost predicate NoneDue<P>(q: map<nat, Message<P>>, till: nat) {
    if till == 0 then q == map[] else forall id :: id in q ==> q[id].wakeup > till
  }

  /** Once such a condition holds, everything due by `till` (everything at all, if `till` is
      0) has been handled exactly once. */
  lemma HorizonReached<P>(turns: seq<Turn<P>>, stage: Stage<P>, till: nat)
    requires Reachable(turns, stage) && NoneDue(Reached(turns, stage).state.queue, till)
    ensures var h := Reached(turns, stage);
      forall id :: id in h.log && (till == 0 || h.log[id].wakeup <= till) ==> OccursOnce(h.trace, id)
  {
    ReachedInv(turns, stage);
    var h := Reached(turns, stage);
    forall id | id in h.log && (till == 0 || h.log[id].wakeup <= till) ensures OccursOnce(h.trace, id) {
      HandledOnce(h, id);
    }
  }

  /** The clock shows the time of the last message popped. */
  ghost predicate ClockOk<P>(h: History<P>) {
    h.state.now == if h.trace == [] then 0 else h.trace[|h.trace| - 1].message.wakeup
  }

  lemma IssueAllKeepsClock<P>(h: History<P>, es: seq<Effect<P>>)
    requires Inv(h) && ClockOk(h)
    ensures ClockOk(IssueAll(h, es))
  {
    IssueAllState(h, es);
    EffectsKeepTime(h.state, es);
    IssueAllKeepsInv(h, es);
  }

  lemma TurnKeepsClock<P>(h: History<P>, t: Turn<P>)
    requires Inv(h) && ClockOk(h) && Enabled(h, t)
    ensures ClockOk(UnderWay(h, t)) && ClockOk(TakeTurn(h, t))
  {
    IssueAllKeepsInv(h, t.awoken);
    DispatchKeepsInv(IssueAll(h, t.awoken), t.id);
    IssueAllKeepsClock(Dispatch(IssueAll(h, t.awoken), t.id), t.handlers);
  }

  lemma {:induction false} RunKeepsClock<P>(h: History<P>, turns: seq<Turn<P>>)
    requires Inv(h) && ClockOk(h) && Possible(h, turns)
    ensures ClockOk(Continue(h, turns))
    decreases |turns|
  {
    if turns != [] {
      TurnKeepsInv(h, turns[0]);
      TurnKeepsClock(h, turns[0]);
      RunKeepsClock(TakeTurn(h, turns[0]), turns[1..]);
    }
  }

  lemma ClockIsLastPopped<P>(turns: seq<Turn<P>>, stage: Stage<P>)
    requires Reachable(turns, stage)
    ensures ClockOk(Reached(turns, stage))
  {
    BlankInv<P>();
    RunKeepsInv(Blank(), turns);
    RunKeepsClock(Blank(), turns);
    match stage
    case AtHead(since) => IssueAllKeepsClock(Continue(Blank(), turns), since);
    case Inside(turn) => TurnKeepsClock(Continue(Blank(), turns), turn);
  }

  // ----- Helpers -----

  lemma {:induction false} IssueAllConcat<P>(h: History<P>, a: seq<Effect<P>>, b: seq<Effect<P>>)
    ensures IssueAll(h, a + b) == IssueAll(IssueAll(h, a), b)
    decreases |a|
  {
    if a == [] {
      assert a + b == b;
    } else {
      assert (a + b)[0] == a[0] && (a + b)[1..] == a[1..] + b;
      IssueAllConcat(Issue(h, a[0]), a[1..], b);
    }
  }

  lemma {:induction false} IssueAllState<P>(h: History<P>, es: seq<Effect<P>>)
    ensures IssueAll(h, es).state == ApplyAll(h.state, es)
    decreases |es|
  {
    if es != [] {
      IssueAllState(Issue(h, es[0]), es[1..]);
    }
  }

  lemma {:induction false} EffectsKeepTime<P>(s: State<P>, es: seq<Effect<P>>)
    ensures ApplyAll(s, es).now == s.now && ApplyAll(s, es).current == s.current
    decreases |es|
  {
    if es != [] {
      EffectsKeepTime(Apply(s, es[0]), es[1..]);
    }
  }

  /** What a turn does to the state alone. */
  lemma TurnState<P>(h: History<P>, t: Turn<P>)
    requires IsTop(ApplyAll(h.state, t.awoken).queue, t.id)
    ensures Enabled(h, t)
    ensures TakeTurn(h, t).state == Finish(ApplyAll(Pop(ApplyAll(h.state, t.awoken), t.id), t.handlers))
  {
    IssueAllState(h, t.awoken);
    IssueAllState(Dispatch(IssueAll(h, t.awoken), t.id), t.handlers);
  }

  lemma {:induction false} ContinueConcat<P>(h: History<P>, a: seq<Turn<P>>, b: seq<Turn<P>>)
    requires Possible(h, a) && Possible(Continue(h, a), b)
    ensures Possible(h, a + b) && Continue(h, a + b) == Continue(Continue(h, a), b)
    decreases |a|
  {
    if a == [] {
      assert a + b == b;
    } else {
      assert (a + b)[0] == a[0] && (a + b)[1..] == a[1..] + b;
      ContinueConcat(TakeTurn(h, a[0]), a[1..], b);
    }
  }

  lemma {:induction false} EffectsNeverRewriteLog<P>(h: History<P>, es: seq<Effect<P>>, id: nat)
    requires Inv(h) && id in h.log
    ensures id in IssueAll(h, es).log && IssueAll(h, es).log[id] == h.log[id]
    decreases |es|
  {
    if es != [] {
      IssueKeepsInv(h, es[0]);
      EffectsNeverRewriteLog(Issue(h, es[0]), es[1..], id);
    }
  }

  /** A message sent first thing by the handlers: its id is new, and the log holds it. */
  lemma FirstEffectLogged<P>(h: History<P>, t: Turn<P>)
    requires Inv(h) && Enabled(h, t) && t.handlers != [] && t.handlers[0].Send?
    ensures var a, e := IssueAll(h, t.awoken), t.handlers[0];
            var id := a.state.lastId + 1;
      && id !in h.log
      && id in TakeTurn(h, t).log
      && TakeTurn(h, t).log[id] == Message(e.from, e.to, e.payload, a.state.queue[t.id].wakeup + e.delay, false)
  {
    NextIdIsNew(h, t.awoken);
    IssueAllKeepsInv(h, t.awoken);
    var a := IssueAll(h, t.awoken);
    DispatchKeepsInv(a, t.id);
    SentIsLogged(Dispatch(a, t.id), t.handlers);
  }

  lemma NextIdIsNew<P>(h: History<P>, es: seq<Effect<P>>)
    requires Inv(h)
    ensures IssueAll(h, es).state.lastId + 1 !in h.log
  {
    IssueAllKeepsInv(h, es);
  }

  lemma SentIsLogged<P>(h: History<P>, es: seq<Effect<P>>)
    requires Inv(h) && es != [] && es[0].Send?
    ensures var id := h.state.lastId + 1; id in IssueAll(h, es).log && IssueAll(h, es).log[id] == Sent(h.state, es[0])
  {
    IssueKeepsInv(h, es[0]);
    EffectsNeverRewriteLog(Issue(h, es[0]), es[1..], h.state.lastId + 1);
  }

  lemma TurnNeverRewritesLog<P>(h: History<P>, t: Turn<P>, id: nat)
    requires Inv(h) && id in h.log && Enabled(h, t)
    ensures id in TakeTurn(h, t).log && TakeTurn(h, t).log[id] == h.log[id]
  {
    IssueAllKeepsInv(h, t.awoken);
    EffectsNeverRewriteLog(h, t.awoken, id);
    var m := IssueAll(h, t.awoken);
    DispatchKeepsInv(m, t.id);
    EffectsNeverRewriteLog(Dispatch(m, t.id), t.handlers, id);
  }

  lemma {:induction false} LogNeverRewritten<P>(h: History<P>, turns: seq<Turn<P>>, id: nat)
    requires Inv(h) && id in h.log && Possible(h, turns)
    ensures id in Continue(h, turns).log && Continue(h, turns).log[id] == h.log[id]
    decreases |turns|
  {
    if turns != [] {
      TurnNeverRewritesLog(h, turns[0], id);
      TurnKeepsInv(h, turns[0]);
      LogNeverRewritten(TakeTurn(h, turns[0]), turns[1..], id);
    }
  }
}
