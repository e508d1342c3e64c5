/** What cancelMessage achieves, wherever in a run it is called: by a woken thread or in the
    middle of a handler, with other effects before and after it. */
module Cancellation {
  import opened Options
  import opened Scheduler

  /** Some cancellation among `es`, performed one after the other from `h`, finds `id` queued. */
  ghost predicate Hits<P>(h: History<P>, es: seq<Effect<P>>, id: nat) {
    exists k :: 0 <= k < |es| && es[k] == Cancel(id) && id in IssueAll(h, es[..k]).state.queue
  }

  /** The same for all that happens in one turn. */
  ghost predicate HitsInTurn<P>(h: History<P>, t: Turn<P>, id: nat)
    requires Enabled(h, t)
  {
    Hits(h, t.awoken, id) || Hits(Dispatch(IssueAll(h, t.awoken), t.id), t.handlers, id)
  }

  lemma IssueLast<P>(h: History<P>, es: seq<Effect<P>>)
    requires es != []
    ensures var n := |es| - 1; IssueAll(h, es) == Issue(IssueAll(h, es[..n]), es[n])
  {
    var n := |es| - 1;
    assert es == es[..n] + [es[n]];
    IssueAllConcat(h, es[..n], [es[n]]);
    assert [es[n]][1..] == [];
  }

  lemma HitsLast<P>(h: History<P>, es: seq<Effect<P>>, id: nat)
    requires es != []
    ensures var n := |es| - 1;
      Hits(h, es, id) <==> Hits(h, es[..n], id) || (es[n] == Cancel(id) && id in IssueAll(h, es[..n]).state.queue)
  {
    var n := |es| - 1;
    if Hits(h, es[..n], id) {
      var k :| 0 <= k < n && es[..n][k] == Cancel(id) && id in IssueAll(h, es[..n][..k]).state.queue;
      assert es[..n][..k] == es[..k];
    }
    if Hits(h, es, id) {
      var k :| 0 <= k < |es| && es[k] == Cancel(id) && id in IssueAll(h, es[..k]).state.queue;
      if k < n {
        assert es[..n][k] == Cancel(id) && es[..n][..k] == es[..k];
      }
    }
  }

  lemma {:induction false} EffectsWithdraw<P>(h: History<P>, es: seq<Effect<P>>, id: nat)
    ensures id in IssueAll(h, es).withdrawn <==> id in h.withdrawn || Hits(h, es, id)
    decreases |es|
  {
    if es != [] {
      EffectsWithdraw(h, es[..|es| - 1], id);
      IssueLast(h, es);
      HitsLast(h, es, id);
    }
  }

  lemma TurnWithdraws<P>(h: History<P>, t: Turn<P>, id: nat)
    requires Enabled(h, t)
    ensures id in TakeTurn(h, t).withdrawn <==> id in h.withdrawn || HitsInTurn(h, t, id)
  {
    EffectsWithdraw(h, t.awoken, id);
    EffectsWithdraw(Dispatch(IssueAll(h, t.awoken), t.id), t.handlers, id);
  }

  /** Some turn of the run contains a cancellation that finds `id` queued. */
  ghost predicate HitsInRun<P>(h: History<P>, turns: seq<Turn<P>>, id: nat)
    requires Possible(h, turns)
    decreases |turns|
  {
    turns != [] && (HitsInTurn(h, turns[0], id) || HitsInRun(TakeTurn(h, turns[0]), turns[1..], id))
  }

  lemma {:induction false} RunWithdraws<P>(h: History<P>, turns: seq<Turn<P>>, id: nat)
    requires Possible(h, turns)
    ensures id in Continue(h, turns).withdrawn <==> id in h.withdrawn || HitsInRun(h, turns, id)
    decreases |turns|
  {
    if turns != [] {
      TurnWithdraws(h, turns[0], id);
      RunWithdraws(TakeTurn(h, turns[0]), turns[1..], id);
    }
  }

  /** A cancelled message: never received; queued until its turn comes, then back with its
      sender, exactly once and at its original wakeup time. */
  ghost predicate Undone<P>(h: History<P>, id: nat) {
    && id in h.log && !Received(h, id)
    && (id !in h.state.queue <==> ReturnedToSender(h, id, h.log[id].wakeup))
    && (id !in h.state.queue <==> OccursOnce(h.trace, id))
  }

  lemma WithdrawnIsUndone<P>(h: History<P>, id: nat)
    requires Inv(h) && id in h.withdrawn
    ensures Undone(h, id)
  {
    if id !in h.state.queue {
      HandledOnce(h, id);
    }
  }

  /** At every point of every run, for a cancellation made anywhere before it. */
  lemma WithdrawnIsFinal<P>(turns: seq<Turn<P>>, stage: Stage<P>, id: nat)
    requires Reachable(turns, stage) && id in Reached(turns, stage).withdrawn
    ensures Undone(Reached(turns, stage), id)
  {
    ReachedInv(turns, stage);
    WithdrawnIsUndone(Reached(turns, stage), id);
  }

  /** Wherever in a turn a cancellation finds the message queued, it is final: in every
      continuation the message is undone, and due as it was when it was sent. */
  lemma CancelIsFinal<P>(before: seq<Turn<P>>, t: Turn<P>, after: seq<Turn<P>>, id: nat)
    requires Possible(Blank(), before) && Enabled(Continue(Blank(), before), t)
    requires HitsInTurn(Continue(Blank(), before), t, id)
    requires Possible(TakeTurn(Continue(Blank(), before), t), after)
    ensures var mid := TakeTurn(Continue(Blank(), before), t);
            var h := Continue(mid, after);
      && Undone(h, id)
      && id in mid.log && h.log[id] == mid.log[id]
  {
    BlankInv<P>();
    RunKeepsInv(Blank(), before);
    var h0 := Continue(Blank(), before);
    TurnWithdraws(h0, t, id);
    TurnKeepsInv(h0, t);
    var mid := TakeTurn(h0, t);
    RunKeepsInv(mid, after);
    WithdrawnIsUndone(Continue(mid, after), id);
    LogNeverRewritten(mid, after, id);
  }

  /** A handled message was received if and only if no cancellation of the whole run found
      it queued. */
  lemma ReceivedIffNeverHit<P>(turns: seq<Turn<P>>, i: nat)
    requires Possible(Blank(), turns) && i < |turns|
    ensures var h := Continue(Blank(), turns);
      && |h.trace| == |turns|
      && (Received(h, h.trace[i].id) <==> !HitsInRun(Blank(), turns, h.trace[i].id))
  {
    BlankInv<P>();
    RunKeepsInv(Blank(), turns);
    var h := Continue(Blank(), turns);
    RunWithdraws(Blank(), turns, h.trace[i].id);
    if h.trace[i].id !in h.withdrawn {
      assert !h.trace[i].message.cancelled;
    }
  }

  /** Cancelling anything that is not queued changes nothing at all, now or later. */
  lemma LateCancelIsVoid<P>(h: History<P>, earlier: seq<Effect<P>>, id: nat, later: seq<Effect<P>>)
    requires id !in IssueAll(h, earlier).state.queue
    ensures IssueAll(h, earlier + [Cancel(id)] + later) == IssueAll(h, earlier + later)
  {
    IssueAllConcat(h, earlier, [Cancel(id)] + later);
    IssueAllConcat(h, earlier, later);
    assert earlier + [Cancel(id)] + later == earlier + ([Cancel(id)] + later);
    assert ([Cancel(id)] + later)[1..] == later;
  }

  // ----- The answer -----

  lemma HandledIsCurrent<P>(h: History<P>, t: Turn<P>)
    requires Enabled(h, t)
    ensures UnderWay(h, t).state.current == Some(t.id)
  {
    var d := Dispatch(IssueAll(h, t.awoken), t.id);
    IssueAllState(d, t.handlers);
    EffectsKeepTime(d.state, t.handlers);
  }

  lemma PartEnabled<P>(h: History<P>, t: Turn<P>, k: nat)
    requires Enabled(h, t) && k <= |t.handlers|
    ensures Enabled(h, t.(handlers := t.handlers[..k]))
  {
  }

  /** All through the handling of a message that is not cancelled, cancelMessage answers
      true for it, and yet the message is received. */
  lemma TrueForTheMessageHandled<P>(turns: seq<Turn<P>>, t: Turn<P>, k: nat)
    requires Possible(Blank(), turns) && Enabled(Continue(Blank(), turns), t) && k <= |t.handlers|
    requires !IssueAll(Continue(Blank(), turns), t.awoken).state.queue[t.id].cancelled
    ensures var h := Continue(Blank(), turns);
      && Enabled(h, t.(handlers := t.handlers[..k]))
      && CancelResult(UnderWay(h, t.(handlers := t.handlers[..k])).state, t.id)
      && Received(TakeTurn(h, t), t.id)
  {
    var h := Continue(Blank(), turns);
    PartEnabled(h, t, k);
    HandledIsCurrent(h, t.(handlers := t.handlers[..k]));
    BlankInv<P>();
    RunKeepsInv(Blank(), turns);
    UnderWayInv(h, t);
    assert TakeTurn(h, t).trace[|h.trace|] == Entry(t.id, IssueAll(h, t.awoken).state.queue[t.id]);
  }

  /** Between turns no message is being handled. */
  lemma {:induction false} NothingCurrent<P>(h: History<P>, turns: seq<Turn<P>>)
    requires Possible(h, turns) && h.state.current == None
    ensures Continue(h, turns).state.current == None
    decreases |turns|
  {
    if turns != [] {
      NothingCurrent(TakeTurn(h, turns[0]), turns[1..]);
    }
  }

  /** A woken thread gets a true answer only for a queued message. */
  lemma TrueAtHeadMeansQueued<P>(turns: seq<Turn<P>>, since: seq<Effect<P>>, id: nat)
    requires Possible(Blank(), turns)
    ensures var s := Reached(turns, AtHead(since)).state; CancelResult(s, id) <==> id in s.queue
  {
    NothingCurrent(Blank(), turns);
    IssueAllState(Continue(Blank(), turns), since);
    EffectsKeepTime(Continue(Blank(), turns).state, since);
  }

  /** The answer, read off the log and the trace: true exactly for a message that was sent and
      has not been popped before, not counting the one that is being handled. */
  lemma AnswerFromTrace<P>(turns: seq<Turn<P>>, stage: Stage<P>, id: nat)
    requires Reachable(turns, stage)
    ensures var h := Reached(turns, stage);
            var completed := if stage.Inside? then |h.trace| - 1 else |h.trace|;
      && 0 <= completed
      && (CancelResult(h.state, id) <==> id in h.log && forall i :: 0 <= i < completed ==> h.trace[i].id != id)
  {
    ReachedInv(turns, stage);
    match stage
    case AtHead(since) =>
      TrueAtHeadMeansQueued(turns, since, id);
      QueuedMeansNotPopped(Reached(turns, stage), id);
    case Inside(t) =>
      BlankInv<P>();
      RunKeepsInv(Blank(), turns);
      UnderWayInv(Continue(Blank(), turns), t);
      HandledIsCurrent(Continue(Blank(), turns), t);
      QueuedOrLast(Reached(turns, stage), id);
  }

  lemma QueuedMeansNotPopped<P>(h: History<P>, id: nat)
    requires Inv(h)
    ensures id in h.state.queue <==> id in h.log && forall i :: 0 <= i < |h.trace| ==> h.trace[i].id != id
  {
    if id in h.log && id !in h.state.queue {
      HandledOnce(h, id);
    }
  }

  lemma QueuedOrLast<P>(h: History<P>, id: nat)
    requires Inv(h) && h.trace != []
    ensures var n := |h.trace| - 1;
      id in h.state.queue || id == h.trace[n].id <==> id in h.log && forall i :: 0 <= i < n ==> h.trace[i].id != id
  {
    QueuedMeansNotPopped(h, id);
    var n := |h.trace| - 1;
    if id == h.trace[n].id {
      assert id in h.log;
      HandledOnce(h, id);
    }
  }

  /** What a true answer means, for the k-th effect of a handler: the message is never
      received, in any continuation, if and only if it was queued at the call or had been
      cancelled before. */
  lemma TrueAnswerIsHonouredIffQueued<P>(before: seq<Turn<P>>, t: Turn<P>, k: nat, id: nat, after: seq<Turn<P>>)
    requires Possible(Blank(), before) && Enabled(Continue(Blank(), before), t)
    requires k < |t.handlers| && t.handlers[k] == Cancel(id)
    requires Enabled(Continue(Blank(), before), t.(handlers := t.handlers[..k]))
    requires CancelResult(UnderWay(Continue(Blank(), before), t.(handlers := t.handlers[..k])).state, id)
    requires Possible(TakeTurn(Continue(Blank(), before), t), after)
    ensures var mid := UnderWay(Continue(Blank(), before), t.(handlers := t.handlers[..k]));
      Received(Continue(TakeTurn(Continue(Blank(), before), t), after), id)
      <==> id !in mid.state.queue && id !in mid.withdrawn
  {
    BlankInv<P>();
    RunKeepsInv(Blank(), before);
    var h0 := Continue(Blank(), before);
    var part := t.(handlers := t.handlers[..k]);
    var mid := UnderWay(h0, part);
    UnderWayInv(h0, part);
    TurnKeepsInv(h0, t);
    var h1 := TakeTurn(h0, t);
    RunKeepsInv(h1, after);
    var h := Continue(h1, after);
    var d := Dispatch(IssueAll(h0, t.awoken), t.id);
    if id in mid.state.queue {
      assert Hits(d, t.handlers, id);
      TurnWithdraws(h0, t, id);
      WithdrawnIsUndone(h, id);
    } else {
      HandledIsCurrent(h0, part);
      CurrentFate(h0, t, k, after);
    }
  }

  /** The message being handled is received unless it was cancelled when popped. */
  lemma CurrentFate<P>(h0: History<P>, t: Turn<P>, k: nat, after: seq<Turn<P>>)
    requires Inv(h0) && Enabled(h0, t) && k <= |t.handlers|
    requires Enabled(h0, t.(handlers := t.handlers[..k])) && Possible(TakeTurn(h0, t), after)
    ensures Received(Continue(TakeTurn(h0, t), after), t.id)
      <==> t.id !in UnderWay(h0, t.(handlers := t.handlers[..k])).withdrawn
  {
    var part := t.(handlers := t.handlers[..k]);
    UnderWayInv(h0, part);
    UnderWayInv(h0, t);
    TurnKeepsInv(h0, t);
    var h1 := TakeTurn(h0, t);
    RunKeepsInv(h1, after);
    var h := Continue(h1, after);
    var n := |h0.trace|;
    assert UnderWay(h0, part).trace[n] == UnderWay(h0, t).trace[n] == h1.trace[n] == h.trace[n];
    assert h.trace[n].id == t.id;
    assert h.trace[n].message.cancelled <==> t.id in UnderWay(h0, part).withdrawn;
  }
}
