/** E::System as a class: a priority queue of shared timer containers, the two side
    indexes activeTimer and activeUUID, lazy cancellation through the shared container,
    and the loop of `run`.  Every method is proved against module Scheduler. */
module EventSystem {
  import opened Options
  import opened Scheduler

  /** A container is shared by timerQueue and activeTimer; cancelling writes through the
      one and is seen when the other is popped. */
  class TimerContainer<P> {
    const from: nat
    const to: nat
    const payload: P
    const wakeup: nat
    const uuid: nat
    var canceled: bool

    constructor (from: nat, to: nat, payload: P, wakeup: nat, uuid: nat)
      ensures this.from == from && this.to == to && this.payload == payload
      ensures this.wakeup == wakeup && this.uuid == uuid && !canceled
    {
      this.from, this.to, this.payload := from, to, payload;
      this.wakeup, this.uuid, this.canceled := wakeup, uuid, false;
    }

    function Snapshot(): Message<P>
      reads this
    {
      Message(from, to, payload, wakeup, canceled)
    }
  }

  predicate Precedes<P>(a: TimerContainer<P>, b: TimerContainer<P>) {
    Before(a.wakeup, a.uuid, b.wakeup, b.uuid)
  }

  ghost predicate Ordered<P>(q: seq<TimerContainer<P>>) {
    forall i, j :: 0 <= i < j < |q| ==> Precedes(q[i], q[j])
  }

  /** The queue and activeTimer hold the same containers, but for the one being handled. */
  ghost predicate Coherent<P>(q: seq<TimerContainer<P>>, active: map<nat, TimerContainer<P>>,
                              current: Option<nat>, now: nat, last: nat)
  {
    && (forall id :: id in active ==> 1 <= id <= last && active[id].uuid == id)
    && (forall c :: c in q ==> c.uuid in active && active[c.uuid] == c && current != Some(c.uuid) && now <= c.wakeup)
    && (forall id :: id in active && current != Some(id) ==> active[id] in q)
    && (current.Some? ==> current.value in active)
  }

  class System<P> {
    var currentTime: nat
    var currentUUID: nat
    var timerQueue: seq<TimerContainer<P>>  // in dispatch order, the top first
    var activeTimer: map<nat, TimerContainer<P>>
    var activeUUID: set<nat>
    var inDispatch: Option<nat>  // the local `current` of run, visible to the contracts
    ghost var Repr: set<TimerContainer<P>>  // every container made so far

    ghost predicate Valid()
      reads this
    {
      && activeUUID == activeTimer.Keys
      && (forall id :: id in activeTimer ==> activeTimer[id] in Repr)
      && Ordered(timerQueue)
      && Coherent(timerQueue, activeTimer, inDispatch, currentTime, currentUUID)
    }

    ghost function Model(): State<P>
      reads this, Repr
    {
      State(currentTime, currentUUID,
            map id | id in activeTimer && activeTimer[id] in Repr && inDispatch != Some(id) :: activeTimer[id].Snapshot(),
            inDispatch)
    }

    constructor ()
      ensures Valid() && Model() == Initial()
      ensures fresh(Repr)
    {
      currentTime, currentUUID := 0, 0;
      timerQueue, activeTimer, activeUUID, inDispatch := [], map[], {}, None;
      Repr := {};
    }

    /** The failing branch (assert(0) in the source) is unreachable: the next id is never active. */
    method AllocateUUID() returns (candidate: nat)
      requires Valid()
      modifies this`currentUUID, this`activeUUID
      ensures candidate == old(currentUUID) + 1 == currentUUID
      ensures candidate !in old(activeUUID) && activeUUID == old(activeUUID) + {candidate}
      ensures Model() == old(Model()).(lastId := candidate)
    {
      currentUUID := currentUUID + 1;
      candidate := currentUUID;
      assert candidate !in activeUUID;
      activeUUID := activeUUID + {candidate};
    }

    /** priority_queue::push: the place of a new container among the queued ones. */
    method PlaceOf(c: TimerContainer<P>) returns (k: nat)
      requires Ordered(timerQueue)
      requires forall x :: x in timerQueue ==> x.uuid != c.uuid
      ensures k <= |timerQueue|
      ensures forall i :: 0 <= i < k ==> Precedes(timerQueue[i], c)
      ensures forall i :: k <= i < |timerQueue| ==> Precedes(c, timerQueue[i])
    {
      k := 0;
      while k < |timerQueue| && Precedes(timerQueue[k], c)
        invariant k <= |timerQueue|
        invariant forall i :: 0 <= i < k ==> Precedes(timerQueue[i], c)
      {
        k := k + 1;
      }
      if k < |timerQueue| {
        assert Precedes(c, timerQueue[k]);
      }
    }

    /** Entering a container with a newly allocated id into the queue... */
    method Push(c: TimerContainer<P>)
      requires c.uuid == currentUUID && currentUUID >= 1 && currentTime <= c.wakeup
      requires Ordered(timerQueue) && Coherent(timerQueue, activeTimer, inDispatch, currentTime, currentUUID - 1)
      modifies this`timerQueue
      ensures Ordered(timerQueue) && Coherent(timerQueue, activeTimer[c.uuid := c], inDispatch, currentTime, currentUUID)
    {
      assert forall x :: x in timerQueue ==> x.uuid != c.uuid;
      var k := PlaceOf(c);
      var q := timerQueue[..k] + [c] + timerQueue[k..];
      PushKeepsOrder(timerQueue, c, k, q);
      PushKeepsCoherence(timerQueue, c, k, q, activeTimer, inDispatch, currentTime, currentUUID - 1);
      timerQueue := q;
    }

    /** ...and into activeTimer. */
    method Insert(c: TimerContainer<P>)
      requires activeUUID == activeTimer.Keys + {c.uuid} && c.uuid == currentUUID && currentUUID >= 1 && inDispatch != Some(c.uuid)
      requires Ordered(timerQueue) && Coherent(timerQueue, activeTimer, inDispatch, currentTime, currentUUID - 1)
      requires currentTime <= c.wakeup
      requires forall id :: id in activeTimer ==> activeTimer[id] in Repr
      modifies this`timerQueue, this`activeTimer, this`Repr
      ensures Valid() && Repr == old(Repr) + {c}
      ensures Model().queue == old(Model()).queue[c.uuid := c.Snapshot()]
    {
      Push(c);
      activeTimer := activeTimer[c.uuid := c];
      Repr := Repr + {c};
    }

    method SendMessage(from: nat, to: nat, payload: P, timeAfter: nat) returns (uuid: nat)
      requires Valid()
      modifies this
      ensures Valid() && inDispatch == old(inDispatch)
      ensures Model() == Apply(old(Model()), Send(from, to, payload, timeAfter)) && uuid == Model().lastId
      ensures fresh(Repr - old(Repr))
    {
      uuid := AllocateUUID();
      ghost var issued := Model();
      var c := new TimerContainer<P>(from, to, payload, currentTime + timeAfter, uuid);
      assert Model() == issued;
      Insert(c);
    }

    method CancelMessage(messageID: nat) returns (ok: bool)
      requires Valid()
      modifies Repr
      ensures Valid()
      ensures ok == CancelResult(old(Model()), messageID)
      ensures Model() == Apply(old(Model()), Cancel(messageID))
    {
      if messageID !in activeTimer {
        return false;
      }
      activeTimer[messageID].canceled := true;
      assert forall id :: id in activeTimer && id != messageID ==> activeTimer[id] != activeTimer[messageID];
      ok := true;
    }

    /** A handler (or a woken thread) performing its effects one after the other. */
    method Perform(effects: seq<Effect<P>>)
      requires Valid()
      modifies this, Repr
      ensures Valid() && inDispatch == old(inDispatch)
      ensures Model() == ApplyAll(old(Model()), effects)
      ensures fresh(Repr - old(Repr))
    {
      ghost var first := Model();
      var i := 0;
      assert effects[0..] == effects;
      while i < |effects|
        invariant i <= |effects|
        invariant Valid() && inDispatch == old(inDispatch)
        invariant ApplyAll(Model(), effects[i..]) == ApplyAll(first, effects)
        invariant fresh(Repr - old(Repr))
      {
        assert effects[i..][0] == effects[i] && effects[i..][1..] == effects[i + 1..];
        match effects[i] {
          case Send(from, to, payload, delay) =>
            var _ := SendMessage(from, to, payload, delay);
          case Cancel(id) =>
            var _ := CancelMessage(id);
        }
        i := i + 1;
      }
    }

    lemma FirstIsTop()
      requires Valid() && timerQueue != [] && inDispatch == None
      ensures timerQueue[0].uuid in Model().queue && IsTop(Model().queue, timerQueue[0].uuid)
    {
      TopIsFirst(timerQueue, timerQueue[1..], activeTimer, currentTime, currentUUID);
      assert timerQueue[0] in timerQueue;
    }

    lemma TopIsQueued()
      requires Valid() && timerQueue != [] && inDispatch == None
      ensures var c := timerQueue[0]; c.uuid in Model().queue && Model().queue[c.uuid].wakeup == c.wakeup
    {
      assert timerQueue[0] in timerQueue;
    }

    /** `current` is on its own from here on. */
    method SetCurrent(c: TimerContainer<P>, rest: seq<TimerContainer<P>>)
      requires inDispatch == None && Ordered(rest) && Coherent(rest, activeTimer, Some(c.uuid), c.wakeup, currentUUID)
      requires activeUUID == activeTimer.Keys && forall id :: id in activeTimer ==> activeTimer[id] in Repr
      modifies this`timerQueue, this`currentTime, this`inDispatch
      ensures Valid() && inDispatch == Some(c.uuid) && currentTime == c.wakeup
      ensures Model().queue == old(Model()).queue - {c.uuid}
    {
      timerQueue := rest;
      currentTime := c.wakeup;
      inDispatch := Some(c.uuid);
    }

    /** Popping the top of the queue and moving the clock to it. */
    method PopTop() returns (c: TimerContainer<P>)
      requires Valid() && timerQueue != [] && inDispatch == None
      modifies this`timerQueue, this`currentTime, this`inDispatch
      ensures Valid() && c == old(timerQueue[0]) && inDispatch == Some(c.uuid)
      ensures c.uuid in old(Model()).queue && Model() == Pop(old(Model()), c.uuid)
    {
      TopIsQueued();
      c := timerQueue[0];
      var rest := timerQueue[1..];
      RestIsCoherent(timerQueue, rest, activeTimer, currentTime, currentUUID);
      SetCurrent(c, rest);
    }

    /** Erasing the finished message from both indexes. */
    method Retire(uuid: nat)
      requires Valid() && inDispatch == Some(uuid)
      modifies this`activeTimer, this`activeUUID, this`inDispatch
      ensures Valid() && Model() == Scheduler.Finish(old(Model())) && inDispatch == None
    {
      activeTimer := activeTimer - {uuid};
      activeUUID := activeUUID - {uuid};
      inDispatch := None;
      assert Model().queue == old(Model()).queue;
    }

    /** The part of the loop of `run` after the stop tests. */
    method HandleTop(handlers: seq<Effect<P>>) returns (id: nat)
      requires Valid() && timerQueue != [] && inDispatch == None
      modifies this, Repr
      ensures Valid() && inDispatch == None && fresh(Repr - old(Repr))
      ensures id == old(timerQueue[0]).uuid && IsTop(old(Model()).queue, id)
      ensures Model() == Scheduler.Finish(ApplyAll(Pop(old(Model()), id), handlers))
    {
      FirstIsTop();
      var c := PopTop();
      id := c.uuid;
      Perform(handlers);
      Retire(id);
    }

    /** One pass of the loop of `run(till)`: either one of its two exits, or one message handled. */
    method Pass(till: nat, b: Behaviour<P>) returns (stopped: bool, id: nat)
      requires Valid() && inDispatch == None
      modifies this, Repr
      ensures Valid() && inDispatch == None && fresh(Repr - old(Repr))
      ensures var s := ApplyAll(old(Model()), b.awoken);
        if stopped then Model() == s && NoneDue(s.queue, till)
        else IsTop(s.queue, id) && Model() == Scheduler.Finish(ApplyAll(Pop(s, id), b.handlers))
             && (till == 0 || s.queue[id].wakeup <= till)
    {
      Perform(b.awoken);
      if timerQueue == [] {
        EmptyQueue();
        return true, 0;
      }
      if till != 0 && timerQueue[0].wakeup > till {
        NothingDue(till);
        return true, 0;
      }
      FirstIsTop();
      assert timerQueue[0] in timerQueue;
      id := HandleTop(b.handlers);
      stopped := false;
    }

    /** `run(till)` with the behaviour of threads and handlers supplied by `script`, so that
        every finite part of every run is covered.  `done` says that the loop itself stopped;
        otherwise the script was used up. */
    method Run(till: nat, script: seq<Behaviour<P>>, ghost h: History<P>)
      returns (done: bool, ghost turns: seq<Turn<P>>, ghost last: seq<Effect<P>>)
      requires Valid() && inDispatch == None && h.state == Model()
      modifies this, Repr
      ensures Valid() && inDispatch == None && fresh(Repr - old(Repr))
      ensures Follows(script, turns, last, done)
      ensures Possible(h, turns) && IssueAll(Continue(h, turns), last).state == Model()
      ensures done ==> NoneDue(Model().queue, till)
      ensures !done ==> |turns| == |script|
      ensures till != 0 ==> currentTime <= till || currentTime == old(currentTime)
    {
      turns, last, done := [], [], false;
      var i := 0;
      while i < |script|
        invariant i == |turns| <= |script|
        invariant forall k :: 0 <= k < i ==> turns[k].awoken == script[k].awoken && turns[k].handlers == script[k].handlers
        invariant Valid() && inDispatch == None && fresh(Repr - old(Repr))
        invariant Possible(h, turns) && Continue(h, turns).state == Model()
        invariant till != 0 ==> currentTime <= till || currentTime == old(currentTime)
      {
        ghost var h0 := Continue(h, turns);
        IssueAllState(h0, script[i].awoken);
        EffectsKeepTime(h0.state, script[i].awoken);
        var stopped, id := Pass(till, script[i]);
        if stopped {
          return true, turns, script[i].awoken;
        }
        ghost var t := Turn(script[i].awoken, id, script[i].handlers);
        OneMoreTurn(h, turns, t);
        turns := turns + [t];
        i := i + 1;
      }
    }

    /** Between dispatches the queue and the two indexes hold the same ids. */
    lemma SameIds(id: nat)
      requires Valid() && inDispatch == None
      ensures id in activeUUID <==> id in activeTimer
      ensures id in activeTimer <==> exists i :: 0 <= i < |timerQueue| && timerQueue[i].uuid == id
    {
      if id in activeTimer {
        assert activeTimer[id] in timerQueue;
      }
    }

    lemma EmptyQueue()
      requires Valid() && inDispatch == None && timerQueue == []
      ensures Model().queue == map[]
    {
      assert forall id :: id in activeTimer ==> activeTimer[id] in timerQueue;
    }

    lemma NothingDue(till: nat)
      requires Valid() && inDispatch == None && timerQueue != [] && timerQueue[0].wakeup > till
      ensures forall id :: id in Model().queue ==> Model().queue[id].wakeup > till
    {
      FirstIsTop();
      assert timerQueue[0] in timerQueue;
    }
  }

  /** A whole simulation from the start: when `run(till)` stops by itself, every message
      ever sent and due by `till` (every message at all, if `till` is 0) was handled
      exactly once.  Virtual time is the time of the last message handled, and what the
      threads and handlers do is what the script says. */
  method Simulate<P>(till: nat, script: seq<Behaviour<P>>) 
    returns (system: System<P>, done: bool, ghost turns: seq<Turn<P>>, ghost last: seq<Effect<P>>, ghost h: History<P>)
    ensures Possible(Blank(), turns) && Follows(script, turns, last, done) && h == Reached(turns, AtHead(last))
    ensures system.Valid() && system.Model() == h.state && Scheduler.Inv(h)
    ensures done ==> forall id :: id in h.log && (till == 0 || h.log[id].wakeup <= till) ==> OccursOnce(h.trace, id)
    ensures system.currentTime == if h.trace == [] then 0 else h.trace[|h.trace| - 1].message.wakeup
    ensures till != 0 ==> system.currentTime <= till
  {
    system := new System<P>();
    done, turns, last := system.Run(till, script, Blank());
    ghost var stage := AtHead(last);
    h := Reached(turns, stage);
    ReachedInv(turns, stage);
    ClockIsLastPopped(turns, stage);
    if done {
      HorizonReached(turns, stage, till);
    }
  }

  /** What the threads woken before a pop do, and what the handlers of the popped message do. */
  datatype Behaviour<P> = Behaviour(awoken: seq<Effect<P>>, handlers: seq<Effect<P>>)

  lemma OneMoreTurn<P>(h: History<P>, turns: seq<Turn<P>>, t: Turn<P>)
    requires Possible(h, turns) && IsTop(ApplyAll(Continue(h, turns).state, t.awoken).queue, t.id)
    ensures Possible(h, turns + [t])
    ensures var s := ApplyAll(Continue(h, turns).state, t.awoken);
      && Continue(h, turns + [t]).state == Scheduler.Finish(ApplyAll(Pop(s, t.id), t.handlers))
      && Continue(h, turns + [t]).state.now == s.queue[t.id].wakeup
  {
    var h0 := Continue(h, turns);
    TurnState(h0, t);
    EffectsKeepTime(Pop(ApplyAll(h0.state, t.awoken), t.id), t.handlers);
    ContinueConcat(h, turns, [t]);
    assert Continue(TakeTurn(h0, t), []) == TakeTurn(h0, t) && [t][1..] == [];
  }

  /** The turns do what the script says, and the loop stops only after waking threads. */
  ghost predicate Follows<P>(script: seq<Behaviour<P>>, turns: seq<Turn<P>>, last: seq<Effect<P>>, done: bool) {
    && |turns| <= |script|
    && (forall k :: 0 <= k < |turns| ==> turns[k].awoken == script[k].awoken && turns[k].handlers == script[k].handlers)
    && (if done then |turns| < |script| && last == script[|turns|].awoken else |turns| == |script| && last == [])
  }

  lemma PushKeepsOrder<P>(q: seq<TimerContainer<P>>, c: TimerContainer<P>, k: nat, r: seq<TimerContainer<P>>)
    requires k <= |q| && Ordered(q) && r == q[..k] + [c] + q[k..]
    requires forall i :: 0 <= i < k ==> Precedes(q[i], c)
    requires forall i :: k <= i < |q| ==> Precedes(c, q[i])
    ensures Ordered(r)
  {
  }

  lemma PushKeepsCoherence<P>(q: seq<TimerContainer<P>>, c: TimerContainer<P>, k: nat, r: seq<TimerContainer<P>>,
                              active: map<nat, TimerContainer<P>>, current: Option<nat>, now: nat, last: nat)
    requires k <= |q| && r == q[..k] + [c] + q[k..] && Coherent(q, active, current, now, last)
    requires c.uuid == last + 1 && now <= c.wakeup
    ensures Coherent(r, active[c.uuid := c], current, now, last + 1)
  {
    assert q == q[..k] + q[k..];
    assert forall x :: x in r <==> x == c || x in q;
  }

  lemma TopIsFirst<P>(q: seq<TimerContainer<P>>, r: seq<TimerContainer<P>>, active: map<nat, TimerContainer<P>>, now: nat, last: nat)
    requires q != [] && r == q[1..] && Ordered(q) && Coherent(q, active, None, now, last)
    ensures forall id :: id in active && id != q[0].uuid ==> Before(q[0].wakeup, q[0].uuid, active[id].wakeup, id)
  {
    RestIsCoherent(q, r, active, now, last);
    assert forall x :: x in r ==> Precedes(q[0], x);
  }

  lemma RestIsCoherent<P>(q: seq<TimerContainer<P>>, r: seq<TimerContainer<P>>, active: map<nat, TimerContainer<P>>, now: nat, last: nat)
    requires q != [] && r == q[1..] && Ordered(q) && Coherent(q, active, None, now, last)
    ensures Ordered(r) && Coherent(r, active, Some(q[0].uuid), q[0].wakeup, last)
  {
    assert forall x :: x in r ==> x in q && Precedes(q[0], x);
    forall id | id in active && id != q[0].uuid ensures active[id] in r {
      var i :| 0 <= i < |q| && q[i] == active[id];
      assert r[i - 1] == active[id];
    }
  }
}
