/** What cleanUp and the timer of a sleep achieve, over every run of a Host. */
module HostRuns {
  import opened Options
  import opened Allocators
  import opened RunStates
  import opened HostModel

  // ----- Dropped calls -----

  /** The message is a call for a namespace without an interface: the Host forgets it. */
  ghost predicate Drops(h: Host, e: Event) {
    e.Deliver? && e.m in h.inflight && h.inflight[e.m].Syscall? && h.inflight[e.m].pid in h.procs
    && var to := Route(h.procs[h.inflight[e.m].pid], h.inflight[e.m].call); to.Some? && to.value !in h.interfaces
  }

  /** The processes whose call was dropped in the run. */
  ghost function Dropped(h: Host, events: seq<Event>): set<nat>
    requires Possible(h, events)
    decreases |events|
  {
    if events == [] then {}
    else (if Drops(h, events[0]) then {h.inflight[events[0].m].pid} else {}) + Dropped(Do(h, events[0]), events[1..])
  }

  /** The process waits, and nothing in the Host knows of its call. */
  ghost predicate Stuck(h: Host, pid: nat) {
    pid in h.procs && h.procs[pid].state == WAITING && !Travelling(h, pid) && !InTable(h, pid)
  }

  lemma StuckWake(h: Host, pid: nat, doing: Doing, p: nat)
    requires Inv(h) && pid in h.ready
    ensures Stuck(RunThread(h, pid, doing), p) <==> Stuck(h, p)
  {
    var h' := RunThread(h, pid, doing);
    assert h'.lastMsg !in h.inflight;
    forall q | Travelling(h, q) ensures Travelling(h', q) {
      var m :| m in h.inflight && h.inflight[m].Syscall? && h.inflight[m].pid == q;
      assert h'.inflight[m] == h.inflight[m];
    }
    if doing.Block? {
      assert h'.inflight[h'.lastMsg].pid == pid;
      assert Travelling(h', pid);
    }
    assert p != pid && Travelling(h', p) ==> Travelling(h, p);
  }

  lemma StuckReturn(h: Host, sid: nat, value: int, p: nat)
    requires Inv(h)
    ensures Stuck(ReturnSystemCall(h, sid, value), p) <==> Stuck(h, p)
  {
    var h' := ReturnSystemCall(h, sid, value);
    assert Travelling(h', p) <==> Travelling(h, p);
    if sid in h.syscalls {
      var pid := h.syscalls[sid];
      if InTable(h, p) && p != pid {
        var t :| t in h.syscalls && h.syscalls[t] == p;
        assert t in h'.syscalls;
      }
      assert InTable(h, pid);
    }
  }

  lemma TakeTravelling(h: Host, m: nat, p: nat)
    requires Inv(h) && m in h.inflight
    ensures var h' := h.(inflight := h.inflight - {m});
      Travelling(h', p) <==> Travelling(h, p) && !(h.inflight[m].Syscall? && h.inflight[m].pid == p)
  {
    var h' := h.(inflight := h.inflight - {m});
    if Travelling(h, p) && !(h.inflight[m].Syscall? && h.inflight[m].pid == p) {
      var n :| n in h.inflight && h.inflight[n].Syscall? && h.inflight[n].pid == p;
      assert n in h'.inflight;
    }
  }

  lemma StuckEnter(h: Host, pid: nat, p: nat)
    requires Inv(h)
    ensures InTable(Enter(h, pid), p) <==> InTable(h, p) || p == pid
    ensures Travelling(Enter(h, pid), p) <==> Travelling(h, p)
  {
    var h' := Enter(h, pid);
    assert h'.syscalls[h.nextSid] == pid;
    if InTable(h, p) {
      var t :| t in h.syscalls && h.syscalls[t] == p;
      assert t in h'.syscalls && h'.syscalls[t] == p;
    }
  }

  lemma PostTravelling(h: Host, sid: nat, p: nat)
    requires Inv(h)
    ensures Travelling(Post(h, Timer(sid)), p) <==> Travelling(h, p)
  {
    var h' := Post(h, Timer(sid));
    if Travelling(h, p) {
      var n :| n in h.inflight && h.inflight[n].Syscall? && h.inflight[n].pid == p;
      assert h'.inflight[n] == h.inflight[n];
    }
  }

  /** A call that is delivered to an interface leaves its process in the table or ready. */
  lemma StuckSyscall(h: Host, pid: nat, call: Call, p: nat)
    requires Inv(h) && pid in h.procs && h.procs[pid].state == WAITING && Route(h.procs[pid], call).Some?
    requires !Travelling(h, pid) && !InTable(h, pid) && Route(h.procs[pid], call).value in h.interfaces
    ensures Stuck(HandleSyscall(h, pid, call), p) <==> Stuck(h, p) && p != pid
  {
    StuckEnter(h, pid, p);
    EnterKeepsInv(h, pid);
    var o := Enter(h, pid);
    match call
    case Nsleep(_) => PostTravelling(o, h.nextSid, p);
    case GetTimeOfDay(zone) => StuckReturn(o, h.nextSid, if zone then -EINVAL else 0, p);
    case _ =>
  }

  lemma StuckDeliver(h: Host, m: nat, p: nat)
    requires Inv(h) && Enabled(h, Deliver(m)) && AssertsHold(h, Deliver(m))
    ensures Stuck(Do(h, Deliver(m)), p) <==> Stuck(h, p) || (Drops(h, Deliver(m)) && p == h.inflight[m].pid)
  {
    var taken := h.(inflight := h.inflight - {m});
    TakeKeepsInv(h, m);
    TakeTravelling(h, m, p);
    assert InTable(taken, p) <==> InTable(h, p);
    match h.inflight[m]
    case Syscall(pid, call) =>
      TakenCallIsAlone(h, m);
      assert Travelling(h, pid);
      if !Drops(h, Deliver(m)) {
        StuckSyscall(taken, pid, call, p);
      }
    case Timer(sid) => StuckReturn(taken, sid, 0, p);
    case Return(pid, _) =>
      var h' := HandleReturn(taken, pid);
      assert (Travelling(h', p) <==> Travelling(taken, p)) && (InTable(h', p) <==> InTable(taken, p));
  }

  lemma StuckCleanUp(h: Host, p: nat)
    requires Inv(h)
    ensures Stuck(Shutdown(h), p) <==> Stuck(h, p)
  {
    var h' := Shutdown(h);
    assert Travelling(h', p) <==> Travelling(h, p);
    assert p in h.syscalls.Values <==> InTable(h, p);
  }

  /** Only a dropped call gets a process stuck, and nothing ever frees it. */
  lemma StuckStep(h: Host, e: Event, p: nat)
    requires Inv(h) && Enabled(h, e) && AssertsHold(h, e)
    ensures Stuck(Do(h, e), p) <==> Stuck(h, p) || (Drops(h, e) && p == h.inflight[e.m].pid)
  {
    match e
    case Wake(pid, doing) => StuckWake(h, pid, doing, p);
    case Deliver(m) => StuckDeliver(h, m, p);
    case ModuleReturn(sid, value) => StuckReturn(h, sid, value, p);
    case CleanUp => StuckCleanUp(h, p);
    case _ =>
      assert (Travelling(Do(h, e), p) <==> Travelling(h, p)) && (InTable(Do(h, e), p) <==> InTable(h, p));
  }

  lemma {:induction false} StuckRun(h: Host, events: seq<Event>, p: nat)
    requires Inv(h) && Possible(h, events)
    ensures Stuck(After(h, events), p) <==> Stuck(h, p) || p in Dropped(h, events)
    decreases |events|
  {
    if events != [] {
      StepKeepsInv(h, events[0]);
      StuckStep(h, events[0], p);
      StuckRun(Do(h, events[0]), events[1..], p);
    }
  }

  // ----- cleanUp -----

  /** After every run: cleanUp leaves a process blocked if and only if its call is still on
      its way to the table or was dropped earlier in the run for want of an interface. */
  lemma BlockedAfterCleanUp(interfaces: set<Namespace>, events: seq<Event>, pid: nat)
    requires Possible(Booted(interfaces), events) && pid in After(Booted(interfaces), events).procs
    ensures var h := After(Booted(interfaces), events);
      && pid in Shutdown(h).procs
      && (Shutdown(h).procs[pid].state == WAITING <==> Travelling(h, pid) || pid in Dropped(Booted(interfaces), events))
  {
    RunKeepsInv(Booted(interfaces), events);
    StuckRun(Booted(interfaces), events, pid);
    CleanUpWakesExactlyTheTable(After(Booted(interfaces), events), pid);
  }

  /** The namespaces that the event brings into use all have an interface. */
  ghost predicate Serves(interfaces: set<Namespace>, e: Event) {
    match e
    case SetFds(_, fds) => forall i :: 0 <= i < |fds| ==> fds[i].ns in interfaces
    case Wake(_, doing) => doing.Block? && doing.call.Socket? ==> doing.call.ns in interfaces
    case _ => true
  }

  ghost predicate ServesAll(interfaces: set<Namespace>, events: seq<Event>) {
    forall i :: 0 <= i < |events| ==> Serves(interfaces, events[i])
  }

  ghost predicate FdsServed(interfaces: set<Namespace>, app: App) {
    forall i :: 0 <= i < |app.fds| ==> app.fds[i].ns in interfaces
  }

  ghost predicate ServedInv(h: Host) {
    && DEFAULT_NS in h.interfaces
    && (forall p :: p in h.procs ==> FdsServed(h.interfaces, h.procs[p]))
    && (forall m :: m in h.inflight && h.inflight[m].Syscall? && h.inflight[m].call.Socket? ==> h.inflight[m].call.ns in h.interfaces)
  }

  lemma ServedRoute(h: Host, e: Event)
    requires ServedInv(h)
    ensures !Drops(h, e)
  {
    if e.Deliver? && e.m in h.inflight && h.inflight[e.m].Syscall? && h.inflight[e.m].pid in h.procs {
      var app, call := h.procs[h.inflight[e.m].pid], h.inflight[e.m].call;
      if call.OnFd? && Route(app, call).Some? {
        var i :| 0 <= i < |app.fds| && app.fds[i] == FdEntry(call.fd, Route(app, call).value);
        assert FdsServed(h.interfaces, app);
      }
    }
  }

  lemma ServedStep(h: Host, e: Event)
    requires ServedInv(h) && Enabled(h, e) && AssertsHold(h, e) && Serves(h.interfaces, e)
    ensures ServedInv(Do(h, e)) && Do(h, e).interfaces == h.interfaces
  {
    var h' := Do(h, e);
    assert h'.interfaces == h.interfaces;
    forall p | p in h'.procs ensures FdsServed(h.interfaces, h'.procs[p]) {
      if p in h.procs {
        assert FdsServed(h.interfaces, h.procs[p]);
      }
    }
  }

  lemma {:induction false} ServedRun(h: Host, events: seq<Event>)
    requires ServedInv(h) && Possible(h, events) && ServesAll(h.interfaces, events)
    ensures Dropped(h, events) == {}
    decreases |events|
  {
    if events != [] {
      assert Serves(h.interfaces, events[0]);
      ServedRoute(h, events[0]);
      ServedStep(h, events[0]);
      assert forall i :: 0 <= i < |events[1..]| ==> events[1..][i] == events[i + 1];
      ServedRun(Do(h, events[0]), events[1..]);
    }
  }

  /** If every namespace used has an interface, cleanUp leaves nobody blocked if and only if
      no call is in flight when it is called. */
  lemma CleanUpWakesEverybody(interfaces: set<Namespace>, events: seq<Event>)
    requires DEFAULT_NS in interfaces && Possible(Booted(interfaces), events) && ServesAll(interfaces, events)
    ensures var h := After(Booted(interfaces), events);
      (forall p :: p in Shutdown(h).procs ==> Shutdown(h).procs[p].state != WAITING)
      <==> (forall m :: m in h.inflight ==> !h.inflight[m].Syscall?)
  {
    var h := After(Booted(interfaces), events);
    ServedRun(Booted(interfaces), events);
    RunKeepsInv(Booted(interfaces), events);
    forall p | p in h.procs ensures Shutdown(h).procs[p].state == WAITING <==> Travelling(h, p) {
      BlockedAfterCleanUp(interfaces, events, p);
    }
    forall m | m in h.inflight && h.inflight[m].Syscall? ensures Travelling(h, h.inflight[m].pid) && h.inflight[m].pid in h.procs {
    }
  }

  /** A call in flight: the process has just called, and cleanUp comes before the message. */
  lemma CleanUpCanMissACallInFlight()
    ensures exists events :: Possible(Booted({DEFAULT_NS}), events) && ServesAll({DEFAULT_NS}, events) &&
              var h := Shutdown(After(Booted({DEFAULT_NS}), events));
              0 in h.procs && h.procs[0].state == WAITING && Travelling(h, 0)
  {
    var call := Nsleep(1);
    var e0, e1, e2 := Register(0), Launch(0), Wake(0, Block(call));
    var h0 := Booted({DEFAULT_NS});
    var h1 := Do(h0, e0);
    var h2 := Do(h1, e1);
    var h3 := Do(h2, e2);
    Prepend(h2, e2, []);
    Prepend(h1, e1, [e2] + []);
    Prepend(h0, e0, [e1] + ([e2] + []));
    var events := [e0] + ([e1] + ([e2] + []));
    assert events == [e0, e1, e2];
    assert ServesAll({DEFAULT_NS}, events);
    assert Shutdown(h3).inflight[1] == Syscall(0, call);
    assert Travelling(Shutdown(h3), 0);
  }

  // ----- Sleeping -----

  /** Ids of calls and messages are never used again. */
  ghost predicate Older(h: Host, g: Host) {
    && h.nextSid <= g.nextSid && h.lastMsg <= g.lastMsg
    && (forall s :: s in g.syscalls && s < h.nextSid ==> s in h.syscalls && g.syscalls[s] == h.syscalls[s])
    && (forall m :: m in g.inflight && m <= h.lastMsg ==> m in h.inflight && g.inflight[m] == h.inflight[m])
  }

  lemma OlderStep(h: Host, e: Event)
    requires Enabled(h, e) && AssertsHold(h, e)
    ensures Older(h, Do(h, e))
  {
  }

  lemma {:induction false} OlderRun(h: Host, events: seq<Event>)
    requires Possible(h, events)
    ensures Older(h, After(h, events))
    decreases |events|
  {
    if events != [] {
      OlderStep(h, events[0]);
      OlderRun(Do(h, events[0]), events[1..]);
    }
  }

  lemma TimerFires(g: Host, m: nat, sid: nat)
    requires Inv(g) && m in g.inflight && g.inflight[m] == Timer(sid)
    ensures Enabled(g, Deliver(m)) && AssertsHold(g, Deliver(m))
    ensures sid !in g.syscalls ==> Do(g, Deliver(m)) == g.(inflight := g.inflight - {m}, syscalls := g.syscalls - {sid})
    ensures sid in g.syscalls ==> var pid := g.syscalls[sid];
      && pid in g.procs && g.procs[pid].state == WAITING
      && Do(g, Deliver(m)) == g.(inflight := g.inflight - {m}, procs := g.procs[pid := g.procs[pid].(state := READY, ret := 0)],
           ready := g.ready + {pid}, syscalls := g.syscalls - {sid})
  {
    if sid !in g.syscalls {
      assert g.syscalls - {sid} == g.syscalls;
    }
  }

  /** A sleep, with anything at all happening between the call and its timer: if the call is
      still in the table when the timer fires, exactly the sleeper becomes ready, with 0;
      if something answered it earlier, the timer changes nothing. */
  lemma SleepEndsWithZero(h: Host, pid: nat, ns: nat, between: seq<Event>)
    requires Inv(h) && pid in h.procs && h.procs[pid].state == WAITING && DEFAULT_NS in h.interfaces
    requires !Travelling(h, pid) && !InTable(h, pid)
    requires Possible(HandleSyscall(h, pid, Nsleep(ns)), between)
    requires var asleep := HandleSyscall(h, pid, Nsleep(ns)); asleep.lastMsg in After(asleep, between).inflight
    ensures var asleep := HandleSyscall(h, pid, Nsleep(ns));
            var g := After(asleep, between);
            var sid, timer := h.nextSid, Deliver(asleep.lastMsg);
      && asleep.syscalls == h.syscalls[sid := pid]
      && Enabled(g, timer) && AssertsHold(g, timer)
      && (sid in g.syscalls ==> pid in g.procs && g.procs[pid].state == WAITING)
      && Do(g, timer) == g.(inflight := g.inflight - {asleep.lastMsg},
           procs := if sid in g.syscalls then g.procs[pid := g.procs[pid].(state := READY, ret := 0)] else g.procs,
           ready := if sid in g.syscalls then g.ready + {pid} else g.ready,
           syscalls := g.syscalls - {sid})
  {
    var asleep := HandleSyscall(h, pid, Nsleep(ns));
    SyscallKeepsInv(h, pid, Nsleep(ns));
    OlderRun(asleep, between);
    RunKeepsInv(asleep, between);
    var g := After(asleep, between);
    assert g.inflight[asleep.lastMsg] == Timer(h.nextSid);
    TimerFires(g, asleep.lastMsg, h.nextSid);
  }
}
