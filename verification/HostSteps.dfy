/** What single events of a Host do to its processes, and where its messages come from. */
module HostSteps {
  import opened Options
  import opened Allocators
  import opened RunStates
  import opened HostModel

  // ----- Registering and launching -----

  /** Another process than `pid` is as it was. */
  ghost predicate OthersUnchanged(h: Host, g: Host, pid: nat) {
    forall p :: p != pid ==>
      && (p in g.procs <==> p in h.procs) && (p in g.ready <==> p in h.ready)
      && (p in h.procs ==> g.procs[p] == h.procs[p])
  }

  /** A registered process has no descriptors and can be launched; launched, it is ready to
      be woken. */
  lemma RegisteredThenLaunched(h: Host, pid: nat)
    requires Inv(h) && Enabled(h, Register(pid))
    ensures var g := Do(h, Register(pid));
      && pid in g.procs && g.procs[pid].fds == [] && OthersUnchanged(h, g, pid)
      && Enabled(g, Launch(pid)) && AssertsHold(g, Launch(pid))
      && var k := Do(g, Launch(pid));
         pid in k.ready && pid in k.procs && k.procs[pid].state == READY && k.procs[pid].fds == [] && OthersUnchanged(g, k, pid)
  {
  }

  /** The search for the next pid begins just behind this one: a pid is given out again only
      if every other is in use. */
  lemma PidComesBackLast(h: Host, pid: nat, used: set<nat>)
    requires pid < 65536 && Adopt(h, pid).pidStart < MAX_PID
    requires IsFirstFree(Adopt(h, pid).pidStart, MAX_PID, used, Some(pid))
    ensures forall q :: 0 <= q < 65536 && q != pid ==> q in used
  {
    SuccessorMod(pid, MAX_PID);
  }

  // ----- Running -----

  /** The message with which a thread stops running. */
  function Parting(pid: nat, doing: Doing): Msg {
    match doing
    case Block(call) => Syscall(pid, call)
    case Exit(value) => Return(pid, value)
  }

  /** A woken thread leaves the ready set, waits or has ended, keeps its descriptors, and
      leaves exactly one new message: the call it made or the value it returned. */
  lemma ThreadRan(h: Host, pid: nat, doing: Doing)
    requires Inv(h) && Enabled(h, Wake(pid, doing))
    ensures AssertsHold(h, Wake(pid, doing))
    ensures var g := Do(h, Wake(pid, doing));
      && OthersUnchanged(h, g, pid) && pid !in g.ready && pid in g.procs && g.procs[pid].fds == h.procs[pid].fds
      && g.procs[pid].state == (if doing.Block? then WAITING else TERMINATED)
      && (doing.Block? ==> g.procs[pid].ret == -1)
      && g.inflight == h.inflight[g.lastMsg := Parting(pid, doing)] && g.lastMsg !in h.inflight
      && g.syscalls == h.syscalls && g.nextSid == h.nextSid && g.running == h.running
  {
  }

  /** Exactly the threads no longer ready ran, each as planned: it waits or has ended, and its
      message is in flight. */
  ghost predicate OnlyRan(h: Host, g: Host, plan: map<nat, Doing>) {
    && g.syscalls == h.syscalls && g.running == h.running && g.nextSid == h.nextSid && h.lastMsg <= g.lastMsg
    && g.procs.Keys == h.procs.Keys && g.ready <= h.ready
    && (forall m :: m in h.inflight && m <= h.lastMsg ==> m in g.inflight && g.inflight[m] == h.inflight[m])
    && (forall p :: p in h.procs && (p !in h.ready || p in g.ready) ==> g.procs[p] == h.procs[p])
    && (forall p :: p in h.ready && p in h.procs && p !in g.ready ==> p in plan && RanAs(h, g, p, plan[p]))
  }

  ghost predicate RanAs(h: Host, g: Host, pid: nat, doing: Doing)
    requires pid in h.procs
  {
    && pid in g.procs && g.procs[pid].state == (if doing.Block? then WAITING else TERMINATED) && g.procs[pid].fds == h.procs[pid].fds
    && exists m :: h.lastMsg < m <= g.lastMsg && m in g.inflight && g.inflight[m] == Parting(pid, doing)
  }

  lemma RanOne(h: Host, g: Host, pid: nat, plan: map<nat, Doing>)
    requires OnlyRan(h, g, plan) && pid in g.ready && pid in g.procs && pid in plan
    ensures OnlyRan(h, RunThread(g, pid, plan[pid]), plan)
  {
    var k := RunThread(g, pid, plan[pid]);
    assert k.inflight[k.lastMsg] == Parting(pid, plan[pid]);
    forall p | p in h.ready && p in h.procs && p !in k.ready ensures p in plan && RanAs(h, k, p, plan[p]) {
      if p != pid {
        var m :| h.lastMsg < m <= g.lastMsg && m in g.inflight && g.inflight[m] == Parting(p, plan[p]);
        assert m in k.inflight && k.inflight[m] == Parting(p, plan[p]);
      }
    }
  }

  /** The call goes to the namespace the descriptor was created with, or to the socket's. */
  lemma RouteIs(app: App, call: Call, ns: Namespace)
    requires FdTable(app.fds)
    ensures call.OnFd? ==> (Route(app, call) == Some(ns) <==> FdEntry(call.fd, ns) in app.fds)
    ensures call.Socket? ==> Route(app, call) == Some(call.ns)
    ensures call.Nsleep? || call.GetTimeOfDay? ==> Route(app, call) == Some(Namespace(0, 0))
  {
    if call.OnFd? && FdEntry(call.fd, ns) in app.fds {
      var i :| 0 <= i < |app.fds| && app.fds[i] == FdEntry(call.fd, ns);
      assert Holds(app.fds, call.fd);
      var got := Route(app, call).value;
      var j :| 0 <= j < |app.fds| && app.fds[j] == FdEntry(call.fd, got);
      assert i == j;
    }
  }

  /** gettimeofday is answered at once: 0, or -EINVAL (22) if a timezone is asked for.  The
      table is as before and no other process is touched. */
  lemma TimeOfDayAnswered(h: Host, pid: nat, zone: bool)
    requires Inv(h) && pid in h.procs && h.procs[pid].state == WAITING && DEFAULT_NS in h.interfaces
    requires !Travelling(h, pid) && !InTable(h, pid)
    ensures var g := HandleSyscall(h, pid, GetTimeOfDay(zone));
      && g.procs == h.procs[pid := h.procs[pid].(state := READY, ret := if zone then -22 else 0)]
      && g.ready == h.ready + {pid} && g.syscalls == h.syscalls && g.inflight == h.inflight
  {
    var g := HandleSyscall(h, pid, GetTimeOfDay(zone));
    assert h.nextSid !in h.syscalls;
    assert g.syscalls == h.syscalls;
  }

  /** Any other call that has an interface stays in the table under a new id. */
  lemma OtherCallEntered(h: Host, pid: nat, call: Call)
    requires Inv(h) && pid in h.procs && (call.Socket? || call.OnFd?) && Route(h.procs[pid], call).Some?
    requires Route(h.procs[pid], call).value in h.interfaces
    ensures var g := HandleSyscall(h, pid, call);
      && h.nextSid !in h.syscalls && g.syscalls == h.syscalls[h.nextSid := pid]
      && g.procs == h.procs && g.ready == h.ready && g.inflight == h.inflight
  {
  }

  // ----- Ending -----

  /** Handling the Return of a process removes it, and it alone, from both tables. */
  lemma ReturnRemovesProcess(h: Host, m: nat)
    requires Inv(h) && m in h.inflight && h.inflight[m].Return?
    ensures Enabled(h, Deliver(m)) && AssertsHold(h, Deliver(m))
    ensures var g, pid := Do(h, Deliver(m)), h.inflight[m].pid;
      && pid in h.procs && g.procs.Keys == h.procs.Keys - {pid} && pid !in g.ready
      && OthersUnchanged(h, g, pid)
      && g.syscalls == h.syscalls && g.inflight == h.inflight - {m}
  {
    AssertsNeverFail(h, Deliver(m));
  }

  /** The event is the delivery of the Return of `pid`. */
  ghost predicate Ends(h: Host, e: Event, pid: nat) {
    e.Deliver? && e.m in h.inflight && h.inflight[e.m].Return? && h.inflight[e.m].pid == pid
  }

  /** Whether `pid` names a process after the events, if `now` says so before them: it was
      registered, and its Return has not been delivered since. */
  ghost predicate Alive(h: Host, events: seq<Event>, pid: nat, now: bool)
    requires Possible(h, events)
    decreases |events|
  {
    if events == [] then now
    else Alive(Do(h, events[0]), events[1..], pid, (now || events[0] == Register(pid)) && !Ends(h, events[0], pid))
  }

  lemma ProcessTableStep(h: Host, e: Event, pid: nat)
    requires Enabled(h, e) && AssertsHold(h, e)
    ensures pid in Do(h, e).procs <==> (pid in h.procs || e == Register(pid)) && !Ends(h, e, pid)
  {
    if e.Deliver? {
      DeliveryKeepsTable(h, e.m, pid);
    }
  }

  lemma DeliveryKeepsTable(h: Host, m: nat, pid: nat)
    requires Enabled(h, Deliver(m)) && AssertsHold(h, Deliver(m))
    ensures pid in Do(h, Deliver(m)).procs <==> pid in h.procs && !Ends(h, Deliver(m), pid)
  {
    var taken := h.(inflight := h.inflight - {m});
    if h.inflight[m].Syscall? {
      CallKeepsTable(taken, h.inflight[m].pid, h.inflight[m].call);
    }
  }

  lemma CallKeepsTable(h: Host, pid: nat, call: Call)
    requires pid in h.procs && Route(h.procs[pid], call).Some?
    ensures HandleSyscall(h, pid, call).procs.Keys == h.procs.Keys
  {
  }

  lemma {:induction false} ProcessTable(h: Host, events: seq<Event>, pid: nat)
    requires Inv(h) && Possible(h, events)
    ensures pid in After(h, events).procs <==> Alive(h, events, pid, pid in h.procs)
    decreases |events|
  {
    if events != [] {
      StepKeepsInv(h, events[0]);
      ProcessTableStep(h, events[0], pid);
      ProcessTable(Do(h, events[0]), events[1..], pid);
    }
  }

  /** Over every run a pid is in the process table if and only if it was registered after
      its last delivered Return. */
  lemma InTableIffRegisteredSinceReturn(interfaces: set<Namespace>, events: seq<Event>, pid: nat)
    requires Possible(Booted(interfaces), events)
    ensures pid in After(Booted(interfaces), events).procs <==> Alive(Booted(interfaces), events, pid, false)
  {
    ProcessTable(Booted(interfaces), events, pid);
  }

  // ----- Where messages come from -----

  /** Some thread left this message when it stopped running. */
  ghost predicate LeftBy(events: seq<Event>, msg: Msg) {
    exists i :: 0 <= i < |events| && events[i].Wake? && Parting(events[i].pid, events[i].doing) == msg
  }

  lemma MessageOrigin(h: Host, e: Event, m: nat)
    requires Enabled(h, e) && AssertsHold(h, e) && m in Do(h, e).inflight && !Do(h, e).inflight[m].Timer?
    ensures (m in h.inflight && h.inflight[m] == Do(h, e).inflight[m])
      || (e.Wake? && Parting(e.pid, e.doing) == Do(h, e).inflight[m])
  {
  }

  lemma {:induction false} MessageOrigins(h: Host, events: seq<Event>, m: nat)
    requires Possible(h, events) && m in After(h, events).inflight && !After(h, events).inflight[m].Timer?
    ensures (m in h.inflight && h.inflight[m] == After(h, events).inflight[m]) || LeftBy(events, After(h, events).inflight[m])
    decreases |events|
  {
    if events != [] {
      var e, h' := events[0], Do(h, events[0]);
      MessageOrigins(h', events[1..], m);
      var msg := After(h, events).inflight[m];
      if LeftBy(events[1..], msg) {
        var i :| 0 <= i < |events[1..]| && events[1..][i].Wake? && Parting(events[1..][i].pid, events[1..][i].doing) == msg;
        assert events[i + 1].Wake? && Parting(events[i + 1].pid, events[i + 1].doing) == msg;
      } else {
        MessageOrigin(h, e, m);
        if e.Wake? && Parting(e.pid, e.doing) == msg {
          assert events[0].Wake?;
        }
      }
    }
  }

  /** Every call in flight is the call its process made, and every return carries the value
      its main() returned. */
  lemma MessagesAreGenuine(interfaces: set<Namespace>, events: seq<Event>, m: nat)
    requires Possible(Booted(interfaces), events)
    requires var h := After(Booted(interfaces), events); m in h.inflight && !h.inflight[m].Timer?
    ensures var msg := After(Booted(interfaces), events).inflight[m];
      && (msg.Syscall? ==> Wake(msg.pid, Block(msg.call)) in events)
      && (msg.Return? ==> Wake(msg.pid, Exit(msg.value)) in events)
  {
    MessageOrigins(Booted(interfaces), events, m);
    var msg := After(Booted(interfaces), events).inflight[m];
    var i :| 0 <= i < |events| && events[i].Wake? && Parting(events[i].pid, events[i].doing) == msg;
    assert events[i] in events;
  }
}
