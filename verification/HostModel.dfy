/** Host's process table, system-call table and the threads of its applications, as a
    state machine.  Between two steps no application thread runs (module Handoff), so a
    step is either one woken thread running until it blocks or ends, one message handled,
    or one call made by a module while it handles something.  The order in which pending
    messages are handled is left open: the results hold for every order. */
module HostModel {
  import opened Options
  import opened Allocators
  import opened RunStates

  datatype Call =
    | Socket(ns: Namespace)
    | OnFd(fd: nat)               // close, read, write, connect, listen, accept, bind, getsockname, getpeername
    | Nsleep(ns_: nat)
    | GetTimeOfDay(zone: bool)    // zone: the timezone pointer is not null

  datatype App = App(state: RunState, ret: int, fds: seq<FdEntry>)

  datatype Msg = Syscall(pid: nat, call: Call) | Return(pid: nat, value: int) | Timer(sid: nat)

  /** `inflight` holds the Host's own pending messages by id; `ready` is the part of
      runnableReady that belongs to this Host. */
  datatype Host = Host(
    running: bool, pidStart: nat, nextSid: nat, procs: map<nat, App>, syscalls: map<nat, nat>,
    ready: set<nat>, inflight: map<nat, Msg>, lastMsg: nat, interfaces: set<Namespace>)

  const EINVAL := 22
  const DEFAULT_NS := Namespace(0, 0)

  datatype Doing = Block(call: Call) | Exit(value: int)

  datatype Event =
    | Register(pid: nat)
    | SetFds(pid: nat, fds: seq<FdEntry>)   // createFileDescriptor or removeFileDescriptor leaves this table
    | Launch(pid: nat)
    | Wake(pid: nat, doing: Doing)
    | Deliver(m: nat)
    | ModuleReturn(sid: nat, value: int)
    | CleanUp

  // ----- Operations -----

  function Post(h: Host, msg: Msg): Host {
    h.(inflight := h.inflight[h.lastMsg + 1 := msg], lastMsg := h.lastMsg + 1)
  }

  function SetApp(h: Host, pid: nat, app: App): Host {
    h.(procs := h.procs[pid := app])
  }

  function Adopt(h: Host, pid: nat): Host {
    SetApp(h, pid, App(CREATED, 0, [])).(pidStart := (pid + 1) % MAX_PID)
  }

  function Start(h: Host, pid: nat): Host
    requires pid in h.procs
  {
    SetApp(h, pid, h.procs[pid].(state := READY)).(ready := h.ready + {pid})
  }

  /** The thread runs until it blocks in E_Syscall or main() ends. */
  function RunThread(h: Host, pid: nat, doing: Doing): Host
    requires pid in h.procs
  {
    var off := h.(ready := h.ready - {pid});
    match doing
    case Block(call) => Post(SetApp(off, pid, h.procs[pid].(state := WAITING, ret := -1)), Syscall(pid, call))
    case Exit(value) => Post(SetApp(off, pid, h.procs[pid].(state := TERMINATED)), Return(pid, value))
  }

  function ReturnSystemCall(h: Host, sid: nat, value: int): Host
    requires sid in h.syscalls ==> h.syscalls[sid] in h.procs
  {
    if sid !in h.syscalls then h
    else
      var pid := h.syscalls[sid];
      SetApp(h, pid, h.procs[pid].(state := READY, ret := value))
        .(ready := h.ready + {pid}, syscalls := h.syscalls - {sid})
  }

  function Entry(fds: seq<FdEntry>, fd: nat): (ns: Option<Namespace>)
    ensures ns.Some? <==> Holds(fds, fd)
    ensures ns.Some? ==> FdEntry(fd, ns.value) in fds
    decreases |fds|
  {
    if fds == [] then None
    else if fds[0].fd == fd then Some(fds[0].ns)
    else
      assert Holds(fds[1..], fd) ==> Holds(fds, fd) by {
        if Holds(fds[1..], fd) {
          var i :| 0 <= i < |fds[1..]| && fds[1..][i].fd == fd;
          assert fds[i + 1].fd == fd;
        }
      }
      assert Holds(fds, fd) ==> Holds(fds[1..], fd) by {
        if Holds(fds, fd) {
          var i :| 0 <= i < |fds| && fds[i].fd == fd;
          assert fds[1..][i - 1].fd == fd;
        }
      }
      Entry(fds[1..], fd)
  }

  /** Which interface a call goes to; nothing for a descriptor the process does not hold. */
  function Route(app: App, call: Call): Option<Namespace> {
    match call
    case Socket(ns) => Some(ns)
    case OnFd(fd) => Entry(app.fds, fd)
    case Nsleep(_) => Some(DEFAULT_NS)
    case GetTimeOfDay(_) => Some(DEFAULT_NS)
  }

  /** What an application must respect: only held descriptors, and no socket in the
      namespace of the built-in calls (both asserted by the source). */
  predicate Legal(app: App, call: Call) {
    Route(app, call).Some? && (Route(app, call).value == DEFAULT_NS ==> call.Nsleep? || call.GetTimeOfDay?)
  }

  function Enter(h: Host, pid: nat): Host {
    h.(nextSid := h.nextSid + 1, syscalls := h.syscalls[h.nextSid := pid])
  }

  /** The Syscall branch of messageReceived together with DefaultSystemCall::systemCallback.
      A call routed to a namespace without an interface is dropped. */
  function HandleSyscall(h: Host, pid: nat, call: Call): Host
    requires pid in h.procs && Route(h.procs[pid], call).Some?
  {
    if Route(h.procs[pid], call).value !in h.interfaces then h
    else
      match call
      case Nsleep(_) => Post(Enter(h, pid), Timer(h.nextSid))
      case GetTimeOfDay(zone) => ReturnSystemCall(Enter(h, pid), h.nextSid, if zone then -EINVAL else 0)
      case _ => Enter(h, pid)
  }

  function HandleReturn(h: Host, pid: nat): Host {
    h.(procs := h.procs - {pid}, ready := h.ready - {pid})
  }

  function Shutdown(h: Host): Host {
    h.(running := false, syscalls := map[], ready := h.ready + h.syscalls.Values,
       procs := map p | p in h.procs :: if p in h.syscalls.Values then h.procs[p].(state := READY, ret := -1) else h.procs[p])
  }

  // ----- Steps -----

  ghost predicate Enabled(h: Host, e: Event) {
    match e
    case Register(pid) => pid < MAX_PID && pid !in h.procs
    case SetFds(pid, fds) => pid in h.procs && FdTable(fds)
    case Launch(pid) => pid in h.procs && h.procs[pid].state == CREATED
    case Wake(pid, doing) => pid in h.ready && (doing.Block? ==> h.running && pid in h.procs && Legal(h.procs[pid], doing.call))
    case Deliver(m) =>
      m in h.inflight && (h.inflight[m].Syscall? ==>
        var pid := h.inflight[m].pid;
        pid in h.procs ==> Legal(h.procs[pid], h.inflight[m].call))
    case ModuleReturn(_, _) => true
    case CleanUp => true
  }

  /** The asserts the source evaluates in this step. */
  ghost predicate AssertsHold(h: Host, e: Event) {
    match e
    case Register(_) => true
    case SetFds(pid, _) => pid in h.procs
    case Launch(pid) => pid in h.procs && h.procs[pid].state == CREATED
    case Wake(pid, _) => pid in h.procs && h.procs[pid].state == READY
    case Deliver(m) =>
      m in h.inflight && (
        match h.inflight[m]
        case Syscall(pid, _) => pid in h.procs && h.procs[pid].state == WAITING
        case Return(pid, _) => pid in h.procs && pid !in h.syscalls.Values
        case Timer(sid) => CanReturn(h, sid))
    case ModuleReturn(sid, _) => CanReturn(h, sid)
    case CleanUp => forall sid :: sid in h.syscalls ==> CanReturn(h, sid)
  }

  /** returnSystemCall finds the process, and ready() finds it WAITING. */
  ghost predicate CanReturn(h: Host, sid: nat) {
    sid in h.syscalls ==> h.syscalls[sid] in h.procs && h.procs[h.syscalls[sid]].state == WAITING
  }

  ghost function Do(h: Host, e: Event): Host
    requires Enabled(h, e) && AssertsHold(h, e)
  {
    match e
    case Register(pid) => Adopt(h, pid)
    case SetFds(pid, fds) => SetApp(h, pid, h.procs[pid].(fds := fds))
    case Launch(pid) => Start(h, pid)
    case Wake(pid, doing) => RunThread(h, pid, doing)
    case Deliver(m) =>
      var taken := h.(inflight := h.inflight - {m});
      (match h.inflight[m]
       case Syscall(pid, call) => HandleSyscall(taken, pid, call)
       case Return(pid, _) => HandleReturn(taken, pid)
       case Timer(sid) => ReturnSystemCall(taken, sid, 0))
    case ModuleReturn(sid, value) => ReturnSystemCall(h, sid, value)
    case CleanUp => Shutdown(h)
  }

  // ----- The invariant -----

  /** `pid` has a system call on its way to the table. */
  ghost predicate Travelling(h: Host, pid: nat) {
    exists m :: m in h.inflight && h.inflight[m].Syscall? && h.inflight[m].pid == pid
  }

  ghost predicate InTable(h: Host, pid: nat) {
    exists sid :: sid in h.syscalls && h.syscalls[sid] == pid
  }

  /** Messages: an in-flight call belongs to a waiting process, an in-flight return to a
      terminated one, and there is at most one of them for each process. */
  ghost predicate MessagesOk(h: Host) {
    && (forall m :: m in h.inflight ==> 1 <= m <= h.lastMsg)
    && (forall m :: m in h.inflight && h.inflight[m].Syscall? ==>
          h.inflight[m].pid in h.procs && h.procs[h.inflight[m].pid].state == WAITING)
    && (forall m :: m in h.inflight && h.inflight[m].Return? ==>
          h.inflight[m].pid in h.procs && h.procs[h.inflight[m].pid].state == TERMINATED)
    && (forall m, n :: m in h.inflight && n in h.inflight && m != n && !h.inflight[m].Timer? && !h.inflight[n].Timer? ==>
          h.inflight[m].pid != h.inflight[n].pid)
    && (forall m :: m in h.inflight && h.inflight[m].Timer? ==> h.inflight[m].sid < h.nextSid)
  }

  ghost predicate TableOk(h: Host) {
    && (forall sid :: sid in h.syscalls ==>
          sid < h.nextSid && h.syscalls[sid] in h.procs && h.procs[h.syscalls[sid]].state == WAITING)
    && (forall s, t :: s in h.syscalls && t in h.syscalls && s != t ==> h.syscalls[s] != h.syscalls[t])
    && (forall sid, m :: sid in h.syscalls && m in h.inflight && h.inflight[m].Syscall? ==> h.inflight[m].pid != h.syscalls[sid])
  }

  ghost predicate ReadyOk(h: Host) {
    && (forall pid :: pid in h.ready <==> pid in h.procs && h.procs[pid].state == READY)
    && (forall pid :: pid in h.procs ==> h.procs[pid].state in {CREATED, READY, WAITING, TERMINATED} && FdTable(h.procs[pid].fds))
  }

  ghost predicate Inv(h: Host) {
    MessagesOk(h) && TableOk(h) && ReadyOk(h)
  }

  function Booted(interfaces: set<Namespace>): Host {
    Host(true, 0, 0, map[], map[], {}, map[], 0, interfaces)
  }

  /** None of the source's asserts can fail. */
  lemma AssertsNeverFail(h: Host, e: Event)
    requires Inv(h) && Enabled(h, e)
    ensures AssertsHold(h, e)
  {
    if e.Deliver? && h.inflight[e.m].Return? {
      assert forall sid :: sid in h.syscalls ==> h.syscalls[sid] != h.inflight[e.m].pid;
    }
  }

  lemma ReturnKeepsInv(h: Host, sid: nat, value: int)
    requires Inv(h)
    ensures CanReturn(h, sid) && Inv(ReturnSystemCall(h, sid, value))
  {
  }

  lemma EnterKeepsInv(h: Host, pid: nat)
    requires Inv(h) && pid in h.procs && h.procs[pid].state == WAITING
    requires !Travelling(h, pid) && !InTable(h, pid)
    ensures Inv(Enter(h, pid))
  {
  }

  lemma RunThreadMessages(h: Host, pid: nat, doing: Doing)
    requires Inv(h) && pid in h.ready
    ensures MessagesOk(RunThread(h, pid, doing))
  {
  }

  lemma RunThreadTables(h: Host, pid: nat, doing: Doing)
    requires Inv(h) && pid in h.ready
    ensures TableOk(RunThread(h, pid, doing)) && ReadyOk(RunThread(h, pid, doing))
  {
  }

  lemma RunThreadKeepsInv(h: Host, pid: nat, doing: Doing)
    requires Inv(h) && pid in h.ready
    ensures Inv(RunThread(h, pid, doing))
  {
    RunThreadMessages(h, pid, doing);
    RunThreadTables(h, pid, doing);
  }

  lemma TakeKeepsInv(h: Host, m: nat)
    requires Inv(h) && m in h.inflight
    ensures Inv(h.(inflight := h.inflight - {m}))
  {
  }

  lemma PostTimerKeepsInv(h: Host, sid: nat)
    requires Inv(h) && sid < h.nextSid
    ensures Inv(Post(h, Timer(sid)))
  {
  }

  lemma SyscallKeepsInv(h: Host, pid: nat, call: Call)
    requires Inv(h) && pid in h.procs && h.procs[pid].state == WAITING && Route(h.procs[pid], call).Some?
    requires !Travelling(h, pid) && !InTable(h, pid)
    ensures Inv(HandleSyscall(h, pid, call))
  {
    EnterKeepsInv(h, pid);
    match call
    case Nsleep(_) => PostTimerKeepsInv(Enter(h, pid), h.nextSid);
    case GetTimeOfDay(zone) => ReturnKeepsInv(Enter(h, pid), h.nextSid, if zone then -EINVAL else 0);
    case _ =>
  }

  lemma TakenCallIsAlone(h: Host, m: nat)
    requires Inv(h) && m in h.inflight && h.inflight[m].Syscall?
    ensures var h' := h.(inflight := h.inflight - {m});
      !Travelling(h', h.inflight[m].pid) && !InTable(h', h.inflight[m].pid)
  {
  }

  lemma HandleReturnKeepsInv(h: Host, pid: nat)
    requires Inv(h) && pid in h.procs && h.procs[pid].state == TERMINATED
    requires forall m :: m in h.inflight && h.inflight[m].Return? ==> h.inflight[m].pid != pid
    ensures Inv(HandleReturn(h, pid))
  {
  }

  lemma DeliverKeepsInv(h: Host, m: nat)
    requires Inv(h) && Enabled(h, Deliver(m)) && AssertsHold(h, Deliver(m))
    ensures Inv(Do(h, Deliver(m)))
  {
    TakeKeepsInv(h, m);
    var taken := h.(inflight := h.inflight - {m});
    match h.inflight[m]
    case Syscall(pid, call) => SyscallKeepsInv(taken, pid, call);
    case Return(pid, _) => HandleReturnKeepsInv(taken, pid);
    case Timer(sid) => ReturnKeepsInv(taken, sid, 0);
  }

  lemma ShutdownKeepsInv(h: Host)
    requires Inv(h)
    ensures Inv(Shutdown(h))
  {
    var h' := Shutdown(h);
    forall p | p in h.syscalls.Values ensures p in h.procs && h.procs[p].state == WAITING && !Travelling(h, p) {
      var sid :| sid in h.syscalls && h.syscalls[sid] == p;
    }
    assert ReadyOk(h');
  }

  /** Answering one call of the table with -1 does not change what cleanUp leads to. */
  lemma AnswerBeforeShutdown(h: Host, sid: nat)
    requires TableOk(h) && sid in h.syscalls
    ensures Shutdown(ReturnSystemCall(h, sid, -1)) == Shutdown(h)
  {
    var a, b := Shutdown(ReturnSystemCall(h, sid, -1)), Shutdown(h);
    var left := h.syscalls - {sid};
    forall p ensures p in h.syscalls.Values <==> p in left.Values || p == h.syscalls[sid] {
      if p in h.syscalls.Values {
        var s :| s in h.syscalls && h.syscalls[s] == p;
        assert s == sid || s in left;
      }
    }
    assert a.ready == b.ready;
    assert a.procs == b.procs;
  }

  lemma StopKeepsInv(h: Host)
    requires Inv(h)
    ensures Inv(h.(running := false)) && Shutdown(h.(running := false)) == Shutdown(h)
  {
  }

  lemma ShutdownWhenDone(h: Host)
    requires h.syscalls == map[] && !h.running
    ensures Shutdown(h) == h
  {
    assert h.syscalls.Values == {};
    assert Shutdown(h).procs == h.procs;
  }

  lemma AdoptKeepsInv(h: Host, pid: nat)
    requires Inv(h) && pid !in h.procs
    ensures Inv(Adopt(h, pid))
  {
  }

  lemma StartKeepsInv(h: Host, pid: nat)
    requires Inv(h) && pid in h.procs && h.procs[pid].state == CREATED
    ensures Inv(Start(h, pid))
  {
  }

  lemma SetFdsKeepsInv(h: Host, pid: nat, fds: seq<FdEntry>)
    requires Inv(h) && pid in h.procs && FdTable(fds)
    ensures Inv(SetApp(h, pid, h.procs[pid].(fds := fds)))
  {
  }

  /** At most one outstanding call for each process, and only while its thread waits: kept by every step. */
  lemma StepKeepsInv(h: Host, e: Event)
    requires Inv(h) && Enabled(h, e)
    ensures AssertsHold(h, e) && Inv(Do(h, e))
  {
    AssertsNeverFail(h, e);
    match e
    case Register(pid) => AdoptKeepsInv(h, pid);
    case SetFds(pid, fds) => SetFdsKeepsInv(h, pid, fds);
    case Launch(pid) => StartKeepsInv(h, pid);
    case Wake(pid, doing) => RunThreadKeepsInv(h, pid, doing);
    case Deliver(m) => DeliverKeepsInv(h, m);
    case ModuleReturn(sid, value) => ReturnKeepsInv(h, sid, value);
    case CleanUp => ShutdownKeepsInv(h);
  }

  // ----- Runs -----

  ghost predicate Possible(h: Host, events: seq<Event>)
    decreases |events|
  {
    events == [] || (Enabled(h, events[0]) && AssertsHold(h, events[0]) && Possible(Do(h, events[0]), events[1..]))
  }

  ghost function After(h: Host, events: seq<Event>): Host
    requires Possible(h, events)
    decreases |events|
  {
    if events == [] then h else After(Do(h, events[0]), events[1..])
  }

  lemma {:induction false} RunKeepsInv(h: Host, events: seq<Event>)
    requires Inv(h) && Possible(h, events)
    ensures Inv(After(h, events))
    decreases |events|
  {
    if events != [] {
      StepKeepsInv(h, events[0]);
      RunKeepsInv(Do(h, events[0]), events[1..]);
    }
  }

  /** In every reachable state a process has at most one outstanding call, one only if its
      thread is WAITING, and no assert of the source can fail in whatever comes next. */
  lemma OneOutstandingCall(interfaces: set<Namespace>, events: seq<Event>, next: Event)
    requires Possible(Booted(interfaces), events) && Enabled(After(Booted(interfaces), events), next)
    ensures var h := After(Booted(interfaces), events);
      && AssertsHold(h, next)
      && (forall pid :: Travelling(h, pid) || InTable(h, pid) ==> pid in h.procs && h.procs[pid].state == WAITING)
      && (forall pid :: !(Travelling(h, pid) && InTable(h, pid)))
      && (forall s, t :: s in h.syscalls && t in h.syscalls && h.syscalls[s] == h.syscalls[t] ==> s == t)
      && (forall m, n :: m in h.inflight && n in h.inflight && m != n && h.inflight[m].Syscall? && h.inflight[n].Syscall? ==>
            h.inflight[m].pid != h.inflight[n].pid)
  {
    RunKeepsInv(Booted(interfaces), events);
    AssertsNeverFail(After(Booted(interfaces), events), next);
  }

  /** cleanUp empties the table and makes exactly the processes in it READY with -1; a
      waiting process whose call is still travelling, or was dropped for want of an
      interface, stays blocked. */
  lemma CleanUpWakesExactlyTheTable(h: Host, pid: nat)
    requires Inv(h) && pid in h.procs
    ensures var h' := Shutdown(h);
      && h'.syscalls == map[] && !h'.running && pid in h'.procs
      && (InTable(h, pid) ==> h'.procs[pid].state == READY && h'.procs[pid].ret == -1 && pid in h'.ready)
      && (!InTable(h, pid) ==> h'.procs[pid] == h.procs[pid])
      && (h.procs[pid].state == WAITING ==> (h'.procs[pid].state == READY <==> InTable(h, pid)))
  {
    assert pid in h.syscalls.Values <==> InTable(h, pid);
  }

  /** A blocked process that cleanUp leaves blocked: its socket call named a protocol no
      interface serves. */
  lemma CleanUpCanLeaveAProcessBlocked()
    ensures exists events :: Possible(Booted({DEFAULT_NS}), events) &&
              var h := Shutdown(After(Booted({DEFAULT_NS}), events));
              0 in h.procs && h.procs[0].state == WAITING && h.inflight == map[] && h.syscalls == map[]
  {
    var call := Socket(Namespace(2, 17));
    var e0, e1, e2, e3 := Register(0), Launch(0), Wake(0, Block(call)), Deliver(1);
    var h0 := Booted({DEFAULT_NS});
    var h1 := Do(h0, e0);
    var h2 := Do(h1, e1);
    var h3 := Do(h2, e2);
    assert h3.inflight == map[1 := Syscall(0, call)];
    var h4 := Do(h3, e3);
    Prepend(h3, e3, []);
    Prepend(h2, e2, [e3] + []);
    Prepend(h1, e1, [e2] + ([e3] + []));
    Prepend(h0, e0, [e1] + ([e2] + ([e3] + [])));
    assert Shutdown(h4).procs[0].state == WAITING;
  }

  lemma Prepend(h: Host, e: Event, events: seq<Event>)
    requires Enabled(h, e) && AssertsHold(h, e) && Possible(Do(h, e), events)
    ensures Possible(h, [e] + events) && After(h, [e] + events) == After(Do(h, e), events)
  {
    assert ([e] + events)[0] == e && ([e] + events)[1..] == events;
  }
}
