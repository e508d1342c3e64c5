/** The life of every system call: who issued it, what it returned, and what its caller
    saw, recorded beside the Host for whole runs. */
module HostLedger {
  import opened Options
  import opened Allocators
  import opened RunStates
  import opened HostModel

  /** `result`: the value returnSystemCall stored for it.  `seen`: the value E_Syscall gave
      back to the application. */
  datatype CallRecord = CallRecord(pid: nat, result: Option<int>, seen: Option<int>)

  /** `woken` names, for a process made READY by a return, the call that was returned. */
  datatype Ledger = Ledger(host: Host, calls: map<nat, CallRecord>, woken: map<nat, nat>)

  function Settle(l: Ledger, sid: nat, value: int): Ledger
    requires sid in l.host.syscalls ==> l.host.syscalls[sid] in l.host.procs && sid in l.calls
  {
    if sid !in l.host.syscalls then l
    else Ledger(ReturnSystemCall(l.host, sid, value),
                l.calls[sid := l.calls[sid].(result := Some(value))],
                l.woken[l.host.syscalls[sid] := sid])
  }

  function Open(l: Ledger, pid: nat): Ledger {
    l.(host := Enter(l.host, pid), calls := l.calls[l.host.nextSid := CallRecord(pid, None, None)])
  }

  function Resume(l: Ledger, pid: nat, doing: Doing): Ledger
    requires pid in l.host.procs && (pid in l.woken ==> l.woken[pid] in l.calls)
  {
    var l' := l.(host := RunThread(l.host, pid, doing));
    if pid !in l.woken then l'
    else l'.(calls := l.calls[l.woken[pid] := l.calls[l.woken[pid]].(seen := Some(l.host.procs[pid].ret))],
             woken := l.woken - {pid})
  }

  function SettleAll(l: Ledger): Ledger
    requires forall s, t :: s in l.host.syscalls && t in l.host.syscalls && s != t ==> l.host.syscalls[s] != l.host.syscalls[t]
  {
    Ledger(Shutdown(l.host),
           map s | s in l.calls :: if s in l.host.syscalls then l.calls[s].(result := Some(-1)) else l.calls[s],
           l.woken + map sid | sid in l.host.syscalls :: l.host.syscalls[sid] := sid)
  }

  // ----- The invariant -----

  ghost predicate CallsOk(l: Ledger) {
    && (forall sid :: sid in l.calls <==> 0 <= sid < l.host.nextSid)
    && (forall sid :: sid in l.host.syscalls ==> sid in l.calls && l.calls[sid] == CallRecord(l.host.syscalls[sid], None, None))
    && (forall sid :: sid in l.calls && sid !in l.host.syscalls ==> l.calls[sid].result.Some?)
    && (forall sid :: sid in l.calls && l.calls[sid].seen.Some? ==> l.calls[sid].seen == l.calls[sid].result)
  }

  /** A process made ready by a return holds the value of the call it issued itself. */
  ghost predicate WokenSound(l: Ledger) {
    forall pid :: pid in l.woken ==>
      && pid in l.host.procs && l.host.procs[pid].state == READY
      && l.woken[pid] in l.calls
      && l.calls[l.woken[pid]] == CallRecord(pid, Some(l.host.procs[pid].ret), None)
  }

  /** No returned value is lost: until the caller has seen it, the caller is ready with it. */
  ghost predicate WokenComplete(l: Ledger) {
    forall sid :: sid in l.calls && l.calls[sid].result.Some? && l.calls[sid].seen.None? ==>
      l.calls[sid].pid in l.woken && l.woken[l.calls[sid].pid] == sid
  }

  ghost predicate Records(l: Ledger) {
    CallsOk(l) && WokenSound(l) && WokenComplete(l)
  }

  ghost predicate LedgerInv(l: Ledger) {
    Inv(l.host) && Records(l)
  }

  lemma SettleRecords(l: Ledger, sid: nat, value: int)
    requires TableOk(l.host) && Records(l)
    ensures Records(Settle(l, sid, value))
  {
    if sid in l.host.syscalls {
      assert l.host.syscalls[sid] !in l.woken;
    }
  }

  lemma SettleKeepsInv(l: Ledger, sid: nat, value: int)
    requires LedgerInv(l)
    ensures LedgerInv(Settle(l, sid, value))
  {
    ReturnKeepsInv(l.host, sid, value);
    SettleRecords(l, sid, value);
  }

  lemma OpenRecords(l: Ledger, pid: nat)
    requires Records(l) && forall sid :: sid in l.host.syscalls ==> sid < l.host.nextSid
    ensures Records(Open(l, pid))
  {
    assert l.host.nextSid !in l.calls;
  }

  lemma OpenKeepsInv(l: Ledger, pid: nat)
    requires LedgerInv(l) && pid in l.host.procs && l.host.procs[pid].state == WAITING
    requires !Travelling(l.host, pid) && !InTable(l.host, pid)
    ensures LedgerInv(Open(l, pid))
  {
    EnterKeepsInv(l.host, pid);
    OpenRecords(l, pid);
  }

  lemma ResumeCalls(l: Ledger, pid: nat, doing: Doing)
    requires CallsOk(l) && WokenSound(l) && pid in l.host.procs
    ensures CallsOk(Resume(l, pid, doing))
  {
    assert pid in l.woken ==> l.woken[pid] !in l.host.syscalls;
  }

  lemma ResumeWoken(l: Ledger, pid: nat, doing: Doing)
    requires WokenSound(l) && WokenComplete(l) && pid in l.host.procs
    ensures WokenSound(Resume(l, pid, doing)) && WokenComplete(Resume(l, pid, doing))
  {
    assert forall p :: p in l.woken && p != pid && pid in l.woken ==> l.woken[p] != l.woken[pid];
  }

  lemma ResumeKeepsInv(l: Ledger, pid: nat, doing: Doing)
    requires LedgerInv(l) && pid in l.host.ready
    ensures LedgerInv(Resume(l, pid, doing))
  {
    RunThreadKeepsInv(l.host, pid, doing);
    ResumeCalls(l, pid, doing);
    ResumeWoken(l, pid, doing);
  }

  lemma SettleAllCalls(l: Ledger)
    requires TableOk(l.host) && Records(l)
    ensures CallsOk(SettleAll(l))
  {
  }

  lemma SettleAllWokenSound(l: Ledger, pid: nat)
    requires TableOk(l.host) && Records(l) && pid in SettleAll(l).woken
    ensures var l' := SettleAll(l);
      && pid in l'.host.procs && l'.host.procs[pid].state == READY
      && l'.woken[pid] in l'.calls
      && l'.calls[l'.woken[pid]] == CallRecord(pid, Some(l'.host.procs[pid].ret), None)
  {
    if exists sid :: sid in l.host.syscalls && l.host.syscalls[sid] == pid {
      var sid :| sid in l.host.syscalls && l.host.syscalls[sid] == pid;
      assert pid in l.host.syscalls.Values;
      assert SettleAll(l).woken[pid] == sid;
    } else {
      assert pid !in l.host.syscalls.Values;
      assert SettleAll(l).woken[pid] == l.woken[pid];
      assert l.woken[pid] !in l.host.syscalls;
    }
  }

  lemma SettleAllWokenComplete(l: Ledger, sid: nat)
    requires TableOk(l.host) && Records(l) && sid in l.calls
    requires SettleAll(l).calls[sid].result.Some? && SettleAll(l).calls[sid].seen.None?
    ensures var l' := SettleAll(l); l'.calls[sid].pid in l'.woken && l'.woken[l'.calls[sid].pid] == sid
  {
    if sid !in l.host.syscalls {
      var pid := l.calls[sid].pid;
      assert l.woken[pid] == sid && l.host.procs[pid].state == READY;
      assert forall t :: t in l.host.syscalls ==> l.host.syscalls[t] != pid;
    }
  }

  lemma SettleAllKeepsInv(l: Ledger)
    requires LedgerInv(l)
    ensures LedgerInv(SettleAll(l))
  {
    ShutdownKeepsInv(l.host);
    SettleAllCalls(l);
    var l' := SettleAll(l);
    forall pid | pid in l'.woken
      ensures pid in l'.host.procs && l'.host.procs[pid].state == READY && l'.woken[pid] in l'.calls
      ensures l'.calls[l'.woken[pid]] == CallRecord(pid, Some(l'.host.procs[pid].ret), None)
    {
      SettleAllWokenSound(l, pid);
    }
    forall sid | sid in l'.calls && l'.calls[sid].result.Some? && l'.calls[sid].seen.None?
      ensures l'.calls[sid].pid in l'.woken && l'.woken[l'.calls[sid].pid] == sid
    {
      SettleAllWokenComplete(l, sid);
    }
  }

  // ----- Steps -----

  /** HandleSyscall with its record. */
  function LogSyscall(l: Ledger, pid: nat, call: Call): Ledger
    requires pid in l.host.procs && Route(l.host.procs[pid], call).Some?
  {
    if Route(l.host.procs[pid], call).value !in l.host.interfaces then l
    else
      var o := Open(l, pid);
      match call
      case Nsleep(_) => o.(host := Post(o.host, Timer(l.host.nextSid)))
      case GetTimeOfDay(zone) => Settle(o, l.host.nextSid, if zone then -EINVAL else 0)
      case _ => o
  }

  lemma LogSyscallHost(l: Ledger, pid: nat, call: Call)
    requires pid in l.host.procs && Route(l.host.procs[pid], call).Some?
    ensures LogSyscall(l, pid, call).host == HandleSyscall(l.host, pid, call)
  {
  }

  lemma TimerKeepsLedger(l: Ledger, sid: nat)
    requires LedgerInv(l) && sid < l.host.nextSid
    ensures LedgerInv(l.(host := Post(l.host, Timer(sid))))
  {
    PostTimerKeepsInv(l.host, sid);
    SameTables(l, Post(l.host, Timer(sid)));
  }

  lemma LogSyscallKeepsInv(l: Ledger, pid: nat, call: Call)
    requires LedgerInv(l) && pid in l.host.procs && l.host.procs[pid].state == WAITING
    requires Route(l.host.procs[pid], call).Some? && !Travelling(l.host, pid) && !InTable(l.host, pid)
    ensures LedgerInv(LogSyscall(l, pid, call))
  {
    OpenKeepsInv(l, pid);
    var o := Open(l, pid);
    match call
    case Nsleep(_) => TimerKeepsLedger(o, l.host.nextSid);
    case GetTimeOfDay(zone) => SettleKeepsInv(o, l.host.nextSid, if zone then -EINVAL else 0);
    case _ =>
  }

  /** The records depend on the process and system-call tables only. */
  lemma SameTables(l: Ledger, h: Host)
    requires Records(l) && Inv(h)
    requires h.nextSid == l.host.nextSid && h.syscalls == l.host.syscalls
    requires forall p :: p in l.woken ==> p in h.procs && h.procs[p].state == READY && h.procs[p].ret == l.host.procs[p].ret
    ensures LedgerInv(l.(host := h))
  {
  }

  ghost function Log(l: Ledger, e: Event): Ledger
    requires LedgerInv(l) && Enabled(l.host, e) && AssertsHold(l.host, e)
  {
    match e
    case Wake(pid, doing) => Resume(l, pid, doing)
    case ModuleReturn(sid, value) => Settle(l, sid, value)
    case CleanUp => SettleAll(l)
    case Deliver(m) =>
      (match l.host.inflight[m]
       case Syscall(pid, call) => LogSyscall(Take(l, m), pid, call)
       case Timer(sid) => Settle(Take(l, m), sid, 0)
       case Return(pid, _) => l.(host := Do(l.host, e)))
    case _ => l.(host := Do(l.host, e))
  }

  function Take(l: Ledger, m: nat): Ledger {
    l.(host := l.host.(inflight := l.host.inflight - {m}))
  }

  lemma TakeKeepsLedger(l: Ledger, m: nat)
    requires LedgerInv(l) && m in l.host.inflight
    ensures LedgerInv(Take(l, m))
  {
    TakeKeepsInv(l.host, m);
    SameTables(l, Take(l, m).host);
  }

  lemma DeliverKeepsLedger(l: Ledger, m: nat)
    requires LedgerInv(l) && Enabled(l.host, Deliver(m)) && AssertsHold(l.host, Deliver(m))
    ensures LedgerInv(Log(l, Deliver(m)))
  {
    TakeKeepsLedger(l, m);
    match l.host.inflight[m]
    case Syscall(pid, call) =>
      TakenCallIsAlone(l.host, m);
      LogSyscallKeepsInv(Take(l, m), pid, call);
    case Timer(sid) => SettleKeepsInv(Take(l, m), sid, 0);
    case Return(pid, _) => ReturnKeepsLedger(l, m);
  }

  lemma ReturnKeepsLedger(l: Ledger, m: nat)
    requires LedgerInv(l) && m in l.host.inflight && l.host.inflight[m].Return?
    requires Enabled(l.host, Deliver(m)) && AssertsHold(l.host, Deliver(m))
    ensures LedgerInv(l.(host := Do(l.host, Deliver(m))))
  {
    DeliverKeepsInv(l.host, m);
    SameTables(l, Do(l.host, Deliver(m)));
  }

  lemma LogHost(l: Ledger, e: Event)
    requires LedgerInv(l) && Enabled(l.host, e) && AssertsHold(l.host, e)
    ensures Log(l, e).host == Do(l.host, e)
  {
    if e.Deliver? && l.host.inflight[e.m].Syscall? {
      LogSyscallHost(Take(l, e.m), l.host.inflight[e.m].pid, l.host.inflight[e.m].call);
    }
  }

  lemma QuietKeepsTables(h: Host, e: Event)
    requires Enabled(h, e) && AssertsHold(h, e)
    requires e.Register? || e.SetFds? || e.Launch?
    ensures Do(h, e).nextSid == h.nextSid && Do(h, e).syscalls == h.syscalls
    ensures var g := Do(h, e); forall p :: p in h.procs && h.procs[p].state == READY ==> p in g.procs && g.procs[p].state == READY && g.procs[p].ret == h.procs[p].ret
  {
  }

  lemma QuietKeepsLedger(l: Ledger, e: Event)
    requires LedgerInv(l) && Enabled(l.host, e) && AssertsHold(l.host, e)
    requires e.Register? || e.SetFds? || e.Launch?
    ensures LedgerInv(l.(host := Do(l.host, e)))
  {
    StepKeepsInv(l.host, e);
    QuietKeepsTables(l.host, e);
    SameTables(l, Do(l.host, e));
  }

  lemma LogRecords(l: Ledger, e: Event)
    requires LedgerInv(l) && Enabled(l.host, e) && AssertsHold(l.host, e)
    ensures LedgerInv(Log(l, e))
  {
    match e
    case Wake(pid, doing) => ResumeKeepsInv(l, pid, doing);
    case ModuleReturn(sid, value) => SettleKeepsInv(l, sid, value);
    case CleanUp => SettleAllKeepsInv(l);
    case Deliver(m) => DeliverKeepsLedger(l, m);
    case _ => QuietKeepsLedger(l, e);
  }

  lemma LogKeepsInv(l: Ledger, e: Event)
    requires LedgerInv(l) && Enabled(l.host, e)
    ensures AssertsHold(l.host, e) && LedgerInv(Log(l, e)) && Log(l, e).host == Do(l.host, e)
  {
    AssertsNeverFail(l.host, e);
    LogRecords(l, e);
    LogHost(l, e);
  }

  // ----- Whole runs -----

  /** A record only ever gets filled in: the issuer never changes, and a value once
      returned or seen is never replaced. */
  ghost predicate Refines(a: CallRecord, b: CallRecord) {
    a.pid == b.pid && (a.result.Some? ==> b.result == a.result) && (a.seen.Some? ==> b.seen == a.seen)
  }

  ghost predicate Extends(l: Ledger, l': Ledger) {
    forall sid :: sid in l.calls ==> sid in l'.calls && Refines(l.calls[sid], l'.calls[sid])
  }

  lemma SettleExtends(l: Ledger, sid: nat, value: int)
    requires TableOk(l.host) && CallsOk(l)
    ensures Extends(l, Settle(l, sid, value))
  {
  }

  lemma ResumeExtends(l: Ledger, pid: nat, doing: Doing)
    requires WokenSound(l) && pid in l.host.procs
    ensures Extends(l, Resume(l, pid, doing))
  {
  }

  lemma OpenExtends(l: Ledger, pid: nat)
    requires CallsOk(l)
    ensures Extends(l, Open(l, pid))
  {
  }

  lemma LogSyscallExtends(l: Ledger, pid: nat, call: Call)
    requires CallsOk(l) && pid in l.host.procs && Route(l.host.procs[pid], call).Some?
    ensures Extends(l, LogSyscall(l, pid, call))
  {
    OpenExtends(l, pid);
  }

  lemma LogExtends(l: Ledger, e: Event)
    requires LedgerInv(l) && Enabled(l.host, e) && AssertsHold(l.host, e)
    ensures Extends(l, Log(l, e))
  {
    match e
    case Wake(pid, doing) => ResumeExtends(l, pid, doing);
    case ModuleReturn(sid, value) => SettleExtends(l, sid, value);
    case CleanUp =>
    case Deliver(m) =>
      match l.host.inflight[m] {
        case Syscall(pid, call) => LogSyscallExtends(Take(l, m), pid, call);
        case Timer(sid) => SettleExtends(Take(l, m), sid, 0);
        case Return(_, _) =>
      }
    case _ =>
  }

  lemma ExtendsTransitive(a: Ledger, b: Ledger, c: Ledger)
    requires Extends(a, b) && Extends(b, c)
    ensures Extends(a, c)
  {
  }

  ghost function Follow(l: Ledger, events: seq<Event>): Ledger
    requires LedgerInv(l) && Possible(l.host, events)
    decreases |events|
  {
    if events == [] then l
    else
      LogKeepsInv(l, events[0]);
      Follow(Log(l, events[0]), events[1..])
  }

  lemma {:induction false} FollowOk(l: Ledger, events: seq<Event>)
    requires LedgerInv(l) && Possible(l.host, events)
    ensures LedgerInv(Follow(l, events)) && Follow(l, events).host == After(l.host, events)
    ensures Extends(l, Follow(l, events))
    decreases |events|
  {
    if events != [] {
      LogKeepsInv(l, events[0]);
      LogExtends(l, events[0]);
      FollowOk(Log(l, events[0]), events[1..]);
      ExtendsTransitive(l, Log(l, events[0]), Follow(l, events));
    }
  }

  /** Over every run: a call that reached the table is there still unanswered, or was
      answered; its caller has seen nothing but that answer, or is about to (READY with
      it); and the one process the answer wakes is the process that issued the call. */
  lemma CallLifecycle(interfaces: set<Namespace>, events: seq<Event>, sid: nat)
    requires Possible(Booted(interfaces), events)
    requires sid in Follow(Opened(interfaces), events).calls
    ensures var l := Follow(Opened(interfaces), events);
            var c := l.calls[sid];
      && l.host == After(Booted(interfaces), events)
      && (c.result.None? <==> sid in l.host.syscalls)
      && (sid in l.host.syscalls ==> l.host.syscalls[sid] == c.pid && c.seen.None?)
      && (c.seen.Some? ==> c.seen == c.result)
      && (c.result.Some? && c.seen.None? ==>
            c.pid in l.host.procs && l.host.procs[c.pid].state == READY && Some(l.host.procs[c.pid].ret) == c.result)
  {
    FollowOk(Opened(interfaces), events);
    var l := Follow(Opened(interfaces), events);
    if l.calls[sid].result.Some? && l.calls[sid].seen.None? {
      assert l.calls[sid].pid in l.woken;
    }
  }

  /** An answered call is closed for good: in every continuation its record keeps its
      issuer, its value and what was seen, its id never names another call, and another
      return for it (such as the timer of a sleep that cleanUp interrupted) does nothing. */
  lemma AnsweredCallIsClosed(interfaces: set<Namespace>, before: seq<Event>, after: seq<Event>, sid: nat, value: int)
    requires Possible(Booted(interfaces), before) && sid in Follow(Opened(interfaces), before).calls
    requires Possible(Follow(Opened(interfaces), before).host, after)
    requires Follow(Opened(interfaces), before).calls[sid].result.Some?
    ensures var l := Follow(Opened(interfaces), before);
            LedgerInv(l) &&
            var l' := Follow(l, after);
      && sid in l'.calls && Refines(l.calls[sid], l'.calls[sid])
      && sid !in l'.host.syscalls
      && ReturnSystemCall(l'.host, sid, value) == l'.host
  {
    FollowOk(Opened(interfaces), before);
    var l := Follow(Opened(interfaces), before);
    FollowOk(l, after);
  }

  function Opened(interfaces: set<Namespace>): Ledger {
    Ledger(Booted(interfaces), map[], map[])
  }
}
