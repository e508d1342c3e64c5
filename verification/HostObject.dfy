/** Host as a class with the source's fields.  The asserts in the methods are the
    source's; every method is proved against its operation in module HostModel. */
module HostObject {
  import opened Options
  import opened Allocators
  import opened RunStates
  import HM = HostModel
  import HS = HostSteps

  class Host {
    var running: bool
    var pidStart: nat
    var syscallIDStart: nat
    var processInfoMap: map<nat, HM.App>
    var syscallMap: map<nat, nat>
    var runnableReady: set<nat>       // NetworkSystem's set, the part of this Host
    var inflight: map<nat, HM.Msg>    // self-messages waiting in the System
    var lastMsg: nat
    const interfaces: set<Namespace>

    function Model(): HM.Host
      reads this
    {
      HM.Host(running, pidStart, syscallIDStart, processInfoMap, syscallMap, runnableReady, inflight, lastMsg, interfaces)
    }

    ghost predicate Valid()
      reads this
    {
      HM.Inv(Model()) && pidStart < MAX_PID
    }

    constructor (interfaces: set<Namespace>)
      ensures Valid() && Model() == HM.Booted(interfaces + {HM.DEFAULT_NS})
    {
      running, pidStart, syscallIDStart := true, 0, 0;
      processInfoMap, syscallMap, runnableReady := map[], map[], {};
      inflight, lastMsg := map[], 0;
      this.interfaces := interfaces + {HM.DEFAULT_NS};
    }

    /** A process gets the first free pid in cyclic order; it fails only when all are taken. */
    method RegisterProcess() returns (r: Option<nat>)
      requires Valid()
      modifies this
      ensures Valid()
      ensures IsFirstFree(old(pidStart), 65536, old(processInfoMap).Keys, r)
      ensures r.None? ==> Model() == old(Model())
      ensures r.Some? ==> r.value < MAX_PID && Model() == HM.Adopt(old(Model()), r.value)
    {
      r := CyclicScan(pidStart, MAX_PID, processInfoMap.Keys);
      if r.Some? {
        HM.AdoptKeepsInv(Model(), r.value);
        processInfoMap := processInfoMap[r.value := HM.App(CREATED, 0, [])];
        pidStart := (r.value + 1) % MAX_PID;
      }
    }

    method LaunchApplication(pid: nat)
      requires Valid() && pid in processInfoMap && processInfoMap[pid].state == CREATED
      modifies this
      ensures Valid() && Model() == HM.Start(old(Model()), pid)
    {
      HM.StartKeepsInv(Model(), pid);
      processInfoMap := processInfoMap[pid := processInfoMap[pid].(state := READY)];
      AddRunnable(pid);
    }

    method AddRunnable(pid: nat)
      requires pid in processInfoMap && processInfoMap[pid].state == READY
      modifies this`runnableReady
      ensures runnableReady == old(runnableReady) + {pid}
    {
      assert processInfoMap[pid].state == READY;
      runnableReady := runnableReady + {pid};
    }

    method SendSelf(msg: HM.Msg)
      modifies this`inflight, this`lastMsg
      ensures Model() == HM.Post(old(Model()), msg)
    {
      lastMsg := lastMsg + 1;
      inflight := inflight[lastMsg := msg];
    }

    /** Runnable::wake: the thread runs until it blocks in E_Syscall or its main() ends. */
    method WakeThread(pid: nat, doing: HM.Doing)
      requires Valid() && pid in runnableReady && (doing.Block? ==> running)
      modifies this
      ensures Valid() && Model() == HM.RunThread(old(Model()), pid, doing)
    {
      HM.RunThreadKeepsInv(Model(), pid, doing);
      ghost var h' := HM.RunThread(Model(), pid, doing);
      assert processInfoMap[pid].state == READY;
      runnableReady := runnableReady - {pid};
      match doing {
        case Block(call) =>
          processInfoMap := processInfoMap[pid := processInfoMap[pid].(state := WAITING, ret := -1)];
          SendSelf(HM.Syscall(pid, call));
        case Exit(value) =>
          processInfoMap := processInfoMap[pid := processInfoMap[pid].(state := TERMINATED)];
          SendSelf(HM.Return(pid, value));
      }
      assert Model() == h';
    }

    /** The loop that empties runnableReady at the head of System::run.  It ends because
        wake() never leaves a thread READY. */
    method DrainReady(plan: map<nat, HM.Doing>)
      requires Valid() && runnableReady <= plan.Keys
      requires forall p :: p in plan ==> plan[p].Block? ==> running
      modifies this
      ensures Valid() && runnableReady == {} && HS.OnlyRan(old(Model()), Model(), plan)
    {
      while runnableReady != {}
        invariant Valid() && runnableReady <= plan.Keys && HS.OnlyRan(old(Model()), Model(), plan)
        decreases |runnableReady|
      {
        var pid :| pid in runnableReady;
        HS.RanOne(old(Model()), Model(), pid, plan);
        WakeThread(pid, plan[pid]);
      }
    }

    /** SystemCallApplication::returnSyscall. */
    method ReturnSyscall(pid: nat, value: int)
      requires pid in processInfoMap && processInfoMap[pid].state == WAITING
      modifies this`processInfoMap
      ensures processInfoMap == old(processInfoMap)[pid := old(processInfoMap)[pid].(state := READY, ret := value)]
    {
      assert processInfoMap[pid].state == WAITING;
      processInfoMap := processInfoMap[pid := processInfoMap[pid].(state := READY, ret := value)];
    }

    method ReturnSystemCall(sid: nat, value: int)
      requires Valid()
      modifies this
      ensures Valid() && Model() == HM.ReturnSystemCall(old(Model()), sid, value)
    {
      HM.ReturnKeepsInv(Model(), sid, value);
      Answer(sid, value);
    }

    method Answer(sid: nat, value: int)
      requires HM.CanReturn(Model(), sid)
      modifies this`processInfoMap, this`runnableReady, this`syscallMap
      ensures Model() == HM.ReturnSystemCall(old(Model()), sid, value)
    {
      if sid !in syscallMap {
        return;
      }
      var pid := syscallMap[sid];
      ReturnSyscall(pid, value);
      AddRunnable(pid);
      syscallMap := syscallMap - {sid};
    }

    /** The scan for a free system-call id.  Ids do not wrap around before 2^64 calls, and
        until then the first candidate is free. */
    method EnterTable(pid: nat) returns (sid: nat)
      requires syscallIDStart !in syscallMap && syscallIDStart < UUID_RANGE
      modifies this`syscallIDStart, this`syscallMap
      ensures sid == old(syscallIDStart) && Model() == HM.Enter(old(Model()), pid)
    {
      var r := CyclicScan(syscallIDStart, UUID_RANGE, syscallMap.Keys);
      StartIsFree(syscallIDStart, syscallMap.Keys, r);
      sid := r.value;
      syscallIDStart := sid + 1;
      syscallMap := syscallMap[sid := pid];
      assert sid != syscallIDStart;
    }

    /** The Syscall branch of messageReceived, with DefaultSystemCall's own calls. */
    method HandleSyscallMessage(m: nat)
      requires Valid() && HM.Enabled(Model(), HM.Deliver(m)) && inflight[m].Syscall?
      requires syscallIDStart < UUID_RANGE
      modifies this
      ensures Valid() && HM.AssertsHold(old(Model()), HM.Deliver(m)) && Model() == HM.Do(old(Model()), HM.Deliver(m))
    {
      HM.StepKeepsInv(Model(), HM.Deliver(m));
      var pid, call := inflight[m].pid, inflight[m].call;
      assert pid in processInfoMap;
      assert syscallIDStart !in syscallMap;
      inflight := inflight - {m};
      RouteCall(pid, call);
    }

    method RouteCall(pid: nat, call: HM.Call)
      requires pid in processInfoMap && processInfoMap[pid].state == WAITING && HM.Route(processInfoMap[pid], call).Some?
      requires syscallIDStart !in syscallMap && syscallIDStart < UUID_RANGE
      modifies this
      ensures Model() == HM.HandleSyscall(old(Model()), pid, call)
    {
      var ns := HM.Route(processInfoMap[pid], call).value;
      if ns in interfaces {
        var sid := EnterTable(pid);
        match call {
          case Nsleep(_) => SendSelf(HM.Timer(sid));
          case GetTimeOfDay(zone) => Answer(sid, if zone then -HM.EINVAL else 0);
          case _ =>
        }
      }
    }

    method HandleTimerMessage(m: nat)
      requires Valid() && m in inflight && inflight[m].Timer?
      modifies this
      ensures Valid() && Model() == HM.ReturnSystemCall(old(Model()).(inflight := old(inflight) - {m}), old(inflight)[m].sid, 0)
    {
      HM.TakeKeepsInv(Model(), m);
      var sid := inflight[m].sid;
      inflight := inflight - {m};
      ReturnSystemCall(sid, 0);
    }

    /** The Return branch: the process exists and has no pending call. */
    method HandleReturnMessage(m: nat)
      requires Valid() && m in inflight && inflight[m].Return?
      modifies this
      ensures Valid() && Model() == HM.HandleReturn(old(Model()).(inflight := old(inflight) - {m}), old(inflight)[m].pid)
      ensures old(inflight)[m].pid in old(processInfoMap) && processInfoMap == old(processInfoMap) - {old(inflight)[m].pid}
      ensures runnableReady == old(runnableReady) - {old(inflight)[m].pid}
    {
      HM.StepKeepsInv(Model(), HM.Deliver(m));
      var pid := inflight[m].pid;
      assert pid in processInfoMap;
      assert forall sid :: sid in syscallMap ==> syscallMap[sid] != pid;
      runnableReady := runnableReady - {pid};
      processInfoMap := processInfoMap - {pid};
      inflight := inflight - {m};
    }

    method Abort(sid: nat)
      requires Valid() && sid in syscallMap
      modifies this
      ensures Valid() && running == old(running) && syscallMap == old(syscallMap) - {sid}
      ensures HM.Shutdown(Model()) == HM.Shutdown(old(Model()))
    {
      HM.AnswerBeforeShutdown(Model(), sid);
      ReturnSystemCall(sid, -1);
    }

    method StopRunning()
      requires Valid()
      modifies this`running
      ensures Valid() && !running && HM.Shutdown(Model()) == HM.Shutdown(old(Model()))
    {
      HM.StopKeepsInv(Model());
      running := false;
    }

    /** cleanUp: every call in the table is answered with -1, one after the other. */
    method CleanUp() returns (missing: nat)
      requires Valid()
      modifies this
      ensures Valid() && Model() == HM.Shutdown(old(Model())) && missing == |old(syscallMap)|
    {
      StopRunning();
      missing := AbortAll();
    }

    method AbortAll() returns (missing: nat)
      requires Valid() && !running
      modifies this
      ensures Valid() && Model() == HM.Shutdown(old(Model())) && missing == |old(syscallMap)|
    {
      ghost var goal := HM.Shutdown(Model());
      var toWakeup := syscallMap.Keys;
      missing := 0;
      while toWakeup != {}
        invariant Valid() && !running && toWakeup == syscallMap.Keys
        invariant HM.Shutdown(Model()) == goal
        invariant missing + |toWakeup| == |old(syscallMap.Keys)|
      {
        var sid :| sid in toWakeup;
        Abort(sid);
        toWakeup := toWakeup - {sid};
        missing := missing + 1;
      }
      assert syscallMap == map[];
      HM.ShutdownWhenDone(Model());
    }

    method CreateFileDescriptor(pid: nat, ns: Namespace) returns (fd: Option<nat>)
      requires Valid() && pid in processInfoMap
      modifies this
      ensures Valid()
      ensures fd.None? <==> forall k :: 3 <= k < 65536 ==> Holds(old(processInfoMap)[pid].fds, k)
      ensures fd.Some? ==> IsLowestFree(old(processInfoMap)[pid].fds, fd.value)
      ensures pid in processInfoMap && forall e ::
        e in processInfoMap[pid].fds <==> e in old(processInfoMap)[pid].fds || (fd.Some? && e == FdEntry(fd.value, ns))
      ensures Model() == HM.SetApp(old(Model()), pid, old(processInfoMap)[pid].(fds := processInfoMap[pid].fds))
    {
      var app := processInfoMap[pid];
      var fds;
      fd, fds := Allocators.CreateFileDescriptor(app.fds, ns);
      HM.SetFdsKeepsInv(Model(), pid, fds);
      processInfoMap := processInfoMap[pid := app.(fds := fds)];
    }

    /** Closing may come after the process is gone (TIME_WAIT); then nothing happens. */
    method RemoveFileDescriptor(pid: nat, fd: nat)
      requires Valid()
      modifies this
      ensures Valid()
      ensures pid !in old(processInfoMap) ==> Model() == old(Model())
      ensures pid in old(processInfoMap) ==>
        && pid in processInfoMap && !Holds(processInfoMap[pid].fds, fd)
        && (forall e :: e in processInfoMap[pid].fds <==> e in old(processInfoMap)[pid].fds && e.fd != fd)
        && Model() == HM.SetApp(old(Model()), pid, old(processInfoMap)[pid].(fds := processInfoMap[pid].fds))
    {
      if pid in processInfoMap {
        var app := processInfoMap[pid];
        var fds := Allocators.RemoveFileDescriptor(app.fds, fd);
        HM.SetFdsKeepsInv(Model(), pid, fds);
        processInfoMap := processInfoMap[pid := app.(fds := fds)];
      }
    }
  }
}
