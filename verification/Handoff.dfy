/** Runnable::State. */
module RunStates {
  datatype RunState = CREATED | STARTING | READY | RUNNING | WAITING | TERMINATED
}

/** The mutex/condition-variable handoff between the scheduler and one Runnable's thread,
    as interleaved steps.  A wait with a predicate is the usual loop: test under the mutex,
    sleep releasing it, wake (possibly for no reason), take the mutex again, test again. */
module Handoff {
  import opened RunStates

  datatype Party = Nobody | Scheduler | Thread

  /** Where the scheduler is in start() or wake(); Idle between calls. */
  datatype SchedPc =
    | Idle
    | StartNotify | StartTest | StartAsleep | StartWoken
    | WakeNotify | WakeTest | WakeAsleep | WakeWoken

  /** Where the thread is in Runnable::run(), and in wait() when main() calls it. */
  datatype ThreadPc =
    | Born
    | FirstTest | FirstAsleep | FirstWoken       // waiting for STARTING
    | PreMain | ReadyNotify
    | RunTest | RunAsleep | RunWoken             // waiting for RUNNING
    | Main | WaitNotify | EndNotify | Unlocking | Gone

  datatype Config = Config(state: RunState, owner: Party, sched: SchedPc, thread: ThreadPc)

  datatype Step =
    | CallStart | CallWake | CallReady
    | SchedNotify | SchedTest | SchedLock | SchedSpurious
    | ThreadLock | ThreadTest | EndPreMain | CallWait | EndMain | ThreadNotify | ThreadUnlock | ThreadSpurious

  /** The constructor takes the mutex for the scheduler before the thread exists. */
  const FRESH := Config(CREATED, Scheduler, Idle, Born)

  predicate SchedRuns(c: Config) {
    c.sched in {Idle, StartNotify, StartTest, WakeNotify, WakeTest}
  }

  predicate ThreadRuns(c: Config) {
    c.thread in {FirstTest, PreMain, ReadyNotify, RunTest, Main, WaitNotify, EndNotify, Unlocking}
  }

  predicate Spurious(s: Step) {
    s.SchedSpurious? || s.ThreadSpurious?
  }

  predicate Enabled(c: Config, s: Step) {
    match s
    case CallStart => c.sched == Idle && c.state == CREATED
    case CallWake => c.sched == Idle && c.state == READY
    case CallReady => c.sched == Idle && c.state == WAITING
    case SchedNotify => c.sched == StartNotify || c.sched == WakeNotify
    case SchedTest => c.sched == StartTest || c.sched == WakeTest
    case SchedLock => (c.sched == StartWoken || c.sched == WakeWoken) && c.owner == Nobody
    case SchedSpurious => c.sched == StartAsleep || c.sched == WakeAsleep
    case ThreadLock => c.thread in {Born, FirstWoken, RunWoken} && c.owner == Nobody
    case ThreadTest => c.thread == FirstTest || c.thread == RunTest
    case EndPreMain => c.thread == PreMain
    case CallWait => c.thread == Main
    case EndMain => c.thread == Main
    case ThreadNotify => c.thread in {ReadyNotify, WaitNotify, EndNotify}
    case ThreadUnlock => c.thread == Unlocking
    case ThreadSpurious => c.thread == FirstAsleep || c.thread == RunAsleep
  }

  /** The asserts the source evaluates at this step. */
  predicate AssertsHold(c: Config, s: Step) {
    match s
    case CallStart => c.owner == Scheduler && c.state == CREATED
    case CallWake => c.owner == Scheduler && c.state == READY
    case CallReady => c.owner == Scheduler && c.state == WAITING
    case CallWait => c.owner == Thread && c.state == RUNNING
    case _ => true
  }

  function WakeSched(pc: SchedPc): SchedPc {
    if pc == StartAsleep then StartWoken else if pc == WakeAsleep then WakeWoken else pc
  }

  function WakeThread(pc: ThreadPc): ThreadPc {
    if pc == FirstAsleep then FirstWoken else if pc == RunAsleep then RunWoken else pc
  }

  function Do(c: Config, s: Step): Config {
    match s
    case CallStart => c.(state := STARTING, sched := StartNotify)
    case CallWake => c.(state := RUNNING, sched := WakeNotify)
    case CallReady => c.(state := READY)
    case SchedNotify => c.(sched := if c.sched == StartNotify then StartTest else WakeTest, thread := WakeThread(c.thread))
    case SchedTest =>
      if (c.sched == StartTest && c.state == READY) || (c.sched == WakeTest && c.state != RUNNING) then c.(sched := Idle)
      else c.(sched := if c.sched == StartTest then StartAsleep else WakeAsleep, owner := Nobody)
    case SchedLock => c.(sched := if c.sched == StartWoken then StartTest else WakeTest, owner := Scheduler)
    case SchedSpurious => c.(sched := WakeSched(c.sched))
    case ThreadLock => c.(thread := if c.thread == RunWoken then RunTest else FirstTest, owner := Thread)
    case ThreadTest =>
      if c.thread == FirstTest then
        if c.state == STARTING then c.(thread := PreMain) else c.(thread := FirstAsleep, owner := Nobody)
      else
        if c.state == RUNNING then c.(thread := Main) else c.(thread := RunAsleep, owner := Nobody)
    case EndPreMain => c.(state := READY, thread := ReadyNotify)
    case CallWait => c.(state := WAITING, thread := WaitNotify)
    case EndMain => c.(state := TERMINATED, thread := EndNotify)
    case ThreadNotify => c.(thread := if c.thread == EndNotify then Unlocking else RunTest, sched := WakeSched(c.sched))
    case ThreadUnlock => c.(thread := Gone, owner := Nobody)
    case ThreadSpurious => c.(thread := WakeThread(c.thread))
  }

  predicate Possible(c: Config, steps: seq<Step>)
    decreases |steps|
  {
    steps == [] || (Enabled(c, steps[0]) && Possible(Do(c, steps[0]), steps[1..]))
  }

  function After(c: Config, steps: seq<Step>): Config
    decreases |steps|
  {
    if steps == [] then c else After(Do(c, steps[0]), steps[1..])
  }

  /** Who owns the mutex is decided by the two program counters. */
  predicate OwnerOk(c: Config) {
    && (c.owner == Scheduler <==> SchedRuns(c))
    && (c.owner == Thread <==> ThreadRuns(c))
  }

  predicate PhaseOk(c: Config) {
    match c.state
    case CREATED => c.sched == Idle && c.thread == Born
    case STARTING =>
      c.sched in {StartNotify, StartTest, StartAsleep, StartWoken} && c.thread in {Born, FirstTest, PreMain}
    case READY =>
      || (c.thread == ReadyNotify && c.sched in {StartAsleep, StartWoken})
      || (c.thread == RunTest && c.sched == StartWoken)
      || (c.thread in {RunAsleep, RunWoken} && c.sched in {StartWoken, StartTest, Idle})
    case RUNNING =>
      || (c.thread == RunAsleep && c.sched == WakeNotify)
      || (c.thread in {RunWoken, RunTest, Main} && c.sched in {WakeNotify, WakeTest, WakeAsleep, WakeWoken})
    case WAITING =>
      || (c.thread == WaitNotify && c.sched in {WakeAsleep, WakeWoken})
      || (c.thread == RunTest && c.sched == WakeWoken)
      || (c.thread in {RunAsleep, RunWoken} && c.sched in {WakeWoken, WakeTest, Idle})
    case TERMINATED =>
      || (c.thread == EndNotify && c.sched in {WakeAsleep, WakeWoken})
      || (c.thread == Unlocking && c.sched == WakeWoken)
      || (c.thread == Gone && c.sched in {WakeWoken, WakeTest, Idle})
  }

  predicate Inv(c: Config) {
    OwnerOk(c) && PhaseOk(c)
  }

  lemma StepKeepsInv(c: Config, s: Step)
    requires Inv(c) && Enabled(c, s)
    ensures Inv(Do(c, s))
  {
  }

  lemma {:induction false} RunKeepsInv(c: Config, steps: seq<Step>)
    requires Inv(c) && Possible(c, steps)
    ensures Inv(After(c, steps))
    decreases |steps|
  {
    if steps != [] {
      StepKeepsInv(c, steps[0]);
      RunKeepsInv(Do(c, steps[0]), steps[1..]);
    }
  }

  /** In every reachable configuration at most one of the two parties runs, every assert
      reached holds, and between calls the thread has no step it could take. */
  lemma MutualExclusion(steps: seq<Step>, next: Step)
    requires Possible(FRESH, steps) && Enabled(After(FRESH, steps), next)
    ensures var c := After(FRESH, steps);
      && !(SchedRuns(c) && ThreadRuns(c))
      && AssertsHold(c, next)
      && (c.sched == Idle ==> next in {CallStart, CallWake, CallReady, ThreadSpurious})
  {
    RunKeepsInv(FRESH, steps);
  }

  /** No wakeup is lost: nobody sleeps on a condition that is already true, except while
      the other party stands between setting the state and notifying. */
  lemma NoLostWakeup(steps: seq<Step>)
    requires Possible(FRESH, steps)
    ensures var c := After(FRESH, steps);
      && (c.thread == RunAsleep && c.state == RUNNING ==> c.sched == WakeNotify)
      && c.thread != FirstAsleep
      && (c.sched == StartAsleep && c.state == READY ==> c.thread == ReadyNotify)
      && (c.sched == WakeAsleep && c.state != RUNNING ==> c.thread in {WaitNotify, EndNotify})
  {
    RunKeepsInv(FRESH, steps);
  }

  // ----- Progress -----

  function ThreadRank(c: Config): nat {
    if c.state == RUNNING then
      match c.thread
      case RunWoken => 22
      case Main => 20
      case _ => 21
    else
      match c.thread
      case Born => 13
      case FirstTest => 12
      case PreMain => 11
      case ReadyNotify => 10
      case WaitNotify => 15
      case EndNotify => 15
      case Unlocking => 4
      case RunWoken => 3
      case RunTest => 2
      case RunAsleep => 1
      case _ => 0
  }

  function SchedRank(c: Config): nat {
    match c.sched
    case StartNotify => 8
    case WakeNotify => 8
    case StartWoken => 3
    case WakeWoken => 3
    case StartTest => 2
    case WakeTest => 2
    case StartAsleep => 1
    case WakeAsleep => 1
    case Idle => 0
  }

  function Rank(c: Config): nat {
    ThreadRank(c) + SchedRank(c)
  }

  /** No deadlock: inside a call of start() or wake() some party can always take a step
      that is not a spurious wakeup. */
  function Obvious(c: Config): (s: Step)
    requires Inv(c) && c.sched != Idle
    ensures Enabled(c, s) && !Spurious(s)
  {
    if c.owner == Scheduler then
      if c.sched == StartNotify || c.sched == WakeNotify then SchedNotify else SchedTest
    else if c.owner == Thread then
      match c.thread
      case PreMain => EndPreMain
      case Main => EndMain
      case Unlocking => ThreadUnlock
      case FirstTest => ThreadTest
      case RunTest => ThreadTest
      case _ => ThreadNotify
    else if c.sched == StartWoken || c.sched == WakeWoken then SchedLock
    else ThreadLock
  }

  lemma StepLowersRank(c: Config, s: Step)
    requires Inv(c) && Enabled(c, s) && c.sched != Idle
    ensures if Spurious(s) then Rank(Do(c, s)) <= Rank(c) + 2 else Rank(Do(c, s)) < Rank(c)
  {
  }

  function Count(steps: seq<Step>, spurious: bool): nat
    decreases |steps|
  {
    if steps == [] then 0 else (if Spurious(steps[0]) == spurious then 1 else 0) + Count(steps[1..], spurious)
  }

  predicate StaysInCall(c: Config, steps: seq<Step>)
    decreases |steps|
  {
    steps == [] || (c.sched != Idle && StaysInCall(Do(c, steps[0]), steps[1..]))
  }

  lemma {:induction false} StepsBounded(c: Config, steps: seq<Step>)
    requires Inv(c) && Possible(c, steps) && StaysInCall(c, steps)
    ensures Count(steps, false) + Rank(After(c, steps)) <= Rank(c) + 2 * Count(steps, true)
    decreases |steps|
  {
    if steps != [] {
      StepKeepsInv(c, steps[0]);
      StepLowersRank(c, steps[0]);
      StepsBounded(Do(c, steps[0]), steps[1..]);
    }
  }

  /** A call of start() or wake() made in any reachable configuration ends: whatever the
      interleaving, it takes at most 30 steps plus two for each spurious wakeup, until it
      returns a step is always possible, and it returns exactly as the caller expects. */
  lemma CallEnds(history: seq<Step>, call: Step, steps: seq<Step>)
    requires Possible(FRESH, history) && (call == CallStart || call == CallWake)
    requires var c := After(FRESH, history);
      Enabled(c, call) && Possible(Do(c, call), steps) && StaysInCall(Do(c, call), steps)
    ensures Count(steps, false) <= 30 + 2 * Count(steps, true)
    ensures var c := After(Do(After(FRESH, history), call), steps);
      if c.sched == Idle then
        (call == CallStart ==> c.state == READY) && (call == CallWake ==> c.state in {WAITING, TERMINATED})
      else exists s :: Enabled(c, s) && !Spurious(s)
  {
    RunKeepsInv(FRESH, history);
    var c0 := After(FRESH, history);
    StepKeepsInv(c0, call);
    var c1 := Do(c0, call);
    StepsBounded(c1, steps);
    RunKeepsInv(c1, steps);
    var c := After(c1, steps);
    if c.sched == Idle {
      ReturnValue(c1, call, steps);
    } else {
      assert Enabled(c, Obvious(c));
    }
  }

  predicate During(c: Config, call: Step) {
    && (call == CallStart ==> if c.sched == Idle then c.state == READY else c.sched in {StartNotify, StartTest, StartAsleep, StartWoken})
    && (call == CallWake ==> if c.sched == Idle then c.state in {WAITING, TERMINATED} else c.sched in {WakeNotify, WakeTest, WakeAsleep, WakeWoken})
  }

  lemma {:induction false} ReturnValue(c: Config, call: Step, steps: seq<Step>)
    requires Inv(c) && During(c, call) && Possible(c, steps) && StaysInCall(c, steps)
    ensures During(After(c, steps), call)
    decreases |steps|
  {
    if steps != [] {
      StepKeepsInv(c, steps[0]);
      assert During(Do(c, steps[0]), call);
      ReturnValue(Do(c, steps[0]), call, steps[1..]);
    }
  }

  // ----- What the calls achieve -----

  /** ready() leaves the thread where it is but READY, so that wake() may be called on it. */
  lemma ReadyCanBeWoken(history: seq<Step>)
    requires Possible(FRESH, history) && Enabled(After(FRESH, history), CallReady)
    ensures var c := Do(After(FRESH, history), CallReady);
      && c.state == READY && c.owner == Scheduler && Enabled(c, CallWake) && AssertsHold(c, CallWake)
      && c.thread == After(FRESH, history).thread
  {
    RunKeepsInv(FRESH, history);
  }

  /** How often the thread ran main() up to a wait, up to its end, and pre_main(). */
  function Runs(steps: seq<Step>, what: Step): nat
    decreases |steps|
  {
    if steps == [] then 0 else (if steps[0] == what then 1 else 0) + Runs(steps[1..], what)
  }

  lemma {:induction false} WakeRuns(c: Config, steps: seq<Step>)
    requires Inv(c) && During(c, CallWake) && c.sched != Idle && Possible(c, steps) && StaysInCall(c, steps)
    ensures var e := After(c, steps);
      && Runs(steps, EndPreMain) == 0
      && Runs(steps, CallWait) + Runs(steps, EndMain) == (if c.state == RUNNING && e.state != RUNNING then 1 else 0)
      && (c.state != RUNNING ==> e.state == c.state)
      && (c.state == RUNNING && e.state != RUNNING ==> (e.state == WAITING <==> Runs(steps, CallWait) == 1))
    decreases |steps|
  {
    if steps != [] {
      StepKeepsInv(c, steps[0]);
      var d := Do(c, steps[0]);
      if d.sched != Idle {
        WakeRuns(d, steps[1..]);
      } else {
        assert steps[1..] == [];
      }
    }
  }

  /** A call of wake() that returns has let the thread run exactly once, up to its next wait
      (and then it returns WAITING) or to the end of main() (and then TERMINATED). */
  lemma WakeRunsTheThreadOnce(history: seq<Step>, steps: seq<Step>)
    requires Possible(FRESH, history) && Enabled(After(FRESH, history), CallWake)
    requires var c := Do(After(FRESH, history), CallWake); Possible(c, steps) && StaysInCall(c, steps) && After(c, steps).sched == Idle
    ensures var e := After(Do(After(FRESH, history), CallWake), steps);
      && Runs(steps, CallWait) + Runs(steps, EndMain) == 1 && Runs(steps, EndPreMain) == 0
      && e.state == if Runs(steps, CallWait) == 1 then WAITING else TERMINATED
  {
    RunKeepsInv(FRESH, history);
    var c0 := After(FRESH, history);
    StepKeepsInv(c0, CallWake);
    var c := Do(c0, CallWake);
    ReturnValue(c, CallWake, steps);
    WakeRuns(c, steps);
  }
}
