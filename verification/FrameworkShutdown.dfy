/**
  Stopping the framework: exactly when it is guaranteed to come to an end, and what has been done then.
 */
module FrameworkShutdown {
  import opened Frameworks
  import P = ThreadPools
  import H = FeederThreshold

  /** Every long-running job of the initial list has set its flag, or there is no worker to run one. */
  ghost predicate AllEntered(c: Setup, s: Framework) {
    c.threads == 0 || forall j :: j in Initial(c) && Long(c, j) ==> j in s.entered
  }

  /** The flags that stop has not yet come to. */
  predicate NotYetCleared(control: Control, j: Job) {
    match control
    case ClearBroadcast => true
    case ClearOut(k) => j.OutJob? && j.k >= k
    case _ => false
  }

  /** The state of a stop that began after all long-running jobs had set their flags. */
  ghost predicate Stopping(c: Setup, s: Framework) {
    && Inv(c, s) && Stopped(s.control) && AllEntered(c, s)
    && forall j :: j in s.raised ==> NotYetCleared(s.control, j)
  }

  lemma LongIsInitial(c: Setup, j: Job)
    requires Long(c, j)
    ensures j in Initial(c)
  {
    if j.OutJob? {
      assert Initial(c)[j.k + 1] == j;
    } else {
      assert Initial(c)[0] == j;
    }
  }

  lemma NobodyEnters(c: Setup, s: Framework, w: nat)
    requires ControlFits(c, s) && Stopped(s.control) && AllEntered(c, s)
    ensures !Enabled(c, s, Enter(w))
  {
    if Runs(s, w) && Long(c, s.pool.workers[w].job) {
      LongIsInitial(c, s.pool.workers[w].job);
    }
  }

  lemma FlagsOnlyClear(c: Setup, s: Framework, step: Step)
    requires ControlFits(c, s) && FlagsFit(c, s) && Stopped(s.control) && AllEntered(c, s) && Enabled(c, s, step) && !step.Enter?
    requires forall j :: j in s.raised ==> NotYetCleared(s.control, j)
    ensures var s' := Do(c, s, step);
      && Stopped(s'.control) && AllEntered(c, s')
      && forall j :: j in s'.raised ==> NotYetCleared(s'.control, j)
  {
  }

  /** Once all have entered, no flag is set again. */
  lemma StoppingStep(c: Setup, s: Framework, step: Step)
    requires Stopping(c, s)
    ensures Stopping(c, Do(c, s, step))
  {
    InvStep(c, s, step);
    if Enabled(c, s, step) {
      if step.Enter? {
        NobodyEnters(c, s, step.w);
      } else {
        FlagsOnlyClear(c, s, step);
      }
    }
  }

  lemma {:induction false} StoppingRun(c: Setup, s: Framework, steps: seq<Step>)
    requires Stopping(c, s)
    ensures Stopping(c, Exec(c, s, steps))
  {
    if steps != [] {
      StoppingRun(c, s, steps[..|steps| - 1]);
      StoppingStep(c, Exec(c, s, steps[..|steps| - 1]), steps[|steps| - 1]);
    }
  }

  // ---- A bound on what is left to do ----

  function WorkerWeight(ws: seq<P.Worker<Job>>): nat {
    if ws == [] then 0
    else WorkerWeight(ws[1..]) + match ws[0] case Exited => 0 case Waiting => 1 case Awake => 2 case Running(_) => 3
  }

  lemma {:induction false} WeightAfterUpdate(ws: seq<P.Worker<Job>>, w: nat, x: P.Worker<Job>)
    requires w < |ws|
    ensures WorkerWeight(ws[w := x]) == WorkerWeight(ws)
      - (match ws[w] case Exited => 0 case Waiting => 1 case Awake => 2 case Running(_) => 3)
      + match x case Exited => 0 case Waiting => 1 case Awake => 2 case Running(_) => 3
  {
    if w == 0 {
      assert ws[0 := x][1..] == ws[1..];
    } else {
      WeightAfterUpdate(ws[1..], w - 1, x);
      assert ws[w := x][1..] == ws[1..][w - 1 := x];
    }
  }

  lemma {:induction false} WeightAfterWakeAll(ws: seq<P.Worker<Job>>)
    ensures WorkerWeight(P.WakeAll(ws)) <= WorkerWeight(ws) + |ws|
  {
    if ws != [] {
      assert P.WakeAll(ws)[1..] == P.WakeAll(ws[1..]);
      WeightAfterWakeAll(ws[1..]);
    }
  }

  function ControlWeight(c: Setup, control: Control): nat {
    match control
    case ClearBroadcast => c.threads + |c.outs| + 6
    case ClearOut(k) => c.threads + 4 + if k <= |c.outs| then |c.outs| - k + 1 else 0
    case JoinMain => c.threads + 4
    case AnnounceStop => c.threads + 3
    case JoinWorkers => 1
    case _ => 0
  }

  function MainWeight(c: Setup, main: MainThread): nat {
    match main
    case Queueing(k) => if k < c.ins then 5 * (c.ins - k) + 1 else 0
    case LoopTest => 1
    case _ => 0
  }

  /** Every step but a spurious wakeup lowers this number. */
  function Left(c: Setup, s: Framework): nat {
    ControlWeight(c, s.control) + MainWeight(c, s.main) + WorkerWeight(s.pool.workers)
    + 2 * |s.pool.jobs| + 2 * s.pool.unnotified
  }

  lemma WorkerStepLowers(c: Setup, s: Framework, step: Step)
    requires Stopping(c, s) && Enabled(c, s, step)
    requires step.Notify? || step.Take? || step.Return? || step.Spurious?
    ensures if step.Spurious? then Left(c, Do(c, s, step)) == Left(c, s) + 1 else Left(c, Do(c, s, step)) < Left(c, s)
  {
    var w, ws' := step.w, Do(c, s, step).pool.workers;
    if !step.Notify? || P.SomeWaiting(s.pool.workers) {
      WeightAfterUpdate(s.pool.workers, w, ws'[w]);
    }
  }

  lemma StepLowers(c: Setup, s: Framework, step: Step)
    requires Stopping(c, s) && Enabled(c, s, step)
    ensures if step.Spurious? then Left(c, Do(c, s, step)) == Left(c, s) + 1 else Left(c, Do(c, s, step)) < Left(c, s)
  {
    match step {
      case Ctl =>
        if s.control.AnnounceStop? {
          WeightAfterWakeAll(s.pool.workers);
        }
      case Main =>
      case CallStop => assert false;
      case Enter(w) => LongIsInitial(c, s.pool.workers[w].job); assert false;
      case _ => WorkerStepLowers(c, s, step);
    }
  }

  function SpuriousCount(steps: seq<Step>): nat {
    if steps == [] then 0 else SpuriousCount(steps[..|steps| - 1]) + if steps[|steps| - 1].Spurious? then 1 else 0
  }

  /** The number of steps of the schedule that do something, other than spurious wakeups. */
  function Work(c: Setup, s: Framework, steps: seq<Step>): nat {
    if steps == [] then 0
    else
      var before, step := steps[..|steps| - 1], steps[|steps| - 1];
      Work(c, s, before) + if !step.Spurious? && Enabled(c, Exec(c, s, before), step) then 1 else 0
  }

  /** No schedule does more than a bounded amount of work after such a stop. */
  lemma {:induction false} ShutdownIsBounded(c: Setup, s: Framework, steps: seq<Step>)
    requires Stopping(c, s)
    ensures Work(c, s, steps) + Left(c, Exec(c, s, steps)) <= Left(c, s) + SpuriousCount(steps)
  {
    if steps != [] {
      var before, step := steps[..|steps| - 1], steps[|steps| - 1];
      ShutdownIsBounded(c, s, before);
      StoppingRun(c, s, before);
      if Enabled(c, Exec(c, s, before), step) {
        StepLowers(c, Exec(c, s, before), step);
      }
    }
  }

  // ---- There is always a next step ----

  lemma MainIsNotStuck(c: Setup, s: Framework) returns (step: Step)
    requires Stopping(c, s) && s.control.JoinMain?
    ensures Enabled(c, s, step) && !step.Spurious?
  {
    if s.main.Ended? {
      step := Ctl;
    } else if s.pool.unnotified == 0 {
      step := Main;
    } else if w :| 0 <= w < |s.pool.workers| && s.pool.workers[w].Waiting? {
      step := Notify(w);
    } else {
      step := Notify(0);
    }
  }

  lemma WorkersAreNotStuck(c: Setup, s: Framework) returns (step: Step)
    requires Stopping(c, s) && s.control.JoinWorkers?
    ensures Enabled(c, s, step) && !step.Spurious?
  {
    if P.AllExited(s.pool.workers) {
      step := Ctl;
    } else {
      var w :| 0 <= w < |s.pool.workers| && !s.pool.workers[w].Exited?;
      match s.pool.workers[w] {
        case Awake => step := Take(w);
        case Running(j) =>
          step := Return(w);
          if Long(c, j) {
            LongIsInitial(c, j);
          }
        case Waiting => assert P.SomeWaiting(s.pool.workers); step := Ctl;
      }
    }
  }

  /** Some thread can always go on, without a spurious wakeup, until stop returns. */
  lemma ShutdownIsNotStuck(c: Setup, s: Framework) returns (step: Step)
    requires Stopping(c, s) && !s.control.Finished?
    ensures Enabled(c, s, step) && !step.Spurious?
  {
    match s.control {
      case JoinMain => step := MainIsNotStuck(c, s);
      case JoinWorkers => step := WorkersAreNotStuck(c, s);
      case _ => step := Ctl;
    }
  }

  lemma {:induction false} FinishFrom(c: Setup, s: Framework) returns (steps: seq<Step>)
    requires Stopping(c, s)
    ensures Exec(c, s, steps).control.Finished? && |steps| <= Left(c, s)
    decreases Left(c, s)
  {
    if s.control.Finished? {
      steps := [];
    } else {
      var step := ShutdownIsNotStuck(c, s);
      StepLowers(c, s, step);
      StoppingStep(c, s, step);
      var rest := FinishFrom(c, Do(c, s, step));
      steps := [step] + rest;
      ExecOne(c, s, step);
      ExecConcat(c, s, [step], rest);
    }
  }

  /** When stop has returned, all workers have exited and every dispatched job is completed. */
  lemma FinishedMeansDone(c: Setup, steps: seq<Step>)
    requires Exec(c, Init(), steps).control.Finished?
    ensures var p := Exec(c, Init(), steps).pool;
      P.AllExited(p.workers) && multiset(p.completed) == multiset(p.dispatched) && p.queued == p.dispatched + p.jobs
  {
    InvAlways(c, steps);
    var p := Exec(c, Init(), steps).pool;
    forall job ensures multiset(p.completed)[job] == multiset(p.dispatched)[job] {
      assert P.Accounted(p, job);
      P.NoneRunning(p.workers, job);
    }
  }

  // ---- Without the hypothesis a stop can hang ----

  /** Worker w runs a long-running job whose flag is set and that stop will not clear any more. */
  ghost predicate StuckOn(c: Setup, s: Framework, w: nat, j: Job) {
    && Runs(s, w) && s.pool.workers[w].job == j && Long(c, j) && j in s.raised
    && Stopped(s.control) && !NotYetCleared(s.control, j) && !s.control.Finished?
  }

  lemma StuckStep(c: Setup, s: Framework, step: Step, w: nat, j: Job)
    requires StuckOn(c, s, w, j)
    ensures StuckOn(c, Do(c, s, step), w, j)
  {
  }

  lemma {:induction false} StuckForever(c: Setup, s: Framework, steps: seq<Step>, w: nat, j: Job)
    requires StuckOn(c, s, w, j)
    ensures StuckOn(c, Exec(c, s, steps), w, j) && !Exec(c, s, steps).control.Finished?
  {
    if steps != [] {
      StuckForever(c, s, steps[..|steps| - 1], w, j);
      StuckStep(c, Exec(c, s, steps[..|steps| - 1]), steps[|steps| - 1], w, j);
    }
  }

  /** Stop clears the flags one after the other while no other thread moves. */
  lemma {:induction false} ClearAlone(c: Setup, s: Framework) returns (steps: seq<Step>)
    requires Inv(c, s) && s.control.ClearOut? && (forall j :: j in s.raised ==> NotYetCleared(s.control, j))
    ensures Exec(c, s, steps) == s.(control := JoinMain, raised := {})
    decreases |c.outs| - s.control.k
  {
    InvStep(c, s, Ctl);
    ExecOne(c, s, Ctl);
    steps := [Ctl];
    if s.control.k < |c.outs| {
      var rest := ClearAlone(c, Do(c, s, Ctl));
      ExecConcat(c, s, [Ctl], rest);
      steps := [Ctl] + rest;
    } else {
      assert s.raised == {};
    }
  }

  lemma {:induction false} RunningWitness(ws: seq<P.Worker<Job>>, j: Job) returns (w: nat)
    requires P.RunningCount(ws, j) > 0
    ensures w < |ws| && ws[w] == P.Running(j)
  {
    if ws[0] == P.Running(j) {
      w := 0;
    } else {
      w := RunningWitness(ws[1..], j);
      w := w + 1;
    }
  }

  /** All flags are cleared, and a long-running job has not yet set its own. */
  ghost predicate Late(c: Setup, s: Framework, j: Job) {
    && Inv(c, s) && s.control.JoinMain? && s.raised == {} && c.threads > 0
    && Long(c, j) && j !in s.entered
  }

  lemma LateJobIsQueued(c: Setup, s: Framework, j: Job)
    requires Late(c, s, j)
    requires forall w: nat :: Runs(s, w) && Long(c, s.pool.workers[w].job) ==> s.pool.workers[w].job in s.entered
    ensures s.pool.jobs != []
  {
    LongIsInitial(c, j);
    var i :| 0 <= i < |Initial(c)| && Initial(c)[i] == j;
    assert s.pool.queued[..|Initial(c)|][i] == j;
    if s.pool.jobs == [] {
      assert j in s.pool.dispatched;
      assert multiset(s.pool.dispatched)[j] > 0;
      assert j !in s.pool.completed;
      assert multiset(s.pool.completed)[j] == 0;
      assert P.Accounted(s.pool, j);
      var w := RunningWitness(s.pool.workers, j);
      assert Runs(s, w);
      assert false;
    }
  }

  /** From such a state some schedule ends with a worker that nobody will stop. */
  lemma {:induction false} LateJobGetsStuck(c: Setup, s: Framework, j: Job) returns (steps: seq<Step>, w: nat, stuck: Job)
    requires Late(c, s, j)
    ensures StuckOn(c, Exec(c, s, steps), w, stuck)
    decreases |s.pool.jobs|
  {
    if v: nat :| Runs(s, v) && Long(c, s.pool.workers[v].job) && s.pool.workers[v].job !in s.entered {
      steps, w, stuck := [Enter(v)], v, s.pool.workers[v].job;
      ExecOne(c, s, Enter(v));
    } else {
      LateJobIsQueued(c, s, j);
      var _, first := DispatchHead(c, s, 0);
      var rest;
      rest, w, stuck := LateJobGetsStuck(c, Exec(c, s, first), j);
      ExecConcat(c, s, first, rest);
      steps := first + rest;
    }
  }

  /** A stop that comes too early has a schedule after which it can never return. */
  lemma EarlyStopCanHang(c: Setup, s: Framework) returns (steps: seq<Step>, w: nat, stuck: Job)
    requires Inv(c, s) && s.control.Launched? && !AllEntered(c, s)
    ensures StuckOn(c, Exec(c, Do(c, s, CallStop), steps), w, stuck)
  {
    var j :| j in Initial(c) && Long(c, j) && j !in s.entered;
    var s1 := Do(c, s, CallStop);
    InvStep(c, s, CallStop);
    InvStep(c, s1, Ctl);
    ExecOne(c, s1, Ctl);
    var s2 := Do(c, s1, Ctl);
    forall l | l in s2.raised ensures NotYetCleared(s2.control, l) {
      assert l in s.entered && Long(c, l) && l != Broadcast;
    }
    var clear := ClearAlone(c, s2);
    InvRun(c, s2, clear);
    var rest;
    rest, w, stuck := LateJobGetsStuck(c, Exec(c, s2, clear), j);
    ExecConcat(c, s1, [Ctl], clear);
    ExecConcat(c, s1, [Ctl] + clear, rest);
    steps := [Ctl] + clear + rest;
  }

  ghost predicate CanFinish(c: Setup, s: Framework) {
    exists steps :: Exec(c, s, steps).control.Finished?
  }

  /**
    A stop is sure to be able to return, whatever happens after it was called, exactly when every
    long-running job had set its flag by then (or there are no workers).
   */
  lemma ShutdownIff(c: Setup, before: seq<Step>)
    requires Exec(c, Init(), before).control.Launched?
    ensures var s := Exec(c, Init(), before);
      (forall after :: CanFinish(c, Exec(c, Do(c, s, CallStop), after))) <==> AllEntered(c, s)
  {
    InvAlways(c, before);
    var s := Exec(c, Init(), before);
    var s1 := Do(c, s, CallStop);
    InvStep(c, s, CallStop);
    if AllEntered(c, s) {
      forall after ensures CanFinish(c, Exec(c, s1, after)) {
        StoppingRun(c, s1, after);
        var steps := FinishFrom(c, Exec(c, s1, after));
        assert Exec(c, Exec(c, s1, after), steps).control.Finished?;
      }
    } else {
      var after, w, j := EarlyStopCanHang(c, s);
      forall steps ensures !Exec(c, Exec(c, s1, after), steps).control.Finished? {
        StuckForever(c, Exec(c, s1, after), steps, w, j);
      }
      assert !CanFinish(c, Exec(c, s1, after));
    }
  }

  /** With at least one worker, a stop can come too early: here it is called before any worker has moved. */
  lemma EarlyStopIsReachable(c: Setup) returns (before: seq<Step>)
    requires c.threads > 0
    ensures var s := Exec(c, Init(), before);
      && s.control.Launched? && !AllEntered(c, s)
      && exists after :: !CanFinish(c, Exec(c, Do(c, s, CallStop), after))
  {
    var launch := H.LaunchAlone(c, |Initial(c)|);
    var s := Exec(c, Init(), launch);
    before := launch + [Ctl];
    ExecConcat(c, Init(), launch, [Ctl]);
    ExecOne(c, s, Ctl);
    assert Initial(c)[0] == Broadcast && Broadcast !in Exec(c, Init(), before).entered;
    ShutdownIff(c, before);
  }

  // ---- All flags can be set in time ----

  /** Before a stop a dispatched long-running job is still being run. */
  lemma DispatchedIsRunning(c: Setup, s: Framework, j: Job) returns (w: nat)
    requires Inv(c, s) && !Stopped(s.control) && Long(c, j) && j in s.pool.dispatched && j !in s.entered
    ensures Runs(s, w) && s.pool.workers[w].job == j
  {
    assert P.Accounted(s.pool, j);
    assert multiset(s.pool.dispatched)[j] > 0;
    assert j !in s.pool.completed;
    assert multiset(s.pool.completed)[j] == 0;
    w := RunningWitness(s.pool.workers, j);
  }

  /** A dispatched long-running job sets its flag. */
  lemma EnterOne(c: Setup, s: Framework, j: Job) returns (steps: seq<Step>)
    requires Inv(c, s) && s.control.Launched? && Long(c, j) && j in s.pool.dispatched
    ensures var s' := Exec(c, s, steps);
      Inv(c, s') && s'.control == s.control && s'.pool == s.pool && s'.entered == s.entered + {j}
  {
    steps := [];
    if j !in s.entered {
      var w := DispatchedIsRunning(c, s, j);
      steps := [Enter(w)];
      InvStep(c, s, Enter(w));
      ExecOne(c, s, Enter(w));
    }
  }

  /** Nothing but flags has changed, and the first m initial jobs that are long-running have set theirs. */
  ghost predicate EnteredUpTo(c: Setup, s: Framework, s': Framework, m: nat)
    requires m <= |Initial(c)|
  {
    && Inv(c, s') && s'.control == s.control && s'.pool == s.pool
    && forall k :: 0 <= k < m && Long(c, Initial(c)[k]) ==> Initial(c)[k] in s'.entered
  }

  lemma EnterNext(c: Setup, s: Framework, s': Framework, m: nat) returns (steps: seq<Step>)
    requires m < |Initial(c)| && s.control.Launched? && EnteredUpTo(c, s, s', m)
    requires forall j :: j in Initial(c) ==> j in s.pool.dispatched
    ensures EnteredUpTo(c, s, Exec(c, s', steps), m + 1)
  {
    steps := [];
    if Long(c, Initial(c)[m]) {
      steps := EnterOne(c, s', Initial(c)[m]);
    }
  }

  /** They can do so one after the other. */
  lemma {:induction false} EnterUpTo(c: Setup, s: Framework, m: nat) returns (steps: seq<Step>)
    requires Inv(c, s) && s.control.Launched? && m <= |Initial(c)|
    requires forall j :: j in Initial(c) ==> j in s.pool.dispatched
    ensures EnteredUpTo(c, s, Exec(c, s, steps), m)
  {
    steps := [];
    if m > 0 {
      var first := EnterUpTo(c, s, m - 1);
      var more := EnterNext(c, s, Exec(c, s, first), m - 1);
      ExecConcat(c, s, first, more);
      steps := first + more;
    }
  }

  /** With more threads than long-running jobs, all of them can have set their flag before stop is called. */
  lemma AllCanEnter(c: Setup) returns (steps: seq<Step>)
    requires c.threads > LongIn(c, Initial(c))
    ensures var s := Exec(c, Init(), steps); s.control.Launched? && AllEntered(c, s)
  {
    var launch := H.LaunchReturns(c);
    InvAlways(c, launch);
    var s := Exec(c, Init(), launch);
    var serve := H.QueueIsServed(c, s);
    var s1 := Exec(c, s, serve);
    forall j | j in Initial(c) ensures j in s1.pool.dispatched {
      var k :| 0 <= k < |Initial(c)| && Initial(c)[k] == j;
      assert s1.pool.queued[..|Initial(c)|][k] == j;
    }
    var enter := EnterUpTo(c, s1, |Initial(c)|);
    ExecConcat(c, Init(), launch, serve);
    ExecConcat(c, Init(), launch + serve, enter);
    steps := launch + serve + enter;
  }
}
