/**
  The framework on top of the pool: which jobs it queues in which order, and how it stops. One thread
  calls run and later stop; run creates the main thread, which queues the input nodes' jobs over and
  over. The broadcaster and every consumer whose file opens run until their flag is cleared.
 */
module Frameworks {
  import P = ThreadPools

  /** A node of the output proxy. A consumer whose file does not open returns at once, as a sender does. */
  datatype OutNode = Drain(opens: bool) | Sender

  datatype Setup = Setup(threads: nat, outs: seq<OutNode>, ins: nat)

  datatype Job = Broadcast | OutJob(k: nat) | InJob(k: nat)

  /** The thread that calls run and stop. */
  datatype Control =
    | NotStarted
    | Launching(m: nat)   // the first m of the initial jobs are queued
    | Launched            // run has returned
    | ClearBroadcast      // stop has cleared the framework's flag
    | ClearOut(k: nat)    // and the broadcaster's, and those of the first k output nodes
    | JoinMain
    | AnnounceStop        // the pool's flag is set, the notification to all is still to come
    | JoinWorkers
    | Finished

  datatype MainThread = NotCreated | LoopTest | Queueing(k: nat) | Ended

  /** `entered` are the long-running jobs that have set their flag, `raised` those whose flag is set now. */
  datatype Framework = Framework(
    pool: P.Pool<Job>, control: Control, main: MainThread, running: bool, entered: set<Job>, raised: set<Job>)

  datatype Step =
    | Ctl            // the controlling thread's next action
    | CallStop
    | Main           // the main thread's next action
    | Notify(w: nat) // whoever pushed last notifies
    | Take(w: nat)
    | Enter(w: nat)  // worker w's long-running job sets its flag
    | Return(w: nat) // worker w's job returns
    | Spurious(w: nat)

  function Init(): Framework {
    Framework(P.Init(), NotStarted, NotCreated, false, {}, {})
  }

  predicate Long(c: Setup, j: Job) {
    j.Broadcast? || (j.OutJob? && j.k < |c.outs| && c.outs[j.k] == Drain(true))
  }

  /** The jobs that run queues before it creates the main thread. */
  function Initial(c: Setup): (jobs: seq<Job>)
    ensures |jobs| == 1 + |c.outs| && jobs[0] == Broadcast
    ensures forall k :: 0 <= k < |c.outs| ==> jobs[k + 1] == OutJob(k)
  {
    [Broadcast] + seq(|c.outs|, k requires k >= 0 => OutJob(k))
  }

  function PoolStep(step: Step): P.Step<Job>
    requires step.Notify? || step.Take? || step.Return? || step.Spurious?
  {
    match step
    case Notify(w) => P.NotifyOne(w)
    case Take(w) => P.Take(w)
    case Return(w) => P.Finish(w)
    case Spurious(w) => P.Spurious(w)
  }

  predicate Runs(s: Framework, w: nat) {
    w < |s.pool.workers| && s.pool.workers[w].Running?
  }

  /** A job may return when it is short, or has set its flag and finds it cleared; what it still has to do then is in module Pipeline. */
  predicate MayReturn(c: Setup, s: Framework, j: Job) {
    Long(c, j) ==> j in s.entered && j !in s.raised
  }

  predicate Enabled(c: Setup, s: Framework, step: Step) {
    match step
    case Ctl => (
      match s.control
      case Launching(_) => s.pool.unnotified == 0
      case Launched => false
      case JoinMain => s.main.Ended?
      case JoinWorkers => P.AllExited(s.pool.workers)
      case Finished => false
      case _ => true)
    case CallStop => s.control.Launched?
    case Main => s.pool.unnotified == 0 && (s.main.LoopTest? || s.main.Queueing?)
    case Return(w) => Runs(s, w) && MayReturn(c, s, s.pool.workers[w].job)
    case Enter(w) => Runs(s, w) && Long(c, s.pool.workers[w].job) && s.pool.workers[w].job !in s.entered
    case _ => P.Enabled(s.pool, PoolStep(step))
  }

  function CtlStep(c: Setup, s: Framework): Framework {
    match s.control
    case NotStarted => s.(pool := P.Do(s.pool, P.Start(c.threads)), control := Launching(0), running := true)
    case Launching(m) =>
      if m < |Initial(c)| then s.(pool := P.Do(s.pool, P.Enqueue(Initial(c)[m])), control := Launching(m + 1))
      else s.(control := Launched, main := LoopTest)
    case ClearBroadcast => s.(raised := s.raised - {Broadcast}, control := ClearOut(0))
    case ClearOut(k) =>
      if k < |c.outs| then s.(raised := s.raised - {OutJob(k)}, control := ClearOut(k + 1))
      else s.(control := JoinMain)
    case JoinMain => s.(pool := P.Do(s.pool, P.Terminate), control := AnnounceStop)
    case AnnounceStop => s.(pool := P.Do(s.pool, P.NotifyAll), control := JoinWorkers)
    case JoinWorkers => s.(control := Finished)
    case _ => s
  }

  function MainStep(c: Setup, s: Framework): Framework {
    match s.main
    case LoopTest =>
      if !s.running then s.(main := Ended)
      else if c.ins > 0 then s.(main := Queueing(0))
      else s
    case Queueing(k) =>
      s.(pool := P.Do(s.pool, P.Enqueue(InJob(k))), main := if k + 1 < c.ins then Queueing(k + 1) else LoopTest)
    case _ => s
  }

  /** A step that is not enabled changes nothing. */
  function Do(c: Setup, s: Framework, step: Step): Framework {
    if !Enabled(c, s, step) then s else
    match step
    case Ctl => CtlStep(c, s)
    case CallStop => s.(control := ClearBroadcast, running := false)
    case Main => MainStep(c, s)
    case Enter(w) =>
      var j := s.pool.workers[w].job;
      s.(entered := s.entered + {j}, raised := s.raised + {j})
    case _ => s.(pool := P.Do(s.pool, PoolStep(step)))
  }

  function Exec(c: Setup, s: Framework, steps: seq<Step>): Framework {
    if steps == [] then s else Do(c, Exec(c, s, steps[..|steps| - 1]), steps[|steps| - 1])
  }

  lemma {:induction false} ExecConcat(c: Setup, s: Framework, a: seq<Step>, b: seq<Step>)
    ensures Exec(c, s, a + b) == Exec(c, Exec(c, s, a), b)
  {
    if b == [] {
      assert a + b == a;
    } else {
      assert (a + b)[..|a + b| - 1] == a + b[..|b| - 1];
      ExecConcat(c, s, a, b[..|b| - 1]);
    }
  }

  lemma ExecOne(c: Setup, s: Framework, step: Step)
    ensures Exec(c, s, [step]) == Do(c, s, step)
  {
    assert [step][..0] == [];
  }

  // ---- Invariants of every run ----

  predicate Stopped(control: Control) {
    !(control.NotStarted? || control.Launching? || control.Launched?)
  }

  /** How many of the initial jobs have been queued. */
  function Queued(c: Setup, control: Control): nat {
    match control
    case NotStarted => 0
    case Launching(m) => m
    case _ => |Initial(c)|
  }

  /** Where the threads of the framework are, and what that says about the pool. */
  ghost predicate ControlFits(c: Setup, s: Framework) {
    && (s.control.Launching? ==> s.control.m <= |Initial(c)|)
    && (s.control.ClearOut? ==> s.control.k <= |c.outs|)
    && (s.pool.terminate <==> s.control.AnnounceStop? || s.control.JoinWorkers? || s.control.Finished?)
    && (s.pool.notifyAll <==> s.control.AnnounceStop?)
    && (s.control.NotStarted? ==> s.pool.workers == [])
    && (!s.control.NotStarted? ==> |s.pool.workers| == c.threads)
    && (s.main.NotCreated? <==> s.control.NotStarted? || s.control.Launching?)
    && (s.main.Queueing? ==> s.main.k < c.ins)
    && (s.pool.terminate ==> s.main.Ended?)
    && (s.control.Finished? ==> P.AllExited(s.pool.workers))
    && (s.running <==> s.control.Launching? || s.control.Launched?)
  }

  /** Jobs of input nodes in list order, round by round. */
  ghost predicate InRounds(c: Setup, jobs: seq<Job>) {
    forall p :: 0 <= p < |jobs| ==> c.ins > 0 && jobs[p] == InJob(p % c.ins)
  }

  /** How far the main thread is in its round over the input nodes. */
  function InRoundAt(main: MainThread): nat {
    if main.Queueing? then main.k else 0
  }

  /** The queue holds the initial jobs first, and then, round by round and in list order, the jobs of the input nodes. */
  ghost predicate QueueFits(c: Setup, s: Framework) {
    && Queued(c, s.control) <= |s.pool.queued|
    && Queued(c, s.control) <= |Initial(c)|
    && s.pool.queued[..Queued(c, s.control)] == Initial(c)[..Queued(c, s.control)]
    && InRounds(c, s.pool.queued[Queued(c, s.control)..])
    && (s.main.NotCreated? ==> |s.pool.queued| == Queued(c, s.control))
    && (c.ins > 0 && !s.main.NotCreated? ==> |s.pool.queued[Queued(c, s.control)..]| % c.ins == InRoundAt(s.main))
  }

  /** Only long-running jobs have set flags, one that returned has, and before a stop no flag has been cleared. */
  ghost predicate FlagsFit(c: Setup, s: Framework) {
    && (forall k :: 0 <= k < |s.pool.completed| && Long(c, s.pool.completed[k]) ==> s.pool.completed[k] in s.entered)
    && s.raised <= s.entered
    && (forall j :: j in s.entered ==> Long(c, j))
    && (!Stopped(s.control) ==> s.raised == s.entered)
  }

  /** Before a stop a dispatched long-running job is still being run. */
  ghost predicate LongFits(c: Setup, s: Framework) {
    && (!Stopped(s.control) ==> LongRunning(c, s.pool.workers) == LongIn(c, s.pool.dispatched))
    && (!Stopped(s.control) && |s.pool.dispatched| > |Initial(c)| ==> LongIn(c, Initial(c)) < c.threads)
    && (!s.pool.terminate ==> forall w :: 0 <= w < |s.pool.workers| ==> !s.pool.workers[w].Exited?)
  }

  ghost predicate Inv(c: Setup, s: Framework) {
    P.Inv(s.pool) && ControlFits(c, s) && QueueFits(c, s) && FlagsFit(c, s) && LongFits(c, s)
  }

  function LongIn(c: Setup, jobs: seq<Job>): nat {
    if jobs == [] then 0 else LongIn(c, jobs[..|jobs| - 1]) + if Long(c, jobs[|jobs| - 1]) then 1 else 0
  }

  function Holds(c: Setup, worker: P.Worker<Job>): nat {
    if worker.Running? && Long(c, worker.job) then 1 else 0
  }

  /** How many workers are held by long-running jobs. */
  function LongRunning(c: Setup, ws: seq<P.Worker<Job>>): nat {
    if ws == [] then 0 else LongRunning(c, ws[1..]) + Holds(c, ws[0])
  }

  lemma {:induction false} LongAfterUpdate(c: Setup, ws: seq<P.Worker<Job>>, w: nat, x: P.Worker<Job>)
    requires w < |ws|
    ensures LongRunning(c, ws[w := x]) == LongRunning(c, ws) - Holds(c, ws[w]) + Holds(c, x)
  {
    if w == 0 {
      assert ws[0 := x][1..] == ws[1..];
    } else {
      LongAfterUpdate(c, ws[1..], w - 1, x);
      assert ws[w := x][1..] == ws[1..][w - 1 := x];
    }
  }

  lemma {:induction false} LongBounds(c: Setup, ws: seq<P.Worker<Job>>)
    ensures LongRunning(c, ws) + P.AwakeCount(ws) <= |ws|
    ensures LongRunning(c, ws) < |ws| ==> exists w :: 0 <= w < |ws| && Holds(c, ws[w]) == 0
  {
    if ws != [] {
      LongBounds(c, ws[1..]);
      if Holds(c, ws[0]) == 1 && LongRunning(c, ws) < |ws| {
        var w :| 0 <= w < |ws[1..]| && Holds(c, ws[1..][w]) == 0;
        assert Holds(c, ws[w + 1]) == 0;
      }
    }
  }

  lemma {:induction false} NoneLongAtStart(c: Setup, n: nat)
    ensures LongRunning(c, seq(n, _ => P.Awake)) == 0
  {
    if n > 0 {
      assert seq<P.Worker<Job>>(n, _ => P.Awake)[1..] == seq<P.Worker<Job>>(n - 1, _ => P.Awake);
      NoneLongAtStart(c, n - 1);
    }
  }

  lemma {:induction false} LongInConcat(c: Setup, a: seq<Job>, b: seq<Job>)
    ensures LongIn(c, a + b) == LongIn(c, a) + LongIn(c, b)
    decreases |b|
  {
    if b == [] {
      assert a + b == a;
    } else {
      assert (a + b)[..|a + b| - 1] == a + b[..|b| - 1];
      LongInConcat(c, a, b[..|b| - 1]);
    }
  }

  lemma {:induction false} NoLongInFeeders(c: Setup, jobs: seq<Job>)
    requires forall k :: 0 <= k < |jobs| ==> jobs[k].InJob?
    ensures LongIn(c, jobs) == 0
  {
    if jobs != [] {
      NoLongInFeeders(c, jobs[..|jobs| - 1]);
    }
  }

  /** A prefix of what was queued has at most the long-running jobs of the initial list, and all of them once it covers that list. */
  lemma LongInPrefix(c: Setup, s: Framework, n: nat)
    requires QueueFits(c, s) && n <= |s.pool.queued|
    ensures LongIn(c, s.pool.queued[..n]) == LongIn(c, Initial(c)[..if n < Queued(c, s.control) then n else Queued(c, s.control)])
  {
    var q, m := s.pool.queued, Queued(c, s.control);
    if n < m {
      assert q[..n] == q[..m][..n];
      assert Initial(c)[..n] == Initial(c)[..m][..n];
    } else {
      var more := q[m..][..n - m];
      assert q[..n] == q[..m] + more;
      LongInConcat(c, q[..m], more);
      NoLongInRounds(c, q[m..], n - m);
    }
  }

  lemma NoLongInRounds(c: Setup, jobs: seq<Job>, n: nat)
    requires InRounds(c, jobs) && n <= |jobs|
    ensures LongIn(c, jobs[..n]) == 0
  {
    assert forall p :: 0 <= p < n ==> jobs[p].InJob?;
    NoLongInFeeders(c, jobs[..n]);
  }

  lemma {:induction false} LongInMonotone(c: Setup, jobs: seq<Job>, n: nat)
    requires n <= |jobs|
    ensures LongIn(c, jobs[..n]) <= LongIn(c, jobs)
    decreases |jobs|
  {
    if n < |jobs| {
      assert jobs[..|jobs| - 1][..n] == jobs[..n];
      LongInMonotone(c, jobs[..|jobs| - 1], n);
    } else {
      assert jobs[..n] == jobs;
    }
  }

  /** At most the long-running jobs of the initial list are ever dispatched. */
  lemma LongDispatched(c: Setup, s: Framework)
    requires QueueFits(c, s) && P.Conserved(s.pool)
    ensures LongIn(c, s.pool.dispatched) <= LongIn(c, Initial(c))
    ensures |s.pool.dispatched| >= |Initial(c)| && Queued(c, s.control) == |Initial(c)| ==>
      LongIn(c, s.pool.dispatched) == LongIn(c, Initial(c))
  {
    var n := |s.pool.dispatched|;
    assert s.pool.queued[..n] == s.pool.dispatched;
    LongInPrefix(c, s, n);
    LongInMonotone(c, Initial(c), if n < Queued(c, s.control) then n else Queued(c, s.control));
    assert Initial(c)[..|Initial(c)|] == Initial(c);
  }

  lemma PoolInvStep(c: Setup, s: Framework, step: Step)
    requires P.Inv(s.pool)
    ensures P.Inv(Do(c, s, step).pool)
  {
    if Enabled(c, s, step) {
      match step {
        case Ctl =>
          match s.control {
            case NotStarted => P.InvStep(s.pool, P.Start(c.threads));
            case Launching(m) =>
              if m < |Initial(c)| {
                P.InvStep(s.pool, P.Enqueue(Initial(c)[m]));
              }
            case JoinMain => P.InvStep(s.pool, P.Terminate);
            case AnnounceStop => P.InvStep(s.pool, P.NotifyAll);
            case _ =>
          }
        case Main =>
          if s.main.Queueing? {
            P.InvStep(s.pool, P.Enqueue(InJob(s.main.k)));
          }
        case CallStop =>
        case Enter(_) =>
        case _ => P.InvStep(s.pool, PoolStep(step));
      }
    }
  }

  lemma ControlStep(c: Setup, s: Framework, step: Step)
    requires ControlFits(c, s)
    ensures ControlFits(c, Do(c, s, step))
  {
  }

  lemma CtlKeepsQueue(c: Setup, s: Framework)
    requires ControlFits(c, s) && QueueFits(c, s)
    ensures QueueFits(c, CtlStep(c, s))
  {
    if s.control.Launching? && s.control.m < |Initial(c)| {
      var m := s.control.m;
      assert Initial(c)[..m + 1] == Initial(c)[..m] + [Initial(c)[m]];
      assert s.pool.queued == s.pool.queued[..m];
    } else {
      assert CtlStep(c, s).pool.queued == s.pool.queued && Queued(c, CtlStep(c, s).control) == Queued(c, s.control);
      if c.ins > 0 {
        Remainder(0, c.ins, 0, 0);
      }
    }
  }

  lemma NextInRound(p: nat, n: nat)
    requires n > 0
    ensures (p + 1) % n == if p % n + 1 < n then p % n + 1 else 0
  {
    var q, r := p / n, p % n;
    assert p == n * q + r;
    if r + 1 < n {
      Remainder(p + 1, n, q, r + 1);
    } else {
      assert n * (q + 1) == n * q + n;
      Remainder(p + 1, n, q + 1, 0);
    }
  }

  lemma Multiples(n: nat, q: nat, q': nat)
    ensures q < q' ==> n * q + n <= n * q'
  {
    if q < q' {
      assert q' == q + 1 + (q' - q - 1);
      Distribute(n, q + 1, q' - q - 1);
      Distribute(n, q, 1);
    }
  }

  lemma Distribute(n: nat, a: nat, b: nat)
    ensures n * (a + b) == n * a + n * b
  {
  }

  lemma Remainder(p: nat, n: nat, q: nat, r: nat)
    requires n > 0 && p == n * q + r && r < n
    ensures p % n == r
  {
    Multiples(n, q, p / n);
    Multiples(n, p / n, q);
    assert p == n * (p / n) + p % n;
  }

  lemma MainKeepsQueue(c: Setup, s: Framework)
    requires ControlFits(c, s) && QueueFits(c, s)
    ensures QueueFits(c, MainStep(c, s))
  {
    if s.main.Queueing? {
      var m := Queued(c, s.control);
      var rest, job := s.pool.queued[m..], InJob(s.main.k);
      assert (s.pool.queued + [job])[..m] == s.pool.queued[..m];
      assert (s.pool.queued + [job])[m..] == rest + [job];
      NextInRound(|rest|, c.ins);
    }
  }

  lemma OthersKeepQueue(c: Setup, s: Framework, step: Step)
    requires ControlFits(c, s) && QueueFits(c, s) && !step.Ctl? && !step.Main? && Enabled(c, s, step)
    ensures QueueFits(c, Do(c, s, step))
  {
    var s' := Do(c, s, step);
    assert s'.pool.queued == s.pool.queued && s'.main == s.main && Queued(c, s'.control) == Queued(c, s.control);
  }

  lemma QueueStep(c: Setup, s: Framework, step: Step)
    requires ControlFits(c, s) && QueueFits(c, s)
    ensures QueueFits(c, Do(c, s, step))
  {
    if Enabled(c, s, step) {
      match step {
        case Ctl => CtlKeepsQueue(c, s);
        case Main => MainKeepsQueue(c, s);
        case _ => OthersKeepQueue(c, s, step);
      }
    }
  }

  lemma FlagsStep(c: Setup, s: Framework, step: Step)
    requires FlagsFit(c, s)
    ensures FlagsFit(c, Do(c, s, step))
  {
  }

  lemma TakeKeepsLong(c: Setup, s: Framework, w: nat)
    requires Inv(c, s) && Enabled(c, s, Take(w))
    ensures LongFits(c, Do(c, s, Take(w)))
  {
    var p, p' := s.pool, Do(c, s, Take(w)).pool;
    LongAfterUpdate(c, p.workers, w, p'.workers[w]);
    if !p.terminate && p.jobs != [] {
      assert p'.dispatched[..|p.dispatched|] == p.dispatched;
      if |p'.dispatched| > |Initial(c)| {
        assert s.control.Launching? ==> |p.queued| == Queued(c, s.control);
        LongDispatched(c, s);
        P.CountsAfterUpdate(p.workers, w, P.Waiting);
        LongBounds(c, p.workers);
      }
    }
  }

  lemma CtlKeepsLong(c: Setup, s: Framework)
    requires Inv(c, s) && Enabled(c, s, Ctl)
    ensures LongFits(c, Do(c, s, Ctl))
  {
    NoneLongAtStart(c, c.threads);
    if s.control.NotStarted? {
      assert s.pool.queued == [];
    }
  }

  lemma ReturnKeepsLong(c: Setup, s: Framework, w: nat)
    requires Inv(c, s) && Enabled(c, s, Return(w))
    ensures LongFits(c, Do(c, s, Return(w)))
  {
    LongAfterUpdate(c, s.pool.workers, w, P.Awake);
  }

  lemma WakingKeepsLong(c: Setup, s: Framework, step: Step)
    requires Inv(c, s) && Enabled(c, s, step) && (step.Notify? || step.Spurious?)
    ensures LongFits(c, Do(c, s, step))
  {
    if step.Spurious? || P.SomeWaiting(s.pool.workers) {
      LongAfterUpdate(c, s.pool.workers, step.w, P.Awake);
    }
  }

  lemma LongStep(c: Setup, s: Framework, step: Step)
    requires Inv(c, s)
    ensures LongFits(c, Do(c, s, step))
  {
    if Enabled(c, s, step) {
      match step {
        case Ctl => CtlKeepsLong(c, s);
        case Take(w) => TakeKeepsLong(c, s, w);
        case Return(w) => ReturnKeepsLong(c, s, w);
        case Spurious(_) => WakingKeepsLong(c, s, step);
        case Notify(_) => WakingKeepsLong(c, s, step);
        case _ =>
      }
    }
  }

  lemma InvStep(c: Setup, s: Framework, step: Step)
    requires Inv(c, s)
    ensures Inv(c, Do(c, s, step))
  {
    PoolInvStep(c, s, step);
    ControlStep(c, s, step);
    QueueStep(c, s, step);
    FlagsStep(c, s, step);
    LongStep(c, s, step);
  }

  lemma {:induction false} InvRun(c: Setup, s: Framework, steps: seq<Step>)
    requires Inv(c, s)
    ensures Inv(c, Exec(c, s, steps))
  {
    if steps != [] {
      InvRun(c, s, steps[..|steps| - 1]);
      InvStep(c, Exec(c, s, steps[..|steps| - 1]), steps[|steps| - 1]);
    }
  }

  lemma InvAlways(c: Setup, steps: seq<Step>)
    ensures Inv(c, Exec(c, Init(), steps))
  {
    InvRun(c, Init(), steps);
  }

  // ---- How the head of the queue gets dispatched ----

  /** Only the pool's workers and queue differ. */
  ghost predicate OnlyPoolMoved(s: Framework, s': Framework) {
    s' == s.(pool := s'.pool)
  }

  lemma ExecTwo(c: Setup, s: Framework, a: Step, b: Step)
    ensures Exec(c, s, [a, b]) == Do(c, Do(c, s, a), b)
  {
    assert [a, b][..1] == [a];
    ExecOne(c, s, a);
  }

  /** A pool step of a worker or of a notifying caller, lifted to the framework. */
  function Lift(step: P.Step<Job>): Step
    requires step.Take? || step.Finish? || step.NotifyOne?
  {
    match step
    case Take(w) => Take(w)
    case Finish(w) => Return(w)
    case NotifyOne(w) => Notify(w)
  }

  lemma LiftedStep(c: Setup, s: Framework, step: P.Step<Job>)
    requires step.Take? || step.Finish? || step.NotifyOne?
    requires P.Enabled(s.pool, step)
    requires step.Finish? ==> MayReturn(c, s, s.pool.workers[step.w].job)
    ensures Do(c, s, Lift(step)) == s.(pool := P.Do(s.pool, step))
  {
  }

  lemma HeadPath(c: Setup, s: Framework, w: nat) returns (v: nat, steps: seq<Step>)
    requires P.NoLostWakeup(s.pool) && !s.pool.terminate && s.pool.jobs != []
    requires w < |s.pool.workers| && !s.pool.workers[w].Exited?
    requires Runs(s, w) ==> MayReturn(c, s, s.pool.workers[w].job)
    ensures |steps| <= 2
    ensures var s' := Exec(c, s, steps);
      && OnlyPoolMoved(s, s') && P.HeadTaken(s.pool, s'.pool, v)
      && (v != w ==> s.pool.workers[v].Awake?)
  {
    var poolSteps;
    v, poolSteps := P.HeadIsDispatchable(s.pool, w);
    var first := poolSteps[0];
    LiftedStep(c, s, first);
    if |poolSteps| == 1 {
      steps := [Lift(first)];
      ExecOne(c, s, Lift(first));
    } else {
      steps := [Lift(first), Take(w)];
      LiftedStep(c, Do(c, s, Lift(first)), P.Take(w));
      ExecTwo(c, s, Lift(first), Take(w));
    }
  }

  /**
    While the pool's flag is not set, the head of the queue is at most two steps from being dispatched if
    some worker is not held by a job that cannot return.
   */
  lemma DispatchHead(c: Setup, s: Framework, w: nat) returns (v: nat, steps: seq<Step>)
    requires Inv(c, s) && !s.pool.terminate && s.pool.jobs != []
    requires w < |s.pool.workers| && (Runs(s, w) ==> MayReturn(c, s, s.pool.workers[w].job))
    ensures |steps| <= 2
    ensures var s' := Exec(c, s, steps);
      && Inv(c, s') && OnlyPoolMoved(s, s') && P.HeadTaken(s.pool, s'.pool, v)
      && (v != w ==> s.pool.workers[v].Awake?)
  {
    v, steps := HeadPath(c, s, w);
    InvRun(c, s, steps);
  }

  /** A job of an input node comes after all the initial jobs. */
  lemma FeederComesLate(c: Setup, s: Framework, k: nat)
    requires QueueFits(c, s) && ControlFits(c, s) && k < |s.pool.queued| && s.pool.queued[k].InJob?
    ensures k >= |Initial(c)| && c.ins > 0 && Queued(c, s.control) == |Initial(c)|
  {
    var m := Queued(c, s.control);
    forall i | 0 <= i < m ensures !s.pool.queued[i].InJob? {
      assert s.pool.queued[i] == s.pool.queued[..m][i] == Initial(c)[..m][i];
    }
  }

  // ---- What the main thread queues ----

  /** The jobs of the input nodes in list order. */
  function InRound(c: Setup): (jobs: seq<Job>)
    ensures |jobs| == c.ins && forall k :: 0 <= k < c.ins ==> jobs[k] == InJob(k)
  {
    seq(c.ins, k requires k >= 0 => InJob(k))
  }

  function Repeat(n: nat, jobs: seq<Job>): seq<Job> {
    if n == 0 then [] else Repeat(n - 1, jobs) + jobs
  }

  lemma {:induction false} RepeatAt(c: Setup, n: nat, p: nat)
    ensures |Repeat(n, InRound(c))| == n * c.ins
    ensures p < n * c.ins ==> Repeat(n, InRound(c))[p] == InJob(p % c.ins)
  {
    if n > 0 {
      RepeatAt(c, n - 1, p);
      assert n * c.ins == (n - 1) * c.ins + c.ins;
      if (n - 1) * c.ins <= p < n * c.ins {
        assert p == c.ins * (n - 1) + (p - (n - 1) * c.ins);
        Remainder(p, c.ins, n - 1, p - (n - 1) * c.ins);
      }
    }
  }

  lemma InputsMeanNodes(c: Setup, s: Framework)
    requires QueueFits(c, s) && |s.pool.queued| > Queued(c, s.control)
    ensures c.ins > 0
  {
    assert s.pool.queued[Queued(c, s.control)..][0].InJob?;
  }

  /** Between two rounds the queue has seen the initial jobs and some number of whole rounds, each node once in each. */
  lemma QueuedInRounds(c: Setup, steps: seq<Step>) returns (n: nat)
    requires var s := Exec(c, Init(), steps); s.main.LoopTest? || s.main.Ended?
    ensures Exec(c, Init(), steps).pool.queued == Initial(c) + Repeat(n, InRound(c))
  {
    InvAlways(c, steps);
    var s := Exec(c, Init(), steps);
    var q, m := s.pool.queued, |Initial(c)|;
    assert Initial(c)[..m] == Initial(c) && q == q[..m] + q[m..];
    if |q| == m {
      n := 0;
      assert q[m..] == Repeat(0, InRound(c));
    } else {
      InputsMeanNodes(c, s);
      n := (|q| - m) / c.ins;
      assert |q| - m == c.ins * n;
      forall p | 0 <= p < |q| - m ensures p < |Repeat(n, InRound(c))| && q[m..][p] == Repeat(n, InRound(c))[p] {
        RepeatAt(c, n, p);
      }
      RepeatAt(c, n, 0);
      assert q[m..] == Repeat(n, InRound(c));
    }
  }

  lemma InputJobAt(c: Setup, s: Framework, p: nat)
    requires ControlFits(c, s) && QueueFits(c, s) && |Initial(c)| + p < |s.pool.queued|
    ensures c.ins > 0 && s.pool.queued[|Initial(c)| + p] == InJob(p % c.ins)
  {
    assert Queued(c, s.control) == |Initial(c)|;
    assert s.pool.queued[|Initial(c)|..][p] == s.pool.queued[|Initial(c)| + p];
  }

  /** On every run the job after the initial ones and p others is that of node p modulo the number of input nodes. */
  lemma InputJobsInOrder(c: Setup, steps: seq<Step>, p: nat)
    ensures var s := Exec(c, Init(), steps);
      && (|Initial(c)| + p < |s.pool.queued| ==> c.ins > 0 && s.pool.queued[|Initial(c)| + p] == InJob(p % c.ins))
      && (|Initial(c)| + p < |s.pool.dispatched| ==> c.ins > 0 && s.pool.dispatched[|Initial(c)| + p] == InJob(p % c.ins))
  {
    InvAlways(c, steps);
    var s := Exec(c, Init(), steps);
    if |Initial(c)| + p < |s.pool.queued| {
      InputJobAt(c, s, p);
    }
    if |Initial(c)| + p < |s.pool.dispatched| {
      assert s.pool.queued[|Initial(c)| + p] == s.pool.dispatched[|Initial(c)| + p];
    }
  }

  // ---- How many long-running jobs there are ----

  /** The consumers whose file opens. */
  function Drains(outs: seq<OutNode>): nat {
    if outs == [] then 0 else Drains(outs[..|outs| - 1]) + if outs[|outs| - 1] == Drain(true) then 1 else 0
  }

  lemma {:induction false} LongJobsUpTo(c: Setup, m: nat)
    requires m <= |c.outs|
    ensures LongIn(c, Initial(c)[..m + 1]) == 1 + Drains(c.outs[..m])
  {
    if m == 0 {
      assert Initial(c)[..1] == [Broadcast] && [Broadcast][..0] == [];
    } else {
      LongJobsUpTo(c, m - 1);
      assert Initial(c)[..m + 1][..m] == Initial(c)[..m] && c.outs[..m][..m - 1] == c.outs[..m - 1];
    }
  }

  /** The broadcaster and the consumers whose file opens are the long-running jobs. */
  lemma LongJobs(c: Setup)
    ensures LongIn(c, Initial(c)) == 1 + Drains(c.outs)
  {
    LongJobsUpTo(c, |c.outs|);
    assert Initial(c)[..|Initial(c)|] == Initial(c) && c.outs[..|c.outs|] == c.outs;
  }

  // ---- Submissions ----

  lemma OwedStep(c: Setup, s: Framework, step: Step)
    requires s.pool.unnotified <= 1
    ensures Do(c, s, step).pool.unnotified <= 1
  {
  }

  /** Only one thread submits jobs at a time, and it notifies before it goes on: no more than one notification is ever owed. */
  lemma {:induction false} OneNotificationOwed(c: Setup, steps: seq<Step>)
    ensures Exec(c, Init(), steps).pool.unnotified <= 1
  {
    if steps != [] {
      OneNotificationOwed(c, steps[..|steps| - 1]);
      OwedStep(c, Exec(c, Init(), steps[..|steps| - 1]), steps[|steps| - 1]);
    }
  }
}
