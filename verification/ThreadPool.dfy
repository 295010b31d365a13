/**
  The thread pool: workers that share a job queue, a mutex and a condition variable. A critical
  section is one step; the notification that follows a push, outside the mutex, is a step of its own.
 */
module ThreadPools {

  datatype Worker<J> =
    | Awake        // at the top of its loop or woken up, about to lock the mutex
    | Waiting      // asleep on the condition variable
    | Running(job: J)
    | Exited

  /**
    `unnotified` counts the callers that have pushed and not yet notified, `notifyAll` says that a stop
    has set the flag and not yet notified. The last three fields record the history.
   */
  datatype Pool<J> = Pool(
    workers: seq<Worker<J>>, jobs: seq<J>, terminate: bool, unnotified: nat, notifyAll: bool,
    queued: seq<J>, dispatched: seq<J>, completed: seq<J>)

  datatype Step<J> =
    | Start(nproc: nat)
    | Enqueue(job: J)
    | NotifyOne(w: nat) // wakes worker w if any worker waits
    | Spurious(w: nat)  // worker w wakes up for no reason
    | Take(w: nat)      // worker w locks the mutex and exits, sleeps or takes a job
    | Finish(w: nat)    // worker w's job returns
    | Terminate
    | NotifyAll

  function Init<J>(): Pool<J> {
    Pool([], [], false, 0, false, [], [], [])
  }

  predicate SomeWaiting<J>(ws: seq<Worker<J>>) {
    exists w :: 0 <= w < |ws| && ws[w].Waiting?
  }

  predicate AllExited<J>(ws: seq<Worker<J>>) {
    forall w :: 0 <= w < |ws| ==> ws[w].Exited?
  }

  predicate Enabled<J>(p: Pool<J>, step: Step<J>) {
    match step
    case Start(_) => p.workers == []
    case Enqueue(_) => true
    case NotifyOne(w) => p.unnotified > 0 && (SomeWaiting(p.workers) ==> w < |p.workers| && p.workers[w].Waiting?)
    case Spurious(w) => w < |p.workers| && p.workers[w].Waiting?
    case Take(w) => w < |p.workers| && p.workers[w].Awake?
    case Finish(w) => w < |p.workers| && p.workers[w].Running?
    case Terminate => !p.terminate
    case NotifyAll => p.notifyAll
  }

  /** A step that is not enabled changes nothing. */
  function Do<J>(p: Pool<J>, step: Step<J>): Pool<J> {
    if !Enabled(p, step) then p else
    match step
    case Start(nproc) => p.(workers := seq(nproc, _ => Awake))
    case Enqueue(job) => p.(jobs := p.jobs + [job], unnotified := p.unnotified + 1, queued := p.queued + [job])
    case NotifyOne(w) =>
      p.(unnotified := p.unnotified - 1, workers := if SomeWaiting(p.workers) then p.workers[w := Awake] else p.workers)
    case Spurious(w) => p.(workers := p.workers[w := Awake])
    case Take(w) =>
      if p.terminate then p.(workers := p.workers[w := Exited])
      else if p.jobs == [] then p.(workers := p.workers[w := Waiting])
      else p.(workers := p.workers[w := Running(p.jobs[0])], jobs := p.jobs[1..], dispatched := p.dispatched + [p.jobs[0]])
    case Finish(w) => p.(workers := p.workers[w := Awake], completed := p.completed + [p.workers[w].job])
    case Terminate => p.(terminate := true, notifyAll := true)
    case NotifyAll => p.(notifyAll := false, workers := WakeAll(p.workers))
  }

  function WakeAll<J>(ws: seq<Worker<J>>): (woken: seq<Worker<J>>)
    ensures |woken| == |ws| && !SomeWaiting(woken)
    ensures forall w :: 0 <= w < |ws| ==> woken[w] == if ws[w].Waiting? then Awake else ws[w]
  {
    seq(|ws|, w requires 0 <= w < |ws| => if ws[w].Waiting? then Awake else ws[w])
  }

  function Exec<J>(p: Pool<J>, steps: seq<Step<J>>): Pool<J> {
    if steps == [] then p else Do(Exec(p, steps[..|steps| - 1]), steps[|steps| - 1])
  }

  // ---- Counting workers ----

  function AwakeCount<J>(ws: seq<Worker<J>>): nat {
    if ws == [] then 0 else AwakeCount(ws[1..]) + if ws[0].Awake? then 1 else 0
  }

  /** How many workers run this job. */
  function RunningCount<J(==)>(ws: seq<Worker<J>>, job: J): nat {
    if ws == [] then 0 else RunningCount(ws[1..], job) + if ws[0] == Running(job) then 1 else 0
  }

  function Busy<J>(ws: seq<Worker<J>>): nat {
    if ws == [] then 0 else Busy(ws[1..]) + if ws[0].Running? then 1 else 0
  }

  /** How far a worker is from having exited, once the flag is set. */
  function Distance<J>(ws: seq<Worker<J>>): nat {
    if ws == [] then 0 else Distance(ws[1..]) + match ws[0] case Exited => 0 case Awake => 1 case _ => 2
  }

  lemma {:induction false} CountsAfterUpdate<J>(ws: seq<Worker<J>>, w: nat, x: Worker<J>)
    requires w < |ws|
    ensures AwakeCount(ws[w := x]) == AwakeCount(ws) - (if ws[w].Awake? then 1 else 0) + if x.Awake? then 1 else 0
    ensures Distance(ws[w := x]) == Distance(ws)
      - (match ws[w] case Exited => 0 case Awake => 1 case _ => 2) + match x case Exited => 0 case Awake => 1 case _ => 2
  {
    if w == 0 {
      assert ws[0 := x][1..] == ws[1..];
    } else {
      CountsAfterUpdate(ws[1..], w - 1, x);
      assert ws[w := x][1..] == ws[1..][w - 1 := x];
    }
  }

  lemma {:induction false} RunningAfterUpdate<J>(ws: seq<Worker<J>>, w: nat, x: Worker<J>, job: J)
    requires w < |ws|
    ensures RunningCount(ws[w := x], job) ==
      RunningCount(ws, job) - (if ws[w] == Running(job) then 1 else 0) + if x == Running(job) then 1 else 0
  {
    if w == 0 {
      assert ws[0 := x][1..] == ws[1..];
    } else {
      RunningAfterUpdate(ws[1..], w - 1, x, job);
      assert ws[w := x][1..] == ws[1..][w - 1 := x];
    }
  }

  lemma {:induction false} CountsAfterWakeAll<J>(ws: seq<Worker<J>>, job: J)
    ensures RunningCount(WakeAll(ws), job) == RunningCount(ws, job)
  {
    if ws != [] {
      assert WakeAll(ws)[1..] == WakeAll(ws[1..]);
      CountsAfterWakeAll(ws[1..], job);
    }
  }

  lemma {:induction false} CountsAtStart<J>(nproc: nat, job: J)
    ensures RunningCount(seq(nproc, _ => Awake), job) == 0
  {
    if nproc > 0 {
      assert seq<Worker<J>>(nproc, _ => Awake)[1..] == seq<Worker<J>>(nproc - 1, _ => Awake);
      CountsAtStart(nproc - 1, job);
    }
  }

  lemma {:induction false} CountBounds<J>(ws: seq<Worker<J>>)
    ensures Busy(ws) + AwakeCount(ws) <= |ws|
    ensures AwakeCount(ws) > 0 ==> exists w :: 0 <= w < |ws| && ws[w].Awake?
  {
    if ws != [] {
      CountBounds(ws[1..]);
      if AwakeCount(ws[1..]) > 0 {
        var w :| 0 <= w < |ws[1..]| && ws[1..][w].Awake?;
        assert ws[w + 1].Awake?;
      }
    }
  }

  lemma {:induction false} NoneRunning<J>(ws: seq<Worker<J>>, job: J)
    requires AllExited(ws)
    ensures RunningCount(ws, job) == 0
  {
    if ws != [] {
      NoneRunning(ws[1..], job);
    }
  }

  // ---- Invariants of every run ----

  /** While the flag is not set, a sleeping worker means that every job has a notification or an awake worker coming. */
  ghost predicate NoLostWakeup<J>(p: Pool<J>) {
    !p.terminate && SomeWaiting(p.workers) ==> |p.jobs| <= p.unnotified + AwakeCount(p.workers)
  }

  /** Once the flag is set, a sleeping worker means that the notification to all is still to come. */
  ghost predicate StopIsAnnounced<J>(p: Pool<J>) {
    p.terminate && SomeWaiting(p.workers) ==> p.notifyAll
  }

  /** Jobs are dispatched in the order they were queued, once each, and every dispatched job is running or completed. */
  ghost predicate Conserved<J(!new)>(p: Pool<J>) {
    p.queued == p.dispatched + p.jobs && forall job :: Accounted(p, job)
  }

  /** Every dispatch of this job is either running or completed. */
  ghost predicate Accounted<J>(p: Pool<J>, job: J) {
    multiset(p.dispatched)[job] == multiset(p.completed)[job] + RunningCount(p.workers, job)
  }

  ghost predicate Inv<J(!new)>(p: Pool<J>) {
    NoLostWakeup(p) && StopIsAnnounced(p) && Conserved(p)
  }

  lemma WakeupStep<J>(p: Pool<J>, step: Step<J>)
    requires NoLostWakeup(p) && StopIsAnnounced(p)
    ensures NoLostWakeup(Do(p, step)) && StopIsAnnounced(Do(p, step))
  {
    if Enabled(p, step) {
      match step {
        case Take(w) =>
          var p' := Do(p, step);
          CountsAfterUpdate(p.workers, w, p'.workers[w]);
          assert forall v :: 0 <= v < |p.workers| && v != w ==> p'.workers[v] == p.workers[v];
        case Finish(w) => CountsAfterUpdate(p.workers, w, Awake);
        case Spurious(w) => CountsAfterUpdate(p.workers, w, Awake);
        case NotifyOne(w) =>
          if SomeWaiting(p.workers) {
            CountsAfterUpdate(p.workers, w, Awake);
          }
        case _ =>
      }
    }
  }

  /** A notification wakes exactly one sleeping worker, if there is one, and the submission it belongs to is no longer owed. */
  lemma NotifyWakesOne<J>(p: Pool<J>, w: nat)
    requires Enabled(p, NotifyOne(w))
    ensures var p' := Do(p, NotifyOne(w));
      && AwakeCount(p'.workers) == AwakeCount(p.workers) + (if SomeWaiting(p.workers) then 1 else 0)
      && |p'.workers| == |p.workers|
      && (forall v :: 0 <= v < |p.workers| && v != w ==> p'.workers[v] == p.workers[v])
      && (SomeWaiting(p.workers) ==> w < |p.workers| && p.workers[w].Waiting? && p'.workers[w].Awake?)
      && p' == p.(workers := p'.workers, unnotified := p.unnotified - 1)
  {
    if SomeWaiting(p.workers) {
      CountsAfterUpdate(p.workers, w, Awake);
    }
  }

  /** How a worker may go from one state to another, and by which step. */
  predicate WorkerMoves<J(==)>(p: Pool<J>, step: Step<J>, w: nat, from: Worker<J>, to: Worker<J>) {
    match from
    case Awake =>
      step == Take(w) &&
      to == if p.terminate then Exited else if p.jobs == [] then Waiting else Running(p.jobs[0])
    case Waiting => to == Awake && (step == NotifyOne(w) || step == Spurious(w) || step == NotifyAll)
    case Running(_) => to == Awake && step == Finish(w)
    case Exited => false
  }

  /** Each worker follows the loop of the original: nothing else ever changes it, and one that has exited stays so. */
  lemma WorkersFollowLoop<J>(p: Pool<J>, step: Step<J>, w: nat)
    requires w < |p.workers|
    ensures |Do(p, step).workers| == |p.workers|
    ensures Do(p, step).workers[w] != p.workers[w] ==> WorkerMoves(p, step, w, p.workers[w], Do(p, step).workers[w])
  {
  }

  lemma AccountedStep<J>(p: Pool<J>, step: Step<J>, job: J)
    requires Accounted(p, job)
    ensures Accounted(Do(p, step), job)
  {
    if Enabled(p, step) {
      match step {
        case Start(nproc) => CountsAtStart(nproc, job); assert RunningCount(p.workers, job) == 0;
        case Take(w) => RunningAfterUpdate(p.workers, w, Do(p, step).workers[w], job);
        case Finish(w) => RunningAfterUpdate(p.workers, w, Awake, job);
        case Spurious(w) => RunningAfterUpdate(p.workers, w, Awake, job);
        case NotifyOne(w) =>
          if SomeWaiting(p.workers) {
            RunningAfterUpdate(p.workers, w, Awake, job);
          }
        case NotifyAll => CountsAfterWakeAll(p.workers, job);
        case _ =>
      }
    }
  }

  lemma ConservedStep<J(!new)>(p: Pool<J>, step: Step<J>)
    requires Conserved(p)
    ensures Conserved(Do(p, step))
  {
    forall job ensures Accounted(Do(p, step), job) {
      AccountedStep(p, step, job);
    }
    assert p.jobs != [] ==> p.jobs == [p.jobs[0]] + p.jobs[1..];
  }

  lemma InvStep<J(!new)>(p: Pool<J>, step: Step<J>)
    requires Inv(p)
    ensures Inv(Do(p, step))
  {
    WakeupStep(p, step);
    ConservedStep(p, step);
  }

  lemma {:induction false} InvAlways<J(!new)>(steps: seq<Step<J>>)
    ensures Inv(Exec(Init<J>(), steps))
  {
    if steps != [] {
      InvAlways(steps[..|steps| - 1]);
      InvStep(Exec(Init<J>(), steps[..|steps| - 1]), steps[|steps| - 1]);
    }
  }

  /** The jobs that the schedule submits, in order. */
  function Submitted<J>(steps: seq<Step<J>>): seq<J> {
    if steps == [] then []
    else
      var last := steps[|steps| - 1];
      Submitted(steps[..|steps| - 1]) + if last.Enqueue? then [last.job] else []
  }

  lemma QueuedStep<J>(p: Pool<J>, step: Step<J>)
    ensures Do(p, step).queued == p.queued + if step.Enqueue? then [step.job] else []
  {
  }

  lemma {:induction false} SubmittedIsQueued<J>(steps: seq<Step<J>>)
    ensures Submitted(steps) == Exec(Init<J>(), steps).queued
  {
    if steps != [] {
      SubmittedIsQueued(steps[..|steps| - 1]);
      QueuedStep(Exec(Init<J>(), steps[..|steps| - 1]), steps[|steps| - 1]);
    }
  }

  /** What was submitted is what was dispatched, in the same order, followed by the jobs that are still in the queue. */
  lemma SubmittedIsDispatchedOrQueued<J(!new)>(steps: seq<Step<J>>)
    ensures var p := Exec(Init<J>(), steps); Submitted(steps) == p.queued == p.dispatched + p.jobs
  {
    SubmittedIsQueued(steps);
    InvAlways(steps);
  }

  /** How many workers the run has started. */
  function Started<J>(steps: seq<Step<J>>): nat {
    if steps == [] then 0
    else
      var before, last := steps[..|steps| - 1], steps[|steps| - 1];
      if last.Start? && Started(before) == 0 then last.nproc else Started(before)
  }

  lemma {:induction false} BusyAfterUpdate<J>(ws: seq<Worker<J>>, w: nat, x: Worker<J>)
    requires w < |ws|
    ensures Busy(ws[w := x]) == Busy(ws) - (if ws[w].Running? then 1 else 0) + if x.Running? then 1 else 0
  {
    if w == 0 {
      assert ws[0 := x][1..] == ws[1..];
    } else {
      BusyAfterUpdate(ws[1..], w - 1, x);
      assert ws[w := x][1..] == ws[1..][w - 1 := x];
    }
  }

  lemma {:induction false} BusyAfterWakeAll<J>(ws: seq<Worker<J>>)
    ensures Busy(WakeAll(ws)) == Busy(ws)
  {
    if ws != [] {
      assert WakeAll(ws)[1..] == WakeAll(ws[1..]);
      BusyAfterWakeAll(ws[1..]);
    }
  }

  lemma {:induction false} BusyAtStart<J>(nproc: nat)
    ensures Busy(seq<Worker<J>>(nproc, _ => Awake)) == 0
  {
    if nproc > 0 {
      assert seq<Worker<J>>(nproc, _ => Awake)[1..] == seq<Worker<J>>(nproc - 1, _ => Awake);
      BusyAtStart<J>(nproc - 1);
    }
  }

  /** The jobs that were dispatched and have not returned are those that workers are running. */
  ghost predicate BusyFits<J>(p: Pool<J>) {
    |p.dispatched| == |p.completed| + Busy(p.workers)
  }

  lemma BusyStep<J>(p: Pool<J>, step: Step<J>)
    requires BusyFits(p)
    ensures BusyFits(Do(p, step))
  {
    if Enabled(p, step) {
      match step {
        case Start(nproc) => BusyAtStart<J>(nproc);
        case Take(w) => BusyAfterUpdate(p.workers, w, Do(p, step).workers[w]);
        case Finish(w) => BusyAfterUpdate(p.workers, w, Awake);
        case Spurious(w) => BusyAfterUpdate(p.workers, w, Awake);
        case NotifyOne(w) =>
          if SomeWaiting(p.workers) {
            BusyAfterUpdate(p.workers, w, Awake);
          }
        case NotifyAll => BusyAfterWakeAll(p.workers);
        case _ =>
      }
    }
  }

  lemma {:induction false} BusyAlways<J>(steps: seq<Step<J>>)
    ensures BusyFits(Exec(Init<J>(), steps)) && |Exec(Init<J>(), steps).workers| == Started(steps)
  {
    if steps != [] {
      BusyAlways(steps[..|steps| - 1]);
      BusyStep(Exec(Init<J>(), steps[..|steps| - 1]), steps[|steps| - 1]);
    }
  }

  /**
    Every job is dispatched at most as often as it was queued; the dispatched jobs that have not returned are being run,
    and are never more than the threads that were started.
   */
  lemma DispatchedOnceEach<J(!new)>(steps: seq<Step<J>>, job: J)
    ensures var p := Exec(Init<J>(), steps);
      && p.dispatched <= p.queued
      && multiset(p.completed)[job] + RunningCount(p.workers, job) + multiset(p.jobs)[job] == multiset(p.queued)[job]
      && |p.dispatched| - |p.completed| == Busy(p.workers) <= Started(steps)
  {
    InvAlways(steps);
    assert Accounted(Exec(Init<J>(), steps), job);
    CountBounds(Exec(Init<J>(), steps).workers);
    BusyAlways(steps);
  }

  /** No lost wakeup: if all workers sleep beside a non-empty queue, each job still has a notification coming. */
  lemma NobodyOversleeps<J(!new)>(steps: seq<Step<J>>)
    requires var p := Exec(Init<J>(), steps);
      !p.terminate && p.workers != [] && forall w :: 0 <= w < |p.workers| ==> p.workers[w].Waiting?
    ensures var p := Exec(Init<J>(), steps); p.unnotified >= |p.jobs|
  {
    InvAlways(steps);
    var p := Exec(Init<J>(), steps);
    assert p.workers[0].Waiting?;
    CountBounds(p.workers);
  }

  // ---- Progress before a stop ----

  /** A worker takes the head of the queue. */
  ghost predicate HeadTaken<J>(p: Pool<J>, p': Pool<J>, v: nat)
    requires p.jobs != []
  {
    && |p'.workers| == |p.workers| && v < |p.workers|
    && p'.workers[v] == Running(p.jobs[0]) && !p.workers[v].Exited?
    && p'.jobs == p.jobs[1..] && p'.dispatched == p.dispatched + [p.jobs[0]]
    && p'.terminate == p.terminate && p'.queued == p.queued && p'.unnotified <= p.unnotified
    && forall u :: 0 <= u < |p.workers| && u != v ==> p'.workers[u] == p.workers[u]
  }

  /**
    The head of the queue is at most two steps from being dispatched when some worker w is awake, asleep
    or running a job that returns; no spurious wakeup is needed.
   */
  lemma HeadIsDispatchable<J>(p: Pool<J>, w: nat) returns (v: nat, steps: seq<Step<J>>)
    requires NoLostWakeup(p) && !p.terminate && p.jobs != []
    requires w < |p.workers| && !p.workers[w].Exited?
    ensures steps == [Take(v)] || (v == w && steps == [Finish(w), Take(w)]) || (v == w && steps == [NotifyOne(w), Take(w)])
    ensures Enabled(p, steps[0]) && (|steps| == 2 ==> Enabled(Do(p, steps[0]), steps[1]))
    ensures steps == [Take(v)] ==> p.workers[v].Awake?
    ensures HeadTaken(p, if |steps| == 1 then Do(p, steps[0]) else Do(Do(p, steps[0]), steps[1]), v)
  {
    match p.workers[w] {
      case Awake => v, steps := w, [Take(w)];
      case Running(_) => v, steps := w, [Finish(w), Take(w)];
      case Waiting =>
        assert SomeWaiting(p.workers);
        if AwakeCount(p.workers) > 0 {
          CountBounds(p.workers);
          var a :| 0 <= a < |p.workers| && p.workers[a].Awake?;
          v, steps := a, [Take(a)];
        } else {
          v, steps := w, [NotifyOne(w), Take(w)];
        }
    }
  }

  // ---- Shutdown ----

  /** An upper bound on what is left to do once the flag is set. */
  function Remaining<J>(p: Pool<J>): nat {
    Distance(p.workers) + p.unnotified + if p.notifyAll then 1 else 0
  }

  lemma {:induction false} WakeAllDistance<J>(ws: seq<Worker<J>>)
    ensures Distance(WakeAll(ws)) <= Distance(ws)
  {
    if ws != [] {
      assert WakeAll(ws)[1..] == WakeAll(ws[1..]);
      WakeAllDistance(ws[1..]);
    }
  }

  /** No worker sleeps that did not before. */
  predicate NobodyFallsAsleep<J>(p: Pool<J>, p': Pool<J>) {
    |p'.workers| == |p.workers| && forall w :: 0 <= w < |p.workers| && p'.workers[w].Waiting? ==> p.workers[w].Waiting?
  }

  /** After the flag is set nothing is dispatched, no worker starts waiting, and every step but a push brings the end nearer. */
  lemma ShutdownStep<J>(p: Pool<J>, step: Step<J>)
    requires p.terminate && !step.Start?
    ensures var p' := Do(p, step);
      && p'.terminate && p'.dispatched == p.dispatched && p.jobs <= p'.jobs && NobodyFallsAsleep(p, p')
      && (step.Enqueue? ==> Remaining(p') == Remaining(p) + 1)
      && (!step.Enqueue? && Enabled(p, step) ==> Remaining(p') < Remaining(p))
  {
    if Enabled(p, step) {
      match step {
        case Take(w) => CountsAfterUpdate(p.workers, w, Exited);
        case Finish(w) => CountsAfterUpdate(p.workers, w, Awake);
        case Spurious(w) => CountsAfterUpdate(p.workers, w, Awake);
        case NotifyOne(w) =>
          if SomeWaiting(p.workers) {
            CountsAfterUpdate(p.workers, w, Awake);
          }
        case NotifyAll => WakeAllDistance(p.workers);
        case _ =>
      }
    }
  }

  function Pushes<J>(steps: seq<Step<J>>): nat {
    if steps == [] then 0 else Pushes(steps[..|steps| - 1]) + if steps[|steps| - 1].Enqueue? then 1 else 0
  }

  /** The number of steps of the schedule that do something, other than pushes. */
  function Work<J>(p: Pool<J>, steps: seq<Step<J>>): nat {
    if steps == [] then 0
    else
      var before, step := steps[..|steps| - 1], steps[|steps| - 1];
      Work(p, before) + if !step.Enqueue? && Enabled(Exec(p, before), step) then 1 else 0
  }

  predicate NoStart<J>(steps: seq<Step<J>>) {
    forall k :: 0 <= k < |steps| ==> !steps[k].Start?
  }

  /** After the flag is set only boundedly many steps are left, pushes aside, no job is dispatched and no worker starts waiting any more. */
  lemma {:induction false} ShutdownIsBounded<J>(p: Pool<J>, steps: seq<Step<J>>)
    requires p.terminate && NoStart(steps)
    ensures var p' := Exec(p, steps);
      && p'.terminate && p'.dispatched == p.dispatched && p.jobs <= p'.jobs && NobodyFallsAsleep(p, p')
      && Work(p, steps) + Remaining(p') <= Remaining(p) + Pushes(steps)
  {
    if steps != [] {
      ShutdownIsBounded(p, steps[..|steps| - 1]);
      ShutdownStep(Exec(p, steps[..|steps| - 1]), steps[|steps| - 1]);
    }
  }

  /** Until all workers have exited, some step other than a push or a spurious wakeup is possible. */
  lemma ShutdownIsNotStuck<J>(p: Pool<J>) returns (step: Step<J>)
    requires p.terminate && StopIsAnnounced(p) && !AllExited(p.workers)
    ensures Enabled(p, step) && (step.Take? || step.Finish? || step.NotifyAll?)
  {
    var w :| 0 <= w < |p.workers| && !p.workers[w].Exited?;
    match p.workers[w] {
      case Awake => step := Take(w);
      case Running(_) => step := Finish(w);
      case Waiting => assert SomeWaiting(p.workers); step := NotifyAll;
    }
  }

  /** A stop completes exactly the jobs that were queued before it when, and only when, the queue was empty at that moment. */
  lemma StopDrainsIff<J(!new)>(before: seq<Step<J>>, after: seq<Step<J>>)
    requires NoStart(after)
    requires Exec(Init<J>(), before).terminate && AllExited(Exec(Exec(Init<J>(), before), after).workers)
    ensures var p, p' := Exec(Init<J>(), before), Exec(Exec(Init<J>(), before), after);
      && multiset(p'.completed) == multiset(p.dispatched)
      && (multiset(p'.completed) == multiset(p.queued) <==> p.jobs == [])
  {
    var p, p' := Exec(Init<J>(), before), Exec(Exec(Init<J>(), before), after);
    ExecConcat(Init<J>(), before, after);
    InvAlways(before);
    InvAlways(before + after);
    ShutdownIsBounded(p, after);
    forall job ensures multiset(p'.completed)[job] == multiset(p'.dispatched)[job] {
      assert Accounted(p', job);
      NoneRunning(p'.workers, job);
    }
    assert multiset(p.queued) == multiset(p.dispatched) + multiset(p.jobs);
    if p.jobs != [] {
      assert multiset(p.queued)[p.jobs[0]] > multiset(p.dispatched)[p.jobs[0]];
    }
  }

  lemma {:induction false} ExecConcat<J>(p: Pool<J>, a: seq<Step<J>>, b: seq<Step<J>>)
    ensures Exec(p, a + b) == Exec(Exec(p, a), b)
  {
    if b == [] {
      assert a + b == a;
    } else {
      assert (a + b)[..|a + b| - 1] == a + b[..|b| - 1];
      ExecConcat(p, a, b[..|b| - 1]);
    }
  }

  lemma ExecTwo<J>(p: Pool<J>, a: Step<J>, b: Step<J>)
    ensures Exec(p, [a, b]) == Do(Do(p, a), b)
  {
    assert [a, b] == [a] + [b] && [a][..0] == [] && [b][..0] == [];
    ExecConcat(p, [a], [b]);
  }

  /** A stop that leaves a job behind: the one worker finds the flag set before it looks at the queue. */
  lemma StopLeavesJob<J>(job: J)
    ensures var before: seq<Step<J>>, after := [Start(1), Enqueue(job)] + [Terminate], [Take(0)];
      var p, p' := Exec(Init<J>(), before), Exec(Exec(Init<J>(), before), after);
      p.terminate && NoStart(after) && AllExited(p'.workers) && p'.queued == [job] && p'.jobs == [job] && p'.completed == []
  {
    var before: seq<Step<J>>, after: seq<Step<J>> := [Start(1), Enqueue(job)] + [Terminate], [Take(0)];
    ExecConcat(Init<J>(), [Start(1), Enqueue(job)], [Terminate]);
    ExecTwo(Init<J>(), Start(1), Enqueue(job));
    assert [Step<J>.Terminate][..0] == [] && after[..0] == [];
    var p := Exec(Init<J>(), before);
    assert p == Pool([Awake], [job], true, 1, true, [job], [], []);
    assert Exec(p, after) == Do(p, Take(0));
  }

  // ---- Submissions by one thread ----

  /** One thread's submissions: each push is followed by its notification, to the given worker. */
  function Submissions<J>(jobs: seq<J>, wakes: seq<nat>): seq<Step<J>>
    requires |wakes| == |jobs|
  {
    if jobs == [] then []
    else Submissions(jobs[..|jobs| - 1], wakes[..|jobs| - 1]) + [Enqueue(jobs[|jobs| - 1]), NotifyOne(wakes[|jobs| - 1])]
  }

  lemma SubmitOneMore<J>(p: Pool<J>, jobs: seq<J>, wakes: seq<nat>, job: J, w: nat)
    requires |wakes| == |jobs|
    ensures Exec(p, Submissions(jobs + [job], wakes + [w])) ==
      Do(Do(Exec(p, Submissions(jobs, wakes)), Enqueue(job)), NotifyOne(w))
  {
    var before, two := Submissions(jobs, wakes), [Enqueue(job), NotifyOne(w)];
    assert (jobs + [job])[..|jobs|] == jobs && (wakes + [w])[..|jobs|] == wakes;
    assert Submissions(jobs + [job], wakes + [w]) == before + two;
    ExecConcat(p, before, two);
    assert two[..1] == [Enqueue(job)] && [Enqueue(job)][..0] == [];
    assert Exec(p, before + two) == Exec(Exec(p, before), two);
    assert Exec(Exec(p, before), two[..1]) == Do(Exec(p, before), Enqueue(job));
  }

  // ---- The pool object ----

  /** The pool's own fields; the ghost fields record callers between push and notify, and the history. */
  class ThreadPool<J(==)> {
    const nproc: nat
    var workers: seq<Worker<J>>
    var jobs: seq<J>
    var shouldTerminate: bool
    ghost var unnotified: nat
    ghost var notifyAll: bool
    ghost var queued: seq<J>
    ghost var dispatched: seq<J>
    ghost var completed: seq<J>

    ghost function View(): Pool<J>
      reads this
    {
      Pool(workers, jobs, shouldTerminate, unnotified, notifyAll, queued, dispatched, completed)
    }

    constructor (nproc: nat)
      ensures this.nproc == nproc && View() == Init()
    {
      this.nproc := nproc;
      workers, jobs, shouldTerminate := [], [], false;
      unnotified, notifyAll, queued, dispatched, completed := 0, false, [], [], [];
    }

    method Start()
      requires workers == []
      modifies `workers
      ensures View() == Do(old(View()), Step.Start(nproc))
    {
      for i := 0 to nproc
        invariant workers == seq(i, _ => Awake)
      {
        workers := workers + [Awake];
      }
    }

    /** The critical section of a job submission; the notification is a separate step. */
    method PushJob(job: J)
      modifies `jobs, `queued, `unnotified
      ensures View() == Do(old(View()), Enqueue(job))
    {
      jobs := jobs + [job];
      queued := queued + [job];
      unnotified := unnotified + 1;
    }

    /** Wakes the given sleeping worker; without a sleeping worker the notification goes nowhere. */
    method Notify(w: nat)
      requires Enabled(View(), NotifyOne(w))
      modifies `workers, `unnotified
      ensures View() == Do(old(View()), NotifyOne(w))
    {
      unnotified := unnotified - 1;
      if w < |workers| && workers[w] == Waiting {
        workers := workers[w := Awake];
      }
    }

    /** A whole submission: the push, and then the notification, which wakes some sleeping worker if there is one. */
    method QueueJob(job: J) returns (w: nat)
      modifies this
      ensures Enabled(Do(old(View()), Enqueue(job)), NotifyOne(w))
      ensures View() == Do(Do(old(View()), Enqueue(job)), NotifyOne(w))
      ensures jobs == old(jobs) + [job] && queued == old(queued) + [job]
      ensures unnotified == old(unnotified) && |workers| == |old(workers)|
    {
      PushJob(job);
      w := 0;
      while w < |workers| && workers[w] != Waiting
        invariant w <= |workers|
        invariant forall v :: 0 <= v < w ==> workers[v] != Waiting
      {
        w := w + 1;
      }
      Notify(w);
    }

    /** The critical section of worker w's loop: sleep, return, or take the job at the front. */
    method LockAndTake(w: nat) returns (running: bool)
      requires w < |workers| && workers[w].Awake?
      modifies `workers, `jobs, `dispatched
      ensures View() == Do(old(View()), Take(w))
      ensures running <==> workers[w].Running?
      ensures running ==> !shouldTerminate && old(jobs) == [workers[w].job] + jobs
    {
      running := false;
      if !(|jobs| > 0 || shouldTerminate) {
        workers := workers[w := Waiting];
      } else if shouldTerminate {
        workers := workers[w := Exited];
      } else {
        var job := jobs[0];
        jobs := jobs[1..];
        workers := workers[w := Running(job)];
        dispatched := dispatched + [job];
        running := true;
      }
    }

    method JobReturns(w: nat)
      requires w < |workers| && workers[w].Running?
      modifies `workers, `completed
      ensures View() == Do(old(View()), Finish(w))
    {
      completed := completed + [workers[w].job];
      workers := workers[w := Awake];
    }

    /** The critical section of a stop; the notification to all is a separate step. */
    method SetTerminate()
      modifies `shouldTerminate, `notifyAll
      ensures View() == (if old(shouldTerminate) then old(View()).(notifyAll := true) else Do(old(View()), Terminate))
    {
      shouldTerminate := true;
      notifyAll := true;
    }

    method WakeEveryone()
      requires notifyAll
      modifies `workers, `notifyAll
      ensures View() == Do(old(View()), NotifyAll)
    {
      for w := 0 to |workers|
        invariant |workers| == |old(workers)|
        invariant forall v :: 0 <= v < w ==> workers[v] == if old(workers)[v].Waiting? then Awake else old(workers)[v]
        invariant forall v :: w <= v < |workers| ==> workers[v] == old(workers)[v]
      {
        if workers[w] == Waiting {
          workers := workers[w := Awake];
        }
      }
      notifyAll := false;
      assert workers == WakeAll(old(workers));
    }
  }
}
