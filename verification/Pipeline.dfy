/**
  The framework and the queues in one step system. The broadcaster of module BroadcastSteps runs inside the pool's
  job that the framework queues first, client k is the consumer at node k of the output proxy, and all other clients
  push. A long-running job returns only when its thread has really come to the end of its loop: what module
  Frameworks takes as given is proved here.
 */
module Pipeline {
  import opened Channels
  import F = Frameworks
  import B = BroadcastSteps
  import G = BroadcastProgress
  import D = FrameworkShutdown
  import P = ThreadPools
  import H = FeederThreshold

  datatype Joint<T> = Joint(f: F.Framework, s: B.Sys<T>)

  datatype Move<T> = Frame(step: F.Step) | Queues(act: B.Step<T>)

  function Init<T>(inputs: nat, outputs: nat, clients: nat): Joint<T> {
    Joint(F.Init(), B.Init(inputs, outputs, clients))
  }

  /** The job that worker w runs. */
  predicate RunsJob(f: F.Framework, w: nat, job: F.Job) {
    F.Runs(f, w) && f.pool.workers[w].job == job
  }

  /** The thread of a long-running job has left its loop: the broadcaster after a pass, a consumer between two pops. */
  predicate LeftLoop<T>(s: B.Sys<T>, job: F.Job) {
    match job
    case Broadcast => s.caster == B.Done
    case OutJob(k) => k < |s.clients| ==> s.clients[k].Rest?
    case InJob(_) => true
  }

  /** What the framework says about a step of the queues' threads. */
  predicate MayAct<T>(c: F.Setup, j: Joint<T>, act: B.Step<T>) {
    match act
    case Cast => j.s.caster != B.Off                   // the broadcaster starts when its job does
    case RequestStop => false                          // that is the framework's doing
    case StartPush(k, _, _) => k >= |c.outs|
    case StartPop(k, _) => F.OutJob(k) in j.f.raised   // the consumer's loop test
    case Advance(_) => true
  }

  predicate Enabled<T>(c: F.Setup, j: Joint<T>, move: Move<T>) {
    match move
    case Frame(step) =>
      F.Enabled(c, j.f, step) && (step.Return? ==>
        (F.Long(c, j.f.pool.workers[step.w].job) ==> LeftLoop(j.s, j.f.pool.workers[step.w].job)))
    case Queues(act) => B.Enabled(j.s, act) && MayAct(c, j, act)
  }

  /** What a step of the framework does to the queues' threads: the broadcaster starts, or its flag is cleared. */
  function Effect<T>(f: F.Framework, step: F.Step): seq<B.Step<T>> {
    if step.Enter? && RunsJob(f, step.w, F.Broadcast) then [B.Cast]
    else if step.Ctl? && f.control.ClearBroadcast? then [B.RequestStop]
    else []
  }

  function Do<T>(c: F.Setup, j: Joint<T>, move: Move<T>): Joint<T> {
    if !Enabled(c, j, move) then j else
    match move
    case Frame(step) =>
      var effect := Effect<T>(j.f, step);
      Joint(F.Do(c, j.f, step), if effect == [] then j.s else B.Do(j.s, effect[0]))
    case Queues(act) => j.(s := B.Do(j.s, act))
  }

  function Exec<T>(c: F.Setup, j: Joint<T>, moves: seq<Move<T>>): Joint<T> {
    if moves == [] then j else Do(c, Exec(c, j, moves[..|moves| - 1]), moves[|moves| - 1])
  }

  lemma {:induction false} ExecConcat<T>(c: F.Setup, j: Joint<T>, a: seq<Move<T>>, b: seq<Move<T>>)
    ensures Exec(c, j, a + b) == Exec(c, Exec(c, j, a), b)
  {
    if b == [] {
      assert a + b == a;
    } else {
      assert (a + b)[..|a + b| - 1] == a + b[..|b| - 1];
      ExecConcat(c, j, a, b[..|b| - 1]);
    }
  }

  lemma ExecOne<T>(c: F.Setup, j: Joint<T>, move: Move<T>)
    ensures Exec(c, j, [move]) == Do(c, j, move)
  {
    assert [move][..0] == [];
  }

  // ---- Every run is a run of the framework and a run of the queues ----

  /** The step of the framework that a move is, if it is one. */
  function FrameStep<T>(c: F.Setup, j: Joint<T>, move: Move<T>): (steps: seq<F.Step>)
    ensures |steps| <= 1
  {
    if Enabled(c, j, move) && move.Frame? then [move.step] else []
  }

  /** The step of the queues' threads that a move is or brings about, if there is one. */
  function QueueStep<T>(c: F.Setup, j: Joint<T>, move: Move<T>): (steps: seq<B.Step<T>>)
    ensures |steps| <= 1
  {
    if !Enabled(c, j, move) then [] else if move.Queues? then [move.act] else Effect(j.f, move.step)
  }

  function FrameSteps<T>(c: F.Setup, j: Joint<T>, moves: seq<Move<T>>): seq<F.Step> {
    if moves == [] then []
    else
      var before := moves[..|moves| - 1];
      FrameSteps(c, j, before) + FrameStep(c, Exec(c, j, before), moves[|moves| - 1])
  }

  function QueueSteps<T>(c: F.Setup, j: Joint<T>, moves: seq<Move<T>>): seq<B.Step<T>> {
    if moves == [] then []
    else
      var before := moves[..|moves| - 1];
      QueueSteps(c, j, before) + QueueStep(c, Exec(c, j, before), moves[|moves| - 1])
  }

  lemma MoveIsSteps<T>(c: F.Setup, j: Joint<T>, move: Move<T>)
    ensures Do(c, j, move).f == if FrameStep(c, j, move) == [] then j.f else F.Do(c, j.f, FrameStep(c, j, move)[0])
    ensures Do(c, j, move).s == if QueueStep(c, j, move) == [] then j.s else B.Do(j.s, QueueStep(c, j, move)[0])
  {
  }

  lemma AtMostOne<T>(s: B.Sys<T>, steps: seq<B.Step<T>>, more: seq<B.Step<T>>)
    requires |more| <= 1
    ensures B.Exec(s, steps + more) == if more == [] then B.Exec(s, steps) else B.Do(B.Exec(s, steps), more[0])
  {
    if more == [] {
      assert steps + more == steps;
    } else {
      assert (steps + more)[..|steps + more| - 1] == steps;
    }
  }

  lemma AtMostOneFrame(c: F.Setup, f: F.Framework, steps: seq<F.Step>, more: seq<F.Step>)
    requires |more| <= 1
    ensures F.Exec(c, f, steps + more) == if more == [] then F.Exec(c, f, steps) else F.Do(c, F.Exec(c, f, steps), more[0])
  {
    if more == [] {
      assert steps + more == steps;
    } else {
      assert (steps + more)[..|steps + more| - 1] == steps;
    }
  }

  /** So what is proved of either step system holds of the pipeline. */
  lemma {:induction false} RunsOfBoth<T>(c: F.Setup, j: Joint<T>, moves: seq<Move<T>>)
    ensures Exec(c, j, moves).f == F.Exec(c, j.f, FrameSteps(c, j, moves))
    ensures Exec(c, j, moves).s == B.Exec(j.s, QueueSteps(c, j, moves))
  {
    if moves != [] {
      var before, last := moves[..|moves| - 1], moves[|moves| - 1];
      RunsOfBoth(c, j, before);
      var was := Exec(c, j, before);
      MoveIsSteps(c, was, last);
      AtMostOneFrame(c, j.f, FrameSteps(c, j, before), FrameStep(c, was, last));
      AtMostOne(j.s, QueueSteps(c, j, before), QueueStep(c, was, last));
    }
  }

  // ---- What ties the two together ----

  /** The broadcaster has started exactly when its job has set the flag, and the flag is the same in both. */
  ghost predicate Linked<T>(j: Joint<T>) {
    && (F.Broadcast in j.f.entered <==> j.s.caster != B.Off)
    && (F.Broadcast in j.f.raised <==> j.s.running)
    && (F.Broadcast in j.f.entered ==> F.Broadcast in j.f.pool.dispatched)
    && (F.Broadcast in j.f.pool.completed ==> j.s.caster == B.Done)
  }

  /** Jobs that have set their flag have been dispatched, and their flag is not set any more when they have returned. */
  ghost predicate EnteredFits(f: F.Framework) {
    forall job :: job in f.entered ==> job in f.pool.dispatched && (job in f.pool.completed ==> job !in f.raised)
  }

  predicate Popping<T>(pc: B.ClientPc<T>) {
    pc.TestWait? || pc.TestHold? || pc.MoveWait? || pc.MoveHold?
  }

  /** A client inside a pop is a consumer whose job has set its flag and not returned. */
  ghost predicate ConsumersFit<T>(j: Joint<T>) {
    forall k :: 0 <= k < |j.s.clients| && Popping(j.s.clients[k]) ==>
      F.OutJob(k) in j.f.entered && F.OutJob(k) !in j.f.pool.completed
  }

  ghost predicate Inv<T>(c: F.Setup, j: Joint<T>) {
    F.Inv(c, j.f) && B.Inv(j.s) && Linked(j) && EnteredFits(j.f) && ConsumersFit(j)
  }

  lemma {:induction false} RunningIsCounted(ws: seq<P.Worker<F.Job>>, w: nat)
    requires w < |ws| && ws[w].Running?
    ensures P.RunningCount(ws, ws[w].job) > 0
  {
    if w > 0 {
      RunningIsCounted(ws[1..], w - 1);
    }
  }

  /** A job that some worker runs has been dispatched. */
  lemma RunningIsDispatched(f: F.Framework, w: nat)
    requires P.Inv(f.pool) && F.Runs(f, w)
    ensures f.pool.workers[w].job in f.pool.dispatched
  {
    var job := f.pool.workers[w].job;
    RunningIsCounted(f.pool.workers, w);
    assert P.Accounted(f.pool, job);
    assert multiset(f.pool.dispatched)[job] > 0;
  }

  /** What a step of the framework leaves alone of what the link speaks about. */
  lemma FrameEffects(c: F.Setup, f: F.Framework, step: F.Step)
    requires F.Enabled(c, f, step)
    ensures var f' := F.Do(c, f, step);
      && (forall job :: job in f.pool.dispatched ==> job in f'.pool.dispatched)
      && (F.Broadcast in f'.entered <==> F.Broadcast in f.entered || (step.Enter? && RunsJob(f, step.w, F.Broadcast)))
      && (F.Broadcast in f'.raised <==>
        (F.Broadcast in f.raised && !(step.Ctl? && f.control.ClearBroadcast?)) || (step.Enter? && RunsJob(f, step.w, F.Broadcast)))
      && (F.Broadcast in f'.pool.completed <==>
        F.Broadcast in f.pool.completed || (step.Return? && RunsJob(f, step.w, F.Broadcast)))
  {
  }

  lemma FrameKeepsLink<T>(c: F.Setup, j: Joint<T>, step: F.Step)
    requires Inv(c, j) && Enabled(c, j, Frame(step))
    ensures Linked(Do(c, j, Frame(step)))
  {
    FrameEffects(c, j.f, step);
    if step.Enter? {
      RunningIsDispatched(j.f, step.w);
    }
  }

  lemma CasterStays<T>(s: B.Sys<T>, act: B.Step<T>)
    requires !act.RequestStop? && (act.Cast? ==> s.caster != B.Off)
    ensures var s' := B.Do(s, act);
      && s'.running == s.running && (s'.caster == B.Off <==> s.caster == B.Off) && (s.caster == B.Done ==> s'.caster == B.Done)
  {
  }

  lemma QueuesKeepLink<T>(c: F.Setup, j: Joint<T>, act: B.Step<T>)
    requires Inv(c, j) && Enabled(c, j, Queues(act))
    ensures Linked(Do(c, j, Queues(act)))
  {
    CasterStays(j.s, act);
  }

  lemma EnteredStep(c: F.Setup, f: F.Framework, step: F.Step)
    requires F.Inv(c, f) && EnteredFits(f) && F.Enabled(c, f, step)
    ensures EnteredFits(F.Do(c, f, step))
  {
    if step.Enter? {
      RunningIsDispatched(f, step.w);
    }
  }

  /** The only change of what a consumer's job has entered and completed that could matter is its return. */
  lemma FrameCompletes(c: F.Setup, f: F.Framework, step: F.Step, job: F.Job)
    requires F.Enabled(c, f, step)
    ensures job in f.entered ==> job in F.Do(c, f, step).entered
    ensures job in F.Do(c, f, step).pool.completed ==>
      job in f.pool.completed || (step.Return? && f.pool.workers[step.w].job == job)
  {
  }

  lemma FrameKeepsConsumers<T>(c: F.Setup, j: Joint<T>, step: F.Step)
    requires Inv(c, j) && Enabled(c, j, Frame(step))
    ensures ConsumersFit(Do(c, j, Frame(step)))
  {
    var j' := Do(c, j, Frame(step));
    forall k | 0 <= k < |j'.s.clients| && Popping(j'.s.clients[k])
      ensures F.OutJob(k) in j'.f.entered && F.OutJob(k) !in j'.f.pool.completed
    {
      FrameCompletes(c, j.f, step, F.OutJob(k));
      assert j'.s.clients == j.s.clients;
    }
  }

  lemma ClientStep<T>(s: B.Sys<T>, act: B.Step<T>, k: nat)
    requires B.ShapesFit(s) && B.Enabled(s, act) && k < |s.clients|
    ensures var s' := B.Do(s, act);
      |s'.clients| == |s.clients| && (Popping(s'.clients[k]) ==> Popping(s.clients[k]) || (act.StartPop? && act.k == k))
  {
  }

  lemma QueuesKeepConsumers<T>(c: F.Setup, j: Joint<T>, act: B.Step<T>)
    requires Inv(c, j) && Enabled(c, j, Queues(act))
    ensures ConsumersFit(Do(c, j, Queues(act)))
  {
    B.ShapesStep(j.s, act);
    forall k | 0 <= k < |j.s.clients| && Popping(B.Do(j.s, act).clients[k])
      ensures F.OutJob(k) in j.f.entered && F.OutJob(k) !in j.f.pool.completed
    {
      ClientStep(j.s, act, k);
    }
  }

  lemma InvStep<T>(c: F.Setup, j: Joint<T>, move: Move<T>)
    requires Inv(c, j)
    ensures Inv(c, Do(c, j, move))
  {
    if Enabled(c, j, move) {
      match move {
        case Frame(step) =>
          F.InvStep(c, j.f, step);
          FrameKeepsLink(c, j, step);
          EnteredStep(c, j.f, step);
          FrameKeepsConsumers(c, j, step);
          if Effect<T>(j.f, step) != [] {
            B.InvStep(j.s, Effect<T>(j.f, step)[0]);
          }
        case Queues(act) =>
          B.InvStep(j.s, act);
          QueuesKeepLink(c, j, act);
          QueuesKeepConsumers(c, j, act);
      }
    }
  }

  lemma {:induction false} InvRun<T>(c: F.Setup, j: Joint<T>, moves: seq<Move<T>>)
    requires Inv(c, j)
    ensures Inv(c, Exec(c, j, moves))
  {
    if moves != [] {
      InvRun(c, j, moves[..|moves| - 1]);
      InvStep(c, Exec(c, j, moves[..|moves| - 1]), moves[|moves| - 1]);
    }
  }

  /** The invariants of both systems, and their link, hold after every run. */
  lemma InvAlways<T>(c: F.Setup, inputs: nat, outputs: nat, clients: nat, moves: seq<Move<T>>)
    ensures Inv(c, Exec(c, Init<T>(inputs, outputs, clients), moves))
  {
    F.InvAlways(c, []);
    B.InvAlways<T>(inputs, outputs, clients, []);
    InvRun(c, Init<T>(inputs, outputs, clients), moves);
  }

  // ---- The threads of long-running jobs come to the end of their loops ----

  function Moves<T>(acts: seq<B.Step<T>>): (moves: seq<Move<T>>)
    ensures |moves| == |acts| && forall n :: 0 <= n < |acts| ==> moves[n] == Queues(acts[n])
  {
    seq(|acts|, n requires 0 <= n < |acts| => Queues(acts[n]))
  }

  lemma OneAlone<T>(c: F.Setup, j: Joint<T>, act: B.Step<T>)
    requires G.GoesOn(j.s, act)
    ensures Do(c, j, Queues(act)) == j.(s := B.Do(j.s, act))
  {
  }

  /** The queues' threads need nothing of the framework to go on with what they have begun. */
  lemma {:induction false} QueuesAlone<T>(c: F.Setup, j: Joint<T>, acts: seq<B.Step<T>>)
    requires G.GoingOn(j.s, acts)
    ensures Exec(c, j, Moves(acts)) == j.(s := B.Exec(j.s, acts))
  {
    if acts != [] {
      var front, last := acts[..|acts| - 1], acts[|acts| - 1];
      QueuesAlone(c, j, front);
      OneAlone(c, Exec(c, j, Moves(front)), last);
      assert Moves(acts)[..|Moves(acts)| - 1] == Moves(front) && Moves(acts)[|acts| - 1] == Queues(last);
    }
  }

  /** No push or pop is begun. */
  predicate Quiet<T>(moves: seq<Move<T>>) {
    forall n :: 0 <= n < |moves| && moves[n].Queues? ==> moves[n].act.Cast? || moves[n].act.Advance?
  }

  /** The thread of a long-running job whose flag is cleared can leave its loop; the framework need not move. */
  lemma CanLeaveLoop<T>(c: F.Setup, j: Joint<T>, job: F.Job) returns (moves: seq<Move<T>>)
    requires Inv(c, j) && job in j.f.entered && job !in j.f.raised
    ensures Quiet(moves)
    ensures var j' := Exec(c, j, moves); j'.f == j.f && LeftLoop(j'.s, job)
  {
    var acts: seq<B.Step<T>> := [];
    if job.Broadcast? {
      acts := G.CasterCanFinish(j.s);
    } else if job.OutJob? && job.k < |j.s.clients| {
      acts := G.ClientCanRest(j.s, job.k);
    }
    moves := Moves(acts);
    QueuesAlone(c, j, acts);
    G.GoingOnKinds(j.s, acts);
  }

  /** A step of the framework, if need be after some of the queues' threads. */
  lemma SimulatesStep<T>(c: F.Setup, j: Joint<T>, step: F.Step) returns (moves: seq<Move<T>>)
    requires Inv(c, j) && F.Enabled(c, j.f, step)
    ensures Exec(c, j, moves).f == F.Do(c, j.f, step) && Quiet(moves)
  {
    var first: seq<Move<T>> := [];
    if step.Return? && F.Long(c, j.f.pool.workers[step.w].job) {
      first := CanLeaveLoop(c, j, j.f.pool.workers[step.w].job);
    }
    moves := first + [Frame(step)];
    ExecConcat(c, j, first, [Frame(step)]);
    ExecOne(c, Exec(c, j, first), Frame(step));
  }

  /**
    Whatever the framework can do with long-running jobs that return once their flag is cleared, it can do with real
    threads in their place, and no push or pop needs to be begun for it; so what module Frameworks and its successors
    say can happen can happen in the pipeline.
   */
  lemma {:induction false} Simulates<T>(c: F.Setup, j: Joint<T>, steps: seq<F.Step>) returns (moves: seq<Move<T>>)
    requires Inv(c, j)
    ensures Exec(c, j, moves).f == F.Exec(c, j.f, steps) && Quiet(moves)
  {
    moves := [];
    if steps != [] {
      moves := Simulates(c, j, steps[..|steps| - 1]);
      InvRun(c, j, moves);
      if F.Enabled(c, Exec(c, j, moves).f, steps[|steps| - 1]) {
        var more := SimulatesStep(c, Exec(c, j, moves), steps[|steps| - 1]);
        ExecConcat(c, j, moves, more);
        moves := moves + more;
      }
    }
  }

  /**
    In the pipeline, too, any number of jobs of input nodes, and so every node, can be served before a stop exactly when
    there are more threads than the broadcaster and the consumers whose file opens.
   */
  lemma PipelineThresholdIff<T(!new)>(c: F.Setup, inputs: nat, outputs: nat, clients: nat, p: nat)
    requires c.ins > 0
    ensures var j := Init<T>(inputs, outputs, clients);
      (exists moves :: !F.Stopped(Exec(c, j, moves).f.control) && H.Served(c, Exec(c, j, moves).f) > p)
        <==> c.threads > 1 + F.Drains(c.outs)
  {
    var j := Init<T>(inputs, outputs, clients);
    InvAlways<T>(c, inputs, outputs, clients, []);
    F.LongJobs(c);
    if c.threads > F.LongIn(c, F.Initial(c)) {
      var steps := H.FeedersCanBeServed(c, p + 1);
      var moves := Simulates(c, j, steps);
      assert !F.Stopped(Exec(c, j, moves).f.control) && H.Served(c, Exec(c, j, moves).f) > p;
    } else {
      forall moves | !F.Stopped(Exec(c, j, moves).f.control) ensures !(H.Served(c, Exec(c, j, moves).f) > p) {
        RunsOfBoth(c, j, moves);
        H.RoundsThresholdIff(c, p);
      }
    }
  }

  // ---- Stopping the pipeline ----

  ghost predicate CanFinish<T(!new)>(c: F.Setup, j: Joint<T>) {
    exists moves :: Exec(c, j, moves).f.control.Finished?
  }

  lemma {:induction false} StoppingRun<T>(c: F.Setup, j: Joint<T>, moves: seq<Move<T>>)
    requires Inv(c, j) && D.Stopping(c, j.f)
    ensures Inv(c, Exec(c, j, moves)) && D.Stopping(c, Exec(c, j, moves).f)
  {
    InvRun(c, j, moves);
    RunsOfBoth(c, j, moves);
    D.StoppingRun(c, j.f, FrameSteps(c, j, moves));
  }

  lemma StopsFrom<T(!new)>(c: F.Setup, j: Joint<T>, after: seq<Move<T>>)
    requires Inv(c, j) && D.Stopping(c, j.f)
    ensures CanFinish(c, Exec(c, j, after))
  {
    StoppingRun(c, j, after);
    var steps := D.FinishFrom(c, Exec(c, j, after).f);
    var moves := Simulates(c, Exec(c, j, after), steps);
    assert Exec(c, Exec(c, j, after), moves).f.control.Finished?;
  }

  lemma HangsFrom<T(!new)>(c: F.Setup, j: Joint<T>, steps: seq<F.Step>, w: nat, stuck: F.Job) returns (after: seq<Move<T>>)
    requires Inv(c, j) && D.StuckOn(c, F.Exec(c, j.f, steps), w, stuck)
    ensures !CanFinish(c, Exec(c, j, after))
  {
    after := Simulates(c, j, steps);
    forall moves ensures !Exec(c, Exec(c, j, after), moves).f.control.Finished? {
      RunsOfBoth(c, Exec(c, j, after), moves);
      D.StuckForever(c, Exec(c, j, after).f, FrameSteps(c, Exec(c, j, after), moves), w, stuck);
    }
  }

  /**
    A stop of the pipeline, with a broadcaster and consumers that leave their loops only after the pass or the pop
    they are in, is sure to be able to return exactly when every long-running job had set its flag.
   */
  lemma PipelineStopsIff<T(!new)>(c: F.Setup, inputs: nat, outputs: nat, clients: nat, before: seq<Move<T>>)
    requires Exec(c, Init<T>(inputs, outputs, clients), before).f.control.Launched?
    ensures var j := Exec(c, Init<T>(inputs, outputs, clients), before);
      (forall after :: CanFinish(c, Exec(c, Do(c, j, Frame(F.CallStop)), after))) <==> D.AllEntered(c, j.f)
  {
    InvAlways<T>(c, inputs, outputs, clients, before);
    var j := Exec(c, Init<T>(inputs, outputs, clients), before);
    InvStep(c, j, Frame(F.CallStop));
    var j1 := Do(c, j, Frame(F.CallStop));
    if D.AllEntered(c, j.f) {
      forall after ensures CanFinish(c, Exec(c, j1, after)) {
        StopsFrom(c, j1, after);
      }
    } else {
      var steps, w, stuck := D.EarlyStopCanHang(c, j.f);
      var after := HangsFrom(c, j1, steps, w, stuck);
      assert !CanFinish(c, Exec(c, j1, after));
    }
  }

  /** When stop has returned and the broadcaster had started, it has come to its end. */
  lemma FinishedMeansDone<T>(c: F.Setup, j: Joint<T>)
    requires Inv(c, j) && j.f.control.Finished? && j.s.caster != B.Off
    ensures j.s.caster == B.Done
  {
    var p := j.f.pool;
    assert multiset(p.dispatched)[F.Broadcast] > 0;
    assert P.Accounted(p, F.Broadcast);
    P.NoneRunning(p.workers, F.Broadcast);
    assert F.Broadcast in p.completed;
  }

  /**
    What a stop of the whole pipeline brings to the output queues: of what had been pushed into input queue i when the
    broadcaster's flag was cleared (state j), everything has reached consumer n or its output queue when stop returns,
    exactly when the last pass was not yet through with the queue, or the queue was empty or just being copied. What
    the consumer has of it then is the subject of module PipelineStop.
   */
  lemma StopDelivers<T>(c: F.Setup, j: Joint<T>, moves: seq<Move<T>>, i: nat, n: nat)
    requires Inv(c, j) && G.StopLanded(j.s) && j.s.caster != B.Done && i < |j.s.ins| && n < |j.s.outs|
    requires Exec(c, j, moves).f.control.Finished?
    ensures var s' := Exec(c, j, moves).s;
      && B.Inv(s') && n < |s'.outs|
      && Values(B.Delivered(s', n)) == s'.received[n] + s'.outs[n]
      && (Pushed(Fresh(|j.s.ins|, |j.s.outs|), j.s.trace, i) <= From(B.Delivered(s', n), i) <==> G.WillBeLogged(j.s, i))
  {
    InvRun(c, j, moves);
    RunsOfBoth(c, j, moves);
    G.CasterIsBounded(j.s, QueueSteps(c, j, moves));
    FinishedMeansDone(c, Exec(c, j, moves));
    G.CompleteAfterStop(j.s, QueueSteps(c, j, moves), i, n);
  }
}
