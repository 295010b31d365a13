/**
  What a stop of the whole pipeline means for the consumers: what they are sure to have received when it returns, that
  nothing is received later, and how long the stop can take.
 */
module PipelineStop {
  import C = Channels
  import opened Pipeline
  import F = Frameworks
  import B = BroadcastSteps
  import G = BroadcastProgress
  import R = Reception
  import D = FrameworkShutdown
  import P = ThreadPools

  // ---- When stop has returned, reception is over ----

  /** Every job that had set its flag has returned. */
  lemma EnteredIsCompleted<T>(c: F.Setup, j: Joint<T>, job: F.Job)
    requires Inv(c, j) && j.f.control.Finished? && job in j.f.entered
    ensures job in j.f.pool.completed && job !in j.f.raised
  {
    var p := j.f.pool;
    assert multiset(p.dispatched)[job] > 0;
    assert P.Accounted(p, job);
    P.NoneRunning(p.workers, job);
    assert job in p.completed;
  }

  lemma NobodyPops<T>(c: F.Setup, j: Joint<T>)
    requires Inv(c, j) && j.f.control.Finished?
    ensures j.f.raised == {}
    ensures forall k :: 0 <= k < |j.s.clients| ==> !Popping(j.s.clients[k])
  {
    forall job | job in j.f.raised ensures false {
      EnteredIsCompleted(c, j, job);
    }
    forall k | 0 <= k < |j.s.clients| ensures !Popping(j.s.clients[k]) {
      if Popping(j.s.clients[k]) {
        EnteredIsCompleted(c, j, F.OutJob(k));
      }
    }
  }

  lemma ReceivesNothing<T>(s: B.Sys<T>, act: B.Step<T>)
    requires B.ShapesFit(s) && forall k :: 0 <= k < |s.clients| ==> !Popping(s.clients[k])
    ensures B.Do(s, act).received == s.received
  {
  }

  lemma FinishedStep<T>(c: F.Setup, j: Joint<T>, move: Move<T>)
    requires Inv(c, j) && j.f.control.Finished?
    ensures Do(c, j, move).f.control.Finished? && Do(c, j, move).s.received == j.s.received
  {
    NobodyPops(c, j);
    MoveIsSteps(c, j, move);
    if QueueStep(c, j, move) != [] {
      ReceivesNothing(j.s, QueueStep(c, j, move)[0]);
    }
  }

  /** When stop has returned no consumer receives anything any more: what is in an output queue then is lost. */
  lemma {:induction false} ReceptionIsFinal<T>(c: F.Setup, j: Joint<T>, moves: seq<Move<T>>)
    requires Inv(c, j) && j.f.control.Finished?
    ensures Exec(c, j, moves).f.control.Finished? && Exec(c, j, moves).s.received == j.s.received
  {
    if moves != [] {
      ReceptionIsFinal(c, j, moves[..|moves| - 1]);
      InvRun(c, j, moves[..|moves| - 1]);
      FinishedStep(c, Exec(c, j, moves[..|moves| - 1]), moves[|moves| - 1]);
    }
  }

  // ---- What is sure to be received ----

  /** Consumer n has received, when stop has returned, all that had been pushed into input queue i in state s. */
  ghost predicate HasAll<T>(s: B.Sys<T>, s': B.Sys<T>, i: nat, n: nat) {
    B.Inv(s') && n < |s'.outs| && C.Pushed(C.Fresh(|s.ins|, |s.outs|), s.trace, i) <= C.From(R.Got(s', n), i)
  }

  /** Under the condition, whatever happens until stop returns. */
  lemma SureIsReceived<T>(c: F.Setup, j: Joint<T>, moves: seq<Move<T>>, i: nat, n: nat)
    requires Inv(c, j) && i < |j.s.ins| && n < |j.s.outs| && R.WillBeReceived(j.s, i, n)
    requires Exec(c, j, moves).f.control.Finished?
    ensures HasAll(j.s, Exec(c, j, moves).s, i, n)
  {
    var values := C.Pushed(C.Fresh<T>(|j.s.ins|, |j.s.outs|), j.s.trace, i);
    R.SureFrom(j.s, i, n);
    RunsOfBoth(c, j, moves);
    R.SureRun(j.s, QueueSteps(c, j, moves), i, n, values);
    InvRun(c, j, moves);
    NobodyPops(c, Exec(c, j, moves));
    assert !R.Inside(Exec(c, j, moves).s, n);
  }

  lemma {:induction false} QuietQueueSteps<T>(c: F.Setup, j: Joint<T>, moves: seq<Move<T>>)
    requires Quiet(moves)
    ensures forall k :: 0 <= k < |QueueSteps(c, j, moves)| ==>
      !QueueSteps(c, j, moves)[k].StartPop? && !QueueSteps(c, j, moves)[k].StartPush?
  {
    if moves != [] {
      assert forall n :: 0 <= n < |moves| - 1 ==> moves[..|moves| - 1][n] == moves[n];
      QuietQueueSteps(c, j, moves[..|moves| - 1]);
    }
  }

  /** Without it, some way to the return of stop leaves the consumer without something that had been pushed. */
  lemma CanBeLeft<T>(c: F.Setup, j: Joint<T>, i: nat, n: nat) returns (moves: seq<Move<T>>)
    requires Inv(c, j) && D.Stopping(c, j.f) && i < |j.s.ins| && n < |j.s.outs| && !R.WillBeReceived(j.s, i, n)
    ensures Exec(c, j, moves).f.control.Finished? && !HasAll(j.s, Exec(c, j, moves).s, i, n)
  {
    var values := C.Pushed(C.Fresh<T>(|j.s.ins|, |j.s.outs|), j.s.trace, i);
    var acts := R.CanMiss(j.s, i, n);
    QueuesAlone(c, j, acts);
    InvRun(c, j, Moves(acts));
    var j1 := Exec(c, j, Moves(acts));
    var steps := D.FinishFrom(c, j1.f);
    var rest := Simulates(c, j1, steps);
    QuietQueueSteps(c, j1, rest);
    RunsOfBoth(c, j1, rest);
    R.MissingRun(j1.s, QueueSteps(c, j1, rest), i, n, values);
    ExecConcat(c, j, Moves(acts), rest);
    moves := Moves(acts) + rest;
  }

  /**
    What the consumers have when stop returns. In every state j after a stop was called that found all flags set:
    consumer n is sure to have received, when stop returns, everything that had been pushed into input queue i in
    state j, exactly when nothing of it waits in the input queue or on the way and nothing of it waits in the output
    queue, or a consumer is inside a pop that will still take it.
   */
  lemma StopReceivesIff<T(!new)>(c: F.Setup, j: Joint<T>, i: nat, n: nat)
    requires Inv(c, j) && D.Stopping(c, j.f) && i < |j.s.ins| && n < |j.s.outs|
    ensures (forall moves :: Exec(c, j, moves).f.control.Finished? ==> HasAll(j.s, Exec(c, j, moves).s, i, n))
      <==> R.WillBeReceived(j.s, i, n)
  {
    if R.WillBeReceived(j.s, i, n) {
      forall moves | Exec(c, j, moves).f.control.Finished? ensures HasAll(j.s, Exec(c, j, moves).s, i, n) {
        SureIsReceived(c, j, moves, i, n);
      }
    } else {
      var moves := CanBeLeft(c, j, i, n);
      assert !HasAll(j.s, Exec(c, j, moves).s, i, n);
    }
  }

  // ---- A stop that leaves an item unread ----

  /** Nothing has been pushed, and no client is inside a push or pop. */
  ghost predicate Idle<T>(s: B.Sys<T>) {
    && s.ins == [[]] && s.outs == [[]] && s.received == [[]]
    && (forall k :: 0 <= k < |s.clients| ==> s.clients[k].Rest?)
    && (s.caster.Off? || s.caster.Scan? || s.caster.Testing? || (s.caster.Done? && !s.running))
  }

  lemma IdleStep<T>(s: B.Sys<T>, step: B.Step<T>)
    requires B.ShapesFit(s) && Idle(s) && !step.StartPush? && !step.StartPop?
    ensures Idle(B.Do(s, step))
  {
  }

  lemma {:induction false} IdleRun<T>(s: B.Sys<T>, steps: seq<B.Step<T>>)
    requires B.Inv(s) && Idle(s) && forall k :: 0 <= k < |steps| ==> !steps[k].StartPush? && !steps[k].StartPop?
    ensures B.Inv(B.Exec(s, steps)) && Idle(B.Exec(s, steps))
  {
    G.RunKeepsInv(s, steps);
    if steps != [] {
      IdleRun(s, steps[..|steps| - 1]);
      IdleStep(B.Exec(s, steps[..|steps| - 1]), steps[|steps| - 1]);
    }
  }

  /** All flags are set and nothing has been pushed. */
  lemma AllSetAndIdle<T>(c: F.Setup, clients: nat) returns (moves: seq<Move<T>>)
    requires c.threads > F.LongIn(c, F.Initial(c))
    ensures var j := Exec(c, Init<T>(1, 1, clients), moves);
      && Inv(c, j) && j.f.control.Launched? && D.AllEntered(c, j.f)
      && Idle(j.s) && j.s.running && !j.s.caster.Off? && |j.s.clients| == clients
  {
    var j := Init<T>(1, 1, clients);
    InvAlways<T>(c, 1, 1, clients, []);
    var steps := D.AllCanEnter(c);
    moves := Simulates(c, j, steps);
    InvRun(c, j, moves);
    RunsOfBoth(c, j, moves);
    QuietQueueSteps(c, j, moves);
    IdleRun(j.s, QueueSteps(c, j, moves));
    G.RunKeepsInv(j.s, QueueSteps(c, j, moves));
    D.LongIsInitial(c, F.Broadcast);
  }

  /** The broadcaster gets to the begin of a pass. */
  lemma PassBegins<T>(s: B.Sys<T>) returns (acts: seq<B.Step<T>>)
    requires B.Inv(s) && Idle(s) && s.running && !s.caster.Off?
    ensures G.GoingOn(s, acts)
    ensures var s' := B.Exec(s, acts);
      B.Inv(s') && Idle(s') && s'.running && s'.caster == B.Scan(0) && |s'.clients| == |s.clients|
  {
    B.InvStep(s, B.Step<T>.Cast);
    B.InvStep(B.Do(s, B.Step<T>.Cast), B.Step<T>.Cast);
    if s.caster.Testing? {
      acts := [B.Cast, B.Cast];
      G.RunTwo(s, B.Step<T>.Cast, B.Step<T>.Cast);
      G.TwoGoOn(s, B.Step<T>.Cast, B.Step<T>.Cast);
    } else if s.caster == B.Scan(1) {
      acts := [B.Cast];
      G.RunOne(s, B.Step<T>.Cast);
      G.OneGoesOn(s, B.Step<T>.Cast);
    } else {
      acts := [];
    }
  }

  /** Then client k pushes x. */
  lemma PushOne<T>(s: B.Sys<T>, k: nat, x: T)
    requires B.Inv(s) && Idle(s) && s.caster == B.Scan(0) && k < |s.clients|
    ensures var s1 := B.Do(s, B.StartPush(k, 0, x));
      var s' := B.Do(B.Do(s1, B.Advance(k)), B.Advance(k));
      B.Enabled(s, B.StartPush(k, 0, x)) && s'.ins == [[x]] && s'.outs == [[]] && s'.caster == B.Scan(0) && s'.running == s.running
  {
    forall t ensures B.In(0) !in B.Holds(s, t) {}
    forall l | l in s.owner ensures l != B.In(0) {
      assert l in B.Holds(s, s.owner[l]);
    }
    var s1 := B.Do(s, B.StartPush(k, 0, x));
    var s2 := B.Do(s1, B.Advance(k));
    assert s1.clients[k] == B.PushWait(0, x) && s2.clients[k] == B.PushHold(0, x);
    assert s2.ins == [[]] && [] + [x] == [x];
  }

  lemma ExecThree<T>(c: F.Setup, j: Joint<T>, a: Move<T>, b: Move<T>, d: Move<T>)
    ensures Exec(c, j, [a] + [b] + [d]) == Do(c, Do(c, Do(c, j, a), b), d)
  {
    ExecConcat(c, j, [a] + [b], [d]);
    ExecConcat(c, j, [a], [b]);
    ExecOne(c, j, a);
    ExecOne(c, Do(c, j, a), b);
    ExecOne(c, Do(c, Do(c, j, a), b), d);
  }

  /** Such a push in the pipeline, at the begin of a pass. */
  lemma PushInPass<T>(c: F.Setup, j: Joint<T>, x: T) returns (moves: seq<Move<T>>)
    requires Inv(c, j) && Idle(j.s) && j.s.running && !j.s.caster.Off? && |j.s.clients| > |c.outs|
    ensures var j' := Exec(c, j, moves);
      Inv(c, j') && j'.f == j.f && j'.s.ins == [[x]] && j'.s.outs == [[]] && j'.s.caster == B.Scan(0)
  {
    var k := |c.outs|;
    var acts := PassBegins(j.s);
    QueuesAlone(c, j, acts);
    var j1 := Exec(c, j, Moves(acts));
    PushOne(j1.s, k, x);
    var push := [Queues(B.StartPush(k, 0, x))] + [Queues(B.Advance(k))] + [Queues(B.Advance(k))];
    ExecThree(c, j1, Queues(B.StartPush(k, 0, x)), Queues(B.Advance(k)), Queues(B.Advance(k)));
    ExecConcat(c, j, Moves(acts), push);
    moves := Moves(acts) + push;
    InvRun(c, j, moves);
  }

  /** An item is in the input queue, before a pass, and all flags are set. */
  lemma PushedBeforeStop<T>(c: F.Setup, clients: nat, x: T) returns (moves: seq<Move<T>>)
    requires c.threads > F.LongIn(c, F.Initial(c)) && clients > |c.outs|
    ensures var j := Exec(c, Init<T>(1, 1, clients), moves);
      && Inv(c, j) && j.f.control.Launched? && D.AllEntered(c, j.f)
      && j.s.ins == [[x]] && j.s.outs == [[]] && j.s.caster == B.Scan(0)
  {
    var j := Init<T>(1, 1, clients);
    var first := AllSetAndIdle<T>(c, clients);
    var rest := PushInPass(c, Exec(c, j, first), x);
    ExecConcat(c, j, first, rest);
    moves := first + rest;
  }

  /** What stop does first: the framework's flag, and then the broadcaster's, is cleared. */
  lemma StopBegins<T>(c: F.Setup, j: Joint<T>)
    requires Inv(c, j) && j.f.control.Launched? && D.AllEntered(c, j.f) && !j.s.caster.Off?
    ensures var j' := Do(c, Do(c, j, Frame(F.CallStop)), Frame(F.Ctl));
      && Inv(c, j') && D.Stopping(c, j'.f) && G.StopLanded(j'.s)
      && j'.s == j.s.(running := false)
  {
    var j1 := Do(c, j, Frame(F.CallStop));
    InvStep(c, j, Frame(F.CallStop));
    D.StoppingStep(c, j1.f, F.Ctl);
    InvStep(c, j1, Frame(F.Ctl));
  }

  /**
    With more threads than long-running jobs there is a stop, all flags being set, that returns with an item in the
    output queue that no consumer has received or ever will: the last pass brings it there after the last pop.
   */
  lemma StopLeavesUnread<T>(c: F.Setup, clients: nat, x: T) returns (before: seq<Move<T>>, after: seq<Move<T>>)
    requires c.threads > F.LongIn(c, F.Initial(c)) && clients > |c.outs|
    ensures var j := Exec(c, Init<T>(1, 1, clients), before);
      && Inv(c, j) && D.Stopping(c, j.f) && G.StopLanded(j.s) && j.s.ins == [[x]] && |j.s.outs| == 1
      && G.WillBeLogged(j.s, 0) && !R.WillBeReceived(j.s, 0, 0)
      && var j' := Exec(c, j, after);
        j'.f.control.Finished? && |j'.s.outs| == 1 && j'.s.outs[0] != [] && !HasAll(j.s, j'.s, 0, 0)
  {
    var first := PushedBeforeStop(c, clients, x);
    var j0 := Init<T>(1, 1, clients);
    var j1 := Exec(c, j0, first);
    StopBegins(c, j1);
    before := first + [Frame(F.CallStop)] + [Frame(F.Ctl)];
    ExecConcat(c, j0, first, [Frame(F.CallStop)]);
    ExecConcat(c, j0, first + [Frame(F.CallStop)], [Frame(F.Ctl)]);
    ExecOne(c, j1, Frame(F.CallStop));
    ExecOne(c, Do(c, j1, Frame(F.CallStop)), Frame(F.Ctl));
    var j := Exec(c, j0, before);
    after := CanBeLeft(c, j, 0, 0);
    UnreadIsLeft(c, j, after);
  }

  lemma NotAllUnread<T>(s: B.Sys<T>, i: nat, n: nat, values: seq<T>)
    requires B.Inv(s) && n < |s.outs| && values <= C.From(B.Delivered(s, n), i) && !(values <= C.From(R.Got(s, n), i))
    ensures s.outs[n] != []
  {
    R.GotIsPrefix(s, n);
  }

  lemma UnreadIsLeft<T>(c: F.Setup, j: Joint<T>, moves: seq<Move<T>>)
    requires Inv(c, j) && G.StopLanded(j.s) && j.s.caster == B.Scan(0) && |j.s.ins| == 1 && |j.s.outs| == 1
    requires Exec(c, j, moves).f.control.Finished? && !HasAll(j.s, Exec(c, j, moves).s, 0, 0)
    ensures |Exec(c, j, moves).s.outs| == 1 && Exec(c, j, moves).s.outs[0] != []
  {
    StopDelivers(c, j, moves, 0, 0);
    RunsOfBoth(c, j, moves);
    G.RunKeepsInv(j.s, QueueSteps(c, j, moves));
    NotAllUnread(Exec(c, j, moves).s, 0, 0, C.Pushed(C.Fresh(1, 1), j.s.trace, 0));
  }

  // ---- How long a stop can take ----

  function ClientsLeft<T>(clients: seq<B.ClientPc<T>>): nat {
    if clients == [] then 0 else ClientsLeft(clients[1..]) + G.ClientLeft(clients[0])
  }

  lemma {:induction false} ClientsLeftAfter<T>(clients: seq<B.ClientPc<T>>, k: nat, pc: B.ClientPc<T>)
    requires k < |clients|
    ensures ClientsLeft(clients[k := pc]) == ClientsLeft(clients) - G.ClientLeft(clients[k]) + G.ClientLeft(pc)
  {
    if k == 0 {
      assert clients[0 := pc][1..] == clients[1..];
    } else {
      ClientsLeftAfter(clients[1..], k - 1, pc);
      assert clients[k := pc][1..] == clients[1..][k - 1 := pc];
    }
  }

  /** A bound on what framework, broadcaster and clients have left to do once stop has cleared the flags. */
  function Left<T>(c: F.Setup, j: Joint<T>): nat
    requires B.ShapesFit(j.s)
  {
    D.Left(c, j.f) + G.CasterLeft(j.s) + ClientsLeft(j.s.clients)
  }

  /** Stop has cleared all flags. */
  ghost predicate Cleared<T>(c: F.Setup, j: Joint<T>) {
    Inv(c, j) && D.Stopping(c, j.f) && !j.f.control.ClearBroadcast? && !j.f.control.ClearOut?
  }

  lemma ClearedStays<T>(c: F.Setup, j: Joint<T>, move: Move<T>)
    requires Cleared(c, j)
    ensures Cleared(c, Do(c, j, move)) && j.f.raised == {}
  {
    InvStep(c, j, move);
    MoveIsSteps(c, j, move);
    if FrameStep(c, j, move) != [] {
      D.StoppingStep(c, j.f, FrameStep(c, j, move)[0]);
    }
  }

  lemma AdvanceLowers<T>(s: B.Sys<T>, k: nat)
    requires B.ShapesFit(s) && k < |s.clients| && !s.clients[k].Rest?
    ensures ClientsLeft(B.AdvanceStep(s, k).clients) < ClientsLeft(s.clients)
  {
    var pc := B.AdvanceStep(s, k).clients[k];
    ClientsLeftAfter(s.clients, k, pc);
    assert B.AdvanceStep(s, k).clients == s.clients[k := pc];
  }

  lemma ClientsStep<T>(s: B.Sys<T>, act: B.Step<T>)
    requires B.ShapesFit(s) && B.Enabled(s, act) && !act.StartPop?
    ensures var left, left' := ClientsLeft(s.clients), ClientsLeft(B.Do(s, act).clients);
      if act.StartPush? then left' == left + 2 else if act.Advance? then left' < left else left' == left
  {
    match act {
      case StartPush(k, i, x) => ClientsLeftAfter(s.clients, k, B.PushWait(i, x));
      case Advance(k) => AdvanceLowers(s, k);
      case _ =>
    }
  }

  lemma QueuesLower<T>(c: F.Setup, j: Joint<T>, act: B.Step<T>)
    requires Cleared(c, j) && Enabled(c, j, Queues(act))
    ensures B.ShapesFit(B.Do(j.s, act))
    ensures var left, left' := Left(c, j), Left(c, Do(c, j, Queues(act)));
      if act.StartPush? then left' == left + 2 else left' < left
  {
    B.ShapesStep(j.s, act);
    ClearedStays(c, j, Queues(act));
    ClientsStep(j.s, act);
    if G.StopLanded(j.s) {
      G.CasterLeftStep(j.s, act);
    }
  }

  lemma FrameLowers<T>(c: F.Setup, j: Joint<T>, step: F.Step)
    requires Cleared(c, j) && Enabled(c, j, Frame(step))
    ensures Do(c, j, Frame(step)).s == j.s
    ensures var left, left' := Left(c, j), Left(c, Do(c, j, Frame(step)));
      if step.Spurious? then left' == left + 1 else left' < left
  {
    D.StepLowers(c, j.f, step);
    D.LongIsInitial(c, F.Broadcast);
  }

  /** Moves that nothing in the stop is waiting for: a wakeup for no reason, and the begin of a push. */
  predicate Extra<T>(move: Move<T>) {
    (move.Frame? && move.step.Spurious?) || (move.Queues? && move.act.StartPush?)
  }

  function Extras<T>(moves: seq<Move<T>>): nat {
    if moves == [] then 0
    else
      var last := moves[|moves| - 1];
      Extras(moves[..|moves| - 1]) + if !Extra(last) then 0 else if last.Frame? then 1 else 2
  }

  /** How many other moves of the schedule do something. */
  function Work<T>(c: F.Setup, j: Joint<T>, moves: seq<Move<T>>): nat {
    if moves == [] then 0
    else
      var before, last := moves[..|moves| - 1], moves[|moves| - 1];
      Work(c, j, before) + if !Extra(last) && Enabled(c, Exec(c, j, before), last) then 1 else 0
  }

  lemma WorkStep<T>(c: F.Setup, j: Joint<T>, move: Move<T>)
    requires Cleared(c, j)
    ensures Cleared(c, Do(c, j, move))
    ensures Left(c, Do(c, j, move)) + (if !Extra(move) && Enabled(c, j, move) then 1 else 0) <=
      Left(c, j) + if !Extra(move) then 0 else if move.Frame? then 1 else 2
  {
    ClearedStays(c, j, move);
    if Enabled(c, j, move) {
      match move {
        case Frame(step) => FrameLowers(c, j, step);
        case Queues(act) => QueuesLower(c, j, act);
      }
    }
  }

  /**
    Once stop has cleared the flags, framework, broadcaster, consumers and pushing clients together do a bounded amount
    of work on every schedule, where each spurious wakeup adds one step and each new push two.
   */
  lemma {:induction false} StopIsBounded<T>(c: F.Setup, j: Joint<T>, moves: seq<Move<T>>)
    requires Cleared(c, j)
    ensures Cleared(c, Exec(c, j, moves))
    ensures Work(c, j, moves) + Left(c, Exec(c, j, moves)) <= Left(c, j) + Extras(moves)
  {
    if moves != [] {
      StopIsBounded(c, j, moves[..|moves| - 1]);
      WorkStep(c, Exec(c, j, moves[..|moves| - 1]), moves[|moves| - 1]);
    }
  }

  /** The way of a long-running job's thread to the end of its loop is never blocked for good: some step of the queues is enabled. */
  lemma LoopGoesOn<T>(c: F.Setup, j: Joint<T>, job: F.Job) returns (act: B.Step<T>)
    requires Inv(c, j) && job in j.f.entered && !LeftLoop(j.s, job)
    ensures Enabled(c, j, Queues(act)) && !act.StartPush? && !act.StartPop?
  {
    if job.Broadcast? {
      if B.Enabled(j.s, B.Step<T>.Cast) {
        act := B.Cast;
      } else {
        var k := G.Blocker(j.s);
        act := B.Advance(k);
      }
    } else if j.s.owner != map[] {
      act := G.HolderCanStep(j.s);
    } else {
      act := B.Advance(job.k);
    }
  }

  /** Until stop returns some step other than a spurious wakeup, a new push or a new pop is enabled. */
  lemma StopIsNotStuck<T>(c: F.Setup, j: Joint<T>) returns (move: Move<T>)
    requires Inv(c, j) && D.Stopping(c, j.f) && !j.f.control.Finished?
    ensures Enabled(c, j, move) && !Extra(move) && !(move.Queues? && move.act.StartPop?)
  {
    var step := D.ShutdownIsNotStuck(c, j.f);
    move := Frame(step);
    if !Enabled(c, j, move) {
      var act := LoopGoesOn(c, j, j.f.pool.workers[step.w].job);
      move := Queues(act);
    }
  }
}
