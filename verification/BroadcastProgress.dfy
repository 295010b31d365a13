/**
  What threads of the running pipeline can still do: what a stop of the broadcaster leaves behind, how it comes to its
  end, why no mutex is held for good, and how a client gets out of the push or pop it has begun.
 */
module BroadcastProgress {
  import opened Channels
  import opened BroadcastSteps
  import B = BroadcastSteps
  import C = Channels

  // ---- What a stop loses ----

  /** The broadcaster runs and will find its flag cleared, or has found it cleared. */
  predicate StopLanded<T>(s: Sys<T>) {
    !s.running && s.caster != Off
  }

  lemma StopStays<T>(s: Sys<T>, step: Step<T>)
    requires StopLanded(s)
    ensures StopLanded(Do(s, step))
  {
  }

  /** The last pass is through with input queue i. */
  predicate Passed<T>(s: Sys<T>, i: nat) {
    s.caster == Done || Position(s.caster) > i
  }

  /** Everything that is in input queue i will still be logged, or has been. */
  predicate WillBeLogged<T>(s: Sys<T>, i: nat)
    requires i < |s.ins|
  {
    !Passed(s, i) || s.ins[i] == [] || (InFlight(s.caster) && s.caster.i == i)
  }

  lemma OtherEventsLogOthers<T>(c: Channel<T>, e: Event<T>, i: nat)
    requires !(e.Flush? && e.i == i)
    ensures From(C.Exec(c, [e]).log, i) == From(c.log, i)
  {
    ExecOne(c, e);
    if e.Flush? && C.Enabled(c, e) {
      FromConcat(c.log, Tag(e.i, c.pending[e.i]), i);
      FromTag(e.i, c.pending[e.i], i);
    }
  }

  lemma PassedOn<T>(s: Sys<T>, step: Step<T>, i: nat)
    requires ShapesFit(s) && StopLanded(s) && Passed(s, i)
    ensures Passed(Do(s, step), i)
  {
  }

  /** From then on nothing of the queue is logged any more. */
  lemma PassedStays<T>(s: Sys<T>, step: Step<T>, i: nat)
    requires ShapesFit(s) && StopLanded(s) && Passed(s, i)
    ensures Passed(Do(s, step), i) && From(History(Do(s, step)).log, i) == From(History(s).log, i)
  {
    PassedOn(s, step, i);
    HistoryStep(s, step);
    var es := EventOf(s, step);
    if es != [] {
      assert es == [es[0]] && !(es[0].Flush? && es[0].i == i);
      OtherEventsLogOthers(History(s), es[0], i);
    }
  }

  /** A state after the stop request landed in state s0, as far as input queue i is concerned. */
  ghost predicate AfterStop<T>(s0: Sys<T>, s: Sys<T>, i: nat) {
    var c0 := Fresh(|s0.ins|, |s0.outs|);
    && Inv(s) && StopLanded(s) && |s.ins| == |s0.ins| && |s.outs| == |s0.outs|
    && (Passed(s0, i) ==> Passed(s, i) && From(History(s).log, i) == From(History(s0).log, i))
    && (!Passed(s0, i) && s.caster != Done ==> InPass(s0, s, i))
    && (!Passed(s0, i) && s.caster == Done ==> Pushed(c0, s0.trace, i) <= From(History(s).log, i))
  }

  lemma DoneStays<T>(s: Sys<T>, step: Step<T>, i: nat)
    requires Inv(s) && (s.caster == Done || (step.Cast? && s.caster == Scan(|s.ins|)))
    ensures From(History(s).log, i) <= From(History(Do(s, step)).log, i)
    ensures StopLanded(s) ==> Do(s, step).caster == Done
  {
    TraceGrows(s, step, i);
  }

  lemma AfterStopStep<T>(s0: Sys<T>, s: Sys<T>, step: Step<T>, i: nat)
    requires AfterStop(s0, s, i) && i < |s0.ins| && |s0.outs| > 0
    ensures AfterStop(s0, Do(s, step), i)
  {
    InvStep(s, step);
    ShapesStep(s, step);
    StopStays(s, step);
    if Passed(s0, i) {
      PassedStays(s, step, i);
    } else if s.caster == Done || (step.Cast? && s.caster == Scan(|s.ins|)) {
      DoneStays(s, step, i);
    } else {
      PassStep(s0, s, step, i);
    }
  }

  lemma {:induction false} AfterStopRun<T>(s: Sys<T>, steps: seq<Step<T>>, i: nat)
    requires Inv(s) && StopLanded(s) && s.caster != Done && i < |s.ins| && |s.outs| > 0
    ensures AfterStop(s, B.Exec(s, steps), i)
  {
    if steps != [] {
      AfterStopRun(s, steps[..|steps| - 1], i);
      AfterStopStep(s, B.Exec(s, steps[..|steps| - 1]), steps[|steps| - 1], i);
    }
  }

  /** Whether what was pushed before a state reaches the log, in terms of that state. */
  lemma LoggedIff<T>(s: Sys<T>, s': Sys<T>, i: nat)
    requires Inv(s) && s.caster != Done && i < |s.ins| && AfterStop(s, s', i) && s'.caster == Done
    ensures Pushed(Fresh(|s.ins|, |s.outs|), s.trace, i) <= From(History(s').log, i) <==> WillBeLogged(s, i)
  {
    PushedIsLoggedOrPending<T>(|s.ins|, |s.outs|, s.trace, i);
  }

  /**
    When the broadcaster has returned, everything that was pushed into input queue i before the stop request landed
    has reached each consumer or its queue exactly when, at that moment, the last pass was not yet through with the
    queue, or the queue was empty or just being copied. If nothing was pushed later, that decides whether the queue
    ends empty.
   */
  lemma CompleteAfterStop<T>(s: Sys<T>, steps: seq<Step<T>>, i: nat, j: nat)
    requires Inv(s) && StopLanded(s) && s.caster != Done && i < |s.ins| && j < |s.outs|
    requires B.Exec(s, steps).caster == Done
    ensures var s', c0 := B.Exec(s, steps), Fresh(|s.ins|, |s.outs|);
      && Inv(s') && i < |s'.ins| && j < |s'.outs|
      && Values(Delivered(s', j)) == s'.received[j] + s'.outs[j]
      && (Pushed(c0, s.trace, i) <= From(Delivered(s', j), i) <==> WillBeLogged(s, i))
      && (Pushed(c0, s'.trace, i) == Pushed(c0, s.trace, i) ==> (s'.ins[i] == [] <==> WillBeLogged(s, i)))
  {
    var s' := B.Exec(s, steps);
    AfterStopRun(s, steps, i);
    LoggedIff(s, s', i);
    DeliveredIsSeen(s', j);
    assert Delivered(s', j) == History(s').log;
    ArrivedOrHeld(s', i, j);
  }

  lemma {:induction false} RunConcat<T>(s: Sys<T>, a: seq<Step<T>>, b: seq<Step<T>>)
    ensures B.Exec(s, a + b) == B.Exec(B.Exec(s, a), b)
  {
    if b == [] {
      assert a + b == a;
    } else {
      assert (a + b)[..|a + b| - 1] == a + b[..|b| - 1];
      RunConcat(s, a, b[..|b| - 1]);
    }
  }

  lemma RunOne<T>(s: Sys<T>, a: Step<T>)
    ensures B.Exec(s, [a]) == Do(s, a)
  {
    assert [a][..0] == [];
  }

  lemma RunTwo<T>(s: Sys<T>, a: Step<T>, b: Step<T>)
    ensures B.Exec(s, [a, b]) == Do(Do(s, a), b)
  {
    RunConcat(s, [a], [b]);
    RunOne(s, a);
    RunOne(Do(s, a), b);
    assert [a] + [b] == [a, b];
  }

  /** One input queue, one output queue and one client. */
  function Small<T>(ins: seq<T>, owner: map<Lock, Thread>, caster: CasterPc, client: ClientPc<T>, trace: seq<Event<T>>): Sys<T> {
    Sys([ins], [[]], owner, true, caster, [client], [[]], trace)
  }

  /** The broadcaster starts and finds the queue empty. */
  lemma PassOverEmptyQueue<T>()
    ensures Do(Do(Do(Init<T>(1, 1, 1), Cast), Cast), Cast) == Small([], map[], Scan(1), Rest, [])
  {
    var s := Init<T>(1, 1, 1);
    assert s.ins == [[]] && s.outs == [[]] && s.clients == [Rest] && s.received == [[]];
    assert Do(s, Cast) == Small([], map[], Scan(0), Rest, []);
    assert Do(Small<T>([], map[], Scan(0), Rest, []), Cast) == Small([], map[In(0) := Caster], Testing(0), Rest, []);
  }

  lemma PushAtTheEnd<T>(x: T)
    ensures var s := Small([], map[], Scan(1), Rest, []);
      Do(Do(Do(s, StartPush(0, 0, x)), Advance(0)), Advance(0)) == Small([x], map[], Scan(1), Rest, [Event.Push(0, x)])
  {
    var s := Small([], map[], Scan(1), Rest, []);
    assert Do(s, StartPush(0, 0, x)) == Small([], map[], Scan(1), PushWait(0, x), []);
    assert Do(Small([], map[], Scan(1), PushWait(0, x), []), Advance(0)) ==
      Small([], map[In(0) := Client(0)], Scan(1), PushHold(0, x), []);
    var s', e := Do(Small([], map[In(0) := Client(0)], Scan(1), PushHold(0, x), []), Advance(0)), Event.Push(0, x);
    assert [] + [x] == [x];
    assert s'.ins == [[x]] && s'.clients == [Rest] && s'.owner == map[] && s'.trace == [e];
  }

  lemma StopAtTheEnd<T>(x: T)
    ensures var s := Do(Small([x], map[], Scan(1), Rest, [Event.Push(0, x)]), RequestStop);
      && s.ins == [[x]] && StopLanded(s) && !WillBeLogged(s, 0)
      && Do(s, Cast).caster == Done && Do(s, Cast).ins == [[x]] && Do(s, Cast).outs == [[]]
  {
  }

  lemma RunSix<T>(s: Sys<T>, a: Step<T>, b: Step<T>, c: Step<T>, d: Step<T>, e: Step<T>, f: Step<T>)
    ensures B.Exec(s, [a, b] + [c, d] + [e, f]) == Do(Do(Do(Do(Do(Do(s, a), b), c), d), e), f)
  {
    RunConcat(s, [a, b], [c, d]);
    RunConcat(s, [a, b] + [c, d], [e, f]);
    RunTwo(s, a, b);
    RunTwo(B.Exec(s, [a, b]), c, d);
    RunTwo(B.Exec(s, [a, b] + [c, d]), e, f);
  }

  /** A stop that loses data: x was pushed before the request, behind the last pass. */
  lemma StopLosesData<T>(x: T) returns (before: seq<Step<T>>, after: seq<Step<T>>)
    ensures var s := Do(B.Exec(Init<T>(1, 1, 1), before), RequestStop);
      && Inv(s) && s.ins == [[x]] && StopLanded(s) && !WillBeLogged(s, 0)
      && B.Exec(s, after).caster == Done && B.Exec(s, after).ins == [[x]] && B.Exec(s, after).outs == [[]]
  {
    before, after := [Cast, Cast] + [Cast, StartPush(0, 0, x)] + [Advance(0), Advance(0)], [Cast];
    var s := B.Exec(Init<T>(1, 1, 1), before);
    RunSix(Init<T>(1, 1, 1), Cast, Cast, Cast, StartPush(0, 0, x), Advance(0), Advance(0));
    PassOverEmptyQueue<T>();
    PushAtTheEnd(x);
    StopAtTheEnd(x);
    InvAlways<T>(1, 1, 1, before);
    InvStep(s, RequestStop);
    RunOne(Do(s, RequestStop), Step<T>.Cast);
  }

  // ---- Schedules in which nothing new is begun ----

  /** Threads only go on with what they have begun: no new push or pop, and the broadcaster does not start. */
  predicate GoingOn<T>(s: Sys<T>, steps: seq<Step<T>>) {
    steps == [] ||
    var before, step := steps[..|steps| - 1], steps[|steps| - 1];
    GoingOn(s, before) && GoesOn(B.Exec(s, before), step)
  }

  predicate GoesOn<T>(s: Sys<T>, step: Step<T>) {
    step.Advance? || (step.Cast? && s.caster != Off)
  }

  lemma {:induction false} GoingOnKinds<T>(s: Sys<T>, steps: seq<Step<T>>)
    requires GoingOn(s, steps)
    ensures forall n :: 0 <= n < |steps| ==> steps[n].Advance? || steps[n].Cast?
  {
    if steps != [] {
      GoingOnKinds(s, steps[..|steps| - 1]);
      assert forall n :: 0 <= n < |steps| - 1 ==> steps[n] == steps[..|steps| - 1][n];
    }
  }

  lemma OneGoesOn<T>(s: Sys<T>, step: Step<T>)
    requires GoesOn(s, step)
    ensures GoingOn(s, [step])
  {
    var one := [step];
    assert one[..|one| - 1] == [] && B.Exec(s, one[..|one| - 1]) == s;
    assert GoingOn(s, one[..|one| - 1]);
  }

  lemma TwoGoOn<T>(s: Sys<T>, a: Step<T>, b: Step<T>)
    requires GoesOn(s, a) && GoesOn(Do(s, a), b)
    ensures GoingOn(s, [a, b])
  {
    OneGoesOn(s, a);
    RunOne(s, a);
    assert [a, b][..1] == [a];
  }

  lemma {:induction false} GoingOnConcat<T>(s: Sys<T>, a: seq<Step<T>>, b: seq<Step<T>>)
    requires GoingOn(s, a) && GoingOn(B.Exec(s, a), b)
    ensures GoingOn(s, a + b)
  {
    if b == [] {
      assert a + b == a;
    } else {
      assert (a + b)[..|a + b| - 1] == a + b[..|b| - 1];
      GoingOnConcat(s, a, b[..|b| - 1]);
      RunConcat(s, a, b[..|b| - 1]);
    }
  }

  // ---- The broadcaster's way to its end ----

  /** How many steps of its own the broadcaster has left once the stop request has landed. */
  function CasterLeft<T>(s: Sys<T>): nat
    requires ShapesFit(s)
  {
    var n, m := |s.ins|, |s.outs|;
    match s.caster
    case Scan(i) => ScanLeft(n - i, m)
    case Testing(i) => ScanLeft(n - i - 1, m) + 2 * m + 3
    case CopyWait(i) => ScanLeft(n - i - 1, m) + 2 * m + 2
    case CopyHold(i, done) => ScanLeft(n - i - 1, m) + 2 * (m - done) + 1
    case CopyBoth(i, done) => ScanLeft(n - i - 1, m) + 2 * (m - done)
    case _ => 0
  }

  /** The same at the scan of the first of n input queues. */
  function ScanLeft(n: nat, outputs: nat): (left: nat)
    ensures left > 0
  {
    if n == 0 then 1 else ScanLeft(n - 1, outputs) + 2 * outputs + 4
  }

  lemma {:induction false} ScanLeftBound(n: nat, outputs: nat)
    ensures ScanLeft(n, outputs) == n * (2 * outputs + 4) + 1
  {
    if n > 0 {
      ScanLeftBound(n - 1, outputs);
      assert (n - 1) * (2 * outputs + 4) + (2 * outputs + 4) == n * (2 * outputs + 4);
    }
  }

  lemma {:induction false} ScanLeftMonotone(n: nat, more: nat, outputs: nat)
    requires n <= more
    ensures ScanLeft(n, outputs) <= ScanLeft(more, outputs)
    decreases more
  {
    if n < more {
      ScanLeftMonotone(n, more - 1, outputs);
    }
  }

  lemma CasterLeftBound<T>(s: Sys<T>)
    requires ShapesFit(s)
    ensures CasterLeft(s) <= |s.ins| * (2 * |s.outs| + 4) + 1
  {
    ScanLeftBound(|s.ins|, |s.outs|);
    match s.caster {
      case Scan(i) => ScanLeftMonotone(|s.ins| - i, |s.ins|, |s.outs|);
      case Testing(i) => ScanLeftMonotone(|s.ins| - i, |s.ins|, |s.outs|);
      case CopyWait(i) => ScanLeftMonotone(|s.ins| - i, |s.ins|, |s.outs|);
      case CopyHold(i, _) => ScanLeftMonotone(|s.ins| - i, |s.ins|, |s.outs|);
      case CopyBoth(i, _) => ScanLeftMonotone(|s.ins| - i, |s.ins|, |s.outs|);
      case _ =>
    }
  }

  /** Each step of the broadcaster brings its end nearer, and no other thread's step moves it away. */
  lemma CasterLeftStep<T>(s: Sys<T>, step: Step<T>)
    requires ShapesFit(s) && StopLanded(s)
    ensures ShapesFit(Do(s, step))
    ensures if step.Cast? && B.Enabled(s, step) then CasterLeft(Do(s, step)) < CasterLeft(s) else CasterLeft(Do(s, step)) == CasterLeft(s)
  {
    ShapesStep(s, step);
  }

  /** How many steps of the schedule the broadcaster takes. */
  function Casts<T>(s: Sys<T>, steps: seq<Step<T>>): nat {
    if steps == [] then 0
    else
      var before := steps[..|steps| - 1];
      Casts(s, before) + if steps[|steps| - 1].Cast? && B.Enabled(B.Exec(s, before), Step<T>.Cast) then 1 else 0
  }

  /** Whatever the other threads do, the broadcaster takes only boundedly many more steps. */
  lemma {:induction false} CasterIsBounded<T>(s: Sys<T>, steps: seq<Step<T>>)
    requires ShapesFit(s) && StopLanded(s)
    ensures var s' := B.Exec(s, steps);
      ShapesFit(s') && StopLanded(s') && Casts(s, steps) + CasterLeft(s') <= CasterLeft(s)
  {
    if steps != [] {
      var before, step := steps[..|steps| - 1], steps[|steps| - 1];
      CasterIsBounded(s, before);
      StopStays(B.Exec(s, before), step);
      CasterLeftStep(B.Exec(s, before), step);
    }
  }

  /** A thread that holds a mutex the broadcaster waits for. */
  lemma Blocker<T>(s: Sys<T>) returns (k: nat)
    requires Inv(s) && s.caster != Done && !B.Enabled(s, Cast)
    ensures k < |s.clients| && B.Enabled(s, Advance(k)) && ClientHolds(s.clients[k]) != {}
    ensures B.Enabled(Do(s, Advance(k)), Cast) && Do(s, Advance(k)).caster == s.caster
  {
    var l :| l in CasterWants(s) && l in s.owner;
    var t := s.owner[l];
    assert l in Holds(s, t);
    assert l !in CasterHolds(s.caster);
    k := t.k;
    assert ClientHolds(s.clients[k]) == {l};
    ShapesStep(s, Advance(k));
  }

  lemma CastLowers<T>(s: Sys<T>)
    requires Inv(s) && StopLanded(s) && B.Enabled(s, Cast)
    ensures Inv(Do(s, Cast)) && StopLanded(Do(s, Cast)) && CasterLeft(Do(s, Cast)) < CasterLeft(s)
  {
    InvStep(s, Cast);
    StopStays(s, Cast);
    CasterLeftStep(s, Cast);
  }

  /** One step of the broadcaster, if need be after one of the thread that blocks it. */
  lemma CasterGoesOn<T>(s: Sys<T>) returns (steps: seq<Step<T>>)
    requires Inv(s) && StopLanded(s) && s.caster != Done
    ensures |steps| <= 2 && GoingOn(s, steps)
    ensures var s' := B.Exec(s, steps); Inv(s') && StopLanded(s') && CasterLeft(s') < CasterLeft(s)
  {
    if B.Enabled(s, Cast) {
      steps := [Cast];
      RunOne(s, Step<T>.Cast);
      OneGoesOn(s, Step<T>.Cast);
      CastLowers(s);
    } else {
      var k := Blocker(s);
      steps := [Advance(k), Cast];
      RunTwo(s, Advance(k), Cast);
      TwoGoOn(s, Advance(k), Cast);
      CasterLeftStep(s, Advance(k));
      InvStep(s, Advance(k));
      StopStays(s, Advance(k));
      CastLowers(Do(s, Advance(k)));
    }
  }

  /**
    From every state after a stop request has landed, the broadcaster can get to its end: at most one step of a
    thread that holds the mutex it needs comes before each of its own.
   */
  lemma {:induction false} CasterCanFinish<T>(s: Sys<T>) returns (steps: seq<Step<T>>)
    requires Inv(s) && StopLanded(s)
    ensures B.Exec(s, steps).caster == Done && |steps| <= 2 * CasterLeft(s) && GoingOn(s, steps)
    decreases CasterLeft(s)
  {
    if s.caster == Done {
      steps := [];
    } else {
      var first := CasterGoesOn(s);
      var rest := CasterCanFinish(B.Exec(s, first));
      RunConcat(s, first, rest);
      GoingOnConcat(s, first, rest);
      steps := first + rest;
    }
  }

  // ---- Deadlock freedom ----

  function ThreadOf<T>(step: Step<T>): Thread {
    match step
    case StartPush(k, _, _) => Client(k)
    case StartPop(k, _) => Client(k)
    case Advance(k) => Client(k)
    case _ => Caster
  }

  /** Every step of the schedule is enabled and taken by a thread that holds a mutex. */
  predicate ByHolders<T>(s: Sys<T>, steps: seq<Step<T>>) {
    steps == [] ||
    var was := B.Exec(s, steps[..|steps| - 1]);
    && ByHolders(s, steps[..|steps| - 1])
    && ShapesFit(was) && B.Enabled(was, steps[|steps| - 1]) && Holds(was, ThreadOf(steps[|steps| - 1])) != {}
  }

  function Holding<T>(clients: seq<ClientPc<T>>): nat {
    if clients == [] then 0
    else Holding(clients[1..]) + if ClientHolds(clients[0]) != {} then 1 else 0
  }

  lemma {:induction false} HoldingDrops<T>(clients: seq<ClientPc<T>>, k: nat, pc: ClientPc<T>)
    requires k < |clients| && ClientHolds(clients[k]) != {} && ClientHolds(pc) == {}
    ensures Holding(clients[k := pc]) == Holding(clients) - 1
  {
    if k > 0 {
      HoldingDrops(clients[1..], k - 1, pc);
      assert clients[k := pc][1..] == clients[1..][k - 1 := pc];
    } else {
      assert clients[0 := pc][1..] == clients[1..];
    }
  }

  lemma {:induction false} HoldingBound<T>(clients: seq<ClientPc<T>>)
    ensures Holding(clients) <= |clients|
    ensures Holding(clients) > 0 ==> exists k :: 0 <= k < |clients| && ClientHolds(clients[k]) != {}
    ensures Holding(clients) == 0 ==> forall k :: 0 <= k < |clients| ==> ClientHolds(clients[k]) == {}
  {
    if clients != [] {
      HoldingBound(clients[1..]);
      if Holding(clients[1..]) > 0 {
        var k :| 0 <= k < |clients[1..]| && ClientHolds(clients[1..][k]) != {};
        assert ClientHolds(clients[k + 1]) != {};
      }
    }
  }

  /** How many steps the broadcaster needs to let go of its mutexes. */
  function CasterWork<T>(s: Sys<T>): nat
    requires ShapesFit(s)
  {
    match s.caster
    case Testing(_) => 1
    case CopyHold(_, done) => 2 * (|s.outs| - done) + 1
    case CopyBoth(_, done) => 2 * (|s.outs| - done)
    case _ => 0
  }

  lemma ClientCanLetGo<T>(s: Sys<T>, k: nat)
    requires ShapesFit(s) && k < |s.clients| && ClientHolds(s.clients[k]) != {}
    ensures var s' := Do(s, Advance(k));
      B.Enabled(s, Advance(k)) && Holding(s'.clients) == Holding(s.clients) - 1 && s'.caster == s.caster && |s'.outs| == |s.outs|
  {
    HoldingDrops(s.clients, k, AdvanceStep(s, k).clients[k]);
  }

  lemma CasterCanWork<T>(s: Sys<T>)
    requires ShapesFit(s) && LocksFit(s) && Holding(s.clients) == 0 && s.owner != map[]
    ensures B.Enabled(s, Cast) && Holds(s, Caster) != {}
    ensures ShapesFit(Do(s, Cast)) && CasterWork(Do(s, Cast)) == CasterWork(s) - 1 && Do(s, Cast).clients == s.clients
  {
    HoldingBound(s.clients);
    ShapesStep(s, Cast);
    forall l | l in s.owner ensures l in CasterHolds(s.caster) {
      assert l in Holds(s, s.owner[l]);
    }
    var l :| l in s.owner;
    assert l in CasterHolds(s.caster);
  }

  /** As long as a mutex is held, some holder is not blocked and its step brings the end nearer. */
  lemma HolderCanStep<T>(s: Sys<T>) returns (step: Step<T>)
    requires Inv(s) && s.owner != map[]
    ensures B.Enabled(s, step) && Holds(s, ThreadOf(step)) != {} && GoesOn(s, step)
    ensures Inv(Do(s, step)) && |Do(s, step).clients| == |s.clients| && |Do(s, step).outs| == |s.outs|
    ensures Holding(Do(s, step).clients) + CasterWork(Do(s, step)) == Holding(s.clients) + CasterWork(s) - 1
  {
    if Holding(s.clients) > 0 {
      HoldingBound(s.clients);
      var k :| 0 <= k < |s.clients| && ClientHolds(s.clients[k]) != {};
      step := Advance(k);
      ClientCanLetGo(s, k);
    } else {
      step := Cast;
      CasterCanWork(s);
    }
    InvStep(s, step);
    ShapesStep(s, step);
  }

  lemma {:induction false} HolderFirst<T>(s: Sys<T>, step: Step<T>, rest: seq<Step<T>>)
    requires ShapesFit(s) && B.Enabled(s, step) && Holds(s, ThreadOf(step)) != {}
    requires ByHolders(Do(s, step), rest)
    ensures ByHolders(s, [step] + rest) && B.Exec(s, [step] + rest) == B.Exec(Do(s, step), rest)
  {
    var all := [step] + rest;
    if rest == [] {
      assert all[..0] == [];
    } else {
      assert all[..|all| - 1] == [step] + rest[..|rest| - 1];
      HolderFirst(s, step, rest[..|rest| - 1]);
    }
  }

  /**
    Deadlock freedom: from every reachable state the threads that hold mutexes can, without help from
    any other thread, get to a state in which every mutex is free, in a bounded number of steps.
   */
  lemma {:induction false} HoldersFinish<T>(s: Sys<T>) returns (steps: seq<Step<T>>)
    requires Inv(s)
    ensures ByHolders(s, steps) && B.Exec(s, steps).owner == map[] && GoingOn(s, steps)
    ensures |steps| <= |s.clients| + 2 * |s.outs| + 1
    ensures |steps| == Holding(s.clients) + CasterWork(s)
    decreases Holding(s.clients) + CasterWork(s)
  {
    HoldingBound(s.clients);
    if s.owner == map[] {
      steps := [];
      NoOwnerNoHolder(s);
    } else {
      var step := HolderCanStep(s);
      var rest := HoldersFinish(Do(s, step));
      HolderFirst(s, step, rest);
      OneGoesOn(s, step);
      RunOne(s, step);
      GoingOnConcat(s, [step], rest);
      steps := [step] + rest;
    }
  }

  lemma WorkMeansHolding<T>(s: Sys<T>)
    requires ShapesFit(s)
    ensures CasterHolds(s.caster) == {} ==> CasterWork(s) == 0
  {
    match s.caster {
      case Testing(i) => assert In(i) in CasterHolds(s.caster);
      case CopyHold(i, _) => assert In(i) in CasterHolds(s.caster);
      case CopyBoth(i, _) => assert In(i) in CasterHolds(s.caster);
      case _ =>
    }
  }

  lemma NoOwnerNoHolder<T>(s: Sys<T>)
    requires Inv(s) && s.owner == map[]
    ensures Holding(s.clients) == 0 && CasterWork(s) == 0
  {
    HoldingBound(s.clients);
    forall l, t ensures l !in Holds(s, t) {
      assert l !in s.owner;
    }
    forall k | 0 <= k < |s.clients| ensures ClientHolds(s.clients[k]) == {} {
      assert ClientHolds(s.clients[k]) == Holds(s, Client(k)) == {};
    }
    assert CasterHolds(s.caster) == Holds(s, Caster) == {};
    WorkMeansHolding(s);
  }

  // ---- A consumer's way out of its pop ----

  function ClientLeft<T>(pc: ClientPc<T>): nat {
    match pc
    case Rest => 0
    case PushWait(_, _) => 2
    case PushHold(_, _) => 1
    case TestWait(_) => 4
    case TestHold(_) => 3
    case MoveWait(_) => 2
    case MoveHold(_) => 1
  }

  /** No other thread holds a mutex. */
  ghost predicate Alone<T>(s: Sys<T>, k: nat) {
    k < |s.clients| && forall l :: l in s.owner ==> s.owner[l] == Client(k)
  }

  lemma AloneGoesOn<T>(s: Sys<T>, k: nat)
    requires ShapesFit(s) && LocksFit(s) && Alone(s, k) && !s.clients[k].Rest?
    ensures var s' := Do(s, Advance(k)); Alone(s', k) && ClientLeft(s'.clients[k]) < ClientLeft(s.clients[k])
  {
    forall l | l in ClientWants(s.clients[k]) ensures l !in s.owner {
      assert l !in Holds(s, Client(k));
    }
  }

  /** A client that no other thread is in the way of can finish what it has begun. */
  lemma {:induction false} ClientAlone<T>(s: Sys<T>, k: nat) returns (steps: seq<Step<T>>)
    requires Inv(s) && Alone(s, k)
    ensures k < |B.Exec(s, steps).clients| && B.Exec(s, steps).clients[k].Rest?
    ensures |steps| <= ClientLeft(s.clients[k]) && GoingOn(s, steps)
    decreases ClientLeft(s.clients[k])
  {
    if s.clients[k].Rest? {
      steps := [];
    } else {
      AloneGoesOn(s, k);
      InvStep(s, Advance(k));
      var rest := ClientAlone(Do(s, Advance(k)), k);
      steps := [Advance(k)] + rest;
      OneGoesOn(s, Advance(k));
      RunOne(s, Advance(k));
      RunConcat(s, [Advance(k)], rest);
      GoingOnConcat(s, [Advance(k)], rest);
    }
  }

  lemma {:induction false} RunKeepsInv<T>(s: Sys<T>, steps: seq<Step<T>>)
    requires Inv(s)
    ensures Inv(B.Exec(s, steps)) && |B.Exec(s, steps).clients| == |s.clients| && |B.Exec(s, steps).ins| == |s.ins|
    ensures |B.Exec(s, steps).outs| == |s.outs|
  {
    if steps != [] {
      RunKeepsInv(s, steps[..|steps| - 1]);
      InvStep(B.Exec(s, steps[..|steps| - 1]), steps[|steps| - 1]);
      ShapesStep(B.Exec(s, steps[..|steps| - 1]), steps[|steps| - 1]);
    }
  }

  /** From every reachable state a client can finish the push or pop it has begun. */
  lemma ClientCanRest<T>(s: Sys<T>, k: nat) returns (steps: seq<Step<T>>)
    requires Inv(s) && k < |s.clients|
    ensures k < |B.Exec(s, steps).clients| && B.Exec(s, steps).clients[k].Rest?
    ensures |steps| <= |s.clients| + 2 * |s.outs| + 5 && GoingOn(s, steps)
  {
    var free := HoldersFinish(s);
    RunKeepsInv(s, free);
    var rest := ClientAlone(B.Exec(s, free), k);
    RunConcat(s, free, rest);
    GoingOnConcat(s, free, rest);
    steps := free + rest;
  }
}
