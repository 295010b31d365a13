/**
  What a schedule asks for is what happens: pushes enter the queue they name, in the order in which their client asked
  for them, and a pop takes from the queue it names. The requests are read off the schedule itself.
 */
module BroadcastRequests {
  import opened Channels
  import opened BroadcastSteps
  import opened BroadcastProgress
  import B = BroadcastSteps

  /** The last step of a schedule, if it does something. */
  function Took<T>(s: Sys<T>, steps: seq<Step<T>>): seq<Step<T>>
    requires steps != []
  {
    var last := steps[|steps| - 1];
    if B.Enabled(B.Exec(s, steps[..|steps| - 1]), last) then [last] else []
  }

  // ---- Counting ----

  /** How often the schedule asks to push x into input queue i. */
  function Asked<T(==)>(s: Sys<T>, steps: seq<Step<T>>, i: nat, x: T): nat {
    if steps == [] then 0
    else
      var took := Took(s, steps);
      Asked(s, steps[..|steps| - 1], i, x) + if took != [] && took[0].StartPush? && took[0].i == i && took[0].x == x then 1 else 0
  }

  /** How many clients are inside a push of x into input queue i. */
  function InHand<T(==)>(clients: seq<ClientPc<T>>, i: nat, x: T): nat {
    if clients == [] then 0 else InHand(clients[1..], i, x) + if Pushing(clients[0], i, x) then 1 else 0
  }

  predicate Pushing<T(==)>(pc: ClientPc<T>, i: nat, x: T) {
    pc == PushWait(i, x) || pc == PushHold(i, x)
  }

  lemma {:induction false} InHandAfter<T>(clients: seq<ClientPc<T>>, i: nat, x: T, k: nat, pc: ClientPc<T>)
    requires k < |clients|
    ensures InHand(clients[k := pc], i, x) ==
      InHand(clients, i, x) - (if Pushing(clients[k], i, x) then 1 else 0) + if Pushing(pc, i, x) then 1 else 0
  {
    if k == 0 {
      assert clients[0 := pc][1..] == clients[1..];
    } else {
      InHandAfter(clients[1..], i, x, k - 1, pc);
      assert clients[k := pc][1..] == clients[1..][k - 1 := pc];
    }
  }

  lemma {:induction false} NoneInHand<T>(threads: nat, i: nat, x: T)
    ensures InHand(seq(threads, _ => Rest), i, x) == 0
  {
    if threads > 0 {
      assert seq<ClientPc<T>>(threads, _ => Rest)[1..] == seq<ClientPc<T>>(threads - 1, _ => Rest);
      NoneInHand(threads - 1, i, x);
    }
  }

  /** What a step adds to what was pushed into input queue i. */
  function NewlyPushed<T>(s: Sys<T>, step: Step<T>, i: nat): (added: seq<T>)
    requires ShapesFit(s)
    ensures |added| <= 1 && (added != [] ==> step.Advance?)
  {
    if step.Advance? && B.Enabled(s, step) && s.clients[step.k].PushHold? && s.clients[step.k].i == i then [s.clients[step.k].x]
    else []
  }

  lemma PushedByEvents<T>(c0: Channel<T>, es: seq<Event<T>>, more: seq<Event<T>>, i: nat)
    requires |more| <= 1 && (more != [] && more[0].Push? ==> Channels.Enabled(Channels.Exec(c0, es), more[0]))
    ensures Pushed(c0, es + more, i) == Pushed(c0, es, i) + if more != [] && more[0].Push? && more[0].i == i then [more[0].x] else []
  {
    if more == [] {
      assert es + more == es;
    } else {
      ExecSnoc(c0, es, more[0]);
      assert more == [more[0]];
    }
  }

  lemma PushedStep<T>(s: Sys<T>, step: Step<T>, i: nat)
    requires Inv(s)
    ensures var c0 := Fresh(|s.ins|, |s.outs|); Pushed(c0, Do(s, step).trace, i) == Pushed(c0, s.trace, i) + NewlyPushed(s, step, i)
  {
    TraceStep(s, step);
    var more := if B.Enabled(s, step) then EventOf(s, step) else [];
    assert InputsFit(s, History(s));
    assert step.Advance? && step.k < |s.clients| ==> ClientFits(s, s.clients[step.k]);
    PushedByEvents(Fresh<T>(|s.ins|, |s.outs|), s.trace, more, i);
  }

  lemma InHandStep<T>(s: Sys<T>, step: Step<T>, i: nat, x: T)
    requires ShapesFit(s)
    ensures InHand(Do(s, step).clients, i, x) + multiset(NewlyPushed(s, step, i))[x] ==
      InHand(s.clients, i, x) + if B.Enabled(s, step) && step.StartPush? && step.i == i && step.x == x then 1 else 0
  {
    if B.Enabled(s, step) {
      match step {
        case StartPush(k, j, y) => InHandAfter(s.clients, i, x, k, PushWait(j, y));
        case StartPop(k, j) => InHandAfter(s.clients, i, x, k, TestWait(j));
        case Advance(k) => AdvanceInHand(s, k, i, x);
        case _ =>
      }
    }
  }

  lemma AdvanceInHand<T>(s: Sys<T>, k: nat, i: nat, x: T)
    requires ShapesFit(s) && B.Enabled(s, Advance(k))
    ensures InHand(AdvanceStep(s, k).clients, i, x) + multiset(NewlyPushed(s, Advance(k), i))[x] == InHand(s.clients, i, x)
  {
    var pc := AdvanceStep(s, k).clients[k];
    InHandAfter(s.clients, i, x, k, pc);
    assert AdvanceStep(s, k).clients == s.clients[k := pc];
  }

  /**
    Nothing asked for is lost, redirected or made up: for every schedule, input queue and item, the requests to push the
    item into the queue are as many as the pushes of it into the queue and the clients still inside such a push.
   */
  lemma {:induction false} RequestsArePushes<T>(inputs: nat, outputs: nat, threads: nat, steps: seq<Step<T>>, i: nat, x: T)
    ensures var s0 := Init(inputs, outputs, threads);
      var s := B.Exec(s0, steps);
      Asked(s0, steps, i, x) == multiset(Pushed(Fresh(inputs, outputs), s.trace, i))[x] + InHand(s.clients, i, x)
  {
    var s0 := Init<T>(inputs, outputs, threads);
    if steps == [] {
      NoneInHand(threads, i, x);
    } else {
      var before, last := steps[..|steps| - 1], steps[|steps| - 1];
      var was := B.Exec(s0, before);
      RequestsArePushes(inputs, outputs, threads, before, i, x);
      InvAlways<T>(inputs, outputs, threads, before);
      PushedStep(was, last, i);
      InHandStep(was, last, i, x);
      CountStep(Pushed(Fresh<T>(inputs, outputs), was.trace, i), NewlyPushed(was, last, i), x);
    }
  }

  lemma CountStep<T>(a: seq<T>, b: seq<T>, x: T)
    ensures multiset(a + b)[x] == multiset(a)[x] + multiset(b)[x]
  {
    assert multiset(a + b) == multiset(a) + multiset(b);
  }

  // ---- The order of one client's pushes ----

  /** What client k asks to push into input queue i, in the order of its requests. */
  function AskedBy<T>(s: Sys<T>, steps: seq<Step<T>>, k: nat, i: nat): seq<T> {
    if steps == [] then []
    else
      var took := Took(s, steps);
      AskedBy(s, steps[..|steps| - 1], k, i) +
      if took != [] && took[0].StartPush? && took[0].k == k && took[0].i == i then [took[0].x] else []
  }

  /** The pushes into input queue i in the order in which they happened, each with its client. */
  function Landed<T>(s: Sys<T>, steps: seq<Step<T>>, i: nat): seq<(nat, T)> {
    if steps == [] then []
    else
      var before, last := steps[..|steps| - 1], steps[|steps| - 1];
      var was := B.Exec(s, before);
      Landed(s, before, i) +
      if ShapesFit(was) && NewlyPushed(was, last, i) != [] then [(last.k, NewlyPushed(was, last, i)[0])] else []
  }

  function Items<T>(pushes: seq<(nat, T)>): (items: seq<T>)
    ensures |items| == |pushes|
  {
    seq(|pushes|, n requires 0 <= n < |pushes| => pushes[n].1)
  }

  /** The items that client k pushed. */
  function Of<T>(pushes: seq<(nat, T)>, k: nat): seq<T> {
    if pushes == [] then []
    else
      var last := pushes[|pushes| - 1];
      Of(pushes[..|pushes| - 1], k) + if last.0 == k then [last.1] else []
  }

  /** What the client is about to push into input queue i. */
  function Holding<T>(s: Sys<T>, k: nat, i: nat): seq<T> {
    if k >= |s.clients| then []
    else
      match s.clients[k]
      case PushWait(j, x) => if j == i then [x] else []
      case PushHold(j, x) => if j == i then [x] else []
      case _ => []
  }

  lemma HoldingAdvance<T>(s: Sys<T>, k: nat, i: nat)
    requires ShapesFit(s) && B.Enabled(s, Advance(k))
    ensures NewlyPushed(s, Advance(k), i) + Holding(AdvanceStep(s, k), k, i) == Holding(s, k, i)
  {
  }

  lemma OthersHold<T>(s: Sys<T>, step: Step<T>, k: nat, i: nat)
    requires ShapesFit(s) && !(step.StartPush? && step.k == k) && !(step.Advance? && step.k == k)
    ensures Holding(Do(s, step), k, i) == Holding(s, k, i)
  {
  }

  lemma HoldingStep<T>(s: Sys<T>, step: Step<T>, k: nat, i: nat)
    requires ShapesFit(s)
    ensures (if step.Advance? && step.k == k then NewlyPushed(s, step, i) else []) + Holding(Do(s, step), k, i) ==
      Holding(s, k, i) + if B.Enabled(s, step) && step.StartPush? && step.k == k && step.i == i then [step.x] else []
  {
    if !(step.StartPush? && step.k == k) && !(step.Advance? && step.k == k) {
      OthersHold(s, step, k, i);
    } else if step.Advance? && B.Enabled(s, step) {
      HoldingAdvance(s, k, i);
    }
  }

  lemma OfSnoc<T>(pushes: seq<(nat, T)>, k: nat, push: (nat, T))
    ensures Of(pushes + [push], k) == Of(pushes, k) + if push.0 == k then [push.1] else []
  {
    assert (pushes + [push])[..|pushes|] == pushes;
  }

  /** What was pushed into input queue i, split by clients. */
  lemma {:induction false} LandedIsPushed<T>(inputs: nat, outputs: nat, threads: nat, steps: seq<Step<T>>, i: nat)
    ensures var s0 := Init(inputs, outputs, threads);
      Items(Landed(s0, steps, i)) == Pushed(Fresh(inputs, outputs), B.Exec(s0, steps).trace, i)
  {
    if steps != [] {
      var before, last := steps[..|steps| - 1], steps[|steps| - 1];
      var was := B.Exec(Init<T>(inputs, outputs, threads), before);
      LandedIsPushed<T>(inputs, outputs, threads, before, i);
      InvAlways<T>(inputs, outputs, threads, before);
      PushedStep(was, last, i);
    }
  }

  /** How what a client asked for, what it pushed and what it holds change with the last step of a schedule. */
  lemma OrderStep<T>(s0: Sys<T>, steps: seq<Step<T>>, k: nat, i: nat)
    requires steps != [] && ShapesFit(B.Exec(s0, steps[..|steps| - 1]))
    requires var before := steps[..|steps| - 1];
      AskedBy(s0, before, k, i) == Of(Landed(s0, before, i), k) + Holding(B.Exec(s0, before), k, i)
    ensures AskedBy(s0, steps, k, i) == Of(Landed(s0, steps, i), k) + Holding(B.Exec(s0, steps), k, i)
  {
    var before, last := steps[..|steps| - 1], steps[|steps| - 1];
    var was := B.Exec(s0, before);
    var added := if last.Advance? && last.k == k then NewlyPushed(was, last, i) else [];
    var asked := if B.Enabled(was, last) && last.StartPush? && last.k == k && last.i == i then [last.x] else [];
    HoldingStep(was, last, k, i);
    LandedStep(s0, steps, k, i);
    Regroup(Of(Landed(s0, before, i), k), Holding(was, k, i), added, Holding(Do(was, last), k, i), asked);
    assert AskedBy(s0, steps, k, i) == AskedBy(s0, before, k, i) + asked;
  }

  lemma LandedStep<T>(s0: Sys<T>, steps: seq<Step<T>>, k: nat, i: nat)
    requires steps != [] && ShapesFit(B.Exec(s0, steps[..|steps| - 1]))
    ensures var before, last := steps[..|steps| - 1], steps[|steps| - 1];
      Of(Landed(s0, steps, i), k) == Of(Landed(s0, before, i), k) +
        if last.Advance? && last.k == k then NewlyPushed(B.Exec(s0, before), last, i) else []
  {
    var before, last := steps[..|steps| - 1], steps[|steps| - 1];
    var added := NewlyPushed(B.Exec(s0, before), last, i);
    if added != [] {
      OfSnoc(Landed(s0, before, i), k, (last.k, added[0]));
      assert Landed(s0, steps, i) == Landed(s0, before, i) + [(last.k, added[0])];
      assert added == [added[0]];
    } else {
      assert Landed(s0, steps, i) == Landed(s0, before, i);
    }
  }

  /**
    Each client's pushes into a queue keep their order: what it asked to push into input queue i is what it has pushed
    there, followed by what it is about to push.
   */
  lemma {:induction false} ClientOrder<T>(inputs: nat, outputs: nat, threads: nat, steps: seq<Step<T>>, k: nat, i: nat)
    ensures var s0 := Init(inputs, outputs, threads);
      AskedBy(s0, steps, k, i) == Of(Landed(s0, steps, i), k) + Holding(B.Exec(s0, steps), k, i)
  {
    if steps != [] {
      ClientOrder<T>(inputs, outputs, threads, steps[..|steps| - 1], k, i);
      InvAlways<T>(inputs, outputs, threads, steps[..|steps| - 1]);
      OrderStep(Init<T>(inputs, outputs, threads), steps, k, i);
    }
  }

  lemma Regroup<T>(done: seq<T>, held: seq<T>, added: seq<T>, held': seq<T>, asked: seq<T>)
    requires added + held' == held + asked
    ensures done + held + asked == (done + added) + held'
  {
    Assoc(done, held, asked);
    Assoc(done, added, held');
  }

  // ---- Which queue a pop takes from ----

  /** The last request of client k in the schedule. */
  function LastAsked<T>(s: Sys<T>, steps: seq<Step<T>>, k: nat): seq<Step<T>> {
    if steps == [] then []
    else
      var took := Took(s, steps);
      if took != [] && (took[0].StartPush? || took[0].StartPop?) && took[0].k == k then took
      else LastAsked(s, steps[..|steps| - 1], k)
  }

  /** Client k is inside nothing else than the push or pop that the schedule asked it for last. */
  ghost predicate DoesWhatWasAsked<T>(pc: ClientPc<T>, k: nat, asked: seq<Step<T>>) {
    match pc
    case Rest => true
    case PushWait(i, x) => asked == [StartPush(k, i, x)]
    case PushHold(i, x) => asked == [StartPush(k, i, x)]
    case TestWait(j) => asked == [StartPop(k, j)]
    case TestHold(j) => asked == [StartPop(k, j)]
    case MoveWait(j) => asked == [StartPop(k, j)]
    case MoveHold(j) => asked == [StartPop(k, j)]
  }

  lemma AskedStep<T>(s: Sys<T>, step: Step<T>, k: nat, asked: seq<Step<T>>)
    requires ShapesFit(s) && k < |s.clients| && DoesWhatWasAsked(s.clients[k], k, asked)
    requires B.Enabled(s, step)
    ensures var s' := Do(s, step);
      k < |s'.clients| &&
      DoesWhatWasAsked(s'.clients[k], k, if (step.StartPush? || step.StartPop?) && step.k == k then [step] else asked)
  {
    ShapesStep(s, step);
  }

  lemma {:induction false} ClientsDoWhatWasAsked<T>(inputs: nat, outputs: nat, threads: nat, steps: seq<Step<T>>, k: nat)
    requires k < threads
    ensures var s0 := Init(inputs, outputs, threads);
      k < |B.Exec(s0, steps).clients| && DoesWhatWasAsked(B.Exec(s0, steps).clients[k], k, LastAsked(s0, steps, k))
  {
    InvAlways<T>(inputs, outputs, threads, steps);
    if steps != [] {
      var s0, before := Init<T>(inputs, outputs, threads), steps[..|steps| - 1];
      ClientsDoWhatWasAsked<T>(inputs, outputs, threads, before, k);
      InvAlways<T>(inputs, outputs, threads, before);
      if B.Enabled(B.Exec(s0, before), steps[|steps| - 1]) {
        AskedStep(B.Exec(s0, before), steps[|steps| - 1], k, LastAsked(s0, before, k));
      }
    }
  }

  /** What a step hands to the consumer of output queue j comes from a pop of that queue. */
  lemma OnlyMovesReceive<T>(s: Sys<T>, step: Step<T>, j: nat)
    requires ShapesFit(s) && j < |s.received|
    ensures j < |Do(s, step).received|
    ensures Do(s, step).received[j] != s.received[j] ==>
      step.Advance? && step.k < |s.clients| && s.clients[step.k] == MoveHold(j) && Do(s, step).received[j] == s.received[j] + s.outs[j]
  {
  }

  /**
    A pop takes from the queue it was asked for: when the consumer of output queue j receives something, that is the
    whole queue, and the client that takes it was last asked to pop this queue.
   */
  lemma PopsAsAsked<T>(inputs: nat, outputs: nat, threads: nat, steps: seq<Step<T>>, step: Step<T>, j: nat)
    requires j < outputs
    ensures var s0 := Init(inputs, outputs, threads);
      var s := B.Exec(s0, steps);
      && j < |s.received| && j < |s.outs| && j < |Do(s, step).received|
      && (Do(s, step).received[j] != s.received[j] ==>
        && step.Advance? && LastAsked(s0, steps, step.k) == [StartPop(step.k, j)]
        && Do(s, step).received[j] == s.received[j] + s.outs[j])
  {
    InvAlways<T>(inputs, outputs, threads, steps);
    var s := B.Exec(Init<T>(inputs, outputs, threads), steps);
    OnlyMovesReceive(s, step, j);
    if Do(s, step).received[j] != s.received[j] {
      ClientsDoWhatWasAsked<T>(inputs, outputs, threads, steps, step.k);
    }
  }

  // ---- A push or pop that nobody disturbs ----

  /** Client k pushes: its item joins the end of the queue it named, and nothing else changes. */
  lemma PushAlone<T>(s: Sys<T>, k: nat, i: nat, x: T)
    requires Inv(s) && k < |s.clients| && s.clients[k].Rest? && i < |s.ins| && In(i) !in s.owner
    ensures var s' := Do(Do(Do(s, StartPush(k, i, x)), Advance(k)), Advance(k));
      s' == s.(ins := s.ins[i := s.ins[i] + [x]], trace := s.trace + [Event.Push(i, x)])
  {
    var s1 := Do(s, StartPush(k, i, x));
    assert s1 == s.(clients := s.clients[k := PushWait(i, x)]);
    InvStep(s, StartPush(k, i, x));
    var s2 := Do(s1, Advance(k));
    assert s2 == s1.(clients := s.clients[k := PushHold(i, x)], owner := s.owner[In(i) := Client(k)]);
    InvStep(s1, Advance(k));
    assert s.owner[In(i) := Client(k)] - {In(i)} == s.owner;
    assert s.clients[k := Rest] == s.clients;
  }

  /** Client k pops: all of the queue it named is handed over, and nothing else changes; an empty queue changes nothing. */
  lemma PopAlone<T>(s: Sys<T>, k: nat, j: nat)
    requires Inv(s) && k < |s.clients| && s.clients[k].Rest? && j < |s.outs| && Out(j) !in s.owner
    ensures var tested := Do(Do(Do(s, StartPop(k, j)), Advance(k)), Advance(k));
      if s.outs[j] == [] then tested == s
      else
        && tested == s.(clients := s.clients[k := MoveWait(j)])
        && j < |s.received|
        && Do(Do(tested, Advance(k)), Advance(k)) ==
          s.(outs := s.outs[j := []], received := s.received[j := s.received[j] + s.outs[j]], trace := s.trace + [Read(j, |s.outs[j]|)])
  {
    TestAlone(s, k, j);
    if s.outs[j] != [] {
      MoveAlone(s, k, j);
    }
  }

  lemma TestAlone<T>(s: Sys<T>, k: nat, j: nat)
    requires Inv(s) && k < |s.clients| && s.clients[k].Rest? && j < |s.outs| && Out(j) !in s.owner
    ensures Do(Do(Do(s, StartPop(k, j)), Advance(k)), Advance(k)) ==
      if s.outs[j] == [] then s else s.(clients := s.clients[k := MoveWait(j)])
  {
    var s1 := Do(s, StartPop(k, j));
    assert s1 == s.(clients := s.clients[k := TestWait(j)]);
    InvStep(s, StartPop(k, j));
    var s2 := Do(s1, Advance(k));
    assert s2 == s1.(clients := s.clients[k := TestHold(j)], owner := s.owner[Out(j) := Client(k)]);
    InvStep(s1, Advance(k));
    assert s.owner[Out(j) := Client(k)] - {Out(j)} == s.owner;
    assert s.clients[k := Rest] == s.clients;
  }

  lemma MoveAlone<T>(s: Sys<T>, k: nat, j: nat)
    requires Inv(s) && k < |s.clients| && s.clients[k].Rest? && j < |s.outs| && Out(j) !in s.owner
    ensures var s' := Do(Do(s.(clients := s.clients[k := MoveWait(j)]), Advance(k)), Advance(k));
      j < |s.received| &&
      s' == s.(outs := s.outs[j := []], received := s.received[j := s.received[j] + s.outs[j]], trace := s.trace + [Read(j, |s.outs[j]|)])
  {
    var s1 := s.(clients := s.clients[k := MoveWait(j)]);
    var s2 := Do(s1, Advance(k));
    assert s2 == s1.(clients := s.clients[k := MoveHold(j)], owner := s.owner[Out(j) := Client(k)]);
    assert s.owner[Out(j) := Client(k)] - {Out(j)} == s.owner;
    assert s.clients[k := Rest] == s.clients;
  }
}
