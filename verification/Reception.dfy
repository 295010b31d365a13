/**
  What consumers are sure to receive: items that have reached an output queue still have to be popped. This module
  says, of a state of the step system, which items a consumer has, and which it will have whatever happens if only
  the pops that have begun are finished.
 */
module Reception {
  import opened Channels
  import opened BroadcastSteps
  import opened BroadcastProgress
  import B = BroadcastSteps

  /** The labelled items that consumer n has received. */
  ghost function Got<T>(s: Sys<T>, n: nat): seq<Item<T>>
    requires Inv(s) && n < |s.outs|
  {
    DeliveredIsSeen(s, n);
    Delivered(s, n)[..|s.received[n]|]
  }

  /** The values of input queue i that wait in output queue n. */
  ghost function Unread<T>(s: Sys<T>, i: nat, n: nat): seq<T>
    requires Inv(s) && n < |s.outs|
  {
    DeliveredIsSeen(s, n);
    From(Delivered(s, n)[|s.received[n]|..], i)
  }

  /** What reached the consumer or its output queue, and what it has of it, are beginnings of the log. */
  lemma GotIsPrefix<T>(s: Sys<T>, n: nat)
    requires Inv(s) && n < |s.outs|
    ensures var log, r, d := History(s).log, |s.received[n]|, |s.received[n]| + |s.outs[n]|;
      && d <= |log| && Delivered(s, n) == log[..d] && Got(s, n) == log[..r]
      && Values(Got(s, n)) == s.received[n]
  {
    DeliveredIsSeen(s, n);
    var all := Delivered(s, n);
    assert |all| == |s.received[n]| + |s.outs[n]|;
    assert History(s).log[..|all|] == all;
    assert Values(all[..|s.received[n]|]) == Values(all)[..|s.received[n]|];
  }

  predicate InPop<T>(pc: ClientPc<T>, n: nat) {
    match pc
    case TestWait(j) => j == n
    case TestHold(j) => j == n
    case MoveWait(j) => j == n
    case MoveHold(j) => j == n
    case _ => false
  }

  /** Some client has begun a pop of output queue n and not finished it. */
  predicate Inside<T>(s: Sys<T>, n: nat) {
    exists k :: 0 <= k < |s.clients| && InPop(s.clients[k], n)
  }

  /** Everything of input queue i has reached the consumer or its output queue. */
  predicate Arrived<T>(s: Sys<T>, i: nat, n: nat)
    requires i < |s.ins|
  {
    s.ins[i] == [] || (InFlight(s.caster) && s.caster.i == i && n < s.caster.done)
  }

  /** The broadcaster holds output queue n to put there all that input queue i holds. */
  predicate Arriving<T>(s: Sys<T>, i: nat, n: nat) {
    s.caster == CopyBoth(i, n)
  }

  /**
    Consumer n has, or is bound to take, all of input queue i: everything of it has arrived, and none waits in the output
    queue or a pop of that queue has begun; or the last of it is arriving while a begun pop waits for the same mutex.
   */
  ghost predicate WillBeReceived<T>(s: Sys<T>, i: nat, n: nat)
    requires Inv(s) && i < |s.ins| && n < |s.outs|
  {
    (Arrived(s, i, n) && (Unread(s, i, n) == [] || Inside(s, n))) || (Arriving(s, i, n) && Inside(s, n))
  }

  lemma ReceivedParts<T>(s: Sys<T>, i: nat, n: nat)
    requires Inv(s) && i < |s.ins| && n < |s.outs|
    ensures From(Delivered(s, n), i) == From(Got(s, n), i) + Unread(s, i, n)
    ensures Pushed(Fresh(|s.ins|, |s.outs|), s.trace, i) ==
      From(Delivered(s, n), i) + if Arrived(s, i, n) then [] else s.ins[i]
  {
    ArrivedOrHeld(s, i, n);
    DeliveredIsSeen(s, n);
    var all, r := Delivered(s, n), |s.received[n]|;
    assert all == all[..r] + all[r..];
    FromConcat(all[..r], all[r..], i);
  }

  /** Whether a consumer has received everything that was pushed so far. */
  lemma HasAllIff<T>(s: Sys<T>, i: nat, n: nat)
    requires Inv(s) && i < |s.ins| && n < |s.outs|
    ensures Pushed(Fresh(|s.ins|, |s.outs|), s.trace, i) <= From(Got(s, n), i) <==> Arrived(s, i, n) && Unread(s, i, n) == []
  {
    ReceivedParts(s, i, n);
  }

  // ---- How a step changes what has arrived and what was received ----

  lemma Moved<T>(s: Sys<T>, step: Step<T>, n: nat)
    requires ShapesFit(s) && n < |s.outs|
    ensures var s' := Do(s, step);
      && n < |s'.outs| && n < |s'.received|
      && |s.received[n]| <= |s'.received[n]|
      && |s.received[n]| + |s.outs[n]| <= |s'.received[n]| + |s'.outs[n]|
  {
    ShapesStep(s, step);
  }

  lemma GrowsBetween<T>(s: Sys<T>, s': Sys<T>, n: nat)
    requires Inv(s) && Inv(s') && n < |s.outs| && n < |s'.outs|
    requires History(s).log <= History(s').log && |s.received[n]| <= |s'.received[n]|
    requires |s.received[n]| + |s.outs[n]| <= |s'.received[n]| + |s'.outs[n]|
    ensures Got(s, n) <= Got(s', n) && Delivered(s, n) <= Delivered(s', n)
    ensures |s.received[n]| + |s.outs[n]| <= |s'.received[n]| ==> Delivered(s, n) <= Got(s', n)
  {
    GotIsPrefix(s, n);
    GotIsPrefix(s', n);
  }

  lemma ReceptionGrows<T>(s: Sys<T>, step: Step<T>, n: nat)
    requires Inv(s) && n < |s.outs|
    ensures var s' := Do(s, step);
      && Inv(s') && n < |s'.outs|
      && Got(s, n) <= Got(s', n) && Delivered(s, n) <= Delivered(s', n)
      && (|s.received[n]| + |s.outs[n]| <= |s'.received[n]| ==> Delivered(s, n) <= Got(s', n))
  {
    InvStep(s, step);
    Moved(s, step, n);
    TraceGrows(s, step, 0);
    GrowsBetween(s, Do(s, step), n);
  }

  /** When the last begun pop of a queue ends, all that had arrived there has been received. */
  lemma PopTakesAll<T>(s: Sys<T>, step: Step<T>, n: nat)
    requires ShapesFit(s) && n < |s.outs| && Inside(s, n) && !Inside(Do(s, step), n)
    ensures n < |Do(s, step).received| && |Do(s, step).received[n]| >= |s.received[n]| + |s.outs[n]|
  {
    var k :| 0 <= k < |s.clients| && InPop(s.clients[k], n);
    var s' := Do(s, step);
    ShapesStep(s, step);
    assert !InPop(s'.clients[k], n);
    assert step == Advance(k) && B.Enabled(s, step);
  }

  /** While the broadcaster holds the output queue a begun pop has to wait; then the batch is there. */
  lemma ArrivingStep<T>(s: Sys<T>, step: Step<T>, i: nat, n: nat)
    requires Inv(s) && n < |s.outs| && Arriving(s, i, n) && Inside(s, n)
    ensures var s' := Do(s, step); Inside(s', n) && (Arriving(s', i, n) || (step.Cast? && s'.caster == CopyHold(i, n + 1)))
  {
    var k :| 0 <= k < |s.clients| && InPop(s.clients[k], n);
    assert Out(n) in Holds(s, Caster);
    assert Out(n) in s.owner && Out(n) !in Holds(s, Client(k));
    ShapesStep(s, step);
    assert Do(s, step).clients[k] == s.clients[k];
    assert InPop(Do(s, step).clients[k], n);
  }

  lemma ArrivedAll<T>(s: Sys<T>, i: nat, n: nat)
    requires Inv(s) && n < |s.outs| && s.caster == CopyHold(i, n + 1)
    ensures Delivered(s, n) == History(s).log
  {
    DeliveredIsSeen(s, n);
    assert History(s).log[..|History(s).log|] == History(s).log;
  }

  /** These values of input queue i are received, or bound to be. */
  ghost predicate Sure<T>(s: Sys<T>, i: nat, n: nat, values: seq<T>) {
    && Inv(s) && n < |s.outs|
    && (|| values <= From(Got(s, n), i)
        || (Inside(s, n) && values <= From(Delivered(s, n), i))
        || (Inside(s, n) && Arriving(s, i, n) && values <= From(History(s).log, i)))
  }

  /** No step of any thread undoes that. */
  lemma SureStep<T>(s: Sys<T>, step: Step<T>, i: nat, n: nat, values: seq<T>)
    requires Sure(s, i, n, values)
    ensures Sure(Do(s, step), i, n, values)
  {
    var s' := Do(s, step);
    ReceptionGrows(s, step, n);
    FromPrefix(Got(s, n), Got(s', n), i);
    FromPrefix(Delivered(s, n), Delivered(s', n), i);
    if values <= From(Got(s, n), i) {
    } else if Inside(s, n) && values <= From(Delivered(s, n), i) {
      if !Inside(s', n) {
        PopTakesAll(s, step, n);
        FromPrefix(Delivered(s, n), Got(s', n), i);
      }
    } else {
      ArrivingStep(s, step, i, n);
      TraceGrows(s, step, i);
      if !Arriving(s', i, n) {
        ArrivedAll(s', i, n);
      }
    }
  }

  lemma {:induction false} SureRun<T>(s: Sys<T>, steps: seq<Step<T>>, i: nat, n: nat, values: seq<T>)
    requires Sure(s, i, n, values)
    ensures Sure(B.Exec(s, steps), i, n, values)
  {
    if steps != [] {
      SureRun(s, steps[..|steps| - 1], i, n, values);
      SureStep(B.Exec(s, steps[..|steps| - 1]), steps[|steps| - 1], i, n, values);
    }
  }

  /** Under the condition everything that was pushed is received, or bound to be. */
  lemma SureFrom<T>(s: Sys<T>, i: nat, n: nat)
    requires Inv(s) && i < |s.ins| && n < |s.outs| && WillBeReceived(s, i, n)
    ensures Sure(s, i, n, Pushed(Fresh(|s.ins|, |s.outs|), s.trace, i))
  {
    HasAllIff(s, i, n);
    ReceivedParts(s, i, n);
    if Arriving(s, i, n) {
      PushedIsLoggedOrPending<T>(|s.ins|, |s.outs|, s.trace, i);
    }
  }

  // ---- Without the condition something can be left unread ----

  /** Without a begun pop, and as long as none is begun, nothing more is received. */
  lemma QuietStep<T>(s: Sys<T>, step: Step<T>, n: nat)
    requires ShapesFit(s) && n < |s.outs| && !Inside(s, n) && !step.StartPop?
    ensures var s' := Do(s, step); !Inside(s', n) && n < |s'.received| && s'.received[n] == s.received[n]
  {
    ShapesStep(s, step);
    var s' := Do(s, step);
    forall k | 0 <= k < |s'.clients| ensures !InPop(s'.clients[k], n) {
      assert !InPop(s.clients[k], n);
    }
  }

  /** How many steps the begun pops of output queue n still take. */
  function PopWork<T>(clients: seq<ClientPc<T>>, n: nat): nat {
    if clients == [] then 0
    else PopWork(clients[1..], n) + if InPop(clients[0], n) then ClientLeft(clients[0]) else 0
  }

  lemma {:induction false} PopWorkAfter<T>(clients: seq<ClientPc<T>>, n: nat, k: nat, pc: ClientPc<T>)
    requires k < |clients|
    ensures PopWork(clients[k := pc], n) == PopWork(clients, n)
      - (if InPop(clients[k], n) then ClientLeft(clients[k]) else 0) + if InPop(pc, n) then ClientLeft(pc) else 0
  {
    if k == 0 {
      assert clients[0 := pc][1..] == clients[1..];
    } else {
      PopWorkAfter(clients[1..], n, k - 1, pc);
      assert clients[k := pc][1..] == clients[1..][k - 1 := pc];
    }
  }

  /** A client in a begun pop that is not blocked, if the broadcaster is not at the output queue. */
  lemma PopGoesOn<T>(s: Sys<T>, n: nat) returns (k: nat)
    requires Inv(s) && n < |s.outs| && Inside(s, n) && !(s.caster.CopyBoth? && s.caster.done == n)
    ensures k < |s.clients| && InPop(s.clients[k], n) && B.Enabled(s, Advance(k))
  {
    var m :| 0 <= m < |s.clients| && InPop(s.clients[m], n);
    k := m;
    if !B.Enabled(s, Advance(m)) {
      assert Out(n) in s.owner;
      var t := s.owner[Out(n)];
      assert Out(n) in Holds(s, t);
      assert t != Caster;
      k := t.k;
    }
  }

  lemma PopWorkStep<T>(s: Sys<T>, n: nat, k: nat)
    requires ShapesFit(s) && k < |s.clients| && InPop(s.clients[k], n)
    ensures PopWork(AdvanceStep(s, k).clients, n) < PopWork(s.clients, n)
  {
    var pc := AdvanceStep(s, k).clients[k];
    PopWorkAfter(s.clients, n, k, pc);
    assert AdvanceStep(s, k).clients == s.clients[k := pc];
  }

  lemma SameDelivered<T>(s: Sys<T>, s': Sys<T>, n: nat)
    requires Inv(s) && Inv(s') && n < |s.outs| && n < |s'.outs| && History(s').log == History(s).log
    requires |s'.received[n]| + |s'.outs[n]| == |s.received[n]| + |s.outs[n]|
    ensures Delivered(s', n) == Delivered(s, n)
  {
    GotIsPrefix(s, n);
    GotIsPrefix(s', n);
  }

  /** A step inside a pop of the queue brings nothing to the queue. */
  lemma PopStep<T>(s: Sys<T>, n: nat, k: nat)
    requires Inv(s) && n < |s.outs| && k < |s.clients| && InPop(s.clients[k], n) && B.Enabled(s, Advance(k))
    ensures var s' := Do(s, Advance(k));
      && Inv(s') && n < |s'.outs| && |s'.outs| == |s.outs| && s'.caster == s.caster
      && PopWork(s'.clients, n) < PopWork(s.clients, n)
      && Delivered(s', n) == Delivered(s, n)
  {
    InvStep(s, Advance(k));
    ShapesStep(s, Advance(k));
    PopWorkStep(s, n, k);
    PopLogsNothing(s, n, k);
    SameDelivered(s, Do(s, Advance(k)), n);
  }

  lemma PopMoves<T>(s: Sys<T>, n: nat, k: nat)
    requires ShapesFit(s) && n < |s.outs| && k < |s.clients| && InPop(s.clients[k], n)
    ensures var s' := AdvanceStep(s, k);
      && n < |s'.outs| && n < |s'.received|
      && |s'.received[n]| + |s'.outs[n]| == |s.received[n]| + |s.outs[n]|
    ensures var es := EventOf(s, Advance(k)); es == [] || (es == [es[0]] && es[0].Read?)
  {
  }

  lemma ReadLogsNothing<T>(c: Channel<T>, e: Event<T>)
    requires e.Read?
    ensures Channels.Exec(c, [e]).log == c.log
  {
    ExecOne(c, e);
  }

  lemma PopLogsNothing<T>(s: Sys<T>, n: nat, k: nat)
    requires ShapesFit(s) && n < |s.outs| && k < |s.clients| && InPop(s.clients[k], n) && B.Enabled(s, Advance(k))
    ensures var s' := Do(s, Advance(k));
      && History(s').log == History(s).log && n < |s'.outs| && n < |s'.received|
      && |s'.received[n]| + |s'.outs[n]| == |s.received[n]| + |s.outs[n]|
  {
    PopMoves(s, n, k);
    HistoryStep(s, Advance(k));
    if EventOf(s, Advance(k)) != [] {
      ReadLogsNothing(History(s), EventOf(s, Advance(k))[0]);
    }
  }

  /** All begun pops of the queue can be finished before the broadcaster brings anything there. */
  lemma {:induction false} FinishPops<T>(s: Sys<T>, n: nat) returns (steps: seq<Step<T>>)
    requires Inv(s) && n < |s.outs| && !(s.caster.CopyBoth? && s.caster.done == n)
    ensures GoingOn(s, steps)
    ensures var s' := B.Exec(s, steps); Inv(s') && n < |s'.outs| && !Inside(s', n) && Delivered(s', n) == Delivered(s, n)
    decreases PopWork(s.clients, n)
  {
    if Inside(s, n) {
      var k := PopGoesOn(s, n);
      PopStep(s, n, k);
      var rest := FinishPops(Do(s, Advance(k)), n);
      RunOne(s, Advance(k));
      OneGoesOn(s, Advance(k));
      RunConcat(s, [Advance(k)], rest);
      GoingOnConcat(s, [Advance(k)], rest);
      steps := [Advance(k)] + rest;
    } else {
      steps := [];
    }
  }

  /** A batch of another input queue brings nothing of this one. */
  lemma OtherBatch<T>(s: Sys<T>, i: nat, n: nat)
    requires Inv(s) && n < |s.outs| && s.caster.CopyBoth? && s.caster.done == n && s.caster.i != i
    ensures var s' := Do(s, Cast);
      && B.Enabled(s, Cast) && Inv(s') && n < |s'.outs| && s'.caster == CopyHold(s.caster.i, n + 1)
      && From(Delivered(s', n), i) == From(Delivered(s, n), i)
  {
    var s' := Do(s, Cast);
    InvStep(s, Cast);
    HistoryStep(s, Cast);
    ArrivedAll(s', s.caster.i, n);
    DeliveredFrom(s, i, n);
  }

  /** No pop of the queue is under way, and something of these values has not been received. */
  ghost predicate Missing<T>(s: Sys<T>, i: nat, n: nat, values: seq<T>) {
    Inv(s) && n < |s.outs| && !Inside(s, n) && !(values <= From(Got(s, n), i))
  }

  lemma FinishWithout<T>(s: Sys<T>, i: nat, n: nat, values: seq<T>) returns (steps: seq<Step<T>>)
    requires Inv(s) && n < |s.outs| && !(s.caster.CopyBoth? && s.caster.done == n)
    requires !(values <= From(Delivered(s, n), i))
    ensures GoingOn(s, steps) && Missing(B.Exec(s, steps), i, n, values)
  {
    steps := FinishPops(s, n);
    var s' := B.Exec(s, steps);
    GotIsPrefix(s', n);
    FromPrefix(Got(s', n), Delivered(s', n), i);
  }

  lemma FinishWithoutOther<T>(s: Sys<T>, i: nat, n: nat, values: seq<T>) returns (steps: seq<Step<T>>)
    requires Inv(s) && n < |s.outs| && s.caster.CopyBoth? && s.caster.done == n && s.caster.i != i
    requires !(values <= From(Delivered(s, n), i))
    ensures GoingOn(s, steps) && Missing(B.Exec(s, steps), i, n, values)
  {
    OtherBatch(s, i, n);
    var rest := FinishWithout(Do(s, Cast), i, n, values);
    RunOne(s, Step<T>.Cast);
    OneGoesOn(s, Step<T>.Cast);
    RunConcat(s, [Step<T>.Cast], rest);
    GoingOnConcat(s, [Step<T>.Cast], rest);
    steps := [Cast] + rest;
  }

  /** Without the condition, all begun pops of the queue can end with something of what was pushed unread. */
  lemma CanMiss<T>(s: Sys<T>, i: nat, n: nat) returns (steps: seq<Step<T>>)
    requires Inv(s) && i < |s.ins| && n < |s.outs| && !WillBeReceived(s, i, n)
    ensures GoingOn(s, steps)
    ensures Missing(B.Exec(s, steps), i, n, Pushed(Fresh(|s.ins|, |s.outs|), s.trace, i))
  {
    var values := Pushed(Fresh<T>(|s.ins|, |s.outs|), s.trace, i);
    ReceivedParts(s, i, n);
    if !Inside(s, n) {
      steps := [];
      HasAllIff(s, i, n);
    } else if s.caster.CopyBoth? && s.caster.done == n {
      steps := FinishWithoutOther(s, i, n, values);
    } else {
      steps := FinishWithout(s, i, n, values);
    }
  }

  lemma SameGot<T>(s: Sys<T>, s': Sys<T>, n: nat)
    requires Inv(s) && Inv(s') && n < |s.outs| && n < |s'.outs|
    requires History(s).log <= History(s').log && s'.received[n] == s.received[n]
    ensures Got(s', n) == Got(s, n)
  {
    GotIsPrefix(s, n);
    GotIsPrefix(s', n);
  }

  lemma GotStays<T>(s: Sys<T>, step: Step<T>, n: nat)
    requires Inv(s) && n < |s.outs| && !Inside(s, n) && !step.StartPop?
    ensures var s' := Do(s, step); Inv(s') && n < |s'.outs| && !Inside(s', n) && Got(s', n) == Got(s, n)
  {
    InvStep(s, step);
    ShapesStep(s, step);
    TraceGrows(s, step, 0);
    QuietStep(s, step, n);
    SameGot(s, Do(s, step), n);
  }

  /** As long as no pop is begun that stays so. */
  lemma MissingStep<T>(s: Sys<T>, step: Step<T>, i: nat, n: nat, values: seq<T>)
    requires Missing(s, i, n, values) && !step.StartPop?
    ensures Missing(Do(s, step), i, n, values)
  {
    GotStays(s, step, n);
  }

  lemma {:induction false} MissingRun<T>(s: Sys<T>, steps: seq<Step<T>>, i: nat, n: nat, values: seq<T>)
    requires Missing(s, i, n, values) && forall k :: 0 <= k < |steps| ==> !steps[k].StartPop?
    ensures Missing(B.Exec(s, steps), i, n, values)
  {
    if steps != [] {
      MissingRun(s, steps[..|steps| - 1], i, n, values);
      MissingStep(B.Exec(s, steps[..|steps| - 1]), steps[|steps| - 1], i, n, values);
    }
  }
}
