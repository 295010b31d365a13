/**
  Delivery across passes: while no stop is requested, whatever has been pushed into any input queue is with every
  consumer, or in its output queue, after a bounded number of the broadcaster's steps, and it can always take them.
 */
module BroadcastPasses {
  import opened Channels
  import opened BroadcastSteps
  import opened BroadcastProgress
  import B = BroadcastSteps
  import R = Reception

  /** The broadcaster runs and nobody has asked it to stop. */
  predicate OnAir<T>(s: Sys<T>) {
    s.running && s.caster != Off && s.caster != Done
  }

  lemma OnAirStays<T>(s: Sys<T>, step: Step<T>)
    requires OnAir(s) && !step.RequestStop?
    ensures OnAir(Do(s, step))
  {
  }

  predicate EndsPass<T>(s: Sys<T>, step: Step<T>) {
    step.Cast? && s.caster == Scan(|s.ins|)
  }

  /** Within a pass each step of the broadcaster brings the end of the pass nearer. */
  lemma PassLeftStep<T>(s: Sys<T>, step: Step<T>)
    requires ShapesFit(s) && OnAir(s) && !step.RequestStop? && !EndsPass(s, step)
    ensures ShapesFit(Do(s, step)) && CasterLeft(s) > 0
    ensures if step.Cast? && B.Enabled(s, step) then CasterLeft(Do(s, step)) < CasterLeft(s) else CasterLeft(Do(s, step)) == CasterLeft(s)
  {
    ShapesStep(s, step);
  }

  /** Everything that had been pushed in state s0 has reached every consumer or its output queue. */
  ghost predicate AllThere<T>(s0: Sys<T>, s: Sys<T>) {
    && Inv(s)
    && forall i, j :: 0 <= i < |s0.ins| && 0 <= j < |s.outs| ==>
      Pushed(Fresh(|s0.ins|, |s0.outs|), s0.trace, i) <= From(Delivered(s, j), i)
  }

  lemma AllThereStays<T>(s0: Sys<T>, s: Sys<T>, step: Step<T>)
    requires AllThere(s0, s)
    ensures AllThere(s0, Do(s, step))
  {
    InvStep(s, step);
    ShapesStep(s, step);
    forall i, j | 0 <= i < |s0.ins| && 0 <= j < |s.outs|
      ensures Pushed(Fresh(|s0.ins|, |s0.outs|), s0.trace, i) <= From(Delivered(Do(s, step), j), i)
    {
      R.ReceptionGrows(s, step, j);
      FromPrefix(Delivered(s, j), Delivered(Do(s, step), j), i);
    }
  }

  /** In the second pass since state s0, queue by queue. */
  ghost predicate InSecondPass<T>(s0: Sys<T>, s: Sys<T>) {
    forall i :: 0 <= i < |s0.ins| ==> InPass(s0, s, i)
  }

  /** The broadcaster has taken this many steps since state s0. */
  ghost predicate Progress<T>(s0: Sys<T>, s: Sys<T>, casts: nat) {
    && Inv(s0) && Inv(s) && OnAir(s) && |s.ins| == |s0.ins| && |s.outs| == |s0.outs| && |s0.outs| > 0
    && (forall i :: 0 <= i < |s0.ins| ==>
      Pushed(Fresh(|s0.ins|, |s0.outs|), s0.trace, i) <= Pushed(Fresh(|s0.ins|, |s0.outs|), s.trace, i))
    && (|| casts + CasterLeft(s) <= CasterLeft(s0)
        || (InSecondPass(s0, s) && casts + CasterLeft(s) <= CasterLeft(s0) + ScanLeft(|s0.ins|, |s0.outs|))
        || AllThere(s0, s))
  }

  /** At the end of the second pass all is there. */
  lemma SecondPassEnds<T>(s0: Sys<T>, s: Sys<T>)
    requires Inv(s) && InSecondPass(s0, s) && |s.ins| == |s0.ins| && s.caster == Scan(|s.ins|)
    ensures AllThere(s0, s)
  {
    forall i, j | 0 <= i < |s0.ins| && 0 <= j < |s.outs|
      ensures Pushed(Fresh(|s0.ins|, |s0.outs|), s0.trace, i) <= From(Delivered(s, j), i)
    {
      assert InPass(s0, s, i);
      DeliveredIsSeen(s, j);
      assert Delivered(s, j) == History(s).log;
    }
  }

  lemma PushedStays<T>(s0: Sys<T>, s: Sys<T>, step: Step<T>)
    requires Inv(s) && |s.ins| == |s0.ins| && |s.outs| == |s0.outs|
    requires forall i :: 0 <= i < |s0.ins| ==>
      Pushed(Fresh(|s0.ins|, |s0.outs|), s0.trace, i) <= Pushed(Fresh(|s0.ins|, |s0.outs|), s.trace, i)
    ensures forall i :: 0 <= i < |s0.ins| ==>
      Pushed(Fresh(|s0.ins|, |s0.outs|), s0.trace, i) <= Pushed(Fresh(|s0.ins|, |s0.outs|), Do(s, step).trace, i)
  {
    forall i | 0 <= i < |s0.ins|
      ensures Pushed(Fresh(|s0.ins|, |s0.outs|), s0.trace, i) <= Pushed(Fresh(|s0.ins|, |s0.outs|), Do(s, step).trace, i)
    {
      TraceGrows(s, step, i);
    }
  }

  lemma SecondPassStep<T>(s0: Sys<T>, s: Sys<T>, step: Step<T>)
    requires InSecondPass(s0, s) && |s0.outs| > 0 && !EndsPass(s, step) && |s.ins| == |s0.ins|
    ensures InSecondPass(s0, Do(s, step))
  {
    forall i | 0 <= i < |s0.ins| ensures InPass(s0, Do(s, step), i) {
      assert InPass(s0, s, i);
      PassStep(s0, s, step, i);
    }
  }

  /** A pass ends: the first one since state s0 is followed by the second, and after that one all is there. */
  lemma PassEnds<T>(s0: Sys<T>, s: Sys<T>, casts: nat)
    requires Progress(s0, s, casts) && s.caster == Scan(|s.ins|)
    ensures Progress(s0, Do(s, Cast), casts + 1)
  {
    var s' := Do(s, Cast);
    InvStep(s, Cast);
    ShapesStep(s, Cast);
    PushedStays(s0, s, Cast);
    assert s'.caster == Scan(0) && OnAir(s');
    if casts + CasterLeft(s) <= CasterLeft(s0) {
      assert InSecondPass(s0, s');
    } else {
      if !AllThere(s0, s) {
        SecondPassEnds(s0, s);
      }
      AllThereStays(s0, s, Cast);
    }
  }

  lemma ProgressStep<T>(s0: Sys<T>, s: Sys<T>, step: Step<T>, casts: nat)
    requires Progress(s0, s, casts) && !step.RequestStop?
    ensures Progress(s0, Do(s, step), casts + if step.Cast? && B.Enabled(s, step) then 1 else 0)
  {
    if EndsPass(s, step) {
      PassEnds(s0, s, casts);
    } else {
      InvStep(s, step);
      ShapesStep(s, step);
      OnAirStays(s, step);
      PushedStays(s0, s, step);
      PassLeftStep(s, step);
      if AllThere(s0, s) {
        AllThereStays(s0, s, step);
      } else if !(casts + CasterLeft(s) <= CasterLeft(s0)) {
        SecondPassStep(s0, s, step);
      }
    }
  }

  lemma {:induction false} ProgressRun<T>(s: Sys<T>, steps: seq<Step<T>>)
    requires Inv(s) && OnAir(s) && |s.outs| > 0 && forall k :: 0 <= k < |steps| ==> !steps[k].RequestStop?
    ensures Progress(s, B.Exec(s, steps), Casts(s, steps))
  {
    if steps != [] {
      ProgressRun(s, steps[..|steps| - 1]);
      ProgressStep(s, B.Exec(s, steps[..|steps| - 1]), steps[|steps| - 1], Casts(s, steps[..|steps| - 1]));
    }
  }

  /** Two passes at most. */
  function Enough(inputs: nat, outputs: nat): nat {
    2 * (inputs * (2 * outputs + 4) + 1)
  }

  /**
    In every state of the running broadcaster, and for every schedule without a stop request in which it takes at least
    Enough steps: all that had been pushed into any input queue is with every consumer, or in its output queue.
   */
  lemma PassesDeliver<T>(s: Sys<T>, steps: seq<Step<T>>, i: nat, j: nat)
    requires Inv(s) && OnAir(s) && i < |s.ins| && j < |s.outs|
    requires (forall k :: 0 <= k < |steps| ==> !steps[k].RequestStop?) && Casts(s, steps) >= Enough(|s.ins|, |s.outs|)
    ensures var s' := B.Exec(s, steps);
      && Inv(s') && j < |s'.outs|
      && Values(Delivered(s', j)) == s'.received[j] + s'.outs[j]
      && Pushed(Fresh(|s.ins|, |s.outs|), s.trace, i) <= From(Delivered(s', j), i)
  {
    ProgressRun(s, steps);
    EnoughMeansAll(s, B.Exec(s, steps), Casts(s, steps));
    AllThereFor(s, B.Exec(s, steps), i, j);
  }

  lemma AllThereFor<T>(s0: Sys<T>, s: Sys<T>, i: nat, j: nat)
    requires AllThere(s0, s) && i < |s0.ins| && j < |s.outs|
    ensures Values(Delivered(s, j)) == s.received[j] + s.outs[j]
    ensures Pushed(Fresh(|s0.ins|, |s0.outs|), s0.trace, i) <= From(Delivered(s, j), i)
  {
    DeliveredIsSeen(s, j);
  }

  lemma EnoughMeansAll<T>(s0: Sys<T>, s: Sys<T>, casts: nat)
    requires Progress(s0, s, casts) && casts >= Enough(|s0.ins|, |s0.outs|)
    ensures AllThere(s0, s)
  {
    CasterLeftBound(s0);
    ScanLeftBound(|s0.ins|, |s0.outs|);
    LeftIsPositive(s);
  }

  lemma LeftIsPositive<T>(s: Sys<T>)
    requires ShapesFit(s) && OnAir(s)
    ensures CasterLeft(s) > 0
  {
  }

  /** One step of the running broadcaster, if need be after one of the thread that blocks it. */
  lemma OneCast<T>(s: Sys<T>) returns (steps: seq<Step<T>>)
    requires Inv(s) && OnAir(s)
    ensures |steps| <= 2 && GoingOn(s, steps) && Casts(s, steps) == 1
    ensures Inv(B.Exec(s, steps)) && OnAir(B.Exec(s, steps))
  {
    if B.Enabled(s, Cast) {
      steps := [Cast];
      OneGoesOn(s, Step<T>.Cast);
      CastsOne(s, Step<T>.Cast);
    } else {
      var k := Blocker(s);
      steps := [Advance(k), Cast];
      TwoGoOn(s, Advance(k), Cast);
      CastsTwo(s, Advance(k), Cast);
    }
    RunKeepsInv(s, steps);
    OnAirRun(s, steps);
  }

  lemma CastsOne<T>(s: Sys<T>, a: Step<T>)
    ensures Casts(s, [a]) == if a.Cast? && B.Enabled(s, Step<T>.Cast) then 1 else 0
  {
    assert [a][..0] == [];
  }

  lemma CastsTwo<T>(s: Sys<T>, a: Step<T>, b: Step<T>)
    ensures Casts(s, [a, b]) == Casts(s, [a]) + if b.Cast? && B.Enabled(Do(s, a), Step<T>.Cast) then 1 else 0
    ensures Casts(s, [a]) == if a.Cast? && B.Enabled(s, Step<T>.Cast) then 1 else 0
  {
    assert [a, b][..1] == [a];
    RunOne(s, a);
    CastsOne(s, a);
  }

  lemma {:induction false} OnAirRun<T>(s: Sys<T>, steps: seq<Step<T>>)
    requires OnAir(s) && GoingOn(s, steps)
    ensures OnAir(B.Exec(s, steps))
  {
    if steps != [] {
      OnAirRun(s, steps[..|steps| - 1]);
      OnAirStays(B.Exec(s, steps[..|steps| - 1]), steps[|steps| - 1]);
    }
  }

  lemma {:induction false} CastsConcat<T>(s: Sys<T>, a: seq<Step<T>>, b: seq<Step<T>>)
    ensures Casts(s, a + b) == Casts(s, a) + Casts(B.Exec(s, a), b)
  {
    if b == [] {
      assert a + b == a;
    } else {
      assert (a + b)[..|a + b| - 1] == a + b[..|b| - 1];
      CastsConcat(s, a, b[..|b| - 1]);
      RunConcat(s, a, b[..|b| - 1]);
    }
  }

  /** The schedule lets the broadcaster take this many steps, with at most one of another thread before each. */
  ghost predicate Ran<T>(s: Sys<T>, steps: seq<Step<T>>, casts: nat) {
    && |steps| <= 2 * casts && GoingOn(s, steps) && Casts(s, steps) == casts
    && Inv(B.Exec(s, steps)) && OnAir(B.Exec(s, steps))
  }

  lemma RanOn<T>(s: Sys<T>, first: seq<Step<T>>, rest: seq<Step<T>>, casts: nat)
    requires Ran(s, first, 1) && Ran(B.Exec(s, first), rest, casts)
    ensures Ran(s, first + rest, casts + 1)
  {
    RunConcat(s, first, rest);
    GoingOnConcat(s, first, rest);
    CastsConcat(s, first, rest);
  }

  /** The running broadcaster can take any number of steps. */
  lemma {:induction false} CasterCanRun<T>(s: Sys<T>, casts: nat) returns (steps: seq<Step<T>>)
    requires Inv(s) && OnAir(s)
    ensures Ran(s, steps, casts)
    decreases casts
  {
    if casts == 0 {
      steps := [];
    } else {
      var first := OneCast(s);
      var rest := CasterCanRun(B.Exec(s, first), casts - 1);
      RanOn(s, first, rest, casts - 1);
      steps := first + rest;
    }
  }

  /** So from every such state all that had been pushed can get to every consumer or its output queue. */
  lemma CanDeliver<T>(s: Sys<T>) returns (steps: seq<Step<T>>)
    requires Inv(s) && OnAir(s) && |s.outs| > 0
    ensures Ran(s, steps, Enough(|s.ins|, |s.outs|)) && AllThere(s, B.Exec(s, steps))
  {
    steps := CasterCanRun(s, Enough(|s.ins|, |s.outs|));
    GoingOnKinds(s, steps);
    ProgressRun(s, steps);
    EnoughMeansAll(s, B.Exec(s, steps), Casts(s, steps));
  }
}
