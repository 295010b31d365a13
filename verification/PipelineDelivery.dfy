/**
  Delivery while the pipeline runs: as long as a consumer's flag is set it can pop, and then it can have everything
  that has been pushed into any input queue.
 */
module PipelineDelivery {
  import C = Channels
  import opened Pipeline
  import F = Frameworks
  import B = BroadcastSteps
  import G = BroadcastProgress
  import N = BroadcastPasses
  import Q = BroadcastRequests
  import R = Reception

  lemma RestStep<T>(s: B.Sys<T>, act: B.Step<T>, k: nat)
    requires B.ShapesFit(s) && G.GoesOn(s, act) && k < |s.clients| && s.clients[k].Rest?
    ensures k < |B.Do(s, act).clients| && B.Do(s, act).clients[k].Rest?
  {
    B.ShapesStep(s, act);
  }

  /** A client outside any push or pop stays there as long as nothing new is begun. */
  lemma {:induction false} StaysAtRest<T>(s: B.Sys<T>, acts: seq<B.Step<T>>, k: nat)
    requires B.Inv(s) && G.GoingOn(s, acts) && k < |s.clients| && s.clients[k].Rest?
    ensures k < |B.Exec(s, acts).clients| && B.Exec(s, acts).clients[k].Rest?
  {
    if acts != [] {
      var front, last := acts[..|acts| - 1], acts[|acts| - 1];
      StaysAtRest(s, front, k);
      G.RunKeepsInv(s, front);
      RestStep(B.Exec(s, front), last, k);
    }
  }

  lemma {:induction false} DeliveredGrows<T>(s: B.Sys<T>, acts: seq<B.Step<T>>, n: nat)
    requires B.Inv(s) && n < |s.outs|
    ensures var s' := B.Exec(s, acts); B.Inv(s') && n < |s'.outs| && B.Delivered(s, n) <= B.Delivered(s', n)
  {
    if acts != [] {
      DeliveredGrows(s, acts[..|acts| - 1], n);
      R.ReceptionGrows(B.Exec(s, acts[..|acts| - 1]), acts[|acts| - 1], n);
    }
  }

  /** The broadcaster brings everything to the output queues, all mutexes become free, and client k is at rest. */
  lemma BringAll<T>(s: B.Sys<T>, k: nat, n: nat) returns (acts: seq<B.Step<T>>)
    requires B.Inv(s) && N.OnAir(s) && k < |s.clients| && n < |s.outs|
    ensures G.GoingOn(s, acts)
    ensures var s' := B.Exec(s, acts);
      && B.Inv(s') && k < |s'.clients| && s'.clients[k].Rest? && s'.owner == map[] && n < |s'.outs|
      && forall i :: 0 <= i < |s.ins| ==> C.Pushed(C.Fresh(|s.ins|, |s.outs|), s.trace, i) <= C.From(B.Delivered(s', n), i)
  {
    var bring := N.CanDeliver(s);
    var s1 := B.Exec(s, bring);
    G.RunKeepsInv(s, bring);
    var rest := RestAndFree(s1, k);
    DeliveredGrows(s1, rest, n);
    G.RunConcat(s, bring, rest);
    G.GoingOnConcat(s, bring, rest);
    acts := bring + rest;
    forall i | 0 <= i < |s.ins|
      ensures C.Pushed(C.Fresh(|s.ins|, |s.outs|), s.trace, i) <= C.From(B.Delivered(B.Exec(s1, rest), n), i)
    {
      N.AllThereFor(s, s1, i, n);
      B.FromPrefix(B.Delivered(s1, n), B.Delivered(B.Exec(s1, rest), n), i);
    }
  }

  lemma RestAndFree<T>(s: B.Sys<T>, k: nat) returns (acts: seq<B.Step<T>>)
    requires B.Inv(s) && k < |s.clients|
    ensures G.GoingOn(s, acts)
    ensures var s' := B.Exec(s, acts); B.Inv(s') && k < |s'.clients| && s'.clients[k].Rest? && s'.owner == map[]
  {
    var rest := G.ClientCanRest(s, k);
    G.RunKeepsInv(s, rest);
    var free := G.HoldersFinish(B.Exec(s, rest));
    G.RunKeepsInv(B.Exec(s, rest), free);
    StaysAtRest(B.Exec(s, rest), free, k);
    G.RunConcat(s, rest, free);
    G.GoingOnConcat(s, rest, free);
    acts := rest + free;
  }

  /** Its test of the queue, as one block. */
  lemma PopTests<T>(c: F.Setup, j: Joint<T>, k: nat, n: nat) returns (moves: seq<Move<T>>)
    requires Inv(c, j) && F.OutJob(k) in j.f.raised && k < |j.s.clients| && n < |j.s.outs|
    requires j.s.clients[k].Rest? && j.s.owner == map[]
    ensures Exec(c, j, moves) ==
      if j.s.outs[n] == [] then j else j.(s := j.s.(clients := j.s.clients[k := B.MoveWait(n)]))
  {
    var pop, go := Queues(B.Step<T>.StartPop(k, n)), B.Step<T>.Advance(k);
    Q.TestAlone(j.s, k, n);
    ExecOne(c, j, pop);
    TwoAdvances(c, Do(c, j, pop), k);
    ExecConcat(c, j, [pop], Moves([go, go]));
    moves := [pop] + Moves([go, go]);
  }

  /** A consumer whose flag is set pops its whole queue. */
  lemma PopsAll<T>(c: F.Setup, j: Joint<T>, k: nat, n: nat) returns (moves: seq<Move<T>>)
    requires Inv(c, j) && F.OutJob(k) in j.f.raised && k < |j.s.clients| && n < |j.s.outs|
    requires j.s.clients[k].Rest? && j.s.owner == map[]
    ensures var j' := Exec(c, j, moves);
      && j'.f == j.f && n < |j'.s.received| && n < |j'.s.outs| && n < |j.s.received|
      && j'.s.received[n] == j.s.received[n] + j.s.outs[n] && j'.s.outs[n] == []
  {
    moves := PopTests(c, j, k, n);
    if j.s.outs[n] != [] {
      var go := B.Step<T>.Advance(k);
      Q.MoveAlone(j.s, k, n);
      TwoAdvances(c, Exec(c, j, moves), k);
      ExecConcat(c, j, moves, Moves([go, go]));
      moves := moves + Moves([go, go]);
    }
  }

  lemma TwoAdvances<T>(c: F.Setup, j: Joint<T>, k: nat)
    ensures var go := B.Step<T>.Advance(k); Exec(c, j, Moves([go, go])) == j.(s := B.Do(B.Do(j.s, go), go))
  {
    var go := B.Step<T>.Advance(k);
    G.RunTwo(j.s, go, go);
    G.TwoGoOn(j.s, go, go);
    QueuesAlone(c, j, [go, go]);
  }

  lemma EmptyMeansGot<T>(s: B.Sys<T>, n: nat)
    requires B.Inv(s) && n < |s.outs| && s.outs[n] == []
    ensures R.Got(s, n) == B.Delivered(s, n)
  {
    R.GotIsPrefix(s, n);
  }

  /**
    In every state of the running pipeline in which the broadcaster's and consumer k's flags are set, the consumer can
    receive all that has been pushed into any input queue, and the framework need not move for it.
   */
  lemma CanReceiveAll<T>(c: F.Setup, j: Joint<T>, k: nat, n: nat) returns (moves: seq<Move<T>>)
    requires Inv(c, j) && N.OnAir(j.s) && F.OutJob(k) in j.f.raised && k < |j.s.clients| && n < |j.s.outs|
    ensures var j' := Exec(c, j, moves);
      && Inv(c, j') && j'.f == j.f && n < |j'.s.outs|
      && forall i :: 0 <= i < |j.s.ins| ==> C.Pushed(C.Fresh(|j.s.ins|, |j.s.outs|), j.s.trace, i) <= C.From(R.Got(j'.s, n), i)
  {
    var acts := BringAll(j.s, k, n);
    QueuesAlone(c, j, acts);
    InvRun(c, j, Moves(acts));
    var j1 := Exec(c, j, Moves(acts));
    var rest := PopsAll(c, j1, k, n);
    InvRun(c, j1, rest);
    RunsOfBoth(c, j1, rest);
    DeliveredGrows(j1.s, QueueSteps(c, j1, rest), n);
    var j2 := Exec(c, j1, rest);
    EmptyMeansGot(j2.s, n);
    forall i | 0 <= i < |j.s.ins|
      ensures C.Pushed(C.Fresh(|j.s.ins|, |j.s.outs|), j.s.trace, i) <= C.From(R.Got(j2.s, n), i)
    {
      B.FromPrefix(B.Delivered(j1.s, n), B.Delivered(j2.s, n), i);
    }
    ExecConcat(c, j, Moves(acts), rest);
    moves := Moves(acts) + rest;
  }
}
