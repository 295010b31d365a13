/**
  How many threads the framework needs before an input node is ever served: long-running jobs are
  queued first, jobs are dispatched in order, and long-running jobs keep their worker until a stop.
 */
module FeederThreshold {
  import opened Frameworks
  import P = ThreadPools

  /** Some job of an input node has been given to a worker. */
  predicate FeederServed(s: Framework) {
    exists k :: 0 <= k < |s.pool.dispatched| && s.pool.dispatched[k].InJob?
  }

  /** Long-running jobs before a stop: at most the initial ones, each holding one worker. */
  lemma LongJobsHoldFewWorkers(c: Setup, steps: seq<Step>)
    requires !Stopped(Exec(c, Init(), steps).control)
    ensures var s := Exec(c, Init(), steps);
      LongRunning(c, s.pool.workers) == LongIn(c, s.pool.dispatched) <= LongIn(c, Initial(c))
  {
    InvAlways(c, steps);
    LongDispatched(c, Exec(c, Init(), steps));
  }

  /** With too few threads, or without input nodes, no job of an input node is dispatched before a stop. */
  lemma FeedersStarve(c: Setup, steps: seq<Step>)
    requires !Stopped(Exec(c, Init(), steps).control)
    requires c.threads <= LongIn(c, Initial(c)) || c.ins == 0
    ensures !FeederServed(Exec(c, Init(), steps))
  {
    InvAlways(c, steps);
    var s := Exec(c, Init(), steps);
    forall k | 0 <= k < |s.pool.dispatched| ensures !s.pool.dispatched[k].InJob? {
      assert s.pool.queued[k] == s.pool.dispatched[k];
      if s.pool.queued[k].InJob? {
        FeederComesLate(c, s, k);
      }
    }
  }

  /** With enough threads every job in the queue can be dispatched, in at most two steps each. */
  lemma {:induction false} QueueIsServed(c: Setup, s: Framework) returns (steps: seq<Step>)
    requires Inv(c, s) && !Stopped(s.control) && !s.control.NotStarted?
    requires c.threads > LongIn(c, Initial(c))
    ensures |steps| <= 2 * |s.pool.jobs|
    ensures var s' := Exec(c, s, steps);
      && Inv(c, s') && OnlyPoolMoved(s, s')
      && s'.pool.dispatched == s.pool.dispatched + s.pool.jobs && s'.pool.jobs == []
    decreases |s.pool.jobs|
  {
    if s.pool.jobs == [] {
      steps := [];
    } else {
      LongDispatched(c, s);
      LongBounds(c, s.pool.workers);
      var w :| 0 <= w < |s.pool.workers| && Holds(c, s.pool.workers[w]) == 0;
      var v, first := DispatchHead(c, s, w);
      var rest := QueueIsServed(c, Exec(c, s, first));
      steps := first + rest;
      ExecConcat(c, s, first, rest);
    }
  }

  /** A schedule in which run queues its first m jobs, each followed by its notification, before any worker moves. */
  lemma {:induction false} LaunchAlone(c: Setup, m: nat) returns (steps: seq<Step>)
    requires m <= |Initial(c)|
    ensures var s := Exec(c, Init(), steps);
      s.control == Launching(m) && s.pool.unnotified == 0 && !P.SomeWaiting(s.pool.workers) && s.entered == {}
  {
    if m == 0 {
      steps := [Ctl];
      ExecOne(c, Init(), Ctl);
    } else {
      var before := LaunchAlone(c, m - 1);
      InvAlways(c, before);
      var s := Exec(c, Init(), before);
      steps := before + [Ctl, Notify(0)];
      ExecConcat(c, Init(), before, [Ctl, Notify(0)]);
      assert [Ctl, Notify(0)][..1] == [Ctl];
      ExecOne(c, s, Ctl);
    }
  }

  /** Run returns with every initial job in the queue or dispatched. */
  lemma LaunchReturns(c: Setup) returns (steps: seq<Step>)
    ensures var s := Exec(c, Init(), steps); s.control.Launched? && s.pool.unnotified == 0
  {
    var launch := LaunchAlone(c, |Initial(c)|);
    var s := Exec(c, Init(), launch);
    ExecConcat(c, Init(), launch, [Ctl]);
    ExecOne(c, s, Ctl);
    steps := launch + [Ctl];
  }

  /** No worker has moved, and the main thread has queued p jobs of input nodes. */
  ghost predicate QueuedAlone(c: Setup, s: Framework, p: nat) {
    && Inv(c, s) && s.control.Launched? && s.pool.unnotified == 0 && !P.SomeWaiting(s.pool.workers)
    && |s.pool.queued| == |Initial(c)| + p && !s.main.Ended?
  }

  lemma RoundBegins(c: Setup, s: Framework, p: nat) returns (steps: seq<Step>)
    requires QueuedAlone(c, s, p) && c.ins > 0
    ensures var s' := Exec(c, s, steps); QueuedAlone(c, s', p) && s'.main.Queueing?
  {
    steps := [];
    if s.main.LoopTest? {
      steps := [Main];
      ExecOne(c, s, Main);
      InvStep(c, s, Main);
    }
  }

  lemma QueueNext(c: Setup, s: Framework, p: nat)
    requires QueuedAlone(c, s, p) && s.main.Queueing?
    ensures QueuedAlone(c, Do(c, Do(c, s, Main), Notify(0)), p + 1)
  {
    InvStep(c, s, Main);
    InvStep(c, Do(c, s, Main), Notify(0));
  }

  lemma QueueOneMore(c: Setup, s: Framework, p: nat) returns (steps: seq<Step>)
    requires QueuedAlone(c, s, p) && c.ins > 0
    ensures QueuedAlone(c, Exec(c, s, steps), p + 1)
  {
    var first := RoundBegins(c, s, p);
    var s1 := Exec(c, s, first);
    QueueNext(c, s1, p);
    ExecTwo(c, s1, Main, Notify(0));
    ExecConcat(c, s, first, [Main, Notify(0)]);
    steps := first + [Main, Notify(0)];
  }

  /** The main thread can queue any number of jobs before any worker moves. */
  lemma {:induction false} QueueAlone(c: Setup, p: nat) returns (steps: seq<Step>)
    requires c.ins > 0
    ensures QueuedAlone(c, Exec(c, Init(), steps), p)
  {
    if p == 0 {
      var launch := LaunchAlone(c, |Initial(c)|);
      InvAlways(c, launch);
      ExecConcat(c, Init(), launch, [Ctl]);
      ExecOne(c, Exec(c, Init(), launch), Ctl);
      steps := launch + [Ctl];
      InvAlways(c, steps);
    } else {
      var before := QueueAlone(c, p - 1);
      var more := QueueOneMore(c, Exec(c, Init(), before), p - 1);
      ExecConcat(c, Init(), before, more);
      steps := before + more;
    }
  }

  /** The jobs of input nodes that the pool has taken. */
  function Served(c: Setup, s: Framework): int {
    |s.pool.dispatched| - |Initial(c)|
  }

  /** With enough threads any number of jobs of input nodes can be served before a stop. */
  lemma FeedersCanBeServed(c: Setup, p: nat) returns (steps: seq<Step>)
    requires c.ins > 0 && c.threads > LongIn(c, Initial(c))
    ensures var s := Exec(c, Init(), steps); s.control.Launched? && Served(c, s) == p
  {
    var queue := QueueAlone(c, p);
    var s := Exec(c, Init(), queue);
    var rest := QueueIsServed(c, s);
    ExecConcat(c, Init(), queue, rest);
    steps := queue + rest;
  }

  /** Input node k has been served. */
  predicate NodeServed(s: Framework, k: nat) {
    InJob(k) in s.pool.dispatched
  }

  /** More than p jobs of input nodes mean that the first p + 1 of the rounds are served, in order. */
  lemma ServedInOrder(c: Setup, steps: seq<Step>, p: nat)
    requires Served(c, Exec(c, Init(), steps)) > p
    ensures c.ins > 0 && Exec(c, Init(), steps).pool.dispatched[|Initial(c)| + p] == InJob(p % c.ins)
  {
    InputJobsInOrder(c, steps, p);
  }

  lemma FeederCanBeServed(c: Setup, k: nat) returns (steps: seq<Step>)
    requires k < c.ins && c.threads > LongIn(c, Initial(c))
    ensures var s := Exec(c, Init(), steps); s.control.Launched? && NodeServed(s, k) && FeederServed(s)
  {
    steps := FeedersCanBeServed(c, k + 1);
    ServedInOrder(c, steps, k);
    Remainder(k, c.ins, 0, k);
    assert Exec(c, Init(), steps).pool.dispatched[|Initial(c)| + k] == InJob(k);
  }

  /** Input nodes can be served before a stop exactly when the pool has more threads than there are long-running jobs. */
  lemma ThresholdIff(c: Setup)
    ensures (exists steps :: !Stopped(Exec(c, Init(), steps).control) && FeederServed(Exec(c, Init(), steps)))
      <==> c.ins > 0 && c.threads > LongIn(c, Initial(c))
  {
    if c.ins > 0 && c.threads > LongIn(c, Initial(c)) {
      var steps := FeederCanBeServed(c, 0);
      assert !Stopped(Exec(c, Init(), steps).control) && FeederServed(Exec(c, Init(), steps));
    } else {
      forall steps | !Stopped(Exec(c, Init(), steps).control) ensures !FeederServed(Exec(c, Init(), steps)) {
        FeedersStarve(c, steps);
      }
    }
  }

  /** That holds of each input node, and the long-running jobs are the broadcaster and the consumers whose file opens. */
  lemma NodeThresholdIff(c: Setup, k: nat)
    requires k < c.ins
    ensures (exists steps :: !Stopped(Exec(c, Init(), steps).control) && NodeServed(Exec(c, Init(), steps), k))
      <==> c.threads > 1 + Drains(c.outs)
  {
    LongJobs(c);
    if c.threads > LongIn(c, Initial(c)) {
      var steps := FeederCanBeServed(c, k);
      assert !Stopped(Exec(c, Init(), steps).control) && NodeServed(Exec(c, Init(), steps), k);
    } else {
      forall steps | !Stopped(Exec(c, Init(), steps).control) ensures !NodeServed(Exec(c, Init(), steps), k) {
        FeedersStarve(c, steps);
      }
    }
  }

  /** Of any number of jobs of input nodes, one after the other in the order of the rounds, the same holds. */
  lemma RoundsThresholdIff(c: Setup, p: nat)
    requires c.ins > 0
    ensures (exists steps :: !Stopped(Exec(c, Init(), steps).control) && Served(c, Exec(c, Init(), steps)) > p)
      <==> c.threads > 1 + Drains(c.outs)
  {
    LongJobs(c);
    if c.threads > LongIn(c, Initial(c)) {
      var steps := FeedersCanBeServed(c, p + 1);
      assert !Stopped(Exec(c, Init(), steps).control) && Served(c, Exec(c, Init(), steps)) > p;
    } else {
      forall steps | !Stopped(Exec(c, Init(), steps).control) ensures !(Served(c, Exec(c, Init(), steps)) > p) {
        FeedersStarve(c, steps);
        InputJobsInOrder(c, steps, p);
      }
    }
  }
}
