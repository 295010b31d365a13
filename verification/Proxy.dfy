/**
  The objects that submit jobs and clear flags: a proxy queues one job per node in list order, and the
  framework decides when the proxies do so. Their order of submission is the one module Frameworks uses.
 */
module Proxies {
  import opened Frameworks
  import opened DataManagement
  import P = ThreadPools
  import S = ManagerSpec

  class Node {
    const job: Job
    var isRunning: bool

    constructor (job: Job)
      ensures this.job == job && !isRunning
    {
      this.job, isRunning := job, false;
    }

    method Stop() returns (ret: bool)
      modifies `isRunning
      ensures !isRunning && ret
    {
      isRunning, ret := false, true;
    }
  }

  datatype ProxyType = TCPS | TCPC | UDPRX | UDPTX | CONSUMER | CUSTOM | UNKNOWN

  /** How adding a node ends: it returns true, or the type is one that no node exists for. */
  datatype Added = Returned(ok: bool) | UnknownType

  function JobsOf(nodes: seq<Node>): (jobs: seq<Job>)
    ensures |jobs| == |nodes| && forall k :: 0 <= k < |nodes| ==> jobs[k] == nodes[k].job
  {
    seq(|nodes|, k requires 0 <= k < |nodes| => nodes[k].job)
  }

  lemma BroadcasterFirst(c: Setup, nodes: seq<Node>, before: seq<Job>)
    requires |nodes| == |c.outs| && forall k :: 0 <= k < |nodes| ==> nodes[k].job == OutJob(k)
    ensures before + [Broadcast] + JobsOf(nodes) == before + Initial(c)
  {
    assert [Broadcast] + JobsOf(nodes) == Initial(c);
  }

  /** The input proxy's round is the one of the step system. */
  lemma RoundOfNodes(c: Setup, nodes: seq<Node>)
    requires |nodes| == c.ins && forall k :: 0 <= k < |nodes| ==> nodes[k].job == InJob(k)
    ensures JobsOf(nodes) == InRound(c)
  {
  }

  class Proxy {
    const tp: P.ThreadPool<Job>
    const handler: DataManager<string>
    var nodes: seq<Node>

    constructor (tp: P.ThreadPool<Job>, handler: DataManager<string>)
      ensures this.tp == tp && this.handler == handler && nodes == []
    {
      this.tp, this.handler, nodes := tp, handler, [];
    }

    /** Creates a node, which registers itself under its name, and puts it at the end of the list. */
    method AddNode(kind: ProxyType, name: string, job: Job) returns (ret: Added)
      requires handler.Valid()
      modifies `nodes, handler, handler.inQueues, handler.outQueues
      ensures handler.Valid() && handler.OnlyNewQueues()
      ensures handler.Abs() ==
        match kind
        case TCPS => S.Apply(old(handler.Abs()), S.SetFeeder(name))
        case UDPRX => S.Apply(old(handler.Abs()), S.SetFeeder(name))
        case CONSUMER => S.Apply(old(handler.Abs()), S.SetConsumer(name))
        case _ => old(handler.Abs())
      ensures ret == if kind in {TCPS, UDPRX, UDPTX, CONSUMER} then Returned(true) else UnknownType
      ensures if ret.Returned?
        then exists node: Node :: fresh(node) && nodes == old(nodes) + [node] && node.job == job && !node.isRunning
        else nodes == old(nodes)
    {
      if kind.TCPC? || kind.CUSTOM? || kind.UNKNOWN? {
        return UnknownType;
      }
      RegisterNode(kind, name);
      var node := new Node(job);
      nodes, ret := nodes + [node], Returned(true);
    }

    /** The part of a node's constructor that concerns the data manager; a refused registration goes unnoticed. */
    method RegisterNode(kind: ProxyType, name: string)
      requires handler.Valid()
      modifies handler, handler.inQueues, handler.outQueues
      ensures handler.Valid() && handler.OnlyNewQueues()
      ensures handler.Abs() ==
        match kind
        case TCPS => S.Apply(old(handler.Abs()), S.SetFeeder(name))
        case UDPRX => S.Apply(old(handler.Abs()), S.SetFeeder(name))
        case CONSUMER => S.Apply(old(handler.Abs()), S.SetConsumer(name))
        case _ => old(handler.Abs())
    {
      match kind {
        case TCPS => var _ := handler.SetFeeder(name);
        case UDPRX => var _ := handler.SetFeeder(name);
        case CONSUMER => var _ := handler.SetConsumer(name);
        case _ =>
      }
    }

    /** Queues the job of each node, in list order; a proxy without nodes reports failure. */
    method Run() returns (ret: bool, wakes: seq<nat>)
      modifies tp
      ensures ret <==> |nodes| > 0
      ensures |wakes| == |nodes| && tp.View() == P.Exec(old(tp.View()), P.Submissions(JobsOf(nodes), wakes))
      ensures tp.jobs == old(tp.jobs) + JobsOf(nodes) && tp.queued == old(tp.queued) + JobsOf(nodes)
      ensures tp.unnotified == old(tp.unnotified) && |tp.workers| == |old(tp.workers)|
    {
      wakes := [];
      if |nodes| == 0 {
        return false, [];
      }
      var jobs := JobsOf(nodes);
      assert jobs[..0] == [];
      for k := 0 to |nodes|
        invariant |wakes| == k && tp.View() == P.Exec(old(tp.View()), P.Submissions(jobs[..k], wakes))
        invariant tp.jobs == old(tp.jobs) + jobs[..k] && tp.queued == old(tp.queued) + jobs[..k]
        invariant tp.unnotified == old(tp.unnotified) && |tp.workers| == |old(tp.workers)|
      {
        var w := tp.QueueJob(nodes[k].job);
        P.SubmitOneMore(old(tp.View()), jobs[..k], wakes, jobs[k], w);
        assert jobs[..k + 1] == jobs[..k] + [jobs[k]];
        wakes := wakes + [w];
      }
      assert jobs[..|nodes|] == jobs;
      ret := true;
    }

    /** Clears the flag of every node. */
    method Stop() returns (ret: bool)
      modifies nodes
      ensures ret && forall k :: 0 <= k < |nodes| ==> !nodes[k].isRunning
    {
      ret := true;
      for k := 0 to |nodes|
        invariant ret && forall l :: 0 <= l < k ==> !nodes[l].isRunning
      {
        var ok := nodes[k].Stop();
        ret := ret && ok;
      }
    }
  }

  class DataFramework {
    const tp: P.ThreadPool<Job>
    const dataManager: DataManager<string>
    const inProxy: Proxy
    const outProxy: Proxy
    var isRunning: bool
    var mainThread: MainThread

    /** The output nodes are numbered in list order. */
    ghost predicate Fits(c: Setup)
      reads outProxy, inProxy
    {
      && inProxy != outProxy && inProxy.tp == tp && outProxy.tp == tp && tp.nproc == c.threads
      && |outProxy.nodes| == |c.outs| && |inProxy.nodes| == c.ins
      && (forall k :: 0 <= k < |outProxy.nodes| ==> outProxy.nodes[k].job == OutJob(k))
      && (forall k :: 0 <= k < |inProxy.nodes| ==> inProxy.nodes[k].job == InJob(k))
    }

    constructor (tp: P.ThreadPool<Job>, dataManager: DataManager<string>, inProxy: Proxy, outProxy: Proxy)
      ensures this.tp == tp && this.dataManager == dataManager && this.inProxy == inProxy && this.outProxy == outProxy
      ensures !isRunning && mainThread.NotCreated?
    {
      this.tp, this.dataManager, this.inProxy, this.outProxy := tp, dataManager, inProxy, outProxy;
      isRunning, mainThread := false, NotCreated;
    }

    /**
      Starts the workers and queues the broadcaster first, then the output nodes: the initial jobs of the setup. The
      main thread is created last.
     */
    method Run(ghost c: Setup) returns (ret: bool)
      requires Fits(c) && tp.workers == []
      modifies `isRunning, `mainThread, tp
      ensures isRunning && mainThread == LoopTest && ret && |tp.workers| == c.threads
      ensures tp.queued == old(tp.queued) + Initial(c) && tp.jobs == old(tp.jobs) + Initial(c)
      ensures tp.unnotified == old(tp.unnotified)
    {
      isRunning, ret := true, true;
      tp.Start();
      var _ := tp.QueueJob(Broadcast);
      var _, _ := outProxy.Run();
      BroadcasterFirst(c, outProxy.nodes, old(tp.queued));
      mainThread := LoopTest;
      BroadcasterFirst(c, outProxy.nodes, old(tp.jobs));
    }

    /**
      The main thread's loop, which tests its flag before every round; stops[k] says whether the framework was
      stopped during round k. Without a stop the method covers the first |stops| rounds.
     */
    method RunJobs(stops: seq<bool>) returns (rounds: nat)
      requires inProxy.tp == tp
      modifies tp, `isRunning
      ensures rounds <= |stops| && (isRunning ==> rounds == |stops|)
      ensures forall k :: 0 <= k < rounds - 1 ==> !stops[k]
      ensures isRunning <==> old(isRunning) && (rounds == 0 || !stops[rounds - 1])
      ensures !old(isRunning) ==> rounds == 0
      ensures tp.queued == old(tp.queued) + Repeat(rounds, JobsOf(inProxy.nodes))
      ensures tp.unnotified == old(tp.unnotified)
    {
      rounds := 0;
      while isRunning && rounds < |stops|
        invariant rounds <= |stops| && (!old(isRunning) ==> rounds == 0)
        invariant forall k :: 0 <= k < rounds - 1 ==> !stops[k]
        invariant isRunning <==> old(isRunning) && (rounds == 0 || !stops[rounds - 1])
        invariant tp.queued == old(tp.queued) + Repeat(rounds, JobsOf(inProxy.nodes))
        invariant tp.unnotified == old(tp.unnotified)
        decreases |stops| - rounds
      {
        var _, _ := inProxy.Run();
        if stops[rounds] {
          isRunning := false;
        }
        rounds := rounds + 1;
      }
    }

    /** The part of a stop before the threads are joined: every flag is cleared, the broadcaster's first. */
    method ClearFlags() returns (ret: bool)
      modifies `isRunning, dataManager`isRunning, inProxy.nodes, outProxy.nodes
      ensures !isRunning && !dataManager.isRunning && ret
      ensures forall k :: 0 <= k < |inProxy.nodes| ==> !inProxy.nodes[k].isRunning
      ensures forall k :: 0 <= k < |outProxy.nodes| ==> !outProxy.nodes[k].isRunning
    {
      isRunning := false;
      dataManager.Stop();
      var ins := inProxy.Stop();
      var outs := outProxy.Stop();
      ret := ins && outs;
    }
  }
}
