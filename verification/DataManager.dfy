/**
  The data manager on the heap: two vectors of queue objects and two maps from names to ids. The
  ghost field `ch` is the channel that these queues implement; every method is proved to do to it
  what the whole-operation specification says.
 */
module DataManagement {
  import opened Channels
  import opened Queue
  import R = Registry
  import S = ManagerSpec

  /** The queue objects hold these contents, in this order. */
  ghost predicate Hold<T>(qs: seq<Q<T>>, contents: seq<seq<T>>)
    reads qs
  {
    |qs| == |contents| && forall i :: 0 <= i < |qs| ==> qs[i].queue == contents[i]
  }

  /** What the rest of the program does while the broadcaster or a consumer is between two operations. */
  datatype Act<T> = Do(op: S.Op<T>) | Stop

  function ExecActs<T>(m: S.Manager<T>, acts: seq<Act<T>>): S.Manager<T> {
    if acts == [] then m
    else
      var was := ExecActs(m, acts[..|acts| - 1]);
      if acts[|acts| - 1].Do? then S.Apply(was, acts[|acts| - 1].op) else was
  }

  /** Rounds of a loop that performs one operation of its own and then lets the others act. */
  function Rounds<T>(m: S.Manager<T>, own: S.Op<T>, batches: seq<seq<Act<T>>>): S.Manager<T> {
    if batches == [] then m
    else ExecActs(S.Apply(Rounds(m, own, batches[..|batches| - 1]), own), batches[|batches| - 1])
  }

  function OpsOf<T>(acts: seq<Act<T>>): seq<S.Op<T>> {
    if acts == [] then []
    else OpsOf(acts[..|acts| - 1]) + if acts[|acts| - 1].Do? then [acts[|acts| - 1].op] else []
  }

  function Interleave<T>(own: S.Op<T>, batches: seq<seq<Act<T>>>): seq<S.Op<T>> {
    if batches == [] then []
    else Interleave(own, batches[..|batches| - 1]) + [own] + OpsOf(batches[|batches| - 1])
  }

  lemma {:induction false} ActsAreOps<T>(m: S.Manager<T>, acts: seq<Act<T>>)
    ensures ExecActs(m, acts) == S.ExecOps(m, OpsOf(acts))
  {
    if acts != [] {
      var front, last := acts[..|acts| - 1], acts[|acts| - 1];
      ActsAreOps(m, front);
      if last.Do? {
        S.ExecOpsSnoc(m, OpsOf(front), last.op);
      } else {
        assert OpsOf(acts) == OpsOf(front);
      }
    }
  }

  /** A loop among other threads is one more interleaving of whole operations. */
  lemma {:induction false} RoundsAreOps<T>(m: S.Manager<T>, own: S.Op<T>, batches: seq<seq<Act<T>>>)
    ensures Rounds(m, own, batches) == S.ExecOps(m, Interleave(own, batches))
  {
    if batches != [] {
      var front, last := batches[..|batches| - 1], batches[|batches| - 1];
      RoundsAreOps(m, own, front);
      S.ExecOpsSnoc(m, Interleave(own, front), own);
      ActsAreOps(S.Apply(Rounds(m, own, front), own), last);
      S.ExecOpsConcat(m, Interleave(own, front) + [own], OpsOf(last));
    }
  }

  /** A loop over these batches has run this many rounds, and only the last of them may have seen a stop request. */
  ghost predicate Ran<T>(batches: seq<seq<Act<T>>>, rounds: nat, running: bool) {
    && rounds <= |batches|
    && (forall k :: 0 <= k < rounds - 1 ==> Stop !in batches[k])
    && (running <==> rounds == 0 || Stop !in batches[rounds - 1])
  }

  lemma RanOneMore<T>(batches: seq<seq<Act<T>>>, rounds: nat)
    requires Ran(batches, rounds, true) && rounds < |batches|
    ensures Ran(batches, rounds + 1, Stop !in batches[rounds])
    ensures batches[..rounds + 1][..rounds] == batches[..rounds]
  {
  }

  class DataManager<T(==)> {
    const maxIn: nat
    const maxOut: nat
    var isRunning: bool
    var inQueues: seq<Q<T>>
    var outQueues: seq<Q<T>>
    var inIds: map<string, nat>
    var outIds: map<string, nat>
    ghost var ch: Channel<T>

    /** The queue objects implement the channel. */
    ghost predicate QueuesValid()
      reads `inQueues, `outQueues, `ch, inQueues, outQueues
    {
      && Distinct(inQueues) && Distinct(outQueues)
      && (forall i, j :: 0 <= i < |inQueues| && 0 <= j < |outQueues| ==> inQueues[i] != outQueues[j])
      && Channels.Valid(ch)
      && Hold(inQueues, ch.pending)
      && Hold(outQueues, Views(ch))
    }

    ghost predicate Valid()
      reads this, inQueues, outQueues
    {
      && QueuesValid()
      && R.Safe(R.Registry(inIds, |inQueues|), maxIn)
      && R.Safe(R.Registry(outIds, |outQueues|), maxOut)
    }

    /** Every queue object was there before or is newly allocated. */
    twostate predicate OnlyNewQueues()
      reads this
    {
      && (forall i :: 0 <= i < |inQueues| ==> inQueues[i] in old(inQueues) || fresh(inQueues[i]))
      && (forall j :: 0 <= j < |outQueues| ==> outQueues[j] in old(outQueues) || fresh(outQueues[j]))
    }

    ghost function Abs(): S.Manager<T>
      reads this
    {
      S.Manager(maxIn, maxOut, inIds, outIds, ch)
    }

    constructor (maxFeeders: nat, maxConsumers: nat)
      ensures Valid() && inQueues == outQueues == [] && !isRunning
      ensures Abs() == S.Init(maxFeeders, maxConsumers)
    {
      maxIn, maxOut := maxFeeders, maxConsumers;
      isRunning := false;
      inQueues, outQueues := [], [];
      inIds, outIds := map[], map[];
      ch := Fresh(0, 0);
    }

    method Reset()
      requires Valid()
      modifies this
      ensures Valid() && OnlyNewQueues() && isRunning == old(isRunning)
      ensures Abs() == S.Apply(old(Abs()), S.Reset)
    {
      inQueues, outQueues := [], [];
      inIds, outIds := map[], map[];
      ch := Fresh(0, 0);
    }

    /** One pass: each non-empty input queue is copied to every output queue and cleared. */
    method ManageBroadcast()
      requires Valid()
      modifies this, inQueues, outQueues
      ensures Valid() && isRunning == old(isRunning)
      ensures inQueues == old(inQueues) && outQueues == old(outQueues)
      ensures Abs() == S.Apply(old(Abs()), S.Pass)
      ensures if |outQueues| == 0 then Hold(inQueues, old(ch).pending)
        else
          && (forall i :: 0 <= i < |inQueues| ==> inQueues[i].queue == [])
          && forall j :: 0 <= j < |outQueues| ==>
            outQueues[j].queue == old(outQueues[j].queue) + Concat(old(ch).pending)
    {
      var broadCastList := ListOutputs();
      BroadcastTo(broadCastList);
    }

    /** The pass over the queues, with what it does to their contents. */
    method BroadcastTo(broadCastList: seq<nat>)
      requires QueuesValid() && broadCastList == UpTo(|outQueues|)
      modifies `ch, inQueues, outQueues
      ensures QueuesValid()
      ensures ch == if |outQueues| > 0 then Exec(old(ch), FlushAll(|inQueues|)) else old(ch)
      ensures if |outQueues| == 0 then Hold(inQueues, old(ch).pending)
        else
          && (forall i :: 0 <= i < |inQueues| ==> inQueues[i].queue == [])
          && forall j :: 0 <= j < |outQueues| ==>
            outQueues[j].queue == old(outQueues[j].queue) + Concat(old(ch).pending)
    {
      BroadcastEach(broadCastList);
      if |outQueues| > 0 {
        PassViews(old(ch));
      }
    }

    /** The ids of all output queues. */
    method ListOutputs() returns (broadCastList: seq<nat>)
      ensures broadCastList == UpTo(|outQueues|)
    {
      broadCastList := [];
      for i := 0 to |outQueues|
        invariant broadCastList == UpTo(i)
      {
        broadCastList := broadCastList + [i];
      }
    }

    /** The loop of the pass. */
    method BroadcastEach(broadCastList: seq<nat>)
      requires QueuesValid() && broadCastList == UpTo(|outQueues|)
      modifies `ch, inQueues, outQueues
      ensures QueuesValid()
      ensures ch == if |outQueues| > 0 then Exec(old(ch), FlushAll(|inQueues|)) else old(ch)
    {
      for k := 0 to |inQueues|
        invariant QueuesValid()
        invariant ch == if |outQueues| > 0 then Exec(old(ch), FlushAll(k)) else old(ch)
      {
        BroadcastOne(k, broadCastList);
        ExecSnoc(old(ch), FlushAll(k), Flush(k));
      }
    }

    /** The body of the loop for one input queue. */
    method BroadcastOne(k: nat, broadCastList: seq<nat>)
      requires QueuesValid() && k < |inQueues| && broadCastList == UpTo(|outQueues|)
      modifies `ch, inQueues[k], outQueues
      ensures QueuesValid()
      ensures ch == if |outQueues| > 0 then Channels.Apply(old(ch), Flush(k)) else old(ch)
    {
      var it := inQueues[k];
      var batch := it.queue;
      var empty := it.Empty();
      if |outQueues| > 0 {
        FlushViews(ch, k);
      }
      if !empty && |broadCastList| > 0 {
        it.CopyAll(outQueues, broadCastList);
        ch := Channels.Apply(ch, Flush(k));
        forall j | 0 <= j < |outQueues| ensures Times(Count(broadCastList, j), batch) == batch {
          CountUpTo(|outQueues|, j);
          assert Times(1, batch) == Times(0, batch) + batch;
        }
      } else if |broadCastList| > 0 {
        ch := Channels.Apply(ch, Flush(k));
      }
    }

    /** Data pushed under an unknown name is dropped. */
    method Push(data: T, pushId: string)
      requires Valid()
      modifies this, inQueues, outQueues
      ensures Valid() && isRunning == old(isRunning)
      ensures inQueues == old(inQueues) && outQueues == old(outQueues)
      ensures Abs() == S.Apply(old(Abs()), S.Push(pushId, data))
    {
      if pushId in inIds {
        var i := inIds[pushId];
        inQueues[i].Push(data);
        ExecOne(ch, Event.Push(i, data));
        ch := Channels.Apply(ch, Event.Push(i, data));
      }
    }

    /** Empties the consumer's output queue onto the end of the caller's vector. */
    method Pop(popId: string, data: seq<T>) returns (found: bool, filled: seq<T>)
      requires Valid()
      modifies this, inQueues, outQueues
      ensures Valid() && isRunning == old(isRunning)
      ensures inQueues == old(inQueues) && outQueues == old(outQueues)
      ensures Abs() == S.Apply(old(Abs()), S.Pop(popId))
      ensures filled == data + S.Output(old(Abs()), popId)
      ensures found <==> S.Output(old(Abs()), popId) != []
    {
      found, filled := false, data;
      if popId in outIds {
        var id := outIds[popId];
        var empty := outQueues[id].Empty();
        var read := Event<T>.Read(id, |outQueues[id].queue|);
        ExecOne(ch, read);
        ReadAllViews(ch, id);
        if !empty {
          filled := outQueues[id].MoveTo(data);
          found := true;
        }
        ch := Channels.Apply(ch, read);
      }
    }

    method GrowInputs()
      requires QueuesValid()
      modifies `inQueues, `ch, inQueues
      ensures QueuesValid() && OnlyNewQueues()
      ensures ch == Channels.Apply(old(ch), AddInput)
    {
      var grown := EmplaceBack(inQueues);
      inQueues := grown;
      ch := Channels.Apply(ch, AddInput);
    }

    method GrowOutputs()
      requires QueuesValid()
      modifies `outQueues, `ch, outQueues
      ensures QueuesValid() && OnlyNewQueues()
      ensures ch == Channels.Apply(old(ch), AddOutput)
    {
      var grown := EmplaceBack(outQueues);
      outQueues := grown;
      AddOutputViews(ch);
      ch := Channels.Apply(ch, AddOutput);
    }

    /** The three ways a registration can end, on the feeders' map and queues. */
    method ClaimInput(appId: string) returns (ok: bool)
      requires QueuesValid()
      modifies `inIds, `inQueues, `ch, inQueues
      ensures QueuesValid() && OnlyNewQueues()
      ensures var was := R.Registry(old(inIds), old(|inQueues|));
        && R.Registry(inIds, |inQueues|) == R.AddName(was, maxIn, appId)
        && ch == (if R.Decide(was, maxIn, appId).NewQueue? then Channels.Apply(old(ch), AddInput) else old(ch))
        && (ok <==> !R.Decide(was, maxIn, appId).Refused?)
    {
      ok := true;
      if appId !in inIds {
        if |inIds| < maxIn {
          inIds := inIds[appId := |inIds|];
          GrowInputs();
        } else if R.EMPTY_SLOT in inIds {
          inIds := inIds[appId := inIds[R.EMPTY_SLOT]];
          inIds := inIds - {R.EMPTY_SLOT};
        } else {
          ok := false;
        }
      } else {
        ok := false;
      }
    }

    /** The same on the consumers' map and queues. */
    method ClaimOutput(appId: string) returns (ok: bool)
      requires QueuesValid()
      modifies `outIds, `outQueues, `ch, outQueues
      ensures QueuesValid() && OnlyNewQueues()
      ensures var was := R.Registry(old(outIds), old(|outQueues|));
        && R.Registry(outIds, |outQueues|) == R.AddName(was, maxOut, appId)
        && ch == (if R.Decide(was, maxOut, appId).NewQueue? then Channels.Apply(old(ch), AddOutput) else old(ch))
        && (ok <==> !R.Decide(was, maxOut, appId).Refused?)
    {
      ok := true;
      if appId !in outIds {
        if |outIds| < maxOut {
          outIds := outIds[appId := |outIds|];
          GrowOutputs();
        } else if R.EMPTY_SLOT in outIds {
          outIds := outIds[appId := outIds[R.EMPTY_SLOT]];
          outIds := outIds - {R.EMPTY_SLOT};
        } else {
          ok := false;
        }
      } else {
        ok := false;
      }
    }

    method SetFeeder(appId: string) returns (ok: bool)
      requires Valid()
      modifies this, inQueues, outQueues
      ensures Valid() && OnlyNewQueues() && isRunning == old(isRunning)
      ensures Abs() == S.Apply(old(Abs()), S.SetFeeder(appId))
      ensures ok <==> !R.Decide(old(Abs()).Feeders(), maxIn, appId).Refused?
    {
      R.SafeStep(R.Registry(inIds, |inQueues|), maxIn, R.Op.Register(appId));
      S.RegistrationEffect(Abs(), appId);
      ok := ClaimInput(appId);
    }

    method SetConsumer(appId: string) returns (ok: bool)
      requires Valid()
      modifies this, inQueues, outQueues
      ensures Valid() && OnlyNewQueues() && isRunning == old(isRunning)
      ensures Abs() == S.Apply(old(Abs()), S.SetConsumer(appId))
      ensures ok <==> !R.Decide(old(Abs()).Consumers(), maxOut, appId).Refused?
    {
      R.SafeStep(R.Registry(outIds, |outQueues|), maxOut, R.Op.Register(appId));
      S.RegistrationEffect(Abs(), appId);
      ok := ClaimOutput(appId);
    }

    method RemFeeder(appId: string) returns (ok: bool)
      requires Valid()
      modifies this
      ensures Valid() && OnlyNewQueues() && isRunning == old(isRunning)
      ensures Abs() == S.Apply(old(Abs()), S.RemFeeder(appId))
      ensures ok <==> appId in old(inIds)
    {
      R.SafeStep(R.Registry(inIds, |inQueues|), maxIn, R.Op.Remove(appId));
      ok := appId in inIds;
      inIds := inIds - {appId};
    }

    method Stop()
      modifies `isRunning
      ensures !isRunning
    {
      isRunning := false;
    }

    /** Any one operation. */
    method Perform(op: S.Op<T>)
      requires Valid()
      modifies this, inQueues, outQueues
      ensures Valid() && OnlyNewQueues() && isRunning == old(isRunning)
      ensures Abs() == S.Apply(old(Abs()), op)
    {
      match op {
        case Push(name, x) => Push(x, name);
        case Pass => ManageBroadcast();
        case Pop(name) => var _, _ := Pop(name, []);
        case SetFeeder(name) => var _ := SetFeeder(name);
        case RemFeeder(name) => var _ := RemFeeder(name);
        case SetConsumer(name) => var _ := SetConsumer(name);
        case Reset => Reset();
      }
    }

    /** What other threads do, one operation after the other; a stop request is reported. */
    method PerformAll(acts: seq<Act<T>>) returns (stopped: bool)
      requires Valid()
      modifies this, inQueues, outQueues
      ensures Valid() && OnlyNewQueues() && isRunning == old(isRunning)
      ensures Abs() == ExecActs(old(Abs()), acts)
      ensures stopped <==> Act<T>.Stop in acts
    {
      assert acts[..0] == [];
      for k := 0 to |acts|
        invariant Valid() && OnlyNewQueues() && isRunning == old(isRunning)
        invariant Abs() == ExecActs(old(Abs()), acts[..k])
      {
        assert acts[..k + 1][..k] == acts[..k];
        if acts[k].Do? {
          Perform(acts[k].op);
        }
      }
      assert acts[..|acts|] == acts;
      stopped := Act<T>.Stop in acts;
    }

    /** One round of the broadcaster: a pass, then the other threads; a stop request clears the flag. */
    method Round(batch: seq<Act<T>>)
      requires Valid() && isRunning
      modifies this, inQueues, outQueues
      ensures Valid() && OnlyNewQueues()
      ensures isRunning <==> Act<T>.Stop !in batch
      ensures Abs() == ExecActs(S.Apply(old(Abs()), S.Pass), batch)
    {
      ManageBroadcast();
      var stopped := PerformAll(batch);
      if stopped {
        Stop();
      }
    }

    /**
      The broadcaster's loop runs until a round in which some thread asked for a stop; a stop asked for
      before this call is lost. Without a stop request the method covers the first |batches| rounds.
     */
    method Run(batches: seq<seq<Act<T>>>) returns (ret: bool, rounds: nat)
      requires Valid() && |batches| > 0
      modifies this, inQueues, outQueues
      ensures Valid() && OnlyNewQueues() && ret
      ensures Ran(batches, rounds, isRunning) && (isRunning ==> rounds == |batches|)
      ensures Abs() == Rounds(old(Abs()), S.Pass, batches[..rounds])
    {
      isRunning, rounds := true, 0;
      ghost var m := Abs();
      assert batches[..0] == [];
      while isRunning && rounds < |batches|
        invariant Valid() && OnlyNewQueues()
        invariant Ran(batches, rounds, isRunning)
        invariant Abs() == Rounds(m, S.Pass, batches[..rounds])
        decreases |batches| - rounds
      {
        RanOneMore(batches, rounds);
        Round(batches[rounds]);
        rounds := rounds + 1;
      }
      ret := true;
    }
  }
}
