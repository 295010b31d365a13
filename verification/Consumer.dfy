/**
  The consumer node: its loop pops whole batches from its output queue and writes them to a file.
 */
module Consumers {
  import opened Channels
  import opened DataManagement
  import C = Channels
  import R = Registry
  import S = ManagerSpec

  /** What the pops of the loop return, one after the other. */
  function Written<T>(m: S.Manager<T>, name: string, batches: seq<seq<Act<T>>>): seq<T> {
    if batches == [] then []
    else
      var front := batches[..|batches| - 1];
      Written(m, name, front) + S.Output(Rounds(m, S.Pop(name), front), name)
  }

  lemma RoundSnoc<T>(m: S.Manager<T>, name: string, batches: seq<seq<Act<T>>>, k: nat)
    requires k < |batches|
    ensures var was := Rounds(m, S.Pop(name), batches[..k]);
      && Rounds(m, S.Pop(name), batches[..k + 1]) == ExecActs(S.Apply(was, S.Pop(name)), batches[k])
      && Written(m, name, batches[..k + 1]) == Written(m, name, batches[..k]) + S.Output(was, name)
  {
    assert batches[..k + 1][..k] == batches[..k];
  }

  class Consumer {
    const name: string
    const handler: DataManager<string>
    var isRunning: bool
    var data: seq<string>
    var file: seq<string>

    constructor (name: string, handler: DataManager<string>)
      requires handler.Valid()
      modifies handler, handler.inQueues, handler.outQueues
      ensures handler.Valid() && handler.OnlyNewQueues()
      ensures handler.Abs() == S.Apply(old(handler.Abs()), S.SetConsumer(name))
      ensures this.name == name && this.handler == handler
      ensures !isRunning && data == [] && file == []
    {
      this.name, this.handler := name, handler;
      isRunning, data, file := false, [], [];
      new;
      var _ := handler.SetConsumer(name);
    }

    method Stop() returns (ret: bool)
      modifies `isRunning
      ensures !isRunning && ret
    {
      isRunning := false;
      ret := true;
    }

    /** Writes the batch item by item and clears it. */
    method WriteOut()
      modifies `file, `data
      ensures file == old(file) + old(data) && data == []
    {
      for k := 0 to |data|
        invariant data == old(data) && file == old(file) + data[..k]
      {
        file := file + [data[k]];
      }
      data := [];
    }

    /** One pop and, if it found anything, the writing of the batch. */
    method Drain()
      requires handler.Valid() && data == []
      modifies `file, `data, handler, handler.inQueues, handler.outQueues
      ensures handler.Valid() && handler.inQueues == old(handler.inQueues) && handler.outQueues == old(handler.outQueues)
      ensures handler.Abs() == S.Apply(old(handler.Abs()), S.Pop(name))
      ensures data == [] && file == old(file) + S.Output(old(handler.Abs()), name)
    {
      ghost var output := S.Output(handler.Abs(), name);
      var found, filled := handler.Pop(name, data);
      assert filled == output;
      data := filled;
      if found {
        WriteOut();
      } else {
        assert file == file + output;
      }
    }

    /** One turn of the loop, and what the other threads do before the next. */
    method Round(batch: seq<Act<string>>)
      requires handler.Valid() && data == [] && isRunning
      modifies this, handler, handler.inQueues, handler.outQueues
      ensures handler.Valid() && handler.OnlyNewQueues()
      ensures data == []
      ensures file == old(file) + S.Output(old(handler.Abs()), name)
      ensures handler.Abs() == ExecActs(S.Apply(old(handler.Abs()), S.Pop(name)), batch)
      ensures isRunning <==> Act<string>.Stop !in batch
    {
      Drain();
      Others(batch);
    }

    /** What the other threads do between two actions of this one; a stop request clears the flag. */
    method Others(acts: seq<Act<string>>)
      requires handler.Valid()
      modifies `isRunning, handler, handler.inQueues, handler.outQueues
      ensures handler.Valid() && handler.OnlyNewQueues()
      ensures handler.Abs() == ExecActs(old(handler.Abs()), acts)
      ensures isRunning <==> old(isRunning) && Act<string>.Stop !in acts
    {
      var stopped := handler.PerformAll(acts);
      if stopped {
        var _ := Stop();
      }
    }

    /**
      The loop among the operations of all other threads. They may act before its first test (`early`), too: a stop
      request among these ends the loop before the first pop. Nothing that was popped is left unwritten; if the file
      cannot be opened nothing is popped.
     */
    method Run(opens: bool, early: seq<Act<string>>, batches: seq<seq<Act<string>>>) returns (ret: bool, rounds: nat)
      requires handler.Valid() && data == []
      modifies this, handler, handler.inQueues, handler.outQueues
      ensures handler.Valid() && handler.OnlyNewQueues()
      ensures ret == opens && data == []
      ensures if Act<string>.Stop in early || !opens then rounds == 0 && (isRunning <==> Act<string>.Stop !in early)
        else Ran(batches, rounds, isRunning) && (isRunning ==> rounds == |batches|)
      ensures handler.Abs() == Rounds(ExecActs(old(handler.Abs()), early), S.Pop(name), batches[..rounds])
      ensures file == Written(ExecActs(old(handler.Abs()), early), name, batches[..rounds])
    {
      rounds := 0;
      assert batches[..0] == [];
      Begin(early);
      if opens {
        rounds := Loop(batches);
      }
      ret := opens;
    }

    /** Sets the flag; then the other threads act. */
    method Begin(early: seq<Act<string>>)
      requires handler.Valid()
      modifies `isRunning, `file, handler, handler.inQueues, handler.outQueues
      ensures handler.Valid() && handler.OnlyNewQueues() && file == []
      ensures handler.Abs() == ExecActs(old(handler.Abs()), early)
      ensures isRunning <==> Act<string>.Stop !in early
    {
      isRunning, file := true, [];
      Others(early);
    }

    method Loop(batches: seq<seq<Act<string>>>) returns (rounds: nat)
      requires handler.Valid() && data == [] && file == []
      modifies this, handler, handler.inQueues, handler.outQueues
      ensures handler.Valid() && handler.OnlyNewQueues() && data == []
      ensures if old(isRunning) then Ran(batches, rounds, isRunning) && (isRunning ==> rounds == |batches|)
        else rounds == 0 && !isRunning
      ensures handler.Abs() == Rounds(old(handler.Abs()), S.Pop(name), batches[..rounds])
      ensures file == Written(old(handler.Abs()), name, batches[..rounds])
    {
      rounds := 0;
      assert batches[..0] == [];
      ghost var m := handler.Abs();
      while isRunning && rounds < |batches|
        invariant handler.Valid() && handler.OnlyNewQueues() && data == []
        invariant if old(isRunning) then Ran(batches, rounds, isRunning) else rounds == 0 && !isRunning
        invariant handler.Abs() == Rounds(m, S.Pop(name), batches[..rounds])
        invariant file == Written(m, name, batches[..rounds])
        decreases |batches| - rounds
      {
        RanOneMore(batches, rounds);
        RoundSnoc(m, name, batches, rounds);
        Round(batches[rounds]);
        rounds := rounds + 1;
      }
    }
  }

  // ---- What was written is a window of the log ----

  /** No other thread pops under this name or resets the manager. */
  ghost predicate Unrivalled<T>(name: string, acts: seq<Act<T>>) {
    forall k :: 0 <= k < |acts| && acts[k].Do? ==> acts[k].op != S.Pop(name) && !acts[k].op.Reset?
  }

  /** The consumer is registered under its own queue. */
  ghost predicate Registered<T>(m: S.Manager<T>, name: string) {
    && name != R.EMPTY_SLOT && name in m.outIds
    && C.Valid(m.ch) && R.Bijective(m.Consumers())
    && m.outIds[name] < |m.ch.cursors|
  }

  /** After every trace a registered name other than the free slot has a queue of its own. */
  lemma RegisteredOfRun<T>(maxIn: nat, maxOut: nat, ops: seq<S.Op<T>>, name: string)
    requires name != R.EMPTY_SLOT && name in S.Run(maxIn, maxOut, ops).outIds
    ensures Registered(S.Run(maxIn, maxOut, ops), name)
  {
    S.ConsumersAlwaysBijective(maxIn, maxOut, ops);
    S.NamesLeadToQueues(maxIn, maxOut, ops);
    S.ChannelOfRun(maxIn, maxOut, ops);
  }

  lemma OthersKeepRegistration<T>(m: S.Manager<T>, op: S.Op<T>, name: string)
    requires Registered(m, name) && !op.Reset?
    ensures var m' := S.Apply(m, op);
      && name in m'.outIds && m'.outIds[name] == m.outIds[name] && R.Bijective(m'.Consumers())
      && m'.ch == Exec(m.ch, S.Events(m, op))
  {
    S.RegistriesStep(m, op);
    if op.SetConsumer? {
      R.RegisterKeepsBijection(m.Consumers(), m.maxOut, op.name);
      R.RegisterKeepsOthers(m.Consumers(), m.maxOut, op.name, name);
      assert S.Apply(m, op).Consumers() == R.AddName(m.Consumers(), m.maxOut, op.name);
    } else {
      assert S.Apply(m, op).Consumers() == m.Consumers();
    }
  }

  lemma OthersDoNotRead<T>(m: S.Manager<T>, op: S.Op<T>, name: string)
    requires Registered(m, name) && op != S.Pop(name)
    ensures forall e :: e in S.Events(m, op) ==> !(e.Read? && e.j == m.outIds[name])
  {
  }

  /** Another thread's operation leaves this consumer's name and cursor alone, and the log only grows. */
  lemma OthersLeaveCursor<T>(m: S.Manager<T>, op: S.Op<T>, name: string)
    requires Registered(m, name) && op != S.Pop(name) && !op.Reset?
    ensures var m' := S.Apply(m, op);
      && Registered(m', name) && m'.outIds[name] == m.outIds[name]
      && m'.ch.cursors[m.outIds[name]] == m.ch.cursors[m.outIds[name]]
      && m.ch.log <= m'.ch.log
  {
    OthersKeepRegistration(m, op, name);
    OthersDoNotRead(m, op, name);
    OnlyReadsMove(m.ch, S.Events(m, op), m.outIds[name]);
  }

  lemma {:induction false} OthersActsLeaveCursor<T>(m: S.Manager<T>, acts: seq<Act<T>>, name: string)
    requires Registered(m, name) && Unrivalled(name, acts)
    ensures var m' := ExecActs(m, acts);
      && Registered(m', name) && m'.outIds[name] == m.outIds[name]
      && m'.ch.cursors[m.outIds[name]] == m.ch.cursors[m.outIds[name]]
      && m.ch.log <= m'.ch.log
  {
    if acts != [] {
      var front, last := acts[..|acts| - 1], acts[|acts| - 1];
      OthersActsLeaveCursor(m, front, name);
      if last.Do? {
        OthersLeaveCursor(ExecActs(m, front), last.op, name);
      }
    }
  }

  lemma OwnPop<T>(m: S.Manager<T>, name: string)
    requires Registered(m, name)
    ensures var m' := S.Apply(m, S.Pop(name));
      && Registered(m', name) && m'.outIds == m.outIds && m'.ch.log == m.ch.log
      && m'.ch.cursors[m.outIds[name]] == |m.ch.log|
      && S.Output(m, name) == Values(m.ch.log[m.ch.cursors[m.outIds[name]]..])
  {
    S.RegistriesStep(m, S.Pop(name));
    ExecOne(m.ch, S.Events(m, S.Pop(name))[0]);
    ValidExec(m.ch, S.Events(m, S.Pop(name)));
  }

  /** The consumer's output is exactly the part of the log that its cursor moved over, whatever the others do. */
  lemma {:induction false} WrittenIsWindow<T>(m: S.Manager<T>, name: string, batches: seq<seq<Act<T>>>)
    requires Registered(m, name)
    requires forall k :: 0 <= k < |batches| ==> Unrivalled(name, batches[k])
    ensures var m', id := Rounds(m, S.Pop(name), batches), m.outIds[name];
      && Registered(m', name) && m'.outIds[name] == id
      && m.ch.cursors[id] <= m'.ch.cursors[id] && m.ch.log <= m'.ch.log
      && Written(m, name, batches) == Values(m'.ch.log[m.ch.cursors[id]..m'.ch.cursors[id]])
  {
    if batches != [] {
      var front, last := batches[..|batches| - 1], batches[|batches| - 1];
      WrittenIsWindow(m, name, front);
      var was := Rounds(m, S.Pop(name), front);
      OwnPop(was, name);
      var popped := S.Apply(was, S.Pop(name));
      OthersActsLeaveCursor(popped, last, name);
      WindowGrows(was.ch.log, ExecActs(popped, last).ch.log, m.ch.cursors[m.outIds[name]], was.ch.cursors[m.outIds[name]]);
    }
  }

  lemma WindowGrows<T>(log: seq<Item<T>>, longer: seq<Item<T>>, lo: nat, hi: nat)
    requires log <= longer && lo <= hi <= |log|
    ensures Values(log[lo..hi]) + Values(log[hi..]) == Values(longer[lo..|log|])
  {
    assert longer[lo..|log|] == log[lo..hi] + log[hi..];
    ValuesConcat(log[lo..hi], log[hi..]);
  }
}
