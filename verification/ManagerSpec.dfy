/**
  The data manager at the level of whole operations: registration of feeders and consumers on top
  of a channel. Operations of different threads may come in any order.
 */
module ManagerSpec {
  import opened Channels
  import C = Channels
  import R = Registry

  datatype Manager<T> = Manager(maxIn: nat, maxOut: nat, inIds: map<string, nat>, outIds: map<string, nat>, ch: Channel<T>) {
    function Feeders(): R.Registry { R.Registry(inIds, |ch.pending|) }
    function Consumers(): R.Registry { R.Registry(outIds, |ch.cursors|) }
  }

  datatype Op<T> =
    | Push(name: string, x: T)
    | Pass  // one round of the broadcaster over all input queues
    | Pop(name: string)
    | SetFeeder(name: string)
    | RemFeeder(name: string)
    | SetConsumer(name: string)
    | Reset

  function Init<T>(maxIn: nat, maxOut: nat): Manager<T> {
    Manager(maxIn, maxOut, map[], map[], Fresh(0, 0))
  }

  /** What an operation other than a reset does to the queues. */
  function Events<T>(m: Manager<T>, op: Op<T>): seq<Event<T>> {
    match op
    case Push(name, x) => if name in m.inIds then [Event.Push(m.inIds[name], x)] else []
    case Pass => if |m.ch.cursors| > 0 then FlushAll(|m.ch.pending|) else []
    case Pop(name) => if Readable(m, name) then [Read(m.outIds[name], |Unread(m, m.outIds[name])|)] else []
    case SetFeeder(name) => if R.Decide(m.Feeders(), m.maxIn, name).NewQueue? then [AddInput] else []
    case SetConsumer(name) => if R.Decide(m.Consumers(), m.maxOut, name).NewQueue? then [AddOutput] else []
    case RemFeeder(_) => []
    case Reset => []
  }

  function Apply<T>(m: Manager<T>, op: Op<T>): Manager<T> {
    var ch := Exec(m.ch, Events(m, op));
    match op
    case SetFeeder(name) => m.(inIds := R.AddName(m.Feeders(), m.maxIn, name).ids, ch := ch)
    case RemFeeder(name) => m.(inIds := R.DropName(m.Feeders(), name).ids)
    case SetConsumer(name) => m.(outIds := R.AddName(m.Consumers(), m.maxOut, name).ids, ch := ch)
    case Reset => Init(m.maxIn, m.maxOut)
    case _ => m.(ch := ch)
  }

  /** Registration in terms of the three ways it can end. */
  lemma RegistrationEffect<T>(m: Manager<T>, name: string)
    ensures Apply(m, SetFeeder(name)) ==
      match R.Decide(m.Feeders(), m.maxIn, name)
      case NewQueue => m.(inIds := m.inIds[name := |m.inIds|], ch := C.Apply(m.ch, AddInput))
      case TakesSlot(id) => m.(inIds := m.inIds[name := id] - {R.EMPTY_SLOT})
      case Refused => m
    ensures Apply(m, SetConsumer(name)) ==
      match R.Decide(m.Consumers(), m.maxOut, name)
      case NewQueue => m.(outIds := m.outIds[name := |m.outIds|], ch := C.Apply(m.ch, AddOutput))
      case TakesSlot(id) => m.(outIds := m.outIds[name := id] - {R.EMPTY_SLOT})
      case Refused => m
  {
    ExecOne(m.ch, AddInput);
    ExecOne(m.ch, AddOutput);
  }

  predicate Readable<T>(m: Manager<T>, name: string) {
    name in m.outIds && m.outIds[name] < |m.ch.cursors| && m.ch.cursors[m.outIds[name]] <= |m.ch.log|
  }

  /** What output queue j holds. */
  function Unread<T>(m: Manager<T>, j: nat): seq<T> {
    if j < |m.ch.cursors| && m.ch.cursors[j] <= |m.ch.log| then Values(m.ch.log[m.ch.cursors[j]..]) else []
  }

  /** The batch a pop appends to the caller's vector. */
  function Output<T>(m: Manager<T>, name: string): seq<T> {
    if name in m.outIds then Unread(m, m.outIds[name]) else []
  }

  function Run<T>(maxIn: nat, maxOut: nat, ops: seq<Op<T>>): Manager<T> {
    ExecOps(Init(maxIn, maxOut), ops)
  }

  function ExecOps<T>(m: Manager<T>, ops: seq<Op<T>>): Manager<T> {
    if ops == [] then m else Apply(ExecOps(m, ops[..|ops| - 1]), ops[|ops| - 1])
  }

  lemma ExecOpsSnoc<T>(m: Manager<T>, ops: seq<Op<T>>, op: Op<T>)
    ensures ExecOps(m, ops + [op]) == Apply(ExecOps(m, ops), op)
  {
    assert (ops + [op])[..|ops + [op]| - 1] == ops;
  }

  lemma {:induction false} ExecOpsConcat<T>(m: Manager<T>, a: seq<Op<T>>, b: seq<Op<T>>)
    ensures ExecOps(m, a + b) == ExecOps(ExecOps(m, a), b)
  {
    if b == [] {
      assert a + b == a;
    } else {
      assert (a + b)[..|a + b| - 1] == a + b[..|b| - 1];
      ExecOpsConcat(m, a, b[..|b| - 1]);
    }
  }

  // ---- Every run is a run of the registries and, since its last reset, of the channel ----

  function FeederOp<T>(op: Op<T>): seq<R.Op> {
    match op
    case SetFeeder(name) => [R.Op.Register(name)]
    case RemFeeder(name) => [R.Op.Remove(name)]
    case Reset => [R.Op.Reset]
    case _ => []
  }

  function ConsumerOp<T>(op: Op<T>): seq<R.Op> {
    match op
    case SetConsumer(name) => [R.Op.Register(name)]
    case Reset => [R.Op.Reset]
    case _ => []
  }

  function FeederOps<T>(ops: seq<Op<T>>): seq<R.Op> {
    if ops == [] then [] else FeederOps(ops[..|ops| - 1]) + FeederOp(ops[|ops| - 1])
  }

  function ConsumerOps<T>(ops: seq<Op<T>>): seq<R.Op> {
    if ops == [] then [] else ConsumerOps(ops[..|ops| - 1]) + ConsumerOp(ops[|ops| - 1])
  }

  function RunEvents<T>(maxIn: nat, maxOut: nat, ops: seq<Op<T>>): seq<Event<T>> {
    if ops == [] || ops[|ops| - 1].Reset? then []
    else
      var before := ops[..|ops| - 1];
      RunEvents(maxIn, maxOut, before) + Events(Run(maxIn, maxOut, before), ops[|ops| - 1])
  }

  lemma {:induction false} FlushAllKeepsShape<T>(c: Channel<T>, n: nat)
    ensures var c' := Exec(c, FlushAll(n)); |c'.pending| == |c.pending| && c'.cursors == c.cursors && c'.starts == c.starts
  {
    if n > 0 {
      FlushAllKeepsShape(c, n - 1);
      ExecSnoc(c, FlushAll(n - 1), Flush(n - 1));
    }
  }

  /** On the registries, an operation is a registration, a removal, a reset or nothing. */
  lemma RegistriesStep<T>(m: Manager<T>, op: Op<T>)
    ensures var m' := Apply(m, op);
      && m'.Feeders() == (if FeederOp(op) == [] then m.Feeders() else R.Apply(m.Feeders(), m.maxIn, FeederOp(op)[0]))
      && m'.Consumers() == (if ConsumerOp(op) == [] then m.Consumers() else R.Apply(m.Consumers(), m.maxOut, ConsumerOp(op)[0]))
  {
    var es := Events(m, op);
    if op.Pass? {
      FlushAllKeepsShape(m.ch, |m.ch.pending|);
    } else if es != [] {
      ExecOne(m.ch, es[0]);
    }
  }

  lemma FeedersStep<T>(m: Manager<T>, op: Op<T>, ops: seq<R.Op>)
    requires m.Feeders() == R.Run(m.maxIn, ops)
    ensures Apply(m, op).maxIn == m.maxIn && Apply(m, op).Feeders() == R.Run(m.maxIn, ops + FeederOp(op))
  {
    RegistriesStep(m, op);
    R.RunExtend(m.maxIn, ops, FeederOp(op));
  }

  lemma ConsumersStep<T>(m: Manager<T>, op: Op<T>, ops: seq<R.Op>)
    requires m.Consumers() == R.Run(m.maxOut, ops)
    ensures Apply(m, op).maxOut == m.maxOut && Apply(m, op).Consumers() == R.Run(m.maxOut, ops + ConsumerOp(op))
  {
    RegistriesStep(m, op);
    R.RunExtend(m.maxOut, ops, ConsumerOp(op));
  }

  lemma {:induction false} FeedersOfRun<T>(maxIn: nat, maxOut: nat, ops: seq<Op<T>>)
    ensures var m := Run(maxIn, maxOut, ops); m.maxIn == maxIn && m.Feeders() == R.Run(maxIn, FeederOps(ops))
  {
    if ops != [] {
      var before := ops[..|ops| - 1];
      FeedersOfRun<T>(maxIn, maxOut, before);
      FeedersStep(Run(maxIn, maxOut, before), ops[|ops| - 1], FeederOps(before));
    }
  }

  lemma {:induction false} ConsumersOfRun<T>(maxIn: nat, maxOut: nat, ops: seq<Op<T>>)
    ensures var m := Run(maxIn, maxOut, ops); m.maxOut == maxOut && m.Consumers() == R.Run(maxOut, ConsumerOps(ops))
  {
    if ops != [] {
      var before := ops[..|ops| - 1];
      ConsumersOfRun<T>(maxIn, maxOut, before);
      ConsumersStep(Run(maxIn, maxOut, before), ops[|ops| - 1], ConsumerOps(before));
    }
  }

  /** The registries of a run are the registries of its registrations, removals and resets alone. */
  lemma RegistriesOfRun<T>(maxIn: nat, maxOut: nat, ops: seq<Op<T>>)
    ensures var m := Run(maxIn, maxOut, ops);
      && m.maxIn == maxIn && m.maxOut == maxOut
      && m.Feeders() == R.Run(maxIn, FeederOps(ops))
      && m.Consumers() == R.Run(maxOut, ConsumerOps(ops))
  {
    FeedersOfRun(maxIn, maxOut, ops);
    ConsumersOfRun(maxIn, maxOut, ops);
  }

  lemma {:induction false} ChannelOfRun<T>(maxIn: nat, maxOut: nat, ops: seq<Op<T>>)
    ensures Run(maxIn, maxOut, ops).ch == Exec(Fresh(0, 0), RunEvents(maxIn, maxOut, ops))
    ensures Valid(Run(maxIn, maxOut, ops).ch)
  {
    if ops != [] {
      var before, op := ops[..|ops| - 1], ops[|ops| - 1];
      ChannelOfRun<T>(maxIn, maxOut, before);
      if !op.Reset? {
        ExecConcat(Fresh<T>(0, 0), RunEvents(maxIn, maxOut, before), Events(Run(maxIn, maxOut, before), op));
      }
    }
    ValidExec(Fresh<T>(0, 0), RunEvents(maxIn, maxOut, ops));
  }

  /** Consumer names and output queues always correspond one to one: nothing removes a consumer. */
  lemma {:induction false} NoConsumerRemoval<T>(ops: seq<Op<T>>)
    ensures R.NoRemovalSinceReset(ConsumerOps(ops))
  {
    if ops != [] {
      NoConsumerRemoval(ops[..|ops| - 1]);
      R.NoRemovalExtend(ConsumerOps(ops[..|ops| - 1]), ConsumerOp(ops[|ops| - 1]));
    }
  }

  lemma ConsumersAlwaysBijective<T>(maxIn: nat, maxOut: nat, ops: seq<Op<T>>)
    ensures var m := Run(maxIn, maxOut, ops);
      R.Bijective(m.Consumers()) && |m.ch.cursors| <= maxOut
  {
    NoConsumerRemoval(ops);
    RegistriesOfRun(maxIn, maxOut, ops);
    R.BijectionWithoutRemoval(maxOut, ConsumerOps(ops));
  }

  /** A push or pop under a registered name always reaches a queue that exists. */
  lemma NamesLeadToQueues<T>(maxIn: nat, maxOut: nat, ops: seq<Op<T>>)
    ensures var m := Run(maxIn, maxOut, ops);
      && R.Safe(m.Feeders(), maxIn) && R.Safe(m.Consumers(), maxOut)
      && forall name :: name in m.outIds ==> Readable(m, name)
  {
    RegistriesOfRun(maxIn, maxOut, ops);
    R.AlwaysSafe(maxIn, FeederOps(ops));
    R.AlwaysSafe(maxOut, ConsumerOps(ops));
    ChannelOfRun(maxIn, maxOut, ops);
  }

  /** How many feeders have left since the last reset. */
  function FeedersLeft<T>(maxIn: nat, ops: seq<Op<T>>): nat {
    R.RemovalsSinceReset(maxIn, FeederOps(ops))
  }

  /**
    After every trace there is one input queue for each feeder that is registered and one for each that left; so
    they are within the maximum exactly as long as there is room for all of them.
   */
  lemma InputQueuesOfRun<T>(maxIn: nat, maxOut: nat, ops: seq<Op<T>>)
    ensures var m := Run(maxIn, maxOut, ops);
      && |m.ch.pending| == |m.inIds| + FeedersLeft(maxIn, ops)
      && (|m.ch.pending| <= maxIn <==> FeedersLeft(maxIn, ops) <= maxIn - |m.inIds|)
  {
    RegistriesOfRun(maxIn, maxOut, ops);
    R.QueuesOfRun(maxIn, FeederOps(ops));
  }

  // ---- Delivery over whole runs ----

  /** What the pushes of the run put into input queue i since the last reset. */
  function PushedInto<T>(maxIn: nat, maxOut: nat, ops: seq<Op<T>>, i: nat): seq<T> {
    if ops == [] || ops[|ops| - 1].Reset? then []
    else
      var before, op := ops[..|ops| - 1], ops[|ops| - 1];
      var m := Run(maxIn, maxOut, before);
      PushedInto(maxIn, maxOut, before, i) +
      if op.Push? && op.name in m.inIds && m.inIds[op.name] == i then [op.x] else []
  }

  /** What the pops of the run took from output queue j since the last reset. */
  function PoppedFrom<T>(maxIn: nat, maxOut: nat, ops: seq<Op<T>>, j: nat): seq<T> {
    if ops == [] || ops[|ops| - 1].Reset? then []
    else
      var before, op := ops[..|ops| - 1], ops[|ops| - 1];
      var m := Run(maxIn, maxOut, before);
      PoppedFrom(maxIn, maxOut, before, j) +
      if op.Pop? && op.name in m.outIds && m.outIds[op.name] == j then Output(m, op.name) else []
  }

  lemma {:induction false} FlushAllIsSilent<T>(c0: Channel<T>, es: seq<Event<T>>, n: nat, i: nat)
    ensures Pushed(c0, es + FlushAll(n), i) == Pushed(c0, es, i)
    ensures Received(c0, es + FlushAll(n), i) == Received(c0, es, i)
  {
    if n == 0 {
      assert es + FlushAll(0) == es;
    } else {
      var shorter := es + FlushAll(n - 1);
      FlushAllIsSilent(c0, es, n - 1, i);
      assert es + FlushAll(n) == shorter + [Flush(n - 1)];
      assert (shorter + [Flush(n - 1)])[..|shorter|] == shorter;
    }
  }

  lemma PushedStep<T>(m: Manager<T>, c0: Channel<T>, es: seq<Event<T>>, op: Op<T>, i: nat)
    requires !op.Reset? && m.ch == Exec(c0, es) && R.Safe(m.Feeders(), m.maxIn)
    ensures Pushed(c0, es + Events(m, op), i) == Pushed(c0, es, i) +
      if op.Push? && op.name in m.inIds && m.inIds[op.name] == i then [op.x] else []
  {
    var more := Events(m, op);
    if op.Pass? && more != [] {
      FlushAllIsSilent(c0, es, |m.ch.pending|, i);
    } else if more == [] {
      assert es + more == es;
    } else {
      ExecSnoc(c0, es, more[0]);
      assert es + more == es + [more[0]];
    }
  }

  lemma ReceivedStep<T>(m: Manager<T>, c0: Channel<T>, es: seq<Event<T>>, op: Op<T>, j: nat)
    requires !op.Reset? && m.ch == Exec(c0, es) && (op.Pop? && op.name in m.outIds ==> Readable(m, op.name))
    ensures Received(c0, es + Events(m, op), j) == Received(c0, es, j) +
      if op.Pop? && op.name in m.outIds && m.outIds[op.name] == j then Output(m, op.name) else []
  {
    var more := Events(m, op);
    if op.Pass? && more != [] {
      FlushAllIsSilent(c0, es, |m.ch.pending|, j);
    } else if more == [] {
      assert es + more == es;
    } else {
      assert (es + more)[..|es + more| - 1] == es;
      if op.Pop? {
        var at := m.ch.cursors[m.outIds[op.name]];
        assert m.ch.log[at..|m.ch.log|] == m.ch.log[at..];
      }
    }
  }

  lemma HistoryStep<T>(maxIn: nat, maxOut: nat, ops: seq<Op<T>>, op: Op<T>, i: nat)
    requires !op.Reset?
    ensures var m := Run(maxIn, maxOut, ops);
      var es := RunEvents(maxIn, maxOut, ops);
      && Pushed(Fresh(0, 0), es + Events(m, op), i) == Pushed(Fresh(0, 0), es, i) +
        (if op.Push? && op.name in m.inIds && m.inIds[op.name] == i then [op.x] else [])
      && Received(Fresh(0, 0), es + Events(m, op), i) == Received(Fresh(0, 0), es, i) +
        (if op.Pop? && op.name in m.outIds && m.outIds[op.name] == i then Output(m, op.name) else [])
  {
    var m, es := Run(maxIn, maxOut, ops), RunEvents(maxIn, maxOut, ops);
    NamesLeadToQueues(maxIn, maxOut, ops);
    ChannelOfRun(maxIn, maxOut, ops);
    RegistriesOfRun(maxIn, maxOut, ops);
    PushedStep(m, Fresh(0, 0), es, op, i);
    ReceivedStep(m, Fresh(0, 0), es, op, i);
  }

  /** The histories of a run are the histories of its channel events. */
  lemma {:induction false} HistoryOfRun<T>(maxIn: nat, maxOut: nat, ops: seq<Op<T>>, i: nat)
    ensures PushedInto(maxIn, maxOut, ops, i) == Pushed(Fresh(0, 0), RunEvents(maxIn, maxOut, ops), i)
    ensures PoppedFrom(maxIn, maxOut, ops, i) == Received(Fresh(0, 0), RunEvents(maxIn, maxOut, ops), i)
  {
    if ops != [] {
      HistoryOfRun(maxIn, maxOut, ops[..|ops| - 1], i);
      if !ops[|ops| - 1].Reset? {
        HistoryStep(maxIn, maxOut, ops[..|ops| - 1], ops[|ops| - 1], i);
      }
    }
  }

  /** Whatever the interleaving, the log holds, queue by queue, what was pushed and is no longer pending. */
  lemma DeliveryFromFeeders<T>(maxIn: nat, maxOut: nat, ops: seq<Op<T>>, i: nat)
    ensures var m := Run(maxIn, maxOut, ops);
      PushedInto(maxIn, maxOut, ops, i) == From(m.ch.log, i) + if i < |m.ch.pending| then m.ch.pending[i] else []
  {
    ChannelOfRun(maxIn, maxOut, ops);
    HistoryOfRun(maxIn, maxOut, ops, i);
    PushedIsLoggedOrPending<T>(0, 0, RunEvents(maxIn, maxOut, ops), i);
  }

  /** What a consumer has popped, then what its output queue holds, is the log from where the consumer started. */
  lemma DeliveryToConsumers<T>(maxIn: nat, maxOut: nat, ops: seq<Op<T>>, j: nat)
    requires j < |Run(maxIn, maxOut, ops).ch.cursors|
    ensures var m := Run(maxIn, maxOut, ops);
      && Valid(m.ch)
      && PoppedFrom(maxIn, maxOut, ops, j) + Unread(m, j) == Values(m.ch.log[m.ch.starts[j]..])
  {
    ChannelOfRun(maxIn, maxOut, ops);
    HistoryOfRun(maxIn, maxOut, ops, j);
    ReceivedIsWindow<T>(0, 0, RunEvents(maxIn, maxOut, ops), j);
    WindowAndRest(Run(maxIn, maxOut, ops).ch, j);
  }

  // ---- What single operations mean for the others ----

  /** A push adds its item to the queue its name leads to, and to no other; under an unknown name it is dropped. */
  lemma PushEffect<T>(m: Manager<T>, name: string, x: T)
    requires R.Safe(m.Feeders(), m.maxIn)
    ensures Apply(m, Op.Push(name, x)) ==
      if name in m.inIds then
        m.(ch := m.ch.(pending := m.ch.pending[m.inIds[name] := m.ch.pending[m.inIds[name]] + [x]]))
      else m
  {
    if name in m.inIds {
      ExecOne(m.ch, Event.Push(m.inIds[name], x));
    }
  }

  /** A pop hands out all that its name's queue holds, and no other queue changes; under an unknown name it does nothing. */
  lemma PopEffect<T>(m: Manager<T>, name: string, j: nat)
    requires Valid(m.ch) && R.Safe(m.Consumers(), m.maxOut) && j < |m.ch.cursors|
    ensures var m' := Apply(m, Pop(name));
      if name in m.outIds then
        && Output(m, name) == Unread(m, m.outIds[name])
        && Unread(m', j) == (if j == m.outIds[name] then [] else Unread(m, j))
        && m'.ch.log == m.ch.log && m'.ch.pending == m.ch.pending && m' == m.(ch := m'.ch)
      else Output(m, name) == [] && m' == m
  {
    if name in m.outIds {
      ExecOne(m.ch, Event<T>.Read(m.outIds[name], |Unread(m, m.outIds[name])|));
      assert m.ch.log[|m.ch.log|..] == [];
    }
  }

  /** After a feeder was removed the pushes of every other go where they went before, and its own are dropped. */
  lemma RemovalKeepsPushes<T>(m: Manager<T>, left: string, name: string, x: T)
    requires R.Safe(m.Feeders(), m.maxIn)
    ensures var m' := Apply(m, RemFeeder(left));
      && m'.ch == m.ch && m'.outIds == m.outIds
      && (name == left ==> Apply(m', Op.Push(name, x)) == m')
      && (name != left ==> Apply(m', Op.Push(name, x)).ch == Apply(m, Op.Push(name, x)).ch)
  {
    R.RemoveKeepsOthers(m.Feeders(), left);
    R.SafeStep(m.Feeders(), m.maxIn, R.Op.Remove(left));
    PushEffect(m, name, x);
    PushEffect(Apply(m, RemFeeder(left)), name, x);
  }

  /** An operation that ends a feeder's registration. */
  predicate EndsFeeder<T>(op: Op<T>, name: string) {
    op.Reset? || (op.RemFeeder? && op.name == name)
  }

  /** As long as a feeder is registered its pushes enter one and the same queue, whatever the others do. */
  lemma {:induction false} FeederKeepsQueue<T>(maxIn: nat, maxOut: nat, ops: seq<Op<T>>, more: seq<Op<T>>, name: string)
    requires name in Run(maxIn, maxOut, ops).inIds && name != R.EMPTY_SLOT
    requires forall k :: 0 <= k < |more| ==> !EndsFeeder(more[k], name)
    ensures name in Run(maxIn, maxOut, ops + more).inIds
    ensures Run(maxIn, maxOut, ops + more).inIds[name] == Run(maxIn, maxOut, ops).inIds[name]
    decreases |more|
  {
    if more == [] {
      assert ops + more == ops;
    } else {
      var front, last := more[..|more| - 1], more[|more| - 1];
      FeederKeepsQueue(maxIn, maxOut, ops, front, name);
      assert (ops + more)[..|ops + more| - 1] == ops + front;
      var was := Run(maxIn, maxOut, ops + front);
      RegistriesStep(was, last);
      if FeederOp(last) != [] {
        R.KeepsId(was.Feeders(), was.maxIn, FeederOp(last)[0], name);
      }
      assert Run(maxIn, maxOut, ops + more) == Apply(was, last);
    }
  }


  /** A pass empties every input queue onto every output queue, or does nothing when there is no output queue. */
  lemma PassEffect<T>(m: Manager<T>, j: nat)
    requires Valid(m.ch)
    ensures var m' := Apply(m, Pass);
      if |m.ch.cursors| == 0 then m' == m
      else
        && m'.ch.pending == seq(|m.ch.pending|, _ => [])
        && (j < |m.ch.cursors| ==> Unread(m', j) == Unread(m, j) + Concat(m.ch.pending))
        && m'.ch.log == m.ch.log + TagAll(m.ch.pending)
        && m' == m.(ch := m'.ch) && m'.ch.cursors == m.ch.cursors && m'.ch.starts == m.ch.starts
  {
    if |m.ch.cursors| > 0 {
      FlushAllEffect(m.ch, |m.ch.pending|);
      assert m.ch.pending[..|m.ch.pending|] == m.ch.pending;
      PassViews(m.ch);
      var m' := Apply(m, Pass);
      assert j < |m.ch.cursors| ==> Unread(m', j) == Views(m'.ch)[j] && Unread(m, j) == Views(m.ch)[j];
    }
  }

  /** The items that input queue i put into the log, then those it still holds. */
  ghost function Kept<T>(m: Manager<T>, i: nat): seq<T> {
    From(m.ch.log, i) + if i < |m.ch.pending| then m.ch.pending[i] else []
  }

  /** No operation but a reset takes back what was logged or is pending. */
  ghost predicate Extends<T>(m: Manager<T>, m': Manager<T>, i: nat) {
    && Valid(m.ch) && Valid(m'.ch) && |m.ch.pending| <= |m'.ch.pending|
    && m.ch.log <= m'.ch.log && |m.ch.cursors| <= |m'.ch.cursors|
    && Kept(m, i) <= Kept(m', i)
  }

  lemma FlushKeeps<T>(c: Channel<T>, k: nat, i: nat)
    requires i < |c.pending| && C.Enabled(c, Flush(k))
    ensures var c' := C.Apply(c, Flush(k));
      |c'.pending| == |c.pending| && From(c'.log, i) + c'.pending[i] == From(c.log, i) + c.pending[i]
  {
    var batch := Tag(k, c.pending[k]);
    FromConcat(c.log, batch, i);
    FromTag(k, c.pending[k], i);
    if k == i {
      assert From(c.log, i) + From(batch, i) + [] == From(c.log, i) + c.pending[i];
    } else {
      assert From(c.log, i) + [] == From(c.log, i);
    }
  }

  lemma EventKeeps<T>(c: Channel<T>, e: Event<T>, i: nat)
    requires i < |c.pending|
    ensures var c' := C.Apply(c, e);
      && |c.pending| <= |c'.pending|
      && From(c.log, i) + c.pending[i] <= From(c'.log, i) + c'.pending[i]
  {
    if e.Flush? && C.Enabled(c, e) {
      FlushKeeps(c, e.i, i);
    } else {
      assert C.Apply(c, e).log == c.log;
    }
  }

  lemma {:induction false} EventsKeep<T>(c: Channel<T>, es: seq<Event<T>>, i: nat)
    requires i < |c.pending|
    ensures var c' := Exec(c, es);
      && |c.pending| <= |c'.pending|
      && From(c.log, i) + c.pending[i] <= From(c'.log, i) + c'.pending[i]
  {
    if es != [] {
      EventsKeep(c, es[..|es| - 1], i);
      EventKeeps(Exec(c, es[..|es| - 1]), es[|es| - 1], i);
    }
  }

  lemma OpExtends<T>(m: Manager<T>, op: Op<T>, i: nat)
    requires Valid(m.ch) && i < |m.ch.pending| && !op.Reset?
    ensures Extends(m, Apply(m, op), i)
  {
    Monotone(m.ch, Events(m, op));
    EventsKeep(m.ch, Events(m, op), i);
    assert Apply(m, op).ch == Exec(m.ch, Events(m, op));
  }

  lemma {:induction false} OpsExtend<T>(m: Manager<T>, ops: seq<Op<T>>, i: nat)
    requires Valid(m.ch) && i < |m.ch.pending| && Reset !in ops
    ensures Extends(m, ExecOps(m, ops), i)
  {
    if ops != [] {
      var front, last := ops[..|ops| - 1], ops[|ops| - 1];
      assert last in ops;
      OpsExtend(m, front, i);
      OpExtends(ExecOps(m, front), last, i);
    }
  }

  /** A pass leaves nothing of the queue behind. */
  lemma PassLogsAll<T>(m: Manager<T>, i: nat)
    requires Valid(m.ch) && i < |m.ch.pending| && |m.ch.cursors| > 0
    ensures var m' := Apply(m, Pass); Valid(m'.ch) && m.ch.log <= m'.ch.log && From(m'.ch.log, i) == Kept(m, i)
  {
    PassEffect(m, 0);
    PassViews(m.ch);
    FromConcat(m.ch.log, TagAll(m.ch.pending), i);
    FromTagAll(m.ch.pending, i);
  }

  lemma FromSplit<T>(log: seq<Item<T>>, at: nat, i: nat)
    requires at <= |log|
    ensures From(log, i) == From(log[..at], i) + From(log[at..], i)
  {
    assert log == log[..at] + log[at..];
    FromConcat(log[..at], log[at..], i);
  }

  lemma Cancel<T>(head: seq<T>, a: seq<T>, more: seq<T>, b: seq<T>)
    requires head + a + more <= head + b
    ensures a + more <= b
    ensures head + a + more == head + b ==> a + more == b
  {
    assert (head + a + more)[|head|..] == a + more && (head + b)[|head|..] == b;
  }

  /** Items that follow in the whole log follow in the part of it that starts at a given place. */
  lemma SameStart<T>(log: seq<Item<T>>, longer: seq<Item<T>>, at: nat, i: nat, more: seq<T>)
    requires at <= |log| && log <= longer && From(log, i) + more <= From(longer, i)
    ensures From(log[at..], i) + more <= From(longer[at..], i)
    ensures From(log, i) + more == From(longer, i) ==> From(log[at..], i) + more == From(longer[at..], i)
  {
    FromSplit(log, at, i);
    FromSplit(longer, at, i);
    assert longer[..at] == log[..at];
    Cancel(From(log[..at], i), From(log[at..], i), more, From(longer[at..], i));
  }

  /**
    A removed feeder's pending data still reaches each consumer, in order, at the latest in the next pass, whatever
    happens before that pass; nothing comes between if it follows at once.
   */
  lemma RemovedFeederStillDelivered<T>(m: Manager<T>, name: string, ops: seq<Op<T>>, j: nat)
    requires Valid(m.ch) && name in m.inIds && m.inIds[name] < |m.ch.pending| && j < |m.ch.cursors| && Reset !in ops
    ensures var i, at := m.inIds[name], m.ch.cursors[j];
      var mid := ExecOps(Apply(m, RemFeeder(name)), ops);
      var m' := Apply(mid, Pass);
      && name !in Apply(m, RemFeeder(name)).inIds
      && at <= |m.ch.log| && m.ch.log <= m'.ch.log
      && From(m.ch.log[at..], i) + m.ch.pending[i] <= From(m'.ch.log[at..], i)
      && (ops == [] ==> From(m'.ch.log[at..], i) == From(m.ch.log[at..], i) + m.ch.pending[i])
  {
    var i, m0 := m.inIds[name], Apply(m, RemFeeder(name));
    var mid := ExecOps(m0, ops);
    OpsExtend(m0, ops, i);
    PassLogsAll(mid, i);
    SameStart(m.ch.log, Apply(mid, Pass).ch.log, m.ch.cursors[j], i, m.ch.pending[i]);
  }

  /** A consumer that gets a new queue starts at the end of the log; one that takes a slot finds that slot's unread items. */
  lemma NewConsumerStart<T>(m: Manager<T>, name: string)
    requires Valid(m.ch) && R.Safe(m.Consumers(), m.maxOut) && R.Bijective(m.Consumers())
    ensures var m' := Apply(m, SetConsumer(name));
      match R.Decide(m.Consumers(), m.maxOut, name)
      case NewQueue => m'.ch.starts == m.ch.starts + [|m.ch.log|] && name in m'.outIds && m'.outIds[name] == |m.ch.starts| && Output(m', name) == []
      case TakesSlot(_) => Output(m', name) == Output(m, R.EMPTY_SLOT) && R.EMPTY_SLOT !in m'.outIds && m'.ch == m.ch
      case Refused => m' == m
  {
    ExecOne(m.ch, AddOutput);
  }

  lemma FirstConsumerPops<T>(m: Manager<T>, name: string)
    requires Valid(m.ch) && m.ch.cursors == [] && m.ch.log == [] && |m.outIds| == 0 < m.maxOut
    ensures Output(Apply(Apply(m, SetConsumer(name)), Pass), name) == Concat(m.ch.pending)
  {
    ExecOne(m.ch, AddOutput);
    assert m.outIds == map[];
    PassEffect(Apply(m, SetConsumer(name)), 0);
  }

  /** Everything pushed before any consumer existed is what the first consumer's first pop returns. */
  lemma BacklogGoesToFirstConsumer<T>(maxIn: nat, maxOut: nat, ops: seq<Op<T>>, name: string)
    requires |Run(maxIn, maxOut, ops).ch.cursors| == 0 && maxOut > 0
    ensures var m := Run(maxIn, maxOut, ops);
      Output(Apply(Apply(m, SetConsumer(name)), Pass), name) ==
        Concat(seq(|m.ch.pending|, i requires i >= 0 => PushedInto(maxIn, maxOut, ops, i)))
  {
    var m := Run(maxIn, maxOut, ops);
    ChannelOfRun(maxIn, maxOut, ops);
    NoOutputNoLog(0, RunEvents(maxIn, maxOut, ops));
    forall i: nat | i < |m.ch.pending| ensures PushedInto(maxIn, maxOut, ops, i) == m.ch.pending[i] {
      DeliveryFromFeeders(maxIn, maxOut, ops, i);
    }
    assert seq(|m.ch.pending|, i requires i >= 0 => PushedInto(maxIn, maxOut, ops, i)) == m.ch.pending;
    RegistriesOfRun(maxIn, maxOut, ops);
    ConsumersAlwaysBijective(maxIn, maxOut, ops);
    FirstConsumerPops(m, name);
  }
}
