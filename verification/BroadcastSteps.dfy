/**
  The running pipeline at the level of its mutexes: any number of client threads push into input
  queues and pop from output queues while the one broadcaster thread scans, copies and clears. All
  queues are registered before the broadcaster starts. Every critical section and every wait for a
  mutex is a state of its own, so a copy to several output queues can be interrupted between them.
 */
module BroadcastSteps {
  import opened Channels
  import C = Channels

  datatype Lock = In(i: nat) | Out(j: nat)

  datatype Thread = Caster | Client(k: nat)

  datatype CasterPc =
    | Off
    | Scan(i: nat)                // about to lock input queue i, or at the end of the pass
    | Testing(i: nat)             // inside empty()
    | CopyWait(i: nat)            // found non-empty, about to lock input queue i for the copy
    | CopyHold(i: nat, done: nat) // holds input queue i; output queues below `done` are served
    | CopyBoth(i: nat, done: nat) // holds input queue i and output queue `done`
    | Done

  datatype ClientPc<T> =
    | Rest
    | PushWait(i: nat, x: T)
    | PushHold(i: nat, x: T)
    | TestWait(j: nat)
    | TestHold(j: nat)
    | MoveWait(j: nat)
    | MoveHold(j: nat)

  /** `received[j]` is all that was moved out of output queue j; `trace` records the channel events. */
  datatype Sys<T> = Sys(
    ins: seq<seq<T>>, outs: seq<seq<T>>, owner: map<Lock, Thread>, running: bool,
    caster: CasterPc, clients: seq<ClientPc<T>>, received: seq<seq<T>>, trace: seq<Event<T>>)

  datatype Step<T> =
    | Cast                         // the broadcaster's next action
    | RequestStop
    | StartPush(k: nat, i: nat, x: T)
    | StartPop(k: nat, j: nat)
    | Advance(k: nat)              // client k's next action

  function Init<T>(inputs: nat, outputs: nat, threads: nat): Sys<T> {
    Sys(seq(inputs, _ => []), seq(outputs, _ => []), map[], false, Off, seq(threads, _ => Rest), seq(outputs, _ => []), [])
  }

  /** The mutex the broadcaster needs for its next action. */
  function CasterWants<T>(s: Sys<T>): set<Lock> {
    match s.caster
    case Scan(i) => if i < |s.ins| then {In(i)} else {}
    case CopyWait(i) => {In(i)}
    case CopyHold(_, done) => if done < |s.outs| then {Out(done)} else {}
    case _ => {}
  }

  function ClientWants<T>(pc: ClientPc<T>): set<Lock> {
    match pc
    case PushWait(i, _) => {In(i)}
    case TestWait(j) => {Out(j)}
    case MoveWait(j) => {Out(j)}
    case _ => {}
  }

  function CasterHolds(pc: CasterPc): set<Lock> {
    match pc
    case Testing(i) => {In(i)}
    case CopyHold(i, _) => {In(i)}
    case CopyBoth(i, done) => {In(i), Out(done)}
    case _ => {}
  }

  function ClientHolds<T>(pc: ClientPc<T>): set<Lock> {
    match pc
    case PushHold(i, _) => {In(i)}
    case TestHold(j) => {Out(j)}
    case MoveHold(j) => {Out(j)}
    case _ => {}
  }

  predicate Enabled<T>(s: Sys<T>, step: Step<T>) {
    match step
    case Cast => s.caster != Done && forall l :: l in CasterWants(s) ==> l !in s.owner
    case RequestStop => true
    case StartPush(k, i, _) => k < |s.clients| && s.clients[k].Rest? && i < |s.ins|
    case StartPop(k, j) => k < |s.clients| && s.clients[k].Rest? && j < |s.outs|
    case Advance(k) =>
      k < |s.clients| && !s.clients[k].Rest? && forall l :: l in ClientWants(s.clients[k]) ==> l !in s.owner
  }

  function CastStep<T>(s: Sys<T>): Sys<T>
    requires ShapesFit(s)
  {
    match s.caster
    case Off => s.(caster := Scan(0), running := true)
    case Scan(i) =>
      if i < |s.ins| then s.(caster := Testing(i), owner := s.owner[In(i) := Caster])
      else if s.running then s.(caster := Scan(0))
      else s.(caster := Done)
    case Testing(i) =>
      s.(caster := if s.ins[i] != [] && |s.outs| > 0 then CopyWait(i) else Scan(i + 1), owner := s.owner - {In(i)})
    case CopyWait(i) =>
      s.(caster := CopyHold(i, 0), owner := s.owner[In(i) := Caster], trace := s.trace + [Flush(i)])
    case CopyHold(i, done) =>
      if done < |s.outs| then s.(caster := CopyBoth(i, done), owner := s.owner[Out(done) := Caster])
      else s.(caster := Scan(i + 1), owner := s.owner - {In(i)}, ins := s.ins[i := []])
    case CopyBoth(i, done) =>
      s.(caster := CopyHold(i, done + 1), owner := s.owner - {Out(done)}, outs := s.outs[done := s.outs[done] + s.ins[i]])
    case Done => s
  }

  function AdvanceStep<T>(s: Sys<T>, k: nat): Sys<T>
    requires ShapesFit(s) && k < |s.clients|
  {
    match s.clients[k]
    case Rest => s
    case PushWait(i, x) => s.(clients := s.clients[k := PushHold(i, x)], owner := s.owner[In(i) := Client(k)])
    case PushHold(i, x) =>
      s.(clients := s.clients[k := Rest], owner := s.owner - {In(i)},
        ins := s.ins[i := s.ins[i] + [x]], trace := s.trace + [Event.Push(i, x)])
    case TestWait(j) => s.(clients := s.clients[k := TestHold(j)], owner := s.owner[Out(j) := Client(k)])
    case TestHold(j) =>
      s.(clients := s.clients[k := if s.outs[j] == [] then Rest else MoveWait(j)], owner := s.owner - {Out(j)})
    case MoveWait(j) => s.(clients := s.clients[k := MoveHold(j)], owner := s.owner[Out(j) := Client(k)])
    case MoveHold(j) =>
      s.(clients := s.clients[k := Rest], owner := s.owner - {Out(j)},
        outs := s.outs[j := []], received := s.received[j := s.received[j] + s.outs[j]],
        trace := s.trace + [Read(j, |s.outs[j]|)])
  }

  /** A step that is not enabled leaves everything as it is. */
  function Do<T>(s: Sys<T>, step: Step<T>): Sys<T> {
    if !(ShapesFit(s) && Enabled(s, step)) then s else
    match step
    case Cast => CastStep(s)
    case RequestStop => s.(running := false)
    case StartPush(k, i, x) => s.(clients := s.clients[k := PushWait(i, x)])
    case StartPop(k, j) => s.(clients := s.clients[k := TestWait(j)])
    case Advance(k) => AdvanceStep(s, k)
  }

  // ---- Shapes ----

  predicate CasterFits<T>(s: Sys<T>) {
    match s.caster
    case Scan(i) => i <= |s.ins|
    case Testing(i) => i < |s.ins|
    case CopyWait(i) => i < |s.ins| && |s.outs| > 0
    case CopyHold(i, done) => i < |s.ins| && done <= |s.outs| && |s.outs| > 0
    case CopyBoth(i, done) => i < |s.ins| && done < |s.outs|
    case _ => true
  }

  predicate ClientFits<T>(s: Sys<T>, pc: ClientPc<T>) {
    match pc
    case Rest => true
    case PushWait(i, _) => i < |s.ins|
    case PushHold(i, _) => i < |s.ins|
    case TestWait(j) => j < |s.outs|
    case TestHold(j) => j < |s.outs|
    case MoveWait(j) => j < |s.outs|
    case MoveHold(j) => j < |s.outs|
  }

  predicate ShapesFit<T>(s: Sys<T>) {
    && |s.received| == |s.outs|
    && CasterFits(s)
    && forall k :: 0 <= k < |s.clients| ==> ClientFits(s, s.clients[k])
  }

  // ---- Runs ----

  /** The state after a schedule: any sequence of steps, in any order. */
  function Exec<T>(s: Sys<T>, steps: seq<Step<T>>): Sys<T> {
    if steps == [] then s else Do(Exec(s, steps[..|steps| - 1]), steps[|steps| - 1])
  }

  predicate SameShape<T>(s: Sys<T>, s': Sys<T>) {
    ShapesFit(s') && |s'.ins| == |s.ins| && |s'.outs| == |s.outs| && |s'.clients| == |s.clients|
  }

  lemma CastShapes<T>(s: Sys<T>)
    requires ShapesFit(s)
    ensures SameShape(s, CastStep(s))
  {
    var s' := CastStep(s);
    assert |s'.ins| == |s.ins| && |s'.outs| == |s.outs|;
    assert forall k :: 0 <= k < |s.clients| ==> ClientFits(s, s.clients[k]) ==> ClientFits(s', s.clients[k]);
  }

  lemma AdvanceShapes<T>(s: Sys<T>, k: nat)
    requires ShapesFit(s) && k < |s.clients|
    ensures SameShape(s, AdvanceStep(s, k))
  {
    var s' := AdvanceStep(s, k);
    assert |s'.ins| == |s.ins| && |s'.outs| == |s.outs| && s'.caster == s.caster;
    assert ClientFits(s, s.clients[k]) ==> ClientFits(s, s'.clients[k]);
    assert forall l :: 0 <= l < |s.clients| ==> ClientFits(s, s'.clients[l]) ==> ClientFits(s', s'.clients[l]);
  }

  lemma ShapesStep<T>(s: Sys<T>, step: Step<T>)
    requires ShapesFit(s)
    ensures var s' := Do(s, step);
      ShapesFit(s') && |s'.ins| == |s.ins| && |s'.outs| == |s.outs| && |s'.clients| == |s.clients|
  {
    if Enabled(s, step) {
      match step
      case Cast => CastShapes(s);
      case Advance(k) => AdvanceShapes(s, k);
      case _ =>
    }
  }

  // ---- Mutual exclusion ----

  function Holds<T>(s: Sys<T>, t: Thread): set<Lock> {
    match t
    case Caster => CasterHolds(s.caster)
    case Client(k) => if k < |s.clients| then ClientHolds(s.clients[k]) else {}
  }

  /** The owner of a mutex is the one thread inside a critical section of that mutex. */
  ghost predicate LocksFit<T>(s: Sys<T>) {
    forall l, t :: l in Holds(s, t) <==> l in s.owner && s.owner[l] == t
  }

  lemma Acquire<T>(s: Sys<T>, s': Sys<T>, t: Thread, l: Lock)
    requires LocksFit(s) && l !in s.owner
    requires s'.owner == s.owner[l := t] && Holds(s', t) == Holds(s, t) + {l}
    requires forall u :: u != t ==> Holds(s', u) == Holds(s, u)
    ensures LocksFit(s')
  {
    forall u ensures l !in Holds(s, u) {}
  }

  lemma Release<T>(s: Sys<T>, s': Sys<T>, t: Thread, l: Lock)
    requires LocksFit(s) && l in s.owner && s.owner[l] == t
    requires s'.owner == s.owner - {l} && Holds(s', t) == Holds(s, t) - {l}
    requires forall u :: u != t ==> Holds(s', u) == Holds(s, u)
    ensures LocksFit(s')
  {
    forall u | u != t ensures l !in Holds(s, u) {}
  }

  lemma Keep<T>(s: Sys<T>, s': Sys<T>)
    requires LocksFit(s) && s'.owner == s.owner
    requires forall u :: Holds(s', u) == Holds(s, u)
    ensures LocksFit(s')
  {
  }

  lemma CastKeepsLocks<T>(s: Sys<T>)
    requires ShapesFit(s) && LocksFit(s) && Enabled(s, Cast)
    ensures LocksFit(CastStep(s))
  {
    var s' := CastStep(s);
    match s.caster {
      case Scan(i) => if i < |s.ins| { Acquire(s, s', Caster, In(i)); } else { Keep(s, s'); }
      case Testing(i) => assert In(i) in Holds(s, Caster); Release(s, s', Caster, In(i));
      case CopyWait(i) => Acquire(s, s', Caster, In(i));
      case CopyHold(i, done) =>
        assert In(i) in Holds(s, Caster);
        if done < |s.outs| { Acquire(s, s', Caster, Out(done)); } else { Release(s, s', Caster, In(i)); }
      case CopyBoth(i, done) => assert Out(done) in Holds(s, Caster); Release(s, s', Caster, Out(done));
      case _ => Keep(s, s');
    }
  }

  lemma AdvanceKeepsLocks<T>(s: Sys<T>, k: nat)
    requires ShapesFit(s) && LocksFit(s) && Enabled(s, Advance(k))
    ensures LocksFit(AdvanceStep(s, k))
  {
    var s', t := AdvanceStep(s, k), Client(k);
    match s.clients[k] {
      case PushWait(i, _) => Acquire(s, s', t, In(i));
      case PushHold(i, _) => assert In(i) in Holds(s, t); Release(s, s', t, In(i));
      case TestWait(j) => Acquire(s, s', t, Out(j));
      case TestHold(j) => assert Out(j) in Holds(s, t); Release(s, s', t, Out(j));
      case MoveWait(j) => Acquire(s, s', t, Out(j));
      case MoveHold(j) => assert Out(j) in Holds(s, t); Release(s, s', t, Out(j));
    }
  }

  lemma LocksStep<T>(s: Sys<T>, step: Step<T>)
    requires ShapesFit(s) && LocksFit(s)
    ensures LocksFit(Do(s, step))
  {
    if Enabled(s, step) {
      match step {
        case Cast => CastKeepsLocks(s);
        case Advance(k) => AdvanceKeepsLocks(s, k);
        case _ => Keep(s, Do(s, step));
      }
    }
  }

  // ---- The channel behind the queues ----

  /** The channel reached by the events so far. */
  function History<T>(s: Sys<T>): Channel<T> {
    C.Exec(Fresh(|s.ins|, |s.outs|), s.trace)
  }

  /** A batch is on its way: logged, not yet cleared from its input queue, and at some output queues already. */
  predicate InFlight(pc: CasterPc) {
    pc.CopyHold? || pc.CopyBoth?
  }

  predicate Served(pc: CasterPc, j: nat) {
    InFlight(pc) ==> j < pc.done
  }

  /** How much of the log has reached output queue j. */
  ghost function Seen<T>(s: Sys<T>, c: Channel<T>, j: nat): int
    requires ShapesFit(s)
  {
    if Served(s.caster, j) then |c.log| else |c.log| - |s.ins[s.caster.i]|
  }

  ghost predicate InputsFit<T>(s: Sys<T>, c: Channel<T>)
    requires ShapesFit(s)
  {
    && |c.pending| == |s.ins|
    && (forall i :: 0 <= i < |s.ins| ==> c.pending[i] == if InFlight(s.caster) && i == s.caster.i then [] else s.ins[i])
    && (s.caster.CopyWait? || InFlight(s.caster) ==> s.ins[s.caster.i] != [])
    && (InFlight(s.caster) ==>
      var batch := s.ins[s.caster.i];
      |batch| <= |c.log| && c.log[|c.log| - |batch|..] == Tag(s.caster.i, batch))
  }

  ghost predicate OutputFits<T>(s: Sys<T>, c: Channel<T>, j: nat)
    requires ShapesFit(s) && C.Valid(c) && |c.cursors| == |s.outs| && j < |s.outs|
  {
    && c.starts[j] == 0
    && c.cursors[j] <= Seen(s, c, j)
    && s.outs[j] == Values(c.log[c.cursors[j]..Seen(s, c, j)])
    && s.received[j] == Values(c.log[..c.cursors[j]])
  }

  /** The queues and what was received are what the channel says. */
  ghost predicate DataFits<T>(s: Sys<T>, c: Channel<T>)
    requires ShapesFit(s)
  {
    && C.Valid(c)
    && InputsFit(s, c)
    && |c.cursors| == |s.outs|
    && forall j :: 0 <= j < |s.outs| ==> OutputFits(s, c, j)
  }

  ghost predicate Inv<T>(s: Sys<T>) {
    ShapesFit(s) && LocksFit(s) && DataFits(s, History(s)) && Legal(Fresh(|s.ins|, |s.outs|), s.trace)
  }

  // ---- Each critical section keeps the data in step with the channel ----

  lemma FlushKeepsData<T>(s: Sys<T>, c: Channel<T>)
    requires ShapesFit(s) && DataFits(s, c) && s.caster.CopyWait?
    ensures C.Enabled(c, Flush(s.caster.i)) && DataFits(CastStep(s), C.Apply(c, Flush(s.caster.i)))
  {
    var i, s', c' := s.caster.i, CastStep(s), C.Apply(c, Flush(s.caster.i));
    assert c'.log[|c'.log| - |s.ins[i]|..] == Tag(i, s.ins[i]);
    forall j | 0 <= j < |s.outs| ensures OutputFits(s', c', j) {
      assert OutputFits(s, c, j);
      assert c'.log[c.cursors[j]..|c.log|] == c.log[c.cursors[j]..|c.log|];
      assert c'.log[..c.cursors[j]] == c.log[..c.cursors[j]];
    }
  }

  lemma CopyKeepsData<T>(s: Sys<T>, c: Channel<T>)
    requires ShapesFit(s) && DataFits(s, c) && s.caster.CopyBoth?
    ensures DataFits(CastStep(s), c)
  {
    var i, done, s' := s.caster.i, s.caster.done, CastStep(s);
    forall j | 0 <= j < |s.outs| ensures OutputFits(s', c, j) {
      assert OutputFits(s, c, j);
      if j == done {
        var from, to := c.cursors[j], |c.log| - |s.ins[i]|;
        assert c.log[from..|c.log|] == c.log[from..to] + c.log[to..];
        ValuesConcat(c.log[from..to], c.log[to..]);
        assert Values(Tag(i, s.ins[i])) == s.ins[i];
      }
    }
  }

  lemma ClearKeepsData<T>(s: Sys<T>, c: Channel<T>)
    requires ShapesFit(s) && DataFits(s, c) && s.caster.CopyHold? && s.caster.done == |s.outs|
    ensures DataFits(CastStep(s), c)
  {
    forall j | 0 <= j < |s.outs| ensures OutputFits(CastStep(s), c, j) {
      assert OutputFits(s, c, j);
    }
  }

  lemma PushKeepsData<T>(s: Sys<T>, c: Channel<T>, k: nat)
    requires ShapesFit(s) && LocksFit(s) && DataFits(s, c) && k < |s.clients| && s.clients[k].PushHold?
    ensures var e := Event.Push(s.clients[k].i, s.clients[k].x);
      C.Enabled(c, e) && DataFits(AdvanceStep(s, k), C.Apply(c, e))
  {
    var i, x := s.clients[k].i, s.clients[k].x;
    var s', c' := AdvanceStep(s, k), C.Apply(c, Event.Push(i, x));
    assert In(i) in Holds(s, Client(k));
    assert s.owner[In(i)] == Client(k);
    assert In(i) !in Holds(s, Caster);
    forall j | 0 <= j < |s.outs| ensures OutputFits(s', c', j) {
      assert OutputFits(s, c, j);
    }
  }

  lemma MoveKeepsData<T>(s: Sys<T>, c: Channel<T>, k: nat)
    requires ShapesFit(s) && DataFits(s, c) && k < |s.clients| && s.clients[k].MoveHold?
    ensures var e := Event<T>.Read(s.clients[k].j, |s.outs[s.clients[k].j]|);
      C.Enabled(c, e) && DataFits(AdvanceStep(s, k), C.Apply(c, e))
  {
    var j := s.clients[k].j;
    var s', c' := AdvanceStep(s, k), C.Apply(c, Read(j, |s.outs[j]|));
    assert OutputFits(s, c, j);
    forall l | 0 <= l < |s.outs| ensures OutputFits(s', c', l) {
      assert OutputFits(s, c, l);
      if l == j {
        var from, to := c.cursors[j], Seen(s, c, j);
        assert c.log[..to] == c.log[..from] + c.log[from..to];
        ValuesConcat(c.log[..from], c.log[from..to]);
        assert c.log[to..to] == [];
      }
    }
  }

  /** Steps that only move threads between critical sections touch no data. */
  lemma MovingKeepsData<T>(s: Sys<T>, s': Sys<T>, c: Channel<T>)
    requires ShapesFit(s) && ShapesFit(s') && DataFits(s, c)
    requires s'.ins == s.ins && s'.outs == s.outs && s'.received == s.received
    requires InFlight(s.caster) == InFlight(s'.caster)
    requires InFlight(s.caster) ==> s'.caster.i == s.caster.i && s'.caster.done == s.caster.done
    requires s'.caster.CopyWait? ==> s'.ins[s'.caster.i] != []
    ensures DataFits(s', c)
  {
    forall j | 0 <= j < |s.outs| ensures OutputFits(s', c, j) {
      assert OutputFits(s, c, j);
    }
  }

  /** The channel event of a step, if it has one. */
  function EventOf<T>(s: Sys<T>, step: Step<T>): seq<Event<T>>
    requires ShapesFit(s)
  {
    if step.Cast? && s.caster.CopyWait? then [Flush(s.caster.i)]
    else if step.Advance? && step.k < |s.clients| && s.clients[step.k].PushHold? then
      [Event.Push(s.clients[step.k].i, s.clients[step.k].x)]
    else if step.Advance? && step.k < |s.clients| && s.clients[step.k].MoveHold? then
      [Read(s.clients[step.k].j, |s.outs[s.clients[step.k].j]|)]
    else []
  }

  lemma CastKeepsData<T>(s: Sys<T>, c: Channel<T>)
    requires ShapesFit(s) && LocksFit(s) && DataFits(s, c) && Enabled(s, Cast)
    ensures var es := EventOf(s, Cast);
      DataFits(CastStep(s), C.Exec(c, es)) && Legal(c, es)
  {
    ShapesStep(s, Cast);
    if s.caster.CopyWait? {
      FlushKeepsData(s, c);
      ExecOne(c, Flush(s.caster.i));
      ExecSnoc(c, [], Flush(s.caster.i));
      assert [] + [Flush(s.caster.i)] == EventOf(s, Cast);
    } else if s.caster.CopyBoth? {
      CopyKeepsData(s, c);
    } else if s.caster.CopyHold? && s.caster.done == |s.outs| {
      ClearKeepsData(s, c);
    } else {
      MovingKeepsData(s, CastStep(s), c);
    }
  }

  lemma AdvanceKeepsData<T>(s: Sys<T>, k: nat, c: Channel<T>)
    requires ShapesFit(s) && LocksFit(s) && DataFits(s, c) && Enabled(s, Advance(k))
    ensures var es := EventOf(s, Advance(k));
      DataFits(AdvanceStep(s, k), C.Exec(c, es)) && Legal(c, es)
  {
    ShapesStep(s, Advance(k));
    var es := EventOf(s, Advance(k));
    if s.clients[k].PushHold? {
      PushKeepsData(s, c, k);
    } else if s.clients[k].MoveHold? {
      MoveKeepsData(s, c, k);
    } else {
      MovingKeepsData(s, AdvanceStep(s, k), c);
    }
    if es != [] {
      ExecOne(c, es[0]);
      ExecSnoc(c, [], es[0]);
      assert [] + [es[0]] == es;
    }
  }

  lemma TraceStep<T>(s: Sys<T>, step: Step<T>)
    requires ShapesFit(s)
    ensures Do(s, step).trace == s.trace + if Enabled(s, step) then EventOf(s, step) else []
  {
  }

  lemma HistoryStep<T>(s: Sys<T>, step: Step<T>)
    requires ShapesFit(s)
    ensures Do(s, step).trace == s.trace + if Enabled(s, step) then EventOf(s, step) else []
    ensures History(Do(s, step)) == C.Exec(History(s), if Enabled(s, step) then EventOf(s, step) else [])
  {
    ShapesStep(s, step);
    TraceStep(s, step);
    ExecConcat(Fresh<T>(|s.ins|, |s.outs|), s.trace, if Enabled(s, step) then EventOf(s, step) else []);
  }

  lemma LegalConcat<T>(c: Channel<T>, es: seq<Event<T>>, more: seq<Event<T>>)
    requires Legal(c, es) && Legal(C.Exec(c, es), more) && |more| <= 1
    ensures Legal(c, es + more)
  {
    if more == [] {
      assert es + more == es;
    } else {
      ExecSnoc(c, es, more[0]);
      ExecSnoc(C.Exec(c, es), [], more[0]);
      assert [] + [more[0]] == more;
    }
  }

  lemma InvStep<T>(s: Sys<T>, step: Step<T>)
    requires Inv(s)
    ensures Inv(Do(s, step))
  {
    if Enabled(s, step) {
      var s', c := Do(s, step), History(s);
      ShapesStep(s, step);
      LocksStep(s, step);
      HistoryStep(s, step);
      match step {
        case Cast => CastKeepsData(s, c);
        case Advance(k) => AdvanceKeepsData(s, k, c);
        case _ => MovingKeepsData(s, s', c);
      }
      LegalConcat(Fresh<T>(|s.ins|, |s.outs|), s.trace, EventOf(s, step));
    }
  }

  /** The invariant holds after every schedule. */
  lemma {:induction false} InvAlways<T>(inputs: nat, outputs: nat, threads: nat, steps: seq<Step<T>>)
    ensures var s := Exec(Init(inputs, outputs, threads), steps);
      Inv(s) && |s.ins| == inputs && |s.outs| == outputs && |s.clients| == threads
  {
    if steps == [] {
      var s := Init<T>(inputs, outputs, threads);
      forall j | 0 <= j < |s.outs| ensures OutputFits(s, History(s), j) {}
    } else {
      InvAlways<T>(inputs, outputs, threads, steps[..|steps| - 1]);
      var was := Exec(Init<T>(inputs, outputs, threads), steps[..|steps| - 1]);
      InvStep(was, steps[|steps| - 1]);
      ShapesStep(was, steps[|steps| - 1]);
    }
  }

  // ---- Main results ----

  /** The common log, without the batch in flight. */
  ghost function Board<T>(s: Sys<T>): seq<Item<T>>
    requires Inv(s)
  {
    var log := History(s).log;
    if InFlight(s.caster) then log[..|log| - |s.ins[s.caster.i]|] else log
  }

  /** The labelled items that have reached output queue j: the common log, and the batch in flight if j is served. */
  ghost function Delivered<T>(s: Sys<T>, j: nat): seq<Item<T>>
    requires Inv(s)
  {
    Board(s) + if InFlight(s.caster) && j < s.caster.done then Tag(s.caster.i, s.ins[s.caster.i]) else []
  }

  lemma DeliveredIsSeen<T>(s: Sys<T>, j: nat)
    requires Inv(s) && j < |s.outs|
    ensures Delivered(s, j) == History(s).log[..Seen(s, History(s), j)]
    ensures Values(Delivered(s, j)) == s.received[j] + s.outs[j]
  {
    var c := History(s);
    assert OutputFits(s, c, j);
    var to := Seen(s, c, j);
    if InFlight(s.caster) {
      var cut := |c.log| - |s.ins[s.caster.i]|;
      assert c.log == c.log[..cut] + c.log[cut..];
    }
    assert c.log[..to] == c.log[..c.cursors[j]] + c.log[c.cursors[j]..to];
    ValuesConcat(c.log[..c.cursors[j]], c.log[c.cursors[j]..to]);
  }

  /**
    Total order: after every schedule there is one log such that each consumer's received items, then
    its output queue, are that log, or that log and the batch in flight.
   */
  lemma TotalOrder<T>(inputs: nat, outputs: nat, threads: nat, steps: seq<Step<T>>, j: nat)
    requires j < outputs
    ensures var s := Exec(Init(inputs, outputs, threads), steps);
      && Inv(s) && j < |s.outs|
      && s.received[j] + s.outs[j] ==
        Values(Board(s)) + if InFlight(s.caster) && j < s.caster.done then s.ins[s.caster.i] else []
  {
    InvAlways<T>(inputs, outputs, threads, steps);
    var s := Exec(Init<T>(inputs, outputs, threads), steps);
    DeliveredIsSeen(s, j);
    if InFlight(s.caster) && j < s.caster.done {
      var batch := Tag(s.caster.i, s.ins[s.caster.i]);
      ValuesConcat(Board(s), batch);
      assert Values(batch) == s.ins[s.caster.i];
    } else {
      assert Delivered(s, j) == Board(s);
    }
  }

  lemma DeliveredFrom<T>(s: Sys<T>, i: nat, j: nat)
    requires Inv(s) && j < |s.outs|
    ensures From(History(s).log, i) == From(Delivered(s, j), i) +
      if InFlight(s.caster) && j >= s.caster.done && s.caster.i == i then s.ins[i] else []
  {
    var log := History(s).log;
    if InFlight(s.caster) {
      var batch := Tag(s.caster.i, s.ins[s.caster.i]);
      assert log == Board(s) + batch;
      FromConcat(Board(s), batch, i);
      FromTag(s.caster.i, s.ins[s.caster.i], i);
      if j >= s.caster.done {
        assert Delivered(s, j) == Board(s);
      }
    } else {
      assert Delivered(s, j) == log;
    }
  }

  lemma ArrivedOrHeld<T>(s: Sys<T>, i: nat, j: nat)
    requires Inv(s) && i < |s.ins| && j < |s.outs|
    ensures Pushed(Fresh(|s.ins|, |s.outs|), s.trace, i) == From(Delivered(s, j), i) +
      if InFlight(s.caster) && j < s.caster.done && s.caster.i == i then [] else s.ins[i]
  {
    PushedIsLoggedOrPending<T>(|s.ins|, |s.outs|, s.trace, i);
    DeliveredFrom(s, i, j);
  }

  /**
    Exactly once, in order, for each input queue i and consumer j after every schedule: what reached j
    from i, then what i still holds, is what was pushed into i; a batch that j already has does not
    count as held.
   */
  lemma ExactlyOnce<T>(inputs: nat, outputs: nat, threads: nat, steps: seq<Step<T>>, i: nat, j: nat)
    requires i < inputs && j < outputs
    ensures var s := Exec(Init(inputs, outputs, threads), steps);
      && Inv(s) && i < |s.ins| && j < |s.outs|
      && Values(Delivered(s, j)) == s.received[j] + s.outs[j]
      && Pushed(Fresh(inputs, outputs), s.trace, i) == From(Delivered(s, j), i) +
        if InFlight(s.caster) && j < s.caster.done && s.caster.i == i then [] else s.ins[i]
  {
    InvAlways<T>(inputs, outputs, threads, steps);
    var s := Exec(Init<T>(inputs, outputs, threads), steps);
    DeliveredIsSeen(s, j);
    ArrivedOrHeld(s, i, j);
  }

  /** What any two consumers have received is comparable: one stream is a prefix of the other. */
  lemma StreamsComparable<T>(inputs: nat, outputs: nat, threads: nat, steps: seq<Step<T>>, j: nat, k: nat)
    requires j < outputs && k < outputs
    ensures var s := Exec(Init(inputs, outputs, threads), steps);
      && j < |s.received| && k < |s.received|
      && (s.received[j] <= s.received[k] || s.received[k] <= s.received[j])
  {
    InvAlways<T>(inputs, outputs, threads, steps);
    var s := Exec(Init<T>(inputs, outputs, threads), steps);
    var c := History(s);
    assert OutputFits(s, c, j) && OutputFits(s, c, k);
  }

  /** Refinement: every schedule is a legal run of the channel, and consumers receive what its reads return. */
  lemma RefinesChannel<T>(inputs: nat, outputs: nat, threads: nat, steps: seq<Step<T>>, j: nat)
    requires j < outputs
    ensures var s := Exec(Init(inputs, outputs, threads), steps);
      && Legal(Fresh(inputs, outputs), s.trace)
      && j < |s.received| && s.received[j] == Received(Fresh(inputs, outputs), s.trace, j)
  {
    InvAlways<T>(inputs, outputs, threads, steps);
    var s := Exec(Init<T>(inputs, outputs, threads), steps);
    assert OutputFits(s, History(s), j);
    ReceivedIsWindow<T>(inputs, outputs, s.trace, j);
  }

  // ---- A whole pass leaves nothing behind ----

  /** The broadcaster does not leave the end of its pass during this schedule. */
  predicate SamePass<T>(s: Sys<T>, steps: seq<Step<T>>) {
    steps == [] ||
    var before := steps[..|steps| - 1];
    SamePass(s, before) && !(steps[|steps| - 1].Cast? && Exec(s, before).caster == Scan(|s.ins|))
  }

  /** How many input queues the pass is through with, or has logged. */
  function Position(pc: CasterPc): nat {
    match pc
    case Scan(i) => i
    case Testing(i) => i
    case CopyWait(i) => i
    case CopyHold(i, _) => i + 1
    case CopyBoth(i, _) => i + 1
    case _ => 0
  }

  lemma FromPrefix<T>(a: seq<Item<T>>, b: seq<Item<T>>, i: nat)
    requires a <= b
    ensures From(a, i) <= From(b, i)
  {
    assert b == a + b[|a|..];
    FromConcat(a, b[|a|..], i);
  }

  lemma PushedGrows<T>(c0: Channel<T>, es: seq<Event<T>>, more: seq<Event<T>>, i: nat)
    requires |more| <= 1
    ensures Pushed(c0, es, i) <= Pushed(c0, es + more, i)
  {
    if more == [] {
      assert es + more == es;
    } else {
      ExecSnoc(c0, es, more[0]);
      assert es + more == es + [more[0]];
    }
  }

  lemma TraceGrows<T>(s: Sys<T>, step: Step<T>, i: nat)
    requires Inv(s)
    ensures var s', c0 := Do(s, step), Fresh(|s.ins|, |s.outs|);
      && History(s).log <= History(s').log
      && From(History(s).log, i) <= From(History(s').log, i)
      && Pushed(c0, s.trace, i) <= Pushed(c0, s'.trace, i)
  {
    var es := if Enabled(s, step) then EventOf(s, step) else [];
    HistoryStep(s, step);
    Monotone(History(s), es);
    FromPrefix(History(s).log, History(Do(s, step)).log, i);
    PushedGrows(Fresh<T>(|s.ins|, |s.outs|), s.trace, es, i);
  }

  lemma EmptyMeansLogged<T>(s: Sys<T>, i: nat)
    requires Inv(s) && i < |s.ins| && History(s).pending[i] == []
    ensures From(History(s).log, i) == Pushed(Fresh(|s.ins|, |s.outs|), s.trace, i)
  {
    PushedIsLoggedOrPending<T>(|s.ins|, |s.outs|, s.trace, i);
  }

  /** When a step moves the pass past input queue i, that queue has just been found or made empty. */
  lemma PassingMeansEmpty<T>(s: Sys<T>, i: nat)
    requires Inv(s) && Enabled(s, Cast) && |s.outs| > 0
    requires Position(s.caster) <= i < Position(CastStep(s).caster)
    ensures i < |s.ins| && i < |History(Do(s, Cast)).pending| && History(Do(s, Cast)).pending[i] == []
  {
    InvStep(s, Cast);
    CastShapes(s);
    assert InputsFit(Do(s, Cast), History(Do(s, Cast)));
  }

  lemma PassingMeansLogged<T>(s: Sys<T>, i: nat)
    requires Inv(s) && Enabled(s, Cast) && |s.outs| > 0
    requires Position(s.caster) <= i < Position(CastStep(s).caster)
    ensures From(History(Do(s, Cast)).log, i) == Pushed(Fresh(|s.ins|, |s.outs|), Do(s, Cast).trace, i)
  {
    InvStep(s, Cast);
    CastShapes(s);
    PassingMeansEmpty(s, i);
    EmptyMeansLogged(Do(s, Cast), i);
  }

  /** A state in the pass that began in state s0, as far as input queue i is concerned. */
  ghost predicate InPass<T>(s0: Sys<T>, s: Sys<T>, i: nat) {
    var c0 := Fresh(|s0.ins|, |s0.outs|);
    && Inv(s) && |s.ins| == |s0.ins| && |s.outs| == |s0.outs| && s.caster != Off && s.caster != Done
    && Pushed(c0, s0.trace, i) <= Pushed(c0, s.trace, i)
    && (i < Position(s.caster) ==> Pushed(c0, s0.trace, i) <= From(History(s).log, i))
  }

  lemma PassMoves<T>(s: Sys<T>, step: Step<T>)
    requires ShapesFit(s) && s.caster != Off && s.caster != Done && !(step.Cast? && s.caster == Scan(|s.ins|))
    ensures var pc := Do(s, step).caster; pc != Off && pc != Done && Position(s.caster) <= Position(pc)
    ensures Position(s.caster) < Position(Do(s, step).caster) ==> step.Cast? && Enabled(s, step)
  {
  }

  lemma PassStep<T>(s0: Sys<T>, s: Sys<T>, step: Step<T>, i: nat)
    requires InPass(s0, s, i) && |s0.outs| > 0 && !(step.Cast? && s.caster == Scan(|s.ins|))
    ensures InPass(s0, Do(s, step), i)
  {
    InvStep(s, step);
    ShapesStep(s, step);
    TraceGrows(s, step, i);
    PassMoves(s, step);
    var s' := Do(s, step);
    if Position(s.caster) <= i < Position(s'.caster) {
      PassingMeansLogged(s, i);
    }
  }

  lemma {:induction false} PassProgress<T>(s: Sys<T>, steps: seq<Step<T>>, i: nat)
    requires Inv(s) && s.caster == Scan(0) && |s.outs| > 0 && SamePass(s, steps)
    ensures InPass(s, Exec(s, steps), i)
  {
    if steps != [] {
      var before := steps[..|steps| - 1];
      PassProgress(s, before, i);
      assert Exec(s, steps) == Do(Exec(s, before), steps[|steps| - 1]);
      PassStep(s, Exec(s, before), steps[|steps| - 1], i);
    }
  }

  /** Whatever had been pushed when a pass began is with every consumer, or in its output queue, when the pass ends. */
  lemma PassDelivers<T>(s: Sys<T>, steps: seq<Step<T>>, i: nat, j: nat)
    requires Inv(s) && s.caster == Scan(0) && SamePass(s, steps)
    requires i < |s.ins| && j < |s.outs| && Exec(s, steps).caster == Scan(|s.ins|)
    ensures var s' := Exec(s, steps);
      && Inv(s') && j < |s'.outs|
      && Values(Delivered(s', j)) == s'.received[j] + s'.outs[j]
      && Pushed(Fresh(|s.ins|, |s.outs|), s.trace, i) <= From(Delivered(s', j), i)
  {
    PassProgress(s, steps, i);
    DeliveredIsSeen(Exec(s, steps), j);
    assert Delivered(Exec(s, steps), j) == History(Exec(s, steps)).log;
  }
}
