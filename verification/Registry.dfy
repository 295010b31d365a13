/**
  The bookkeeping shared by feeders and consumers: a map from names to queue ids beside a vector
  of queues, of which only the length matters here. A full registry can still take a newcomer
  when the name "empty" is registered; the newcomer inherits that slot.
 */
module Registry {

  const EMPTY_SLOT: string := "empty"

  datatype Registry = Registry(ids: map<string, nat>, queues: nat)

  datatype Op = Register(name: string) | Remove(name: string) | Reset

  /** How a registration ends: a new queue, an inherited slot, or a refusal. */
  datatype Outcome = NewQueue | TakesSlot(id: nat) | Refused

  function Decide(r: Registry, max: nat, name: string): Outcome {
    if name in r.ids then Refused
    else if |r.ids| < max then NewQueue
    else if EMPTY_SLOT in r.ids then TakesSlot(r.ids[EMPTY_SLOT])
    else Refused
  }

  function AddName(r: Registry, max: nat, name: string): Registry {
    match Decide(r, max, name)
    case NewQueue => Registry(r.ids[name := |r.ids|], r.queues + 1)
    case TakesSlot(id) => Registry(r.ids[name := id] - {EMPTY_SLOT}, r.queues)
    case Refused => r
  }

  function DropName(r: Registry, name: string): Registry {
    r.(ids := r.ids - {name})
  }

  function Apply(r: Registry, max: nat, op: Op): Registry {
    match op
    case Register(name) => AddName(r, max, name)
    case Remove(name) => DropName(r, name)
    case Reset => Registry(map[], 0)
  }

  function Run(max: nat, ops: seq<Op>): Registry {
    if ops == [] then Registry(map[], 0)
    else Apply(Run(max, ops[..|ops| - 1]), max, ops[|ops| - 1])
  }

  /** A run is extended by no operation or by one. */
  lemma RunExtend(max: nat, ops: seq<Op>, more: seq<Op>)
    requires |more| <= 1
    ensures Run(max, ops + more) == if more == [] then Run(max, ops) else Apply(Run(max, ops), max, more[0])
  {
    if more == [] {
      assert ops + more == ops;
    } else {
      assert (ops + more)[..|ops + more| - 1] == ops;
    }
  }

  lemma RunTwo(max: nat, ops: seq<Op>, a: Op, b: Op)
    ensures Run(max, ops + [a, b]) == Apply(Apply(Run(max, ops), max, a), max, b)
  {
    var two := ops + [a, b];
    assert two[..|two| - 1] == ops + [a] && (ops + [a])[..|ops|] == ops;
  }

  // ---- Safety on every run ----

  ghost predicate Safe(r: Registry, max: nat) {
    && |r.ids| <= max
    && |r.ids| <= r.queues
    && forall name :: name in r.ids ==> r.ids[name] < r.queues
  }

  lemma SizeAfterAdd(ids: map<string, nat>, name: string, id: nat)
    requires name !in ids
    ensures |ids[name := id]| == |ids| + 1
    ensures ids[name := id].Values == ids.Values + {id}
  {
    var m := ids[name := id];
    assert m.Keys == ids.Keys + {name};
    assert |m| == |m.Keys| && |ids| == |ids.Keys|;
    assert m[name] == id;
    forall v | v in ids.Values ensures v in m.Values {
      var n :| n in ids && ids[n] == v;
      assert m[n] == v;
    }
  }

  lemma SizeAfterRemove(ids: map<string, nat>, name: string)
    ensures |ids - {name}| == if name in ids then |ids| - 1 else |ids|
  {
    var keys := ids.Keys;
    assert (ids - {name}).Keys == keys - {name};
    assert |ids - {name}| == |keys - {name}| && |ids| == |keys|;
  }

  lemma SafeTakeover(r: Registry, max: nat, name: string)
    requires Safe(r, max) && EMPTY_SLOT in r.ids && name !in r.ids
    ensures Safe(Registry(r.ids[name := r.ids[EMPTY_SLOT]] - {EMPTY_SLOT}, r.queues), max)
  {
    SizeAfterAdd(r.ids, name, r.ids[EMPTY_SLOT]);
    SizeAfterRemove(r.ids[name := r.ids[EMPTY_SLOT]], EMPTY_SLOT);
  }

  lemma SafeStep(r: Registry, max: nat, op: Op)
    requires Safe(r, max)
    ensures Safe(Apply(r, max, op), max)
  {
    match op
    case Reset =>
    case Remove(name) => SizeAfterRemove(r.ids, name);
    case Register(name) =>
      match Decide(r, max, name)
      case NewQueue => SizeAfterAdd(r.ids, name, |r.ids|);
      case TakesSlot(_) => SafeTakeover(r, max, name);
      case Refused =>
  }

  /** On every run, removals included, a name leads to a queue that exists, and names never exceed the maximum. */
  lemma {:induction false} AlwaysSafe(max: nat, ops: seq<Op>)
    ensures Safe(Run(max, ops), max)
  {
    if ops != [] {
      AlwaysSafe(max, ops[..|ops| - 1]);
      SafeStep(Run(max, ops[..|ops| - 1]), max, ops[|ops| - 1]);
    }
  }

  // ---- One name for each queue, when nothing was removed since the last reset ----

  ghost predicate Injective(ids: map<string, nat>) {
    forall a, b :: a in ids && b in ids && ids[a] == ids[b] ==> a == b
  }

  /** Names and queues correspond one to one. */
  ghost predicate Bijective(r: Registry) {
    && Injective(r.ids)
    && |r.ids| == r.queues
    && r.ids.Values == Below(r.queues)
  }

  function Below(n: nat): (ids: set<nat>)
    ensures forall id: nat :: id in ids <==> id < n
  {
    if n == 0 then {} else Below(n - 1) + {n - 1}
  }

  predicate NoRemovalSinceReset(ops: seq<Op>) {
    ops == [] ||
    var last := ops[|ops| - 1];
    last.Reset? || (!last.Remove? && NoRemovalSinceReset(ops[..|ops| - 1]))
  }

  lemma NoRemovalExtend(ops: seq<Op>, more: seq<Op>)
    requires |more| <= 1 && NoRemovalSinceReset(ops) && (more == [] || !more[0].Remove?)
    ensures NoRemovalSinceReset(ops + more)
  {
    if more == [] {
      assert ops + more == ops;
    } else {
      assert (ops + more)[..|ops + more| - 1] == ops;
    }
  }

  lemma TakeoverKeepsValues(ids: map<string, nat>, name: string)
    requires EMPTY_SLOT in ids && name !in ids && Injective(ids)
    ensures var ids' := ids[name := ids[EMPTY_SLOT]] - {EMPTY_SLOT};
      ids'.Values == ids.Values && Injective(ids')
  {
    var id := ids[EMPTY_SLOT];
    var ids' := ids[name := id] - {EMPTY_SLOT};
    assert ids'[name] == id;
    forall v | v in ids.Values ensures v in ids'.Values {
      var n :| n in ids && ids[n] == v;
      if n != EMPTY_SLOT { assert ids'[n] == v; }
    }
    forall v | v in ids'.Values ensures v in ids.Values {
      var n :| n in ids' && ids'[n] == v;
      if n != name { assert ids[n] == v; } else { assert ids[EMPTY_SLOT] == v; }
    }
  }

  lemma NewQueueKeepsInjection(ids: map<string, nat>, name: string, id: nat)
    requires Injective(ids) && name !in ids && id !in ids.Values
    ensures Injective(ids[name := id])
  {
    forall n | n in ids ensures ids[n] != id {
      assert ids[n] in ids.Values;
    }
  }

  lemma NewQueueKeepsBijection(r: Registry, name: string)
    requires Bijective(r) && name !in r.ids
    ensures Bijective(Registry(r.ids[name := r.queues], r.queues + 1))
  {
    SizeAfterAdd(r.ids, name, r.queues);
    assert Below(r.queues + 1) == Below(r.queues) + {r.queues};
    NewQueueKeepsInjection(r.ids, name, r.queues);
  }

  lemma TakeoverKeepsBijection(r: Registry, name: string)
    requires Bijective(r) && EMPTY_SLOT in r.ids && name !in r.ids
    ensures Bijective(Registry(r.ids[name := r.ids[EMPTY_SLOT]] - {EMPTY_SLOT}, r.queues))
  {
    var id := r.ids[EMPTY_SLOT];
    SizeAfterAdd(r.ids, name, id);
    SizeAfterRemove(r.ids[name := id], EMPTY_SLOT);
    TakeoverKeepsValues(r.ids, name);
  }

  lemma RegisterKeepsBijection(r: Registry, max: nat, name: string)
    requires Bijective(r)
    ensures Bijective(AddName(r, max, name))
  {
    match Decide(r, max, name)
    case NewQueue => NewQueueKeepsBijection(r, name);
    case TakesSlot(_) => TakeoverKeepsBijection(r, name);
    case Refused =>
  }

  /** Registering someone else leaves a name's queue alone, unless that name is the free slot. */
  lemma RegisterKeepsOthers(r: Registry, max: nat, other: string, name: string)
    requires name in r.ids && name != EMPTY_SLOT
    ensures var r' := AddName(r, max, other); name in r'.ids && r'.ids[name] == r.ids[name]
  {
  }

  /** A removal takes exactly the one name away: every other name keeps its id, and so does every queue its place. */
  lemma RemoveKeepsOthers(r: Registry, left: string)
    ensures var r' := DropName(r, left);
      && r'.queues == r.queues && left !in r'.ids
      && forall name :: name != left ==> (name in r'.ids <==> name in r.ids) && (name in r.ids ==> r'.ids[name] == r.ids[name])
  {
  }

  /** An operation that could change the id of a name: its own removal, or a reset; the "empty" slot can also be taken. */
  predicate Concerns(op: Op, name: string) {
    op.Reset? || (op.Remove? && op.name == name)
  }

  /** From its registration to its removal or a reset a name leads to the same queue, whatever the others do. */
  lemma {:induction false} NameKeepsId(max: nat, ops: seq<Op>, more: seq<Op>, name: string)
    requires name in Run(max, ops).ids && name != EMPTY_SLOT && forall k :: 0 <= k < |more| ==> !Concerns(more[k], name)
    ensures name in Run(max, ops + more).ids && Run(max, ops + more).ids[name] == Run(max, ops).ids[name]
    decreases |more|
  {
    if more == [] {
      assert ops + more == ops;
    } else {
      var front, last := more[..|more| - 1], more[|more| - 1];
      NameKeepsId(max, ops, front, name);
      assert (ops + more)[..|ops + more| - 1] == ops + front;
      KeepsId(Run(max, ops + front), max, last, name);
    }
  }

  lemma KeepsId(r: Registry, max: nat, op: Op, name: string)
    requires name in r.ids && name != EMPTY_SLOT && !Concerns(op, name)
    ensures var r' := Apply(r, max, op); name in r'.ids && r'.ids[name] == r.ids[name]
  {
    match op
    case Register(other) => RegisterKeepsOthers(r, max, other, name);
    case Remove(left) => RemoveKeepsOthers(r, left);
  }

  /** A registration is refused exactly for a name that is registered already, and in a full registry without a free slot. */
  lemma RefusedIff(r: Registry, max: nat, name: string)
    ensures Decide(r, max, name).Refused? <==> name in r.ids || (|r.ids| >= max && EMPTY_SLOT !in r.ids)
    ensures Decide(r, max, name).NewQueue? <==> name !in r.ids && |r.ids| < max
    ensures !Decide(r, max, name).Refused? ==> name in AddName(r, max, name).ids
    ensures Decide(r, max, name).Refused? ==> AddName(r, max, name) == r
    ensures Decide(r, max, name).NewQueue? ==> AddName(r, max, name).ids[name] == |r.ids| && AddName(r, max, name).queues == r.queues + 1
    ensures Decide(r, max, name).TakesSlot? ==> EMPTY_SLOT in r.ids && AddName(r, max, name).queues == r.queues
    ensures Decide(r, max, name).TakesSlot? ==>
      EMPTY_SLOT !in AddName(r, max, name).ids && AddName(r, max, name).ids[name] == r.ids[EMPTY_SLOT]
  {
  }

  function Registrations(names: seq<string>): seq<Op> {
    if names == [] then [] else Registrations(names[..|names| - 1]) + [Register(names[|names| - 1])]
  }

  /** Distinct names, as many as the maximum allows, all get a queue of their own, in the order of their registration. */
  lemma {:induction false} NamesGetQueuesInOrder(max: nat, names: seq<string>)
    requires |names| <= max && forall i, j :: 0 <= i < j < |names| ==> names[i] != names[j]
    ensures var r := Run(max, Registrations(names));
      && r.queues == |r.ids| == |names|
      && (forall k :: 0 <= k < |names| ==> names[k] in r.ids && r.ids[names[k]] == k)
      && forall name :: name in r.ids ==> name in names
  {
    if names != [] {
      var front, last := names[..|names| - 1], names[|names| - 1];
      NamesGetQueuesInOrder(max, front);
      assert Registrations(names)[..|Registrations(names)| - 1] == Registrations(front);
      NextName(Run(max, Registrations(front)), max, front, last);
      assert names == front + [last];
    }
  }

  lemma NextName(r: Registry, max: nat, front: seq<string>, last: string)
    requires |front| < max && last !in front && r.queues == |r.ids| == |front|
    requires forall k :: 0 <= k < |front| ==> front[k] in r.ids && r.ids[front[k]] == k
    requires forall name :: name in r.ids ==> name in front
    ensures var r', names := AddName(r, max, last), front + [last];
      && r'.queues == |r'.ids| == |names|
      && (forall k :: 0 <= k < |names| ==> names[k] in r'.ids && r'.ids[names[k]] == k)
      && forall name :: name in r'.ids ==> name in names
  {
    SizeAfterAdd(r.ids, last, |r.ids|);
    assert forall k :: 0 <= k < |front| ==> front[k] in front;
  }

  lemma {:induction false} BijectionWithoutRemoval(max: nat, ops: seq<Op>)
    requires NoRemovalSinceReset(ops)
    ensures var r := Run(max, ops); Bijective(r) && r.queues <= max
  {
    AlwaysSafe(max, ops);
    if ops != [] {
      var before, last := ops[..|ops| - 1], ops[|ops| - 1];
      if !last.Reset? {
        BijectionWithoutRemoval(max, before);
        RegisterKeepsBijection(Run(max, before), max, last.name);
      }
    }
  }

  // ---- Removal breaks the correspondence: exactly when ----

  /** The name leads to the same queue as another one. */
  ghost predicate Shares(ids: map<string, nat>, name: string) {
    name in ids && exists other :: other in ids && other != name && ids[other] == ids[name]
  }

  /**
    In whatever registry, a newcomer shares a queue with another name exactly as follows: when it gets a new id, if that
    id, the map's size, is in use already; when it takes the free slot, if that slot was shared; and never when refused.
   */
  lemma RegisterSharesQueueIff(r: Registry, max: nat, name: string)
    requires name !in r.ids
    ensures Shares(AddName(r, max, name).ids, name) <==>
      match Decide(r, max, name)
      case NewQueue => |r.ids| in r.ids.Values
      case TakesSlot(_) => Shares(r.ids, EMPTY_SLOT)
      case Refused => false
    ensures Injective(r.ids) ==> (Injective(AddName(r, max, name).ids) <==> !Shares(AddName(r, max, name).ids, name))
  {
    match Decide(r, max, name)
    case NewQueue =>
      NewIdShares(r.ids, name, |r.ids|);
      if Injective(r.ids) && |r.ids| !in r.ids.Values {
        NewQueueKeepsInjection(r.ids, name, |r.ids|);
      }
    case TakesSlot(id) =>
      SlotShares(r.ids, name);
      if Injective(r.ids) {
        TakeoverKeepsValues(r.ids, name);
      }
    case Refused =>
  }

  lemma NewIdShares(ids: map<string, nat>, name: string, id: nat)
    requires name !in ids
    ensures Shares(ids[name := id], name) <==> id in ids.Values
  {
    if id in ids.Values {
      var other :| other in ids && ids[other] == id;
      assert ids[name := id][other] == id;
    }
    if Shares(ids[name := id], name) {
      var other :| other in ids[name := id] && other != name && ids[name := id][other] == id;
      assert ids[other] == id;
    }
  }

  lemma SlotShares(ids: map<string, nat>, name: string)
    requires name !in ids && EMPTY_SLOT in ids
    ensures Shares(ids[name := ids[EMPTY_SLOT]] - {EMPTY_SLOT}, name) <==> Shares(ids, EMPTY_SLOT)
  {
    var ids' := ids[name := ids[EMPTY_SLOT]] - {EMPTY_SLOT};
    if Shares(ids, EMPTY_SLOT) {
      var other :| other in ids && other != EMPTY_SLOT && ids[other] == ids[EMPTY_SLOT];
      assert other in ids' && ids'[other] == ids'[name];
    }
    if Shares(ids', name) {
      var other :| other in ids' && other != name && ids'[other] == ids'[name];
      assert other in ids && ids[other] == ids[EMPTY_SLOT];
    }
  }

  /**
    In whatever registry, when one name leaves and a newcomer, or the same name again, registers, that one shares a queue
    exactly when some other name leads to the queue whose id is the number of names but one. In a one-to-one registry
    that means that queues are still distinct exactly when the last one was left.
   */
  lemma RemoveThenRegister(r: Registry, max: nat, left: string, name: string)
    requires |r.ids| <= max && left in r.ids && (name !in r.ids || name == left)
    ensures var r' := AddName(DropName(r, left), max, name);
      && name in r'.ids && r'.ids[name] == |r.ids| - 1
      && (Shares(r'.ids, name) <==> exists other :: other in r.ids && other != left && r.ids[other] == |r.ids| - 1)
      && (Bijective(r) ==> (Injective(r'.ids) <==> r.ids[left] == r.queues - 1))
  {
    var mid, id := DropName(r, left), |r.ids| - 1;
    SizeAfterRemove(r.ids, left);
    NewIdShares(mid.ids, name, id);
    if id in mid.ids.Values {
      var other :| other in mid.ids && mid.ids[other] == id;
      assert other in r.ids && other != left && r.ids[other] == id;
    }
    if other :| other in r.ids && other != left && r.ids[other] == id {
      assert mid.ids[other] == id;
    }
    if Bijective(r) {
      LastQueueOnly(r, left, name);
    }
  }

  lemma LastQueueOnly(r: Registry, left: string, name: string)
    requires Bijective(r) && left in r.ids && (name !in r.ids || name == left)
    ensures Injective((r.ids - {left})[name := r.queues - 1]) <==> r.ids[left] == r.queues - 1
  {
    var rest, next := r.ids - {left}, r.queues - 1;
    if r.ids[left] == next {
      forall n | n in rest ensures rest[n] != next {}
      NewQueueKeepsInjection(rest, name, next);
    } else {
      assert next in r.ids.Values;
      var n :| n in r.ids && r.ids[n] == next;
      assert rest[name := next][n] == rest[name := next][name];
    }
  }

  lemma TwoNames(max: nat, a: string, b: string)
    requires max >= 2 && a != b
    ensures AddName(AddName(Registry(map[], 0), max, a), max, b) == Registry(map[a := 0, b := 1], 2)
  {
    assert |map[a := 0]| == 1;
  }

  lemma SecondQueueIsShared(max: nat, a: string, b: string, d: string)
    requires max >= 2 && a != b && a != d && b != d
    ensures AddName(DropName(Registry(map[a := 0, b := 1], 2), a), max, d) == Registry(map[b := 1, d := 1], 3)
  {
    assert map[a := 0, b := 1] - {a} == map[b := 1];
    assert |map[b := 1]| == 1;
  }

  /** One such trace: the first of two feeders leaves, a third one joins, and gets the queue of the second. */
  lemma SharedQueueTrace(max: nat, a: string, b: string, d: string)
    requires max >= 2 && a != b && a != d && b != d
    ensures var r := Run(max, [Register(a), Register(b), Remove(a), Register(d)]);
      r == Registry(map[b := 1, d := 1], 3) && Shares(r.ids, d)
  {
    RunTwo(max, [], Register(a), Register(b));
    RunTwo(max, [Register(a), Register(b)], Remove(a), Register(d));
    assert [] + [Register(a), Register(b)] == [Register(a), Register(b)];
    assert [Register(a), Register(b)] + [Remove(a), Register(d)] == [Register(a), Register(b), Remove(a), Register(d)];
    TwoNames(max, a, b);
    SecondQueueIsShared(max, a, b, d);
    assert map[b := 1, d := 1][b] == map[b := 1, d := 1][d];
  }

  lemma SlotIsTaken(b: string, d: string)
    requires b != EMPTY_SLOT && d != EMPTY_SLOT && b != d
    ensures AddName(Registry(map[b := 1, EMPTY_SLOT := 1], 3), 2, d) == Registry(map[b := 1, d := 1], 3)
  {
    assert map[b := 1, EMPTY_SLOT := 1] == map[b := 1][EMPTY_SLOT := 1];
    SizeAfterAdd(map[b := 1], EMPTY_SLOT, 1);
    assert |map[b := 1]| == 1;
    assert map[b := 1, EMPTY_SLOT := 1][d := 1] - {EMPTY_SLOT} == map[b := 1, d := 1];
  }

  /** A newcomer that takes the free slot can share a queue, too, when the slot was registered after a removal. */
  lemma SharedSlotTrace(a: string, b: string, d: string)
    requires a != b && a != d && b != d && EMPTY_SLOT != a && EMPTY_SLOT != b && EMPTY_SLOT != d
    ensures var before := [Register(a), Register(b), Remove(a), Register(EMPTY_SLOT)];
      && Decide(Run(2, before), 2, d) == TakesSlot(1)
      && Run(2, before + [Register(d)]) == Registry(map[b := 1, d := 1], 3)
  {
    var before := [Register(a), Register(b), Remove(a), Register(EMPTY_SLOT)];
    SharedQueueTrace(2, a, b, EMPTY_SLOT);
    RunExtend(2, before, [Register(d)]);
    SlotIsTaken(b, d);
  }

  // ---- How many queues there are ----

  /** How many registered names were removed since the last reset. */
  function RemovalsSinceReset(max: nat, ops: seq<Op>): nat {
    if ops == [] || ops[|ops| - 1].Reset? then 0
    else
      var before, last := ops[..|ops| - 1], ops[|ops| - 1];
      RemovalsSinceReset(max, before) + if last.Remove? && last.name in Run(max, before).ids then 1 else 0
  }

  /** What an operation does to the number of queues, given the number of names before and after. */
  lemma QueuesStep(r: Registry, max: nat, op: Op)
    requires !op.Reset?
    ensures var r' := Apply(r, max, op);
      r'.queues - |r'.ids| == r.queues - |r.ids| + if op.Remove? && op.name in r.ids then 1 else 0
  {
    match op
    case Remove(name) => SizeAfterRemove(r.ids, name);
    case Register(name) =>
      match Decide(r, max, name)
      case NewQueue => SizeAfterAdd(r.ids, name, |r.ids|);
      case TakesSlot(id) =>
        SizeAfterAdd(r.ids, name, id);
        SizeAfterRemove(r.ids[name := id], EMPTY_SLOT);
      case Refused =>
  }

  /** On every run there is one queue for each name and one for each name removed since the last reset. */
  lemma {:induction false} QueuesOfRun(max: nat, ops: seq<Op>)
    ensures Run(max, ops).queues == |Run(max, ops).ids| + RemovalsSinceReset(max, ops)
  {
    if ops != [] && !ops[|ops| - 1].Reset? {
      QueuesOfRun(max, ops[..|ops| - 1]);
      QueuesStep(Run(max, ops[..|ops| - 1]), max, ops[|ops| - 1]);
    }
  }

  /** The vector of queues stays within the maximum exactly as long as there is room for the names that left. */
  lemma MaximumKeptIff(max: nat, ops: seq<Op>)
    ensures Run(max, ops).queues <= max <==> RemovalsSinceReset(max, ops) <= max - |Run(max, ops).ids|
  {
    QueuesOfRun(max, ops);
  }

  /** Every leave-and-join makes the vector of queues grow by one, however many there are already. */
  lemma RemovalOutgrowsMaximum(max: nat, left: string, name: string, r: Registry)
    requires |r.ids| <= max && left in r.ids && (name !in r.ids || name == left)
    ensures var r' := AddName(DropName(r, left), max, name);
      r'.queues == r.queues + 1 && |r'.ids| == |r.ids| && name in r'.ids
  {
    SizeAfterRemove(r.ids, left);
    SizeAfterAdd(r.ids - {left}, name, |r.ids| - 1);
  }

  /** The trace followed by a feeder that leaves and registers again k times. */
  function Reconnecting(ops: seq<Op>, name: string, k: nat): seq<Op> {
    if k == 0 then ops else Reconnecting(ops, name, k - 1) + [Remove(name), Register(name)]
  }

  /** The name is registered at the end of the trace, and there are this many queues. */
  ghost predicate Reaches(max: nat, ops: seq<Op>, name: string, queues: nat) {
    var r := Run(max, ops);
    name in r.ids && r.queues == queues
  }

  lemma ReconnectOnce(max: nat, ops: seq<Op>, name: string, queues: nat)
    requires Reaches(max, ops, name, queues)
    ensures Reaches(max, ops + [Remove(name), Register(name)], name, queues + 1)
  {
    AlwaysSafe(max, ops);
    RunTwo(max, ops, Remove(name), Register(name));
    RemovalOutgrowsMaximum(max, name, name, Run(max, ops));
  }

  /** So one feeder that keeps reconnecting makes the vector grow without bound. */
  lemma {:induction false} ReconnectingGrows(max: nat, ops: seq<Op>, name: string, k: nat, queues: nat)
    requires Reaches(max, ops, name, queues)
    ensures Reaches(max, Reconnecting(ops, name, k), name, queues + k)
  {
    if k > 0 {
      ReconnectingGrows(max, ops, name, k - 1, queues);
      ReconnectOnce(max, Reconnecting(ops, name, k - 1), name, queues + k - 1);
    }
  }
}
