/**
  From the bytes a TCP node reads to the file a consumer writes: the parts put together for one run of the
  data manager in which the node and the consumer are registered under names of their own.
 */
module EndToEnd {
  import opened Channels
  import opened DataManagement
  import opened Consumers
  import opened TcpServers
  import R = Registry
  import S = ManagerSpec

  // ---- What the server pushes ----

  /** What a trace pushes under a name, in order. */
  function PushesBy<T>(ops: seq<S.Op<T>>, name: string): seq<T> {
    if ops == [] then []
    else
      var last := ops[|ops| - 1];
      PushesBy(ops[..|ops| - 1], name) + if last.Push? && last.name == name then [last.x] else []
  }

  function Texts(ms: seq<Message>): seq<string> {
    if ms == [] then [] else Texts(ms[..|ms| - 1]) + [ms[|ms| - 1].text]
  }

  /** The pushes of these messages as operations of the data manager. */
  function PushOps(name: string, ms: seq<Message>): seq<S.Op<string>> {
    if ms == [] then [] else PushOps(name, ms[..|ms| - 1]) + [S.Push(name, ms[|ms| - 1].text)]
  }

  /** What the server object does to the data manager is what these operations do. */
  lemma {:induction false} ServerPushesAreOps(m: S.Manager<string>, name: string, ms: seq<Message>)
    ensures PushAll(m, name, ms) == S.ExecOps(m, PushOps(name, ms))
    ensures PushesBy(PushOps(name, ms), name) == Texts(ms)
  {
    if ms != [] {
      var front, push := ms[..|ms| - 1], S.Op<string>.Push(name, ms[|ms| - 1].text);
      ServerPushesAreOps(m, name, front);
      S.ExecOpsSnoc(m, PushOps(name, front), push);
      assert PushOps(name, ms)[..|PushOps(name, ms)| - 1] == PushOps(name, front);
    }
  }

  lemma {:induction false} PushOpsConcat(name: string, a: seq<Message>, b: seq<Message>)
    ensures PushOps(name, a + b) == PushOps(name, a) + PushOps(name, b)
    decreases |b|
  {
    if b == [] {
      assert a + b == a;
    } else {
      assert (a + b)[..|a + b| - 1] == a + b[..|b| - 1];
      PushOpsConcat(name, a, b[..|b| - 1]);
      Assoc(PushOps(name, a), PushOps(name, b[..|b| - 1]), [S.Op<string>.Push(name, b[|b| - 1].text)]);
    }
  }

  /** What the rounds of a server do to the data manager, in order. */
  function ServerOps(name: string, rounds: seq<Round>): seq<S.Op<string>> {
    if rounds == [] then []
    else
      var before, r := rounds[..|rounds| - 1], rounds[|rounds| - 1];
      ServerOps(name, before) + PushOps(name, PassMessages(Accept(ClientsAfter(before), r.accepted), r.answers))
  }

  lemma {:induction false} ServerOpsArePushes(name: string, rounds: seq<Round>)
    ensures ServerOps(name, rounds) == PushOps(name, AllMessages(rounds))
  {
    if rounds != [] {
      var before, r := rounds[..|rounds| - 1], rounds[|rounds| - 1];
      ServerOpsArePushes(name, before);
      PushOpsConcat(name, AllMessages(before), PassMessages(Accept(ClientsAfter(before), r.accepted), r.answers));
    }
  }

  /** The trace consists of the own operations and those of others, each in their order, mixed in any way. */
  ghost predicate Mixed<T>(trace: seq<S.Op<T>>, own: seq<S.Op<T>>, others: seq<S.Op<T>>) {
    if trace == [] then own == [] && others == []
    else
      var front, last := trace[..|trace| - 1], trace[|trace| - 1];
      || (own != [] && last == own[|own| - 1] && Mixed(front, own[..|own| - 1], others))
      || (others != [] && last == others[|others| - 1] && Mixed(front, own, others[..|others| - 1]))
  }

  predicate NoPushBy<T>(ops: seq<S.Op<T>>, name: string) {
    forall k :: 0 <= k < |ops| ==> !(ops[k].Push? && ops[k].name == name)
  }

  lemma {:induction false} MixedPushes<T>(trace: seq<S.Op<T>>, own: seq<S.Op<T>>, others: seq<S.Op<T>>, name: string)
    requires Mixed(trace, own, others) && NoPushBy(others, name)
    ensures PushesBy(trace, name) == PushesBy(own, name)
    decreases |trace|
  {
    if trace != [] {
      var front, last := trace[..|trace| - 1], trace[|trace| - 1];
      if own != [] && last == own[|own| - 1] && Mixed(front, own[..|own| - 1], others) {
        MixedPushes(front, own[..|own| - 1], others, name);
      } else {
        MixedPushes(front, own, others[..|others| - 1], name);
      }
    }
  }

  /** What a trace pushes under a server's name, among any operations of others, are the texts of its messages. */
  lemma ServerPushes(trace: seq<S.Op<string>>, others: seq<S.Op<string>>, name: string, rounds: seq<Round>)
    requires Mixed(trace, ServerOps(name, rounds), others) && NoPushBy(others, name)
    ensures PushesBy(trace, name) == Texts(AllMessages(rounds))
  {
    MixedPushes(trace, ServerOps(name, rounds), others, name);
    ServerOpsArePushes(name, rounds);
    ServerPushesAreOps(S.Init(0, 0), name, AllMessages(rounds));
  }

  /** The bytes that handling these clients reads, in order. */
  function BytesOf(cs: seq<int>, a: Answers): string {
    if cs == [] then [] else BytesOf(cs[..|cs| - 1], a) + EntryBytes(cs[|cs| - 1], a)
  }

  /** All bytes read in these rounds, in the order of the reads. */
  function AllRead(rounds: seq<Round>): string {
    if rounds == [] then []
    else
      var before, r := rounds[..|rounds| - 1], rounds[|rounds| - 1];
      var cs := Accept(ClientsAfter(before), r.accepted);
      AllRead(before) + BytesOf(cs[..Handled(cs, r.answers)], r.answers)
  }

  lemma {:induction false} ConcatConcat<T>(a: seq<seq<T>>, b: seq<seq<T>>)
    ensures Concat(a + b) == Concat(a) + Concat(b)
    decreases |b|
  {
    if b == [] {
      assert a + b == a && Concat(a) + [] == Concat(a);
    } else {
      assert (a + b)[..|a + b| - 1] == a + b[..|b| - 1];
      ConcatConcat(a, b[..|b| - 1]);
      Assoc(Concat(a), Concat(b[..|b| - 1]), b[|b| - 1]);
    }
  }

  lemma {:induction false} TextsConcat(a: seq<Message>, b: seq<Message>)
    ensures Texts(a + b) == Texts(a) + Texts(b)
    decreases |b|
  {
    if b == [] {
      assert a + b == a;
    } else {
      assert (a + b)[..|a + b| - 1] == a + b[..|b| - 1];
      TextsConcat(a, b[..|b| - 1]);
    }
  }

  lemma OneText(m: Message)
    ensures Concat(Texts([m])) == m.text
  {
    var ms, texts := [m], [m.text];
    assert ms[..|ms| - 1] == [] && Texts([]) == [];
    assert Texts(ms) == [] + texts == texts;
    assert texts[..|texts| - 1] == [] && Concat<char>([]) == [];
    assert Concat(texts) == [] + m.text == m.text;
  }

  lemma TextOfMessages(fd: int, a: Answers)
    ensures Concat(Texts(EntryMessages(fd, a))) == Strip(EntryBytes(fd, a))
  {
    if Reads(fd, a) && a.input(fd).Failed? {
      OneText(Message(fd, ""));
    } else if Reads(fd, a) && a.input(fd).data != [] {
      OneText(Message(fd, Strip(a.input(fd).data)));
    }
  }

  lemma {:induction false} TextOfPass(cs: seq<int>, a: Answers)
    ensures Concat(Texts(MessagesOf(cs, a))) == Strip(BytesOf(cs, a))
  {
    if cs != [] {
      var front, last := cs[..|cs| - 1], cs[|cs| - 1];
      TextOfPass(front, a);
      TextOfMessages(last, a);
      TextsConcat(MessagesOf(front, a), EntryMessages(last, a));
      ConcatConcat(Texts(MessagesOf(front, a)), Texts(EntryMessages(last, a)));
      StripConcat(BytesOf(front, a), EntryBytes(last, a));
    }
  }

  /** All messages of the server, end to end, are all bytes it read without the NULs. */
  lemma {:induction false} TextOfRounds(rounds: seq<Round>)
    ensures Concat(Texts(AllMessages(rounds))) == Strip(AllRead(rounds))
    ensures WithoutNuls(Concat(Texts(AllMessages(rounds))), AllRead(rounds))
  {
    StripDropsNuls(AllRead(rounds));
    if rounds != [] {
      var before, r := rounds[..|rounds| - 1], rounds[|rounds| - 1];
      var cs := Accept(ClientsAfter(before), r.accepted);
      var done := cs[..Handled(cs, r.answers)];
      TextOfRounds(before);
      TextOfPass(done, r.answers);
      TextsConcat(AllMessages(before), MessagesOf(done, r.answers));
      ConcatConcat(Texts(AllMessages(before)), Texts(MessagesOf(done, r.answers)));
      StripConcat(AllRead(before), BytesOf(done, r.answers));
    }
  }

  // ---- The server has a queue to itself ----

  /** The name leads to queue i, and no other name does. */
  ghost predicate OwnQueue<T>(m: S.Manager<T>, name: string, i: nat) {
    name in m.inIds && m.inIds[name] == i && forall other :: other in m.inIds && other != name ==> m.inIds[other] != i
  }

  /** That holds after every beginning of the operations that follow a trace, and there is no reset among them. */
  ghost predicate KeepsQueue<T>(maxIn: nat, maxOut: nat, start: seq<S.Op<T>>, ops: seq<S.Op<T>>, name: string, i: nat) {
    && S.Reset !in ops
    && forall k :: 0 <= k <= |ops| ==> OwnQueue(S.Run(maxIn, maxOut, start + ops[..k]), name, i)
  }

  /** No reset, and no feeder leaves. */
  predicate Undisturbed<T(==)>(ops: seq<S.Op<T>>) {
    forall k :: 0 <= k < |ops| ==> !ops[k].Reset? && !ops[k].RemFeeder?
  }

  /** Names and input queues correspond one to one. */
  ghost predicate OneToOne<T>(m: S.Manager<T>, name: string, i: nat) {
    name != R.EMPTY_SLOT && name in m.inIds && m.inIds[name] == i && R.Bijective(m.Feeders())
  }

  lemma OneToOneStays<T>(m: S.Manager<T>, op: S.Op<T>, name: string, i: nat)
    requires OneToOne(m, name, i) && !op.Reset? && !op.RemFeeder?
    ensures OneToOne(S.Apply(m, op), name, i)
  {
    S.RegistriesStep(m, op);
    if op.SetFeeder? {
      R.RegisterKeepsBijection(m.Feeders(), m.maxIn, op.name);
      R.RegisterKeepsOthers(m.Feeders(), m.maxIn, op.name, name);
      assert S.Apply(m, op).Feeders() == R.AddName(m.Feeders(), m.maxIn, op.name);
    } else {
      assert S.Apply(m, op).Feeders() == m.Feeders();
    }
  }

  lemma {:induction false} OneToOneRun<T>(maxIn: nat, maxOut: nat, start: seq<S.Op<T>>, ops: seq<S.Op<T>>, name: string, i: nat)
    requires OneToOne(S.Run(maxIn, maxOut, start), name, i) && Undisturbed(ops)
    ensures OneToOne(S.Run(maxIn, maxOut, start + ops), name, i)
    decreases |ops|
  {
    if ops == [] {
      assert start + ops == start;
    } else {
      var front, last := ops[..|ops| - 1], ops[|ops| - 1];
      OneToOneRun(maxIn, maxOut, start, front, name, i);
      LastApart(start, ops);
      S.ExecOpsSnoc(S.Init<T>(maxIn, maxOut), start + front, last);
      OneToOneStays(S.Run(maxIn, maxOut, start + front), last, name, i);
    }
  }

  /** As long as no feeder leaves, a queue of a one-to-one registry stays with its feeder. */
  lemma UndisturbedKeepsQueue<T>(maxIn: nat, maxOut: nat, start: seq<S.Op<T>>, ops: seq<S.Op<T>>, name: string, i: nat)
    requires OneToOne(S.Run(maxIn, maxOut, start), name, i) && Undisturbed(ops)
    ensures KeepsQueue(maxIn, maxOut, start, ops, name, i)
  {
    forall k | 0 <= k <= |ops| ensures OwnQueue(S.Run(maxIn, maxOut, start + ops[..k]), name, i) {
      OneToOneRun(maxIn, maxOut, start, ops[..k], name, i);
    }
  }

  /** After the trace the name has queue i to itself, and these values have entered it. */
  ghost predicate Fed<T>(maxIn: nat, maxOut: nat, ops: seq<S.Op<T>>, name: string, i: nat, values: seq<T>) {
    OwnQueue(S.Run(maxIn, maxOut, ops), name, i) && S.PushedInto(maxIn, maxOut, ops, i) == values
  }

  /** A push enters the queue exactly when it is a push under the name. */
  lemma OwnPush<T>(maxIn: nat, maxOut: nat, before: seq<S.Op<T>>, op: S.Op<T>, name: string, i: nat, values: seq<T>)
    requires Fed(maxIn, maxOut, before, name, i, values) && !op.Reset?
    requires OwnQueue(S.Run(maxIn, maxOut, before + [op]), name, i)
    ensures Fed(maxIn, maxOut, before + [op], name, i, values + if op.Push? && op.name == name then [op.x] else [])
  {
    assert (before + [op])[..|before + [op]| - 1] == before;
  }

  /** What enters the queue from then on is what is pushed under the name, as long as the name has the queue to itself. */
  lemma {:induction false} OwnPushes<T>(maxIn: nat, maxOut: nat, start: seq<S.Op<T>>, ops: seq<S.Op<T>>, name: string, i: nat, values: seq<T>)
    requires Fed(maxIn, maxOut, start, name, i, values) && KeepsQueue(maxIn, maxOut, start, ops, name, i)
    ensures Fed(maxIn, maxOut, start + ops, name, i, values + PushesBy(ops, name))
    decreases |ops|
  {
    if ops == [] {
      assert start + ops == start && values + PushesBy(ops, name) == values;
    } else {
      var front, last := ops[..|ops| - 1], ops[|ops| - 1];
      KeepsQueueBefore(maxIn, maxOut, start, ops, name, i);
      OwnPushes(maxIn, maxOut, start, front, name, i, values);
      LastApart(start, ops);
      OwnPush(maxIn, maxOut, start + front, last, name, i, values + PushesBy(front, name));
      Assoc(values, PushesBy(front, name), if last.Push? && last.name == name then [last.x] else []);
    }
  }

  lemma KeepsQueueBefore<T>(maxIn: nat, maxOut: nat, start: seq<S.Op<T>>, ops: seq<S.Op<T>>, name: string, i: nat)
    requires KeepsQueue(maxIn, maxOut, start, ops, name, i) && ops != []
    ensures KeepsQueue(maxIn, maxOut, start, ops[..|ops| - 1], name, i)
    ensures OwnQueue(S.Run(maxIn, maxOut, start + ops), name, i) && !ops[|ops| - 1].Reset?
  {
    var front := ops[..|ops| - 1];
    assert ops[..|ops|] == ops;
    forall k | 0 <= k <= |front| ensures OwnQueue(S.Run(maxIn, maxOut, start + front[..k]), name, i) {
      assert front[..k] == ops[..k];
    }
  }

  /** Nothing has entered a queue that does not exist yet. */
  lemma {:induction false} NothingYet<T>(maxIn: nat, maxOut: nat, ops: seq<S.Op<T>>, i: nat)
    requires i >= |S.Run(maxIn, maxOut, ops).ch.pending|
    ensures S.PushedInto(maxIn, maxOut, ops, i) == []
  {
    if ops != [] && !ops[|ops| - 1].Reset? {
      var before, op := ops[..|ops| - 1], ops[|ops| - 1];
      var m := S.Run(maxIn, maxOut, before);
      S.ChannelOfRun(maxIn, maxOut, before);
      S.NamesLeadToQueues(maxIn, maxOut, before);
      Monotone(m.ch, S.Events(m, op));
      assert S.Run(maxIn, maxOut, ops).ch == Exec(m.ch, S.Events(m, op));
      NothingYet(maxIn, maxOut, before, i);
    }
  }

  /** A server that registers in a manager that no feeder has left, and gets a new queue, has that queue to itself. */
  lemma FreshServer<T>(maxIn: nat, maxOut: nat, before: seq<S.Op<T>>, name: string)
    requires name != R.EMPTY_SLOT && R.NoRemovalSinceReset(S.FeederOps(before))
    requires R.Decide(S.Run(maxIn, maxOut, before).Feeders(), maxIn, name).NewQueue?
    ensures var start, i := before + [S.SetFeeder(name)], |S.Run(maxIn, maxOut, before).ch.pending|;
      Fed(maxIn, maxOut, start, name, i, []) && OneToOne(S.Run(maxIn, maxOut, start), name, i)
  {
    var m, op := S.Run(maxIn, maxOut, before), S.Op<T>.SetFeeder(name);
    S.RegistriesOfRun(maxIn, maxOut, before);
    R.BijectionWithoutRemoval(maxIn, S.FeederOps(before));
    NewQueueIsOwn(m, name);
    NothingYet(maxIn, maxOut, before, |m.ch.pending|);
    assert (before + [op])[..|before + [op]| - 1] == before;
  }

  lemma NewQueueIsOwn<T>(m: S.Manager<T>, name: string)
    requires name != R.EMPTY_SLOT && R.Bijective(m.Feeders()) && R.Decide(m.Feeders(), m.maxIn, name).NewQueue?
    ensures OneToOne(S.Apply(m, S.SetFeeder(name)), name, |m.ch.pending|)
  {
    R.RegisterKeepsBijection(m.Feeders(), m.maxIn, name);
    S.RegistriesStep(m, S.SetFeeder(name));
  }

  // ---- The file ----

  lemma FromUpTo<T>(log: seq<Item<T>>, lo: nat, hi: nat, i: nat)
    requires lo <= hi <= |log|
    ensures From(log[..lo], i) + From(log[lo..hi], i) <= From(log, i)
  {
    assert log == log[..lo] + log[lo..hi] + log[hi..];
    FromConcat(log[..lo] + log[lo..hi], log[hi..], i);
    FromConcat(log[..lo], log[lo..hi], i);
  }

  lemma PrefixText(a: seq<string>, b: seq<string>, all: seq<string>)
    requires a + b <= all
    ensures Concat(a) + Concat(b) <= Concat(all)
  {
    assert all == a + b + all[|a + b|..];
    ConcatConcat(a + b, all[|a + b|..]);
    ConcatConcat(a, b);
  }

  /** The trace of a run: up to the consumer's loop, and the loop among the operations of the others. */
  function Whole(start: seq<S.Op<string>>, mid: seq<S.Op<string>>, consumer: string, batches: seq<seq<Act<string>>>): seq<S.Op<string>> {
    start + (mid + Interleave(S.Pop(consumer), batches))
  }

  lemma WholeRun(maxIn: nat, maxOut: nat, start: seq<S.Op<string>>, mid: seq<S.Op<string>>, consumer: string, batches: seq<seq<Act<string>>>)
    ensures S.Run(maxIn, maxOut, Whole(start, mid, consumer, batches)) ==
      Rounds(S.Run(maxIn, maxOut, start + mid), S.Pop(consumer), batches)
  {
    var m, loop := S.Run(maxIn, maxOut, start + mid), Interleave(S.Pop(consumer), batches);
    RoundsAreOps(m, S.Pop(consumer), batches);
    Assoc(start, mid, loop);
    S.ExecOpsConcat(S.Init<string>(maxIn, maxOut), start + mid, loop);
  }

  /** What the log holds from the server's queue is a prefix of what the server read. */
  lemma LoggedFromServer(maxIn: nat, maxOut: nat, start: seq<S.Op<string>>, ops: seq<S.Op<string>>, server: string, i: nat, rounds: seq<Round>)
    requires Fed(maxIn, maxOut, start, server, i, []) && KeepsQueue(maxIn, maxOut, start, ops, server, i)
    requires PushesBy(ops, server) == Texts(AllMessages(rounds))
    ensures From(S.Run(maxIn, maxOut, start + ops).ch.log, i) <= Texts(AllMessages(rounds))
  {
    OwnPushes(maxIn, maxOut, start, ops, server, i, []);
    S.DeliveryFromFeeders(maxIn, maxOut, start + ops, i);
    FirstPart(From(S.Run(maxIn, maxOut, start + ops).ch.log, i), S.PushedInto(maxIn, maxOut, start + ops, i), PushesBy(ops, server));
  }

  lemma FirstPart<T>(logged: seq<T>, pushed: seq<T>, all: seq<T>)
    requires logged <= pushed && pushed == [] + all
    ensures logged <= all
  {
  }

  /**
    End to end, for any run in which the pushes of the server's rounds are mixed with operations of others: the file a
    consumer writes is a window of the log, and what that window holds from the server's queue, after what earlier
    consumers of the slot or earlier passes were given, is a prefix of the bytes the server read without the NULs.
    Nothing is lost, doubled, or reordered on the way. The server's queue must be fresh (as it is by FreshServer) and
    stay its own (as it does by UndisturbedKeepsQueue at least as long as no feeder leaves).
   */
  lemma FileHoldsBytesRead(maxIn: nat, maxOut: nat, start: seq<S.Op<string>>, mid: seq<S.Op<string>>, server: string, i: nat,
      consumer: string, batches: seq<seq<Act<string>>>, rounds: seq<Round>, others: seq<S.Op<string>>)
    requires Fed(maxIn, maxOut, start, server, i, [])
    requires KeepsQueue(maxIn, maxOut, start, mid + Interleave(S.Pop(consumer), batches), server, i)
    requires Mixed(mid + Interleave(S.Pop(consumer), batches), ServerOps(server, rounds), others) && NoPushBy(others, server)
    requires consumer != R.EMPTY_SLOT && consumer in S.Run(maxIn, maxOut, start + mid).outIds
    requires forall k :: 0 <= k < |batches| ==> Unrivalled(consumer, batches[k])
    ensures var m := S.Run(maxIn, maxOut, start + mid);
      var id, log := m.outIds[consumer], Rounds(m, S.Pop(consumer), batches).ch.log;
      && id < |m.ch.cursors| && id < |Rounds(m, S.Pop(consumer), batches).ch.cursors|
      && var lo, hi := m.ch.cursors[id], Rounds(m, S.Pop(consumer), batches).ch.cursors[id];
      && lo <= hi <= |log|
      && Written(m, consumer, batches) == Values(log[lo..hi])
      && Concat(From(log[..lo], i)) + Concat(From(log[lo..hi], i)) <= Strip(AllRead(rounds))
      && (lo == 0 ==> Concat(From(log[lo..hi], i)) <= Strip(AllRead(rounds)))
      && WithoutNuls(Strip(AllRead(rounds)), AllRead(rounds))
  {
    var m := S.Run(maxIn, maxOut, start + mid);
    RegisteredOfRun(maxIn, maxOut, start + mid, consumer);
    WrittenIsWindow(m, consumer, batches);
    WholeRun(maxIn, maxOut, start, mid, consumer, batches);
    ServerPushes(mid + Interleave(S.Pop(consumer), batches), others, server, rounds);
    LoggedFromServer(maxIn, maxOut, start, mid + Interleave(S.Pop(consumer), batches), server, i, rounds);
    var id := m.outIds[consumer];
    ServerWindow(Rounds(m, S.Pop(consumer), batches), m.ch.cursors[id], id, i, Texts(AllMessages(rounds)));
    TextOfRounds(rounds);
  }

  lemma ServerWindow(m: S.Manager<string>, lo: nat, id: nat, i: nat, texts: seq<string>)
    requires Valid(m.ch) && id < |m.ch.cursors| && lo <= m.ch.cursors[id] && From(m.ch.log, i) <= texts
    ensures var log, hi := m.ch.log, m.ch.cursors[id];
      && hi <= |log|
      && Concat(From(log[..lo], i)) + Concat(From(log[lo..hi], i)) <= Concat(texts)
      && (lo == 0 ==> Concat(From(log[lo..hi], i)) <= Concat(texts))
  {
    var log, hi := m.ch.log, m.ch.cursors[id];
    FromUpTo(log, lo, hi, i);
    PrefixText(From(log[..lo], i), From(log[lo..hi], i), texts);
    NothingBefore(log, i, Concat(From(log[lo..hi], i)));
  }

  lemma NothingBefore<T>(log: seq<Item<seq<T>>>, i: nat, text: seq<T>)
    ensures Concat(From(log[..0], i)) + text == text
  {
    assert log[..0] == [];
  }
}
