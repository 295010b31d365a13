/**
  The simple specification that both models of the data manager refine: one append-only log of
  the items that were broadcast, the items each input queue still holds, and one cursor into the
  log for each output queue. `starts[j]` is where the cursor of output queue `j` began.
 */
module Channels {

  /** An item of the log, labelled with the input queue it came through. */
  datatype Item<T> = Item(source: nat, value: T)

  datatype Channel<T> = Channel(pending: seq<seq<T>>, log: seq<Item<T>>, starts: seq<nat>, cursors: seq<nat>)

  datatype Event<T> =
    | Push(i: nat, x: T)  // x enters input queue i
    | Flush(i: nat)       // everything in input queue i is appended to the log
    | Read(j: nat, n: nat) // output queue j hands its next n items to a consumer
    | AddInput
    | AddOutput

  /** A channel with the given numbers of empty input and output queues. */
  function Fresh<T>(inputs: nat, outputs: nat): Channel<T> {
    Channel(seq(inputs, _ => []), [], seq(outputs, _ => 0), seq(outputs, _ => 0))
  }

  // ---- Sequences ----

  lemma Assoc<T>(a: seq<T>, b: seq<T>, c: seq<T>)
    ensures a + (b + c) == a + b + c
  {
  }

  lemma LastApart<T>(a: seq<T>, b: seq<T>)
    requires b != []
    ensures a + b == a + b[..|b| - 1] + [b[|b| - 1]]
  {
  }

  // ---- Items and their projections ----

  function Values<T>(items: seq<Item<T>>): (vs: seq<T>)
    ensures |vs| == |items|
    ensures forall k :: 0 <= k < |items| ==> vs[k] == items[k].value
  {
    seq(|items|, k requires 0 <= k < |items| => items[k].value)
  }

  /** The values that came through input queue i, in log order. */
  function From<T>(items: seq<Item<T>>, i: nat): seq<T> {
    if items == [] then []
    else
      var last := items[|items| - 1];
      From(items[..|items| - 1], i) + if last.source == i then [last.value] else []
  }

  function Tag<T>(i: nat, vs: seq<T>): (items: seq<Item<T>>)
    ensures |items| == |vs|
    ensures forall k :: 0 <= k < |vs| ==> items[k] == Item(i, vs[k])
  {
    seq(|vs|, k requires 0 <= k < |vs| => Item(i, vs[k]))
  }

  lemma ValuesConcat<T>(a: seq<Item<T>>, b: seq<Item<T>>)
    ensures Values(a + b) == Values(a) + Values(b)
  {
  }

  lemma {:induction false} FromConcat<T>(a: seq<Item<T>>, b: seq<Item<T>>, i: nat)
    ensures From(a + b, i) == From(a, i) + From(b, i)
  {
    if b == [] {
      assert a + b == a;
    } else {
      var front := b[..|b| - 1];
      assert (a + b)[..|a + b| - 1] == a + front;
      FromConcat(a, front, i);
    }
  }

  lemma {:induction false} FromTag<T>(i: nat, vs: seq<T>, k: nat)
    ensures From(Tag(i, vs), k) == if k == i then vs else []
  {
    if vs != [] {
      var front := vs[..|vs| - 1];
      assert Tag(i, vs)[..|vs| - 1] == Tag(i, front);
      FromTag(i, front, k);
      assert vs == front + [vs[|vs| - 1]];
    }
  }

  // ---- Events and runs; an event that is not enabled changes nothing ----

  predicate Enabled<T>(c: Channel<T>, e: Event<T>) {
    match e
    case Push(i, _) => i < |c.pending|
    case Flush(i) => i < |c.pending| && |c.cursors| > 0
    case Read(j, n) => j < |c.cursors| && c.cursors[j] + n <= |c.log|
    case AddInput => true
    case AddOutput => true
  }

  function Apply<T>(c: Channel<T>, e: Event<T>): Channel<T> {
    if !Enabled(c, e) then c else
    match e
    case Push(i, x) => c.(pending := c.pending[i := c.pending[i] + [x]])
    case Flush(i) => c.(pending := c.pending[i := []], log := c.log + Tag(i, c.pending[i]))
    case Read(j, n) => c.(cursors := c.cursors[j := c.cursors[j] + n])
    case AddInput => c.(pending := c.pending + [[]])
    case AddOutput => c.(starts := c.starts + [|c.log|], cursors := c.cursors + [|c.log|])
  }

  function Exec<T>(c: Channel<T>, es: seq<Event<T>>): Channel<T> {
    if es == [] then c else Apply(Exec(c, es[..|es| - 1]), es[|es| - 1])
  }

  /** Every event of the run is enabled when its turn comes. */
  predicate Legal<T>(c: Channel<T>, es: seq<Event<T>>) {
    es == [] || (Legal(c, es[..|es| - 1]) && Enabled(Exec(c, es[..|es| - 1]), es[|es| - 1]))
  }

  /** What the run from c pushed into input queue i, in order. */
  function Pushed<T>(c: Channel<T>, es: seq<Event<T>>, i: nat): seq<T> {
    if es == [] then []
    else
      var before := es[..|es| - 1];
      var e := es[|es| - 1];
      Pushed(c, before, i) + if e.Push? && e.i == i && Enabled(Exec(c, before), e) then [e.x] else []
  }

  /** What the reads of the run from c took out of output queue j, in order. */
  function Received<T>(c: Channel<T>, es: seq<Event<T>>, j: nat): seq<T> {
    if es == [] then []
    else
      var before := es[..|es| - 1];
      var e := es[|es| - 1];
      var was := Exec(c, before);
      Received(c, before, j) +
      if e.Read? && e.j == j && Enabled(was, e) then Values(was.log[was.cursors[j]..was.cursors[j] + e.n]) else []
  }

  lemma ExecSnoc<T>(c: Channel<T>, es: seq<Event<T>>, e: Event<T>)
    ensures Exec(c, es + [e]) == Apply(Exec(c, es), e)
    ensures Legal(c, es + [e]) == (Legal(c, es) && Enabled(Exec(c, es), e))
    ensures forall i: nat ::
      Pushed(c, es + [e], i) == Pushed(c, es, i) + if e.Push? && e.i == i && Enabled(Exec(c, es), e) then [e.x] else []
  {
    assert (es + [e])[..|es + [e]| - 1] == es;
  }

  lemma ExecOne<T>(c: Channel<T>, e: Event<T>)
    ensures Exec(c, [e]) == Apply(c, e)
  {
    assert [e][..0] == [];
  }

  lemma {:induction false} ExecConcat<T>(c: Channel<T>, a: seq<Event<T>>, b: seq<Event<T>>)
    ensures Exec(c, a + b) == Exec(Exec(c, a), b)
  {
    if b == [] {
      assert a + b == a;
    } else {
      var front := b[..|b| - 1];
      assert (a + b)[..|a + b| - 1] == a + front;
      ExecConcat(c, a, front);
    }
  }

  // ---- What every run keeps ----

  ghost predicate Valid<T>(c: Channel<T>) {
    && |c.starts| == |c.cursors|
    && forall j :: 0 <= j < |c.cursors| ==> c.starts[j] <= c.cursors[j] <= |c.log|
  }

  lemma {:induction false} ValidExec<T>(c: Channel<T>, es: seq<Event<T>>)
    requires Valid(c)
    ensures Valid(Exec(c, es))
  {
    if es != [] {
      ValidExec(c, es[..|es| - 1]);
    }
  }

  /** The log only grows, and cursors and numbers of queues never go back. */
  lemma {:induction false} Monotone<T>(c: Channel<T>, es: seq<Event<T>>)
    requires Valid(c)
    ensures c.log <= Exec(c, es).log
    ensures |c.pending| <= |Exec(c, es).pending| && |c.cursors| <= |Exec(c, es).cursors|
    ensures Valid(Exec(c, es)) && c.starts <= Exec(c, es).starts
    ensures forall j :: 0 <= j < |c.cursors| ==> c.cursors[j] <= Exec(c, es).cursors[j]
  {
    if es != [] {
      Monotone(c, es[..|es| - 1]);
    }
  }

  /** Only a read of output queue j moves its cursor. */
  lemma {:induction false} OnlyReadsMove<T>(c: Channel<T>, es: seq<Event<T>>, j: nat)
    requires Valid(c) && j < |c.cursors|
    requires forall k :: 0 <= k < |es| ==> !(es[k].Read? && es[k].j == j)
    ensures Valid(Exec(c, es)) && j < |Exec(c, es).cursors| && Exec(c, es).cursors[j] == c.cursors[j]
    ensures c.log <= Exec(c, es).log
  {
    Monotone(c, es);
    if es != [] {
      OnlyReadsMove(c, es[..|es| - 1], j);
    }
  }

  /** Exactly once and in order on the way in: what was pushed is what the log took, then what is pending. */
  lemma {:induction false} PushedIsLoggedOrPending<T>(inputs: nat, outputs: nat, es: seq<Event<T>>, i: nat)
    ensures var c0 := Fresh(inputs, outputs);
      var c := Exec(c0, es);
      Pushed(c0, es, i) == From(c.log, i) + if i < |c.pending| then c.pending[i] else []
  {
    var c0 := Fresh<T>(inputs, outputs);
    if es != [] {
      var before, e := es[..|es| - 1], es[|es| - 1];
      PushedIsLoggedOrPending<T>(inputs, outputs, before, i);
      var was := Exec(c0, before);
      if Enabled(was, e) && e.Flush? {
        FromConcat(was.log, Tag(e.i, was.pending[e.i]), i);
        FromTag(e.i, was.pending[e.i], i);
      }
    }
  }

  /** The window of the log that consumer j has read. */
  ghost function Window<T>(c: Channel<T>, j: nat): seq<T>
    requires Valid(c)
  {
    if j < |c.cursors| then Values(c.log[c.starts[j]..c.cursors[j]]) else []
  }

  /** What was read, then what is still to be read, is the log from where the reader started. */
  lemma WindowAndRest<T>(c: Channel<T>, j: nat)
    requires Valid(c) && j < |c.cursors|
    ensures Window(c, j) + Values(c.log[c.cursors[j]..]) == Values(c.log[c.starts[j]..])
  {
    var lo, hi := c.starts[j], c.cursors[j];
    assert c.log[lo..] == c.log[lo..hi] + c.log[hi..];
    ValuesConcat(c.log[lo..hi], c.log[hi..]);
  }

  lemma WindowStep<T>(c: Channel<T>, e: Event<T>, j: nat)
    requires Valid(c)
    ensures Valid(Apply(c, e))
    ensures Window(Apply(c, e), j) == Window(c, j) +
      if e.Read? && e.j == j && Enabled(c, e) then Values(c.log[c.cursors[j]..c.cursors[j] + e.n]) else []
  {
    var c' := Apply(c, e);
    if j < |c.cursors| {
      var lo, hi := c.starts[j], c.cursors[j];
      assert c'.log[lo..hi] == c.log[lo..hi];
      if e.Read? && e.j == j && Enabled(c, e) {
        assert c'.log[lo..hi + e.n] == c.log[lo..hi] + c.log[hi..hi + e.n];
        ValuesConcat(c.log[lo..hi], c.log[hi..hi + e.n]);
      }
    }
  }

  /** Exactly once and in order on the way out: a consumer has received one gapless window of the log. */
  lemma {:induction false} ReceivedIsWindow<T>(inputs: nat, outputs: nat, es: seq<Event<T>>, j: nat)
    ensures var c0 := Fresh(inputs, outputs);
      Valid(Exec(c0, es)) && Received(c0, es, j) == Window(Exec(c0, es), j)
  {
    if es != [] {
      var before := es[..|es| - 1];
      ReceivedIsWindow<T>(inputs, outputs, before, j);
      WindowStep(Exec(Fresh<T>(inputs, outputs), before), es[|es| - 1], j);
    }
  }

  /** What a consumer has received, then what its output queue still holds, is the log from where the consumer started. */
  lemma ReceivedAndRest<T>(inputs: nat, outputs: nat, es: seq<Event<T>>, j: nat)
    requires j < |Exec(Fresh<T>(inputs, outputs), es).cursors|
    ensures var c0 := Fresh(inputs, outputs);
      var c := Exec(c0, es);
      && Valid(c) && j < |Views(c)|
      && Received(c0, es, j) + Views(c)[j] == Values(c.log[c.starts[j]..])
  {
    ReceivedIsWindow<T>(inputs, outputs, es, j);
    WindowAndRest(Exec(Fresh<T>(inputs, outputs), es), j);
  }

  /** Total order: wherever the windows of two consumers overlap, they received the same values. */
  lemma ConsumersAgree<T>(inputs: nat, outputs: nat, es: seq<Event<T>>, j: nat, k: nat, p: nat)
    requires var c := Exec(Fresh<T>(inputs, outputs), es);
      && Valid(c) && j < |c.cursors| && k < |c.cursors|
      && c.starts[j] <= p < c.cursors[j] && c.starts[k] <= p < c.cursors[k]
    ensures var c0 := Fresh(inputs, outputs);
      var c := Exec(c0, es);
      && p - c.starts[j] < |Received(c0, es, j)| && p - c.starts[k] < |Received(c0, es, k)|
      && Received(c0, es, j)[p - c.starts[j]] == Received(c0, es, k)[p - c.starts[k]] == c.log[p].value
  {
    ReceivedIsWindow<T>(inputs, outputs, es, j);
    ReceivedIsWindow<T>(inputs, outputs, es, k);
  }

  /** Nothing is logged, so nothing is taken from the input queues, while there is no output queue. */
  lemma {:induction false} NoOutputNoLog<T>(inputs: nat, es: seq<Event<T>>)
    ensures var c := Exec(Fresh(inputs, 0), es); |c.cursors| == 0 ==> c.log == []
  {
    if es != [] {
      NoOutputNoLog(inputs, es[..|es| - 1]);
    }
  }

  // ---- What the output queues hold ----

  /** What each output queue holds: the log from its cursor on. */
  ghost function Views<T>(c: Channel<T>): (views: seq<seq<T>>)
    requires Valid(c)
    ensures |views| == |c.cursors|
    ensures forall j :: 0 <= j < |views| ==> views[j] == Values(c.log[c.cursors[j]..])
  {
    seq(|c.cursors|, j requires 0 <= j < |c.cursors| => Values(c.log[c.cursors[j]..]))
  }

  /** A flush hands every output queue the same batch; flushing an empty queue changes nothing. */
  lemma FlushViews<T>(c: Channel<T>, i: nat)
    requires Valid(c) && i < |c.pending| && |c.cursors| > 0
    ensures var c' := Apply(c, Flush(i));
      && Valid(c') && |Views(c')| == |Views(c)|
      && (forall j :: 0 <= j < |Views(c)| ==> Views(c')[j] == Views(c)[j] + c.pending[i])
      && (c.pending[i] == [] ==> c' == c)
  {
    var batch := Tag(i, c.pending[i]);
    assert Values(batch) == c.pending[i];
    forall j | 0 <= j < |c.cursors|
      ensures Values((c.log + batch)[c.cursors[j]..]) == Values(c.log[c.cursors[j]..]) + c.pending[i]
    {
      assert (c.log + batch)[c.cursors[j]..] == c.log[c.cursors[j]..] + batch;
      ValuesConcat(c.log[c.cursors[j]..], batch);
    }
    if c.pending[i] == [] {
      assert c.pending[i := []] == c.pending && c.log + batch == c.log;
    }
  }

  /** Reading a whole output queue empties that queue only. */
  lemma ReadAllViews<T>(c: Channel<T>, j: nat)
    requires Valid(c) && j < |c.cursors|
    ensures var c' := Apply(c, Read(j, |Views(c)[j]|));
      && Valid(c') && Views(c') == Views(c)[j := []] && c'.pending == c.pending
      && (Views(c)[j] == [] ==> c' == c)
  {
  }

  lemma AddOutputViews<T>(c: Channel<T>)
    requires Valid(c)
    ensures var c' := Apply(c, AddOutput); Valid(c') && Views(c') == Views(c) + [[]] && c'.pending == c.pending
  {
    assert Values(c.log[|c.log|..]) == [];
  }

  // ---- A whole pass of flushes ----

  /** One pass over the first n input queues, when there is someone to broadcast to. */
  function FlushAll<T>(n: nat): (es: seq<Event<T>>)
    ensures |es| == n && forall k :: 0 <= k < n ==> es[k] == Flush(k)
  {
    if n == 0 then [] else FlushAll(n - 1) + [Flush(n - 1)]
  }

  /** The items of several queues laid end to end, each labelled with its queue. */
  function TagAll<T>(queues: seq<seq<T>>): seq<Item<T>> {
    if queues == [] then []
    else TagAll(queues[..|queues| - 1]) + Tag(|queues| - 1, queues[|queues| - 1])
  }

  function Concat<T>(queues: seq<seq<T>>): seq<T> {
    if queues == [] then [] else Concat(queues[..|queues| - 1]) + queues[|queues| - 1]
  }

  lemma {:induction false} ValuesTagAll<T>(queues: seq<seq<T>>)
    ensures Values(TagAll(queues)) == Concat(queues)
  {
    if queues != [] {
      var n := |queues| - 1;
      ValuesTagAll(queues[..n]);
      ValuesConcat(TagAll(queues[..n]), Tag(n, queues[n]));
      assert Values(Tag(n, queues[n])) == queues[n];
    }
  }

  lemma {:induction false} FlushAllEffect<T>(c: Channel<T>, n: nat)
    requires n <= |c.pending| && |c.cursors| > 0
    ensures Exec(c, FlushAll(n)) ==
      c.(pending := seq(n, _ => []) + c.pending[n..], log := c.log + TagAll(c.pending[..n]))
  {
    if n == 0 {
      assert seq(n, _ => []) + c.pending[n..] == c.pending;
      assert c.log + TagAll(c.pending[..n]) == c.log;
    } else {
      FlushAllEffect(c, n - 1);
      ExecSnoc(c, FlushAll(n - 1), Flush(n - 1));
      var mid := Exec(c, FlushAll(n - 1));
      assert mid.pending[n - 1] == c.pending[n - 1];
      assert c.pending[..n][..n - 1] == c.pending[..n - 1];
      assert mid.pending[n - 1 := []] == seq(n, _ => []) + c.pending[n..];
    }
  }

  /** The views after a pass: every output queue has gained all that was pending, queue by queue. */
  lemma PassViews<T>(c: Channel<T>)
    requires Valid(c) && |c.cursors| > 0
    ensures var c' := Exec(c, FlushAll(|c.pending|));
      && Valid(c') && |Views(c')| == |Views(c)|
      && c'.pending == seq(|c.pending|, _ => [])
      && forall j :: 0 <= j < |Views(c)| ==> Views(c')[j] == Views(c)[j] + Concat(c.pending)
  {
    var n := |c.pending|;
    FlushAllEffect(c, n);
    assert c.pending[..n] == c.pending;
    assert seq(n, _ => []) + c.pending[n..] == seq<seq<T>>(n, _ => []);
    var batch := TagAll(c.pending);
    ValuesTagAll(c.pending);
    forall j | 0 <= j < |c.cursors|
      ensures Values((c.log + batch)[c.cursors[j]..]) == Values(c.log[c.cursors[j]..]) + Concat(c.pending)
    {
      assert (c.log + batch)[c.cursors[j]..] == c.log[c.cursors[j]..] + batch;
      ValuesConcat(c.log[c.cursors[j]..], batch);
    }
  }

  lemma {:induction false} FromTagAll<T>(queues: seq<seq<T>>, i: nat)
    ensures From(TagAll(queues), i) == if i < |queues| then queues[i] else []
  {
    if queues != [] {
      var n := |queues| - 1;
      FromTagAll(queues[..n], i);
      FromConcat(TagAll(queues[..n]), Tag(n, queues[n]), i);
      FromTag(n, queues[n], i);
    }
  }
}
