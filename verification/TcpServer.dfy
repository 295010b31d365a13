/**
  The TCP input node: a poll loop over a snapshot array whose bound is the live list of connected
  clients, which shrinks while the loop runs, and the filter on received bytes. What the kernel
  answers to accept, poll and read is an input.
 */
module TcpServers {
  import opened DataManagement
  import C = Channels
  import S = ManagerSpec

  const BACKLOG: nat := 50
  const MSG_MAX_SIZE: nat := 512
  const POLLIN: bv16 := 0x0001
  const POLLPRI: bv16 := 0x0002
  const POLLERR: bv16 := 0x0008
  const POLLHUP: bv16 := 0x0010
  const POLLRDHUP: bv16 := 0x2000

  datatype PollFd = PollFd(fd: int, events: bv16, revents: bv16)

  type Chunk = bytes: string | |bytes| <= MSG_MAX_SIZE

  /** The answer to a read: a failure, or up to 512 bytes, none at the end of the stream. */
  datatype Read = Failed | Bytes(data: Chunk)

  datatype Message = Message(fd: int, text: string)

  /** The answers of one round: pending events by file descriptor, and what a read returns. */
  datatype Answers = Answers(revents: int -> bv16, input: int -> Read)

  predicate HasPeerHungup(revents: bv16) {
    revents & (POLLHUP | POLLERR | POLLRDHUP) != 0
  }

  predicate HasReceivedData(revents: bv16) {
    revents & POLLIN != 0
  }

  /** Bit 3 is an error, bit 4 a hang-up, bit 13 a peer that closed its side; bit 0 is data to read. */
  lemma EventBits(revents: bv16)
    ensures HasPeerHungup(revents) <==> (revents >> 3) & 1 == 1 || (revents >> 4) & 1 == 1 || (revents >> 13) & 1 == 1
    ensures HasReceivedData(revents) <==> revents & 1 == 1
  {
  }

  // ---- Lists of clients ----

  /** The clients that are not hung up, in order. */
  function Kept(cs: seq<int>, a: Answers): seq<int> {
    if cs == [] then []
    else Kept(cs[..|cs| - 1], a) + if HasPeerHungup(a.revents(cs[|cs| - 1])) then [] else [cs[|cs| - 1]]
  }

  function Hungup(cs: seq<int>, a: Answers): nat {
    if cs == [] then 0
    else Hungup(cs[..|cs| - 1], a) + if HasPeerHungup(a.revents(cs[|cs| - 1])) then 1 else 0
  }

  function Without(cs: seq<int>, fd: int): seq<int> {
    if cs == [] then []
    else Without(cs[..|cs| - 1], fd) + if cs[|cs| - 1] == fd then [] else [cs[|cs| - 1]]
  }

  ghost predicate Distinct(cs: seq<int>) {
    forall i, j :: 0 <= i < j < |cs| ==> cs[i] != cs[j]
  }

  /** Where the loop stops, from entry i on: its index reaches what is left of the list. */
  function StopsAt(cs: seq<int>, a: Answers, i: nat): (h: nat)
    requires i <= |cs|
    ensures i <= h <= |cs|
    decreases |cs| - i
  {
    if i < |cs| - Hungup(cs[..i], a) then StopsAt(cs, a, i + 1) else i
  }

  /** How many entries a pass handles. */
  function Handled(cs: seq<int>, a: Answers): (h: nat)
    ensures h <= |cs|
  {
    StopsAt(cs, a, 0)
  }

  /** The list after a pass. */
  function AfterPass(cs: seq<int>, a: Answers): seq<int> {
    Kept(cs[..Handled(cs, a)], a) + cs[Handled(cs, a)..]
  }

  lemma {:induction false} HungupConcat(xs: seq<int>, ys: seq<int>, a: Answers)
    ensures Hungup(xs + ys, a) == Hungup(xs, a) + Hungup(ys, a)
    ensures Kept(xs + ys, a) == Kept(xs, a) + Kept(ys, a)
    decreases |ys|
  {
    if ys == [] {
      assert xs + ys == xs;
    } else {
      assert (xs + ys)[..|xs + ys| - 1] == xs + ys[..|ys| - 1];
      HungupConcat(xs, ys[..|ys| - 1], a);
    }
  }

  lemma {:induction false} KeptFacts(cs: seq<int>, a: Answers)
    ensures |Kept(cs, a)| + Hungup(cs, a) == |cs|
    ensures Hungup(Kept(cs, a), a) == 0 && Kept(Kept(cs, a), a) == Kept(cs, a)
    ensures forall fd :: fd in Kept(cs, a) <==> fd in cs && !HasPeerHungup(a.revents(fd))
  {
    if cs != [] {
      var front, last := cs[..|cs| - 1], cs[|cs| - 1];
      KeptFacts(front, a);
      assert cs == front + [last];
      HungupConcat(Kept(front, a), [last], a);
      assert [last][..0] == [];
      assert Kept(front, a) + [] == Kept(front, a);
    }
  }

  lemma {:induction false} KeptDistinct(cs: seq<int>, a: Answers)
    requires Distinct(cs)
    ensures Distinct(Kept(cs, a))
  {
    if cs != [] {
      KeptDistinct(cs[..|cs| - 1], a);
      KeptFacts(cs[..|cs| - 1], a);
    }
  }

  lemma {:induction false} WithoutConcat(xs: seq<int>, ys: seq<int>, fd: int)
    ensures Without(xs + ys, fd) == Without(xs, fd) + Without(ys, fd)
    decreases |ys|
  {
    if ys == [] {
      assert xs + ys == xs;
    } else {
      assert (xs + ys)[..|xs + ys| - 1] == xs + ys[..|ys| - 1];
      WithoutConcat(xs, ys[..|ys| - 1], fd);
    }
  }

  lemma {:induction false} WithoutAbsent(cs: seq<int>, fd: int)
    requires fd !in cs
    ensures Without(cs, fd) == cs
  {
    if cs != [] {
      WithoutAbsent(cs[..|cs| - 1], fd);
    }
  }

  // ---- The arithmetic of one pass ----

  lemma {:induction false} StopsAtLeast(cs: seq<int>, a: Answers, i: nat)
    requires i <= |cs| && (i > 0 ==> i - 1 < |cs| - Hungup(cs[..i - 1], a))
    ensures var h := StopsAt(cs, a, i);
      && h >= |cs| - Hungup(cs[..h], a)
      && (h > 0 ==> h - 1 < |cs| - Hungup(cs[..h - 1], a))
    decreases |cs| - i
  {
    if i < |cs| - Hungup(cs[..i], a) {
      StopsAtLeast(cs, a, i + 1);
    }
  }

  /**
    With n clients, h handled entries and r removals, h + r is n or n + 1; so at least half of the
    clients are handled, and r or r - 1 are left for the next pass.
   */
  lemma PassArithmetic(cs: seq<int>, a: Answers)
    ensures var n, h := |cs|, Handled(cs, a);
      var r := Hungup(cs[..h], a);
      && (h + r == n || h + r == n + 1)
      && 2 * h >= n
      && (n - h == r || n - h == r - 1)
      && |AfterPass(cs, a)| == n - r
  {
    StopsAtLeast(cs, a, 0);
    var h := Handled(cs, a);
    KeptFacts(cs[..h], a);
    if h > 0 {
      assert cs[..h][..h - 1] == cs[..h - 1];
      KeptFacts(cs[..h - 1], a);
    }
  }

  /** A pass keeps every live client, in order, and at most half of the hung-up ones stay in the list. */
  lemma PassRemovesHalf(cs: seq<int>, a: Answers)
    ensures Kept(AfterPass(cs, a), a) == Kept(cs, a)
    ensures 2 * Hungup(AfterPass(cs, a), a) <= Hungup(cs, a)
  {
    var h := Handled(cs, a);
    var done, rest := cs[..h], cs[h..];
    assert cs == done + rest;
    HungupConcat(done, rest, a);
    HungupConcat(Kept(done, a), rest, a);
    KeptFacts(done, a);
    KeptFacts(rest, a);
    PassArithmetic(cs, a);
  }

  /** The bound is met: when all n clients have hung up, n/2 of them, rounded down, survive the pass. */
  lemma AllHungup(cs: seq<int>, a: Answers)
    requires Hungup(cs, a) == |cs|
    ensures |AfterPass(cs, a)| == |cs| / 2
  {
    var h := Handled(cs, a);
    assert cs == cs[..h] + cs[h..];
    HungupConcat(cs[..h], cs[h..], a);
    KeptFacts(cs[..h], a);
    KeptFacts(cs[h..], a);
    PassArithmetic(cs, a);
  }

  lemma {:induction false} HungupBound(cs: seq<int>, a: Answers)
    ensures Hungup(cs, a) <= |cs|
  {
    if cs != [] {
      HungupBound(cs[..|cs| - 1], a);
    }
  }

  /** The hung-up clients of a list are those of its first m entries and those of the rest. */
  lemma HungupSplit(cs: seq<int>, a: Answers, m: nat)
    requires m <= |cs|
    ensures Hungup(cs, a) == Hungup(cs[..m], a) + Hungup(cs[m..], a)
  {
    assert cs == cs[..m] + cs[m..];
    HungupConcat(cs[..m], cs[m..], a);
  }

  lemma HungupOfSuffix(cs: seq<int>, a: Answers, m: nat, k: nat)
    requires m <= k <= |cs|
    ensures Hungup(cs[k..], a) <= Hungup(cs[m..], a) <= Hungup(cs[k..], a) + (k - m)
  {
    HungupSplit(cs[m..], a, k - m);
    HungupBound(cs[m..k], a);
    assert cs[m..][..k - m] == cs[m..k] && cs[m..][k - m..] == cs[k..];
  }

  /** What a pass leaves of the hung-up clients are those it does not handle. */
  lemma LeftHungup(cs: seq<int>, a: Answers)
    ensures Hungup(AfterPass(cs, a), a) == Hungup(cs[Handled(cs, a)..], a)
    ensures Hungup(cs, a) == Hungup(cs[..Handled(cs, a)], a) + Hungup(cs[Handled(cs, a)..], a)
  {
    var h := Handled(cs, a);
    HungupSplit(cs, a, h);
    HungupConcat(Kept(cs[..h], a), cs[h..], a);
    KeptFacts(cs[..h], a);
  }

  /** A pass handles every client exactly when nobody, except possibly the last one, has hung up. */
  lemma AllHandledIff(cs: seq<int>, a: Answers)
    ensures Handled(cs, a) == |cs| <==> cs == [] || Hungup(cs[..|cs| - 1], a) == 0
  {
    var h := Handled(cs, a);
    PassArithmetic(cs, a);
    StopsAtLeast(cs, a, 0);
    if cs != [] && h < |cs| {
      assert cs[..|cs| - 1][..h] == cs[..h];
      HungupSplit(cs[..|cs| - 1], a, h);
    }
  }

  /**
    A pass removes all H hung-up clients exactly when there are none, or none among the last H - 1 entries of the
    list: the entries that the shrinking list may cut off.
   */
  lemma AllRemovedIff(cs: seq<int>, a: Answers)
    ensures Hungup(cs, a) <= |cs|
    ensures Hungup(AfterPass(cs, a), a) == 0 <==>
      Hungup(cs, a) == 0 || Hungup(cs[|cs| - Hungup(cs, a) + 1..], a) == 0
  {
    HungupBound(cs, a);
    LeftHungup(cs, a);
    PassArithmetic(cs, a);
    var h, total := Handled(cs, a), Hungup(cs, a);
    if total > 0 {
      var m := |cs| - total + 1;
      if h <= m {
        HungupOfSuffix(cs, a, h, m);
      } else {
        HungupOfSuffix(cs, a, m, h);
      }
    }
  }

  /** The first of two clients hangs up: the pass does not come to the second. Both do: the second stays in the list. */
  lemma SecondIsDeferred(x: int, y: int, a: Answers)
    requires HasPeerHungup(a.revents(x))
    ensures Handled([x, y], a) == 1 && AfterPass([x, y], a) == [y]
  {
    assert [x, y][..1] == [x] && [x][..0] == [] && [x, y][..0] == [];
    assert Hungup([x], a) == 1 && Kept([x], a) == [];
    assert StopsAt([x, y], a, 1) == 1;
  }

  function Passes(cs: seq<int>, a: Answers, k: nat): seq<int> {
    if k == 0 then cs else AfterPass(Passes(cs, a, k - 1), a)
  }

  function Pow2(k: nat): nat {
    if k == 0 then 1 else 2 * Pow2(k - 1)
  }

  /**
    With stable answers and no new connections, k passes divide the number of hung-up clients by 2^k:
    all are gone after as many passes as it takes for 2^k to exceed their number, and no live one is.
   */
  lemma {:induction false} HungupsVanish(cs: seq<int>, a: Answers, k: nat)
    ensures Pow2(k) * Hungup(Passes(cs, a, k), a) <= Hungup(cs, a)
    ensures Kept(Passes(cs, a, k), a) == Kept(cs, a)
    ensures Pow2(k) > Hungup(cs, a) ==> Passes(cs, a, k) == Kept(cs, a)
  {
    if k > 0 {
      var was := Passes(cs, a, k - 1);
      HungupsVanish(cs, a, k - 1);
      PassRemovesHalf(was, a);
      Halve(Pow2(k - 1), Hungup(was, a), Hungup(Passes(cs, a, k), a), Hungup(cs, a));
    }
    if Pow2(k) > Hungup(cs, a) {
      NoneHungup(Passes(cs, a, k), a, Pow2(k), Hungup(cs, a));
    }
  }

  lemma Halve(p: nat, many: nat, few: nat, bound: nat)
    requires p * many <= bound && 2 * few <= many
    ensures 2 * p * few <= bound
  {
    MulMonotone(p, 2 * few, many);
    assert 2 * p * few == p * (2 * few);
  }

  lemma MulMonotone(p: nat, x: nat, y: nat)
    requires x <= y
    ensures p * x <= p * y
  {
  }

  lemma NoneHungup(cs: seq<int>, a: Answers, p: nat, bound: nat)
    requires p * Hungup(cs, a) <= bound < p
    ensures Kept(cs, a) == cs
  {
    if Hungup(cs, a) > 0 {
      MulMonotone(p, 1, Hungup(cs, a));
    }
    AllKept(cs, a);
  }

  lemma {:induction false} AllKept(cs: seq<int>, a: Answers)
    requires Hungup(cs, a) == 0
    ensures Kept(cs, a) == cs
  {
    if cs != [] {
      AllKept(cs[..|cs| - 1], a);
    }
  }

  // ---- Received bytes ----

  /** The bytes other than NUL. */
  function Strip(bytes: string): string {
    if bytes == [] then []
    else Strip(bytes[..|bytes| - 1]) + if bytes[|bytes| - 1] == '\0' then [] else [bytes[|bytes| - 1]]
  }

  lemma {:induction false} StripConcat(xs: string, ys: string)
    ensures Strip(xs + ys) == Strip(xs) + Strip(ys)
    decreases |ys|
  {
    if ys == [] {
      assert xs + ys == xs;
    } else {
      assert (xs + ys)[..|xs + ys| - 1] == xs + ys[..|ys| - 1];
      StripConcat(xs, ys[..|ys| - 1]);
    }
  }

  /**
    The text is what is left of the bytes without the NULs: it has no NUL, every other character occurs in it as often as
    among the bytes, and bytes without a NUL are the text itself.
   */
  ghost predicate WithoutNuls(text: string, bytes: string) {
    && '\0' !in text
    && (forall c :: c != '\0' ==> multiset(text)[c] == multiset(bytes)[c])
    && ('\0' !in bytes ==> text == bytes)
  }

  lemma {:induction false} StripDropsNuls(bytes: string)
    ensures WithoutNuls(Strip(bytes), bytes)
  {
    if bytes != [] {
      var front, last := bytes[..|bytes| - 1], bytes[|bytes| - 1];
      StripDropsNuls(front);
      assert bytes == front + [last];
      assert forall c :: multiset(bytes)[c] == multiset(front)[c] + multiset([last])[c];
      assert Strip(bytes) == Strip(front) + if last == '\0' then [] else [last];
    }
  }

  /** The text before a split of the bytes is the text of the first part: the order of characters is kept. */
  lemma StripPrefix(bytes: string, longer: string)
    requires bytes <= longer
    ensures Strip(bytes) <= Strip(longer)
  {
    assert longer == bytes + longer[|bytes|..];
    StripConcat(bytes, longer[|bytes|..]);
  }

  /** What a read leads to: nothing at the end of the stream, and an empty message when it fails. */
  function MessageOf(fd: int, read: Read): seq<Message> {
    match read
    case Failed => [Message(fd, "")]
    case Bytes(data) => if data == [] then [] else [Message(fd, Strip(data))]
  }

  /** One message per read: an empty one after a failure, none at the end of the stream, and else the bytes without the NULs. */
  lemma OneMessagePerRead(fd: int, read: Read)
    ensures read.Failed? ==> MessageOf(fd, read) == [Message(fd, "")]
    ensures read == Bytes([]) ==> MessageOf(fd, read) == []
    ensures read.Bytes? && read.data != [] ==>
      |MessageOf(fd, read)| == 1 && MessageOf(fd, read)[0].fd == fd && WithoutNuls(MessageOf(fd, read)[0].text, read.data)
  {
    if read.Bytes? {
      StripDropsNuls(read.data);
    }
  }

  predicate Reads(fd: int, a: Answers) {
    !HasPeerHungup(a.revents(fd)) && HasReceivedData(a.revents(fd))
  }

  /** What handling one entry pushes: one read if the client has data and has not hung up. */
  function EntryMessages(fd: int, a: Answers): seq<Message> {
    if Reads(fd, a) then MessageOf(fd, a.input(fd)) else []
  }

  function MessagesOf(cs: seq<int>, a: Answers): seq<Message> {
    if cs == [] then [] else MessagesOf(cs[..|cs| - 1], a) + EntryMessages(cs[|cs| - 1], a)
  }

  function PassMessages(cs: seq<int>, a: Answers): seq<Message> {
    MessagesOf(cs[..Handled(cs, a)], a)
  }

  /** The bytes that handling client fd reads. */
  function EntryBytes(fd: int, a: Answers): string {
    if Reads(fd, a) && a.input(fd).Bytes? then a.input(fd).data else []
  }

  /** The bytes a pass reads from client fd. */
  function BytesRead(cs: seq<int>, a: Answers, fd: int): string {
    if fd in cs[..Handled(cs, a)] then EntryBytes(fd, a) else []
  }

  /** The text of the messages that came from client fd, end to end. */
  function TextFrom(ms: seq<Message>, fd: int): string {
    if ms == [] then []
    else TextFrom(ms[..|ms| - 1], fd) + if ms[|ms| - 1].fd == fd then ms[|ms| - 1].text else []
  }

  lemma {:induction false} TextConcat(xs: seq<Message>, ys: seq<Message>, fd: int)
    ensures TextFrom(xs + ys, fd) == TextFrom(xs, fd) + TextFrom(ys, fd)
    decreases |ys|
  {
    if ys == [] {
      assert xs + ys == xs;
    } else {
      assert (xs + ys)[..|xs + ys| - 1] == xs + ys[..|ys| - 1];
      TextConcat(xs, ys[..|ys| - 1], fd);
    }
  }

  lemma TextOfEntry(other: int, a: Answers, fd: int)
    ensures TextFrom(EntryMessages(other, a), fd) == if other == fd then Strip(EntryBytes(fd, a)) else []
  {
    var ms := EntryMessages(other, a);
    assert ms != [] ==> ms[..0] == [];
  }

  lemma {:induction false} TextOfEntries(cs: seq<int>, a: Answers, fd: int)
    requires Distinct(cs)
    ensures TextFrom(MessagesOf(cs, a), fd) == if fd in cs then Strip(EntryBytes(fd, a)) else []
  {
    if cs != [] {
      var front, last := cs[..|cs| - 1], cs[|cs| - 1];
      TextOfEntries(front, a, fd);
      TextOfEntry(last, a, fd);
      TextConcat(MessagesOf(front, a), EntryMessages(last, a), fd);
      InFrontOrLast(cs, fd);
    }
  }

  lemma InFrontOrLast(cs: seq<int>, fd: int)
    requires cs != [] && Distinct(cs)
    ensures var front, last := cs[..|cs| - 1], cs[|cs| - 1];
      Distinct(front) && (fd in cs <==> fd in front || fd == last) && !(fd in front && fd == last)
  {
  }

  // ---- Many rounds ----

  /** One run of the node: a connection may be accepted, and then the clients are polled. */
  datatype Round = Round(accepted: int, answers: Answers)

  function Accept(cs: seq<int>, fd: int): seq<int> {
    if fd < 0 then cs else cs + [fd]
  }

  function ClientsAfter(rounds: seq<Round>): seq<int> {
    if rounds == [] then []
    else
      var r := rounds[|rounds| - 1];
      AfterPass(Accept(ClientsAfter(rounds[..|rounds| - 1]), r.accepted), r.answers)
  }

  function AllMessages(rounds: seq<Round>): seq<Message> {
    if rounds == [] then []
    else
      var before, r := rounds[..|rounds| - 1], rounds[|rounds| - 1];
      AllMessages(before) + PassMessages(Accept(ClientsAfter(before), r.accepted), r.answers)
  }

  function AllBytes(rounds: seq<Round>, fd: int): string {
    if rounds == [] then []
    else
      var before, r := rounds[..|rounds| - 1], rounds[|rounds| - 1];
      AllBytes(before, fd) + BytesRead(Accept(ClientsAfter(before), r.accepted), r.answers, fd)
  }

  /** The kernel does not hand out a descriptor that is still connected. */
  ghost predicate FreshDescriptors(rounds: seq<Round>) {
    rounds == [] ||
    var before := rounds[..|rounds| - 1];
    var fd := rounds[|rounds| - 1].accepted;
    FreshDescriptors(before) && (fd >= 0 ==> fd !in ClientsAfter(before))
  }

  lemma PassDistinct(cs: seq<int>, a: Answers)
    requires Distinct(cs)
    ensures Distinct(AfterPass(cs, a))
  {
    var done, rest := cs[..Handled(cs, a)], cs[Handled(cs, a)..];
    assert cs == done + rest;
    DistinctParts(done, rest);
    KeptDistinct(done, a);
    KeptFacts(done, a);
    DistinctConcat(Kept(done, a), rest);
  }

  lemma DistinctParts(xs: seq<int>, ys: seq<int>)
    requires Distinct(xs + ys)
    ensures Distinct(xs) && Distinct(ys) && forall x :: x in xs ==> x !in ys
  {
    var all := xs + ys;
    assert forall i :: 0 <= i < |xs| ==> all[i] == xs[i];
    assert forall j :: 0 <= j < |ys| ==> all[|xs| + j] == ys[j];
  }

  lemma DistinctConcat(xs: seq<int>, ys: seq<int>)
    requires Distinct(xs) && Distinct(ys) && forall x :: x in xs ==> x !in ys
    ensures Distinct(xs + ys)
  {
    forall i, j | 0 <= i < j < |xs + ys| ensures (xs + ys)[i] != (xs + ys)[j] {
      if i < |xs| <= j {
        assert xs[i] in xs;
        assert (xs + ys)[j] == ys[j - |xs|];
      }
    }
  }

  lemma {:induction false} AlwaysDistinct(rounds: seq<Round>)
    requires FreshDescriptors(rounds)
    ensures Distinct(ClientsAfter(rounds))
  {
    if rounds != [] {
      var before, r := rounds[..|rounds| - 1], rounds[|rounds| - 1];
      AlwaysDistinct(before);
      PassDistinct(Accept(ClientsAfter(before), r.accepted), r.answers);
    }
  }

  lemma {:induction false} MessagesAreStripped(rounds: seq<Round>, fd: int)
    requires FreshDescriptors(rounds)
    ensures TextFrom(AllMessages(rounds), fd) == Strip(AllBytes(rounds, fd))
  {
    if rounds != [] {
      var before, r := rounds[..|rounds| - 1], rounds[|rounds| - 1];
      MessagesAreStripped(before, fd);
      AlwaysDistinct(before);
      var cs := Accept(ClientsAfter(before), r.accepted);
      TextOfEntries(cs[..Handled(cs, r.answers)], r.answers, fd);
      TextConcat(AllMessages(before), PassMessages(cs, r.answers), fd);
      StripConcat(AllBytes(before, fd), BytesRead(cs, r.answers, fd));
    }
  }

  /** A client that was accepted is connected after the round, unless it has hung up already. */
  lemma AcceptedIsClient(rounds: seq<Round>, r: Round)
    requires FreshDescriptors(rounds + [r]) && r.accepted >= 0 && !HasPeerHungup(r.answers.revents(r.accepted))
    ensures r.accepted in ClientsAfter(rounds + [r])
  {
    OneMoreRound(rounds, r, r.accepted);
    var cs := ClientsAfter(rounds) + [r.accepted];
    assert cs[|cs| - 1] == r.accepted && r.accepted in cs;
    LiveStays(cs, r.answers, r.accepted);
  }

  /** A pass keeps every client that has not hung up. */
  lemma LiveStays(cs: seq<int>, a: Answers, fd: int)
    requires fd in cs && !HasPeerHungup(a.revents(fd))
    ensures fd in AfterPass(cs, a)
  {
    var h := Handled(cs, a);
    assert cs == cs[..h] + cs[h..];
    KeptFacts(cs[..h], a);
  }

  /**
    However reads split a client's stream over the rounds, the messages pushed for it are, end to end, the
    bytes read from it without the NULs.
   */
  lemma ChunkingDoesNotMatter(rounds: seq<Round>, fd: int)
    requires FreshDescriptors(rounds)
    ensures TextFrom(AllMessages(rounds), fd) == Strip(AllBytes(rounds, fd))
    ensures WithoutNuls(TextFrom(AllMessages(rounds), fd), AllBytes(rounds, fd))
  {
    MessagesAreStripped(rounds, fd);
    StripDropsNuls(AllBytes(rounds, fd));
  }

  /** In a round a client's bytes are read exactly when it is handled, has data, has not hung up, and the read succeeds; and then all of them. */
  lemma WhatIsRead(cs: seq<int>, a: Answers, fd: int)
    ensures var bits := a.revents(fd);
      var hungup := (bits >> 3) & 1 == 1 || (bits >> 4) & 1 == 1 || (bits >> 13) & 1 == 1;
      BytesRead(cs, a, fd) ==
        if fd in cs[..Handled(cs, a)] && !hungup && bits & 1 == 1 && a.input(fd).Bytes? then a.input(fd).data else []
  {
    EventBits(a.revents(fd));
  }

  // ---- What a hung-up client still had to say ----

  /** A client that has hung up yields no bytes, even if it has some, and when it is handled it is gone. */
  lemma HungupIsSilent(cs: seq<int>, a: Answers, fd: int)
    requires Distinct(cs) && HasPeerHungup(a.revents(fd))
    ensures BytesRead(cs, a, fd) == []
    ensures fd in cs[..Handled(cs, a)] ==> fd !in AfterPass(cs, a)
  {
    var done, rest := cs[..Handled(cs, a)], cs[Handled(cs, a)..];
    assert cs == done + rest;
    DistinctParts(done, rest);
    KeptFacts(done, a);
  }

  lemma PassAddsNobody(cs: seq<int>, a: Answers, fd: int)
    requires fd !in cs
    ensures fd !in AfterPass(cs, a) && BytesRead(cs, a, fd) == []
  {
    KeptFacts(cs[..Handled(cs, a)], a);
  }

  lemma OneMoreRound(rounds: seq<Round>, r: Round, fd: int)
    ensures var cs := Accept(ClientsAfter(rounds), r.accepted);
      && ClientsAfter(rounds + [r]) == AfterPass(cs, r.answers)
      && AllBytes(rounds + [r], fd) == AllBytes(rounds, fd) + BytesRead(cs, r.answers, fd)
  {
    assert (rounds + [r])[..|rounds + [r]| - 1] == rounds;
  }

  /** The client is not connected, and these are the bytes that were read from its descriptor. */
  predicate Gone(rounds: seq<Round>, fd: int, bytes: string) {
    fd !in ClientsAfter(rounds) && AllBytes(rounds, fd) == bytes
  }

  lemma StaysGone(rounds: seq<Round>, r: Round, fd: int, bytes: string)
    requires Gone(rounds, fd, bytes) && r.accepted != fd
    ensures Gone(rounds + [r], fd, bytes)
  {
    OneMoreRound(rounds, r, fd);
    PassAddsNobody(Accept(ClientsAfter(rounds), r.accepted), r.answers, fd);
  }

  /** A client that is gone yields nothing until its descriptor is accepted again. */
  lemma {:induction false} GoneIsSilent(rounds: seq<Round>, more: seq<Round>, fd: int, bytes: string)
    requires Gone(rounds, fd, bytes) && forall k :: 0 <= k < |more| ==> more[k].accepted != fd
    ensures Gone(rounds + more, fd, bytes)
    decreases |more|
  {
    if more == [] {
      assert rounds + more == rounds;
    } else {
      var front, last := more[..|more| - 1], more[|more| - 1];
      GoneIsSilent(rounds, front, fd, bytes);
      StaysGone(rounds + front, last, fd, bytes);
      C.LastApart(rounds, more);
    }
  }

  /**
    When a pass handles a client that has hung up, what it sent and nobody had read is lost: neither that round nor
    any later one reads a byte from it, until its descriptor is accepted again.
   */
  lemma HungupLosesBytes(rounds: seq<Round>, r: Round, more: seq<Round>, fd: int)
    requires FreshDescriptors(rounds + [r]) && HasPeerHungup(r.answers.revents(fd))
    requires var cs := Accept(ClientsAfter(rounds), r.accepted); fd in cs[..Handled(cs, r.answers)]
    requires forall k :: 0 <= k < |more| ==> more[k].accepted != fd
    ensures Gone(rounds + [r] + more, fd, AllBytes(rounds, fd))
  {
    HandledIsGone(rounds, r, fd);
    GoneIsSilent(rounds + [r], more, fd, AllBytes(rounds, fd));
  }

  lemma HandledIsGone(rounds: seq<Round>, r: Round, fd: int)
    requires FreshDescriptors(rounds + [r]) && HasPeerHungup(r.answers.revents(fd))
    requires var cs := Accept(ClientsAfter(rounds), r.accepted); fd in cs[..Handled(cs, r.answers)]
    ensures Gone(rounds + [r], fd, AllBytes(rounds, fd))
  {
    assert (rounds + [r])[..|rounds + [r]| - 1] == rounds;
    AlwaysDistinct(rounds);
    OneMoreRound(rounds, r, fd);
    HungupIsSilent(Accept(ClientsAfter(rounds), r.accepted), r.answers, fd);
  }

  // ---- The server object ----

  /** The data manager after these messages were pushed under one name. */
  function PushAll(m: S.Manager<string>, name: string, ms: seq<Message>): S.Manager<string> {
    if ms == [] then m
    else S.Apply(PushAll(m, name, ms[..|ms| - 1]), S.Push(name, ms[|ms| - 1].text))
  }

  lemma {:induction false} PushAllConcat(m: S.Manager<string>, name: string, xs: seq<Message>, ys: seq<Message>)
    ensures PushAll(m, name, xs + ys) == PushAll(PushAll(m, name, xs), name, ys)
    decreases |ys|
  {
    if ys == [] {
      assert xs + ys == xs;
    } else {
      assert (xs + ys)[..|xs + ys| - 1] == xs + ys[..|ys| - 1];
      PushAllConcat(m, name, xs, ys[..|ys| - 1]);
    }
  }

  lemma RemoveOne(kept: seq<int>, fd: int, rest: seq<int>)
    requires fd !in kept && fd !in rest
    ensures Without(kept + ([fd] + rest), fd) == kept + rest
  {
    WithoutConcat(kept, [fd] + rest, fd);
    WithoutConcat([fd], rest, fd);
    WithoutAbsent(kept, fd);
    WithoutAbsent(rest, fd);
    assert [fd][..0] == [];
    assert Without([fd], fd) + rest == rest;
  }

  /** The list in the middle of the loop: the kept ones among the first i, and the rest. */
  function Midway(cs: seq<int>, a: Answers, i: nat): (now: seq<int>)
    requires i <= |cs|
    ensures |now| == |cs| - Hungup(cs[..i], a)
  {
    KeptFacts(cs[..i], a);
    Kept(cs[..i], a) + cs[i..]
  }

  /** One more entry of the loop: what it does to the list. */
  lemma OneEntry(cs: seq<int>, a: Answers, i: nat)
    requires Distinct(cs) && i < |cs|
    ensures Midway(cs, a, i + 1) ==
      if HasPeerHungup(a.revents(cs[i])) then Without(Midway(cs, a, i), cs[i]) else Midway(cs, a, i)
  {
    var kept, rest := Kept(cs[..i], a), cs[i + 1..];
    assert cs[..i + 1][..i] == cs[..i];
    assert cs[i..] == [cs[i]] + rest;
    if HasPeerHungup(a.revents(cs[i])) {
      KeptFacts(cs[..i], a);
      RemoveOne(kept, cs[i], rest);
      assert kept + [] == kept;
    } else {
      assert kept + cs[i..] == kept + [cs[i]] + rest;
    }
  }

  lemma OneEntryMessages(cs: seq<int>, a: Answers, i: nat)
    requires i < |cs|
    ensures MessagesOf(cs[..i + 1], a) == MessagesOf(cs[..i], a) + EntryMessages(cs[i], a)
    ensures i < |cs| - Hungup(cs[..i], a) ==> StopsAt(cs, a, i + 1) == StopsAt(cs, a, i)
  {
    assert cs[..i + 1][..i] == cs[..i];
  }

  /** Clients with a pending event, which is what poll returns. */
  function Pending(cs: seq<int>, a: Answers): nat {
    if cs == [] then 0 else Pending(cs[..|cs| - 1], a) + if a.revents(cs[|cs| - 1]) != 0 then 1 else 0
  }

  /** Without a pending event a pass would change nothing, so skipping it is no different. */
  lemma {:induction false} QuietPass(cs: seq<int>, a: Answers)
    requires Pending(cs, a) == 0
    ensures Hungup(cs, a) == 0 && MessagesOf(cs, a) == []
  {
    if cs != [] {
      QuietPass(cs[..|cs| - 1], a);
    }
  }

  lemma QuietPassIsNoPass(cs: seq<int>, a: Answers)
    requires Pending(cs, a) == 0
    ensures Handled(cs, a) == |cs| && AfterPass(cs, a) == cs && PassMessages(cs, a) == []
  {
    QuietPass(cs, a);
    AllHandledIff(cs, a);
    assert cs[..|cs|] == cs;
    AllKept(cs, a);
  }

  class TcpServer {
    const name: string
    const handler: DataManager<string>
    var clients: seq<int>

    ghost predicate Valid()
      reads this, handler, handler.inQueues, handler.outQueues
    {
      handler.Valid() && Distinct(clients) && |clients| <= BACKLOG
    }

    constructor (name: string, handler: DataManager<string>)
      requires handler.Valid()
      modifies handler, handler.inQueues, handler.outQueues
      ensures Valid() && this.name == name && this.handler == handler && clients == []
      ensures handler.Abs() == S.Apply(old(handler.Abs()), S.SetFeeder(name))
      ensures handler.OnlyNewQueues()
    {
      this.name, this.handler, clients := name, handler, [];
      new;
      var _ := handler.SetFeeder(name);
    }

    /** The answer to accept: a new descriptor, or a negative number. The length of the list is not limited here. */
    method AcceptConnectionReq(fd: int)
      modifies `clients
      ensures clients == Accept(old(clients), fd) == if fd < 0 then old(clients) else old(clients) + [fd]
      ensures Distinct(old(clients)) && (fd >= 0 ==> fd !in old(clients)) ==> Distinct(clients)
    {
      if fd >= 0 {
        clients := clients + [fd];
      }
    }

    /** Removes every entry equal to fd. */
    method RemConnectedClient(fd: int)
      modifies `clients
      ensures clients == Without(old(clients), fd)
    {
      var rest := [];
      assert clients[..0] == [];
      for k := 0 to |clients|
        invariant rest == Without(clients[..k], fd)
      {
        assert clients[..k + 1][..k] == clients[..k];
        if clients[k] != fd {
          rest := rest + [clients[k]];
        }
      }
      assert clients[..|clients|] == clients;
      clients := rest;
    }

    method FdToPollFdArray(pollfds: array<PollFd>)
      requires |clients| <= pollfds.Length
      modifies pollfds
      ensures forall k :: 0 <= k < |clients| ==>
        pollfds[k].fd == clients[k] && pollfds[k].events == (POLLIN | POLLPRI | POLLERR | POLLRDHUP)
    {
      for pos := 0 to |clients|
        invariant forall k :: 0 <= k < pos ==>
          pollfds[k].fd == clients[k] && pollfds[k].events == (POLLIN | POLLPRI | POLLERR | POLLRDHUP)
      {
        pollfds[pos] := PollFd(clients[pos], POLLIN | POLLPRI | POLLERR | POLLRDHUP, pollfds[pos].revents);
      }
    }

    /** A snapshot of the clients with the kernel's answers, and the number of entries with an event. */
    method PollFds(pollfds: array<PollFd>, a: Answers) returns (p: nat)
      requires |clients| <= pollfds.Length
      modifies pollfds
      ensures forall k :: 0 <= k < |clients| ==> pollfds[k].fd == clients[k] && pollfds[k].revents == a.revents(clients[k])
      ensures p == Pending(clients, a)
    {
      FdToPollFdArray(pollfds);
      p := 0;
      assert clients[..0] == [];
      for k := 0 to |clients|
        invariant forall l :: 0 <= l < |clients| ==> pollfds[l].fd == clients[l]
        invariant forall l :: 0 <= l < k ==> pollfds[l].revents == a.revents(clients[l])
        invariant p == Pending(clients[..k], a)
      {
        assert clients[..k + 1][..k] == clients[..k];
        pollfds[k] := pollfds[k].(revents := a.revents(pollfds[k].fd));
        if pollfds[k].revents != 0 {
          p := p + 1;
        }
      }
      assert clients[..|clients|] == clients;
    }

    /** Reads once, drops the NULs and pushes what is left, unless the stream has ended. */
    method ReadRxData(fd: int, read: Read)
      requires handler.Valid()
      modifies handler, handler.inQueues, handler.outQueues
      ensures handler.Valid() && handler.inQueues == old(handler.inQueues) && handler.outQueues == old(handler.outQueues)
      ensures handler.Abs() == PushAll(old(handler.Abs()), name, MessageOf(fd, read))
      ensures read.Bytes? && read.data != [] ==> exists text ::
        WithoutNuls(text, read.data) && handler.Abs() == S.Apply(old(handler.Abs()), S.Push(name, text))
      ensures read.Failed? ==> handler.Abs() == S.Apply(old(handler.Abs()), S.Push(name, ""))
      ensures read == Bytes([]) ==> handler.Abs() == old(handler.Abs())
    {
      var strippedMsg: string := [];
      var bytes: string := if read.Bytes? then read.data else [];
      assert bytes[..0] == [];
      for i := 0 to |bytes|
        invariant strippedMsg == Strip(bytes[..i])
      {
        assert bytes[..i + 1][..i] == bytes[..i];
        if bytes[i] != '\0' {
          strippedMsg := strippedMsg + [bytes[i]];
        }
      }
      assert bytes[..|bytes|] == bytes;
      StripDropsNuls(bytes);
      if read.Failed? || |bytes| != 0 {
        assert MessageOf(fd, read)[..0] == [];
        handler.Push(strippedMsg, name);
      }
    }

    /** The three-way test on one entry of the snapshot. */
    method HandleEntry(entry: PollFd, read: Read)
      requires handler.Valid()
      modifies `clients, handler, handler.inQueues, handler.outQueues
      ensures handler.Valid() && handler.inQueues == old(handler.inQueues) && handler.outQueues == old(handler.outQueues)
      ensures clients == if HasPeerHungup(entry.revents) then Without(old(clients), entry.fd) else old(clients)
      ensures handler.Abs() == PushAll(old(handler.Abs()), name,
        if !HasPeerHungup(entry.revents) && HasReceivedData(entry.revents) then MessageOf(entry.fd, read) else [])
    {
      if HasPeerHungup(entry.revents) {
        RemConnectedClient(entry.fd);
      } else if HasReceivedData(entry.revents) {
        ReadRxData(entry.fd, read);
      }
    }

    /** A pass over the snapshot, bounded by the live list. */
    method CheckRx(a: Answers)
      requires Valid()
      modifies `clients, handler, handler.inQueues, handler.outQueues
      ensures Valid() && handler.inQueues == old(handler.inQueues) && handler.outQueues == old(handler.outQueues)
      ensures clients == AfterPass(old(clients), a)
      ensures handler.Abs() == PushAll(old(handler.Abs()), name, PassMessages(old(clients), a))
    {
      ghost var cs := clients;
      var pollfds := new PollFd[BACKLOG];
      var p := PollFds(pollfds, a);
      PassDistinct(cs, a);
      PassArithmetic(cs, a);
      if p != 0 {
        HandleEntries(pollfds, a);
      } else {
        QuietPassIsNoPass(cs, a);
      }
    }

    method HandleEntries(pollfds: array<PollFd>, a: Answers)
      requires handler.Valid() && Distinct(clients) && |clients| <= pollfds.Length
      requires forall k :: 0 <= k < |clients| ==> pollfds[k].fd == clients[k] && pollfds[k].revents == a.revents(clients[k])
      modifies `clients, handler, handler.inQueues, handler.outQueues
      ensures handler.Valid() && handler.inQueues == old(handler.inQueues) && handler.outQueues == old(handler.outQueues)
      ensures clients == AfterPass(old(clients), a)
      ensures handler.Abs() == PushAll(old(handler.Abs()), name, PassMessages(old(clients), a))
    {
      ghost var cs, m, h := clients, handler.Abs(), Handled(clients, a);
      var i := 0;
      assert cs[..0] == [] && Midway(cs, a, 0) == cs;
      while i < |clients|
        invariant i <= |cs| && clients == Midway(cs, a, i)
        invariant StopsAt(cs, a, i) == h
        invariant handler.Valid() && handler.inQueues == old(handler.inQueues) && handler.outQueues == old(handler.outQueues)
        invariant handler.Abs() == PushAll(m, name, MessagesOf(cs[..i], a))
        decreases |cs| - i
      {
        OneEntry(cs, a, i);
        OneEntryMessages(cs, a, i);
        PushAllConcat(m, name, MessagesOf(cs[..i], a), EntryMessages(cs[i], a));
        HandleEntry(pollfds[i], a.input(pollfds[i].fd));
        i := i + 1;
      }
    }

    /** One run of the node. */
    method Run(r: Round) returns (ret: bool)
      requires Valid() && (r.accepted >= 0 ==> r.accepted !in clients && |clients| < BACKLOG)
      modifies `clients, handler, handler.inQueues, handler.outQueues
      ensures Valid() && handler.inQueues == old(handler.inQueues) && handler.outQueues == old(handler.outQueues) && ret
      ensures clients == AfterPass(Accept(old(clients), r.accepted), r.answers)
      ensures handler.Abs() ==
        PushAll(old(handler.Abs()), name, PassMessages(Accept(old(clients), r.accepted), r.answers))
    {
      AcceptConnectionReq(r.accepted);
      CheckRx(r.answers);
      ret := true;
    }

    /** The node's runs one after the other, as the pool makes them, from the first one on. */
    method RunRounds(rounds: seq<Round>)
      requires Valid() && clients == [] && FreshDescriptors(rounds)
      requires forall k :: 0 <= k < |rounds| ==> |Accept(ClientsAfter(rounds[..k]), rounds[k].accepted)| <= BACKLOG
      modifies `clients, handler, handler.inQueues, handler.outQueues
      ensures Valid() && handler.inQueues == old(handler.inQueues) && handler.outQueues == old(handler.outQueues)
      ensures clients == ClientsAfter(rounds)
      ensures handler.Abs() == PushAll(old(handler.Abs()), name, AllMessages(rounds))
    {
      ghost var m := handler.Abs();
      assert rounds[..0] == [];
      for k := 0 to |rounds|
        invariant Valid() && handler.inQueues == old(handler.inQueues) && handler.outQueues == old(handler.outQueues)
        invariant clients == ClientsAfter(rounds[..k])
        invariant handler.Abs() == PushAll(m, name, AllMessages(rounds[..k]))
      {
        RoundApart(rounds, k);
        PushAllConcat(m, name, AllMessages(rounds[..k]), PassMessages(Accept(clients, rounds[k].accepted), rounds[k].answers));
        var _ := Run(rounds[k]);
      }
      assert rounds[..|rounds|] == rounds;
    }
  }

  lemma {:induction false} FreshBefore(rounds: seq<Round>, k: nat)
    requires FreshDescriptors(rounds) && k <= |rounds|
    ensures FreshDescriptors(rounds[..k])
    decreases |rounds|
  {
    if k < |rounds| {
      FreshBefore(rounds[..|rounds| - 1], k);
      assert rounds[..|rounds| - 1][..k] == rounds[..k];
    } else {
      assert rounds[..k] == rounds;
    }
  }

  lemma RoundApart(rounds: seq<Round>, k: nat)
    requires FreshDescriptors(rounds) && k < |rounds|
    ensures var cs, r := ClientsAfter(rounds[..k]), rounds[k];
      && (r.accepted >= 0 ==> r.accepted !in cs)
      && ClientsAfter(rounds[..k + 1]) == AfterPass(Accept(cs, r.accepted), r.answers)
      && AllMessages(rounds[..k + 1]) == AllMessages(rounds[..k]) + PassMessages(Accept(cs, r.accepted), r.answers)
  {
    FreshBefore(rounds, k + 1);
    assert rounds[..k + 1][..k] == rounds[..k] && rounds[..k + 1][k] == rounds[k];
  }
}
