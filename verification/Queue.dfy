/**
  The mutex-protected queue and its growable vector. Each method is one critical section of the
  original; the interleaving of critical sections is the subject of module BroadcastSteps.
 */
module Queue {

  /** How often id occurs in the list. */
  function Count(ids: seq<nat>, id: nat): nat {
    if ids == [] then 0 else Count(ids[..|ids| - 1], id) + if ids[|ids| - 1] == id then 1 else 0
  }

  /** n copies of s laid end to end. */
  function Times<T>(n: nat, s: seq<T>): seq<T> {
    if n == 0 then [] else Times(n - 1, s) + s
  }

  /** The list 0, 1, ..., n-1. */
  function UpTo(n: nat): (ids: seq<nat>)
    ensures |ids| == n && forall k :: 0 <= k < n ==> ids[k] == k
  {
    seq(n, k => k)
  }

  lemma {:induction false} CountUpTo(n: nat, id: nat)
    ensures Count(UpTo(n), id) == if id < n then 1 else 0
  {
    if n > 0 {
      assert UpTo(n)[..n - 1] == UpTo(n - 1);
      CountUpTo(n - 1, id);
    }
  }

  /** No queue object occurs twice. */
  ghost predicate Distinct<T>(qs: seq<Q<T>>) {
    forall i, j :: 0 <= i < j < |qs| ==> qs[i] != qs[j]
  }

  class Q<T> {
    var queue: seq<T>

    constructor ()
      ensures queue == []
    {
      queue := [];
    }

    /** The moved-from deque is left in an unspecified state. */
    constructor MoveFrom(other: Q<T>)
      modifies other
      ensures queue == old(other.queue)
    {
      queue := other.queue;
      new;
      other.queue := *;
    }

    method MoveAssign(other: Q<T>)
      modifies this, other
      ensures queue == old(other.queue)
    {
      if this != other {
        queue := other.queue;
        other.queue := *;
      }
    }

    method Push(data: T)
      modifies this
      ensures queue == old(queue) + [data]
    {
      queue := queue + [data];
    }

    /** The non-blocking pop. */
    method Pop() returns (data: T)
      requires queue != []
      modifies this
      ensures [data] + queue == old(queue)
    {
      data := queue[0];
      queue := queue[1..];
    }

    method Empty() returns (empty: bool)
      ensures empty <==> queue == []
    {
      empty := |queue| == 0;
    }

    /** Copies to one other queue; this queue keeps its contents. */
    method Copy(other: Q<T>)
      requires other != this
      modifies other
      ensures other.queue == old(other.queue) + queue
    {
      other.queue := other.queue + queue;
    }

    /** Copies to each listed queue, as often as it is listed, and then clears this queue. */
    method CopyAll(others: seq<Q<T>>, enableCopy: seq<nat>)
      requires Distinct(others)
      requires forall k :: 0 <= k < |enableCopy| ==> enableCopy[k] < |others|
      requires this !in others
      modifies this, others
      ensures queue == []
      ensures forall j :: 0 <= j < |others| ==>
        others[j].queue == old(others[j].queue) + Times(Count(enableCopy, j), old(queue))
    {
      var k := 0;
      assert enableCopy[..0] == [];
      while k < |enableCopy|
        invariant 0 <= k <= |enableCopy|
        invariant queue == old(queue)
        invariant forall j :: 0 <= j < |others| ==>
          others[j].queue == old(others[j].queue) + Times(Count(enableCopy[..k], j), old(queue))
      {
        var id := enableCopy[k];
        assert enableCopy[..k + 1][..k] == enableCopy[..k];
        others[id].queue := others[id].queue + queue;
        k := k + 1;
      }
      assert enableCopy[..k] == enableCopy;
      queue := [];
    }

    /** Moves everything to the end of a vector. */
    method MoveTo(other: seq<T>) returns (filled: seq<T>)
      modifies this
      ensures filled == other + old(queue)
      ensures queue == []
    {
      filled := other + queue;
      queue := [];
    }
  }

  /**
    Appends an empty queue to a vector of queues. Growth may move every element into new storage;
    no contents change either way, and the elements stay distinct.
   */
  method EmplaceBack<T>(qs: seq<Q<T>>) returns (grown: seq<Q<T>>)
    requires Distinct(qs)
    modifies qs
    ensures |grown| == |qs| + 1 && Distinct(grown)
    ensures fresh(grown[|qs|]) && grown[|qs|].queue == []
    ensures forall i :: 0 <= i < |qs| ==> grown[i].queue == old(qs[i].queue)
    ensures grown[..|qs|] == qs || forall i :: 0 <= i < |qs| ==> fresh(grown[i])
  {
    var reallocate: bool := *;
    grown := qs;
    if reallocate {
      grown := [];
      while |grown| < |qs|
        invariant |grown| <= |qs| && Distinct(grown)
        invariant forall i :: 0 <= i < |grown| ==> fresh(grown[i])
        invariant forall i :: 0 <= i < |grown| ==> grown[i].queue == old(qs[i].queue)
        invariant forall i :: |grown| <= i < |qs| ==> qs[i].queue == old(qs[i].queue)
      {
        var moved := new Q<T>.MoveFrom(qs[|grown|]);
        grown := grown + [moved];
      }
    }
    var last := new Q<T>();
    grown := grown + [last];
  }
}
