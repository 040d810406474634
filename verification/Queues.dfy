/**
 The in-memory message containers: a storage whose messages are offered to a handler that
 may refuse some, and a queue sorted by priority. Both mark accepted messages by raising
 their hop count and then erase what is marked.
 */
module Queues {

  /** Handled messages get this hop count; messages that have it are erased. */
  const TOO_MANY_HOPS: int := 64

  datatype Stored = Stored(id: int, priority: nat, hopCount: int)

  predicate TooManyHops(m: Stored) { m.hopCount >= TOO_MANY_HOPS }

  function MarkTooOld(m: Stored): Stored { m.(hopCount := TOO_MANY_HOPS) }

  /** `accepts[i]` is what the handler answers for message i. */
  predicate AllAccepted(accepts: seq<bool>) { forall i :: 0 <= i < |accepts| ==> accepts[i] }

  /** The refused messages, in order. */
  function Refused(ms: seq<Stored>, accepts: seq<bool>): seq<Stored>
    requires |ms| == |accepts|
  {
    if ms == [] then [] else (if accepts[0] then [] else [ms[0]]) + Refused(ms[1..], accepts[1..])
  }

  function Accepted(ms: seq<Stored>, accepts: seq<bool>): seq<Stored>
    requires |ms| == |accepts|
  {
    if ms == [] then [] else (if accepts[0] then [ms[0]] else []) + Accepted(ms[1..], accepts[1..])
  }

  function Erased(ms: seq<Stored>): seq<Stored> {
    if ms == [] then [] else (if TooManyHops(ms[0]) then [] else [ms[0]]) + Erased(ms[1..])
  }

  /** What stays after a fetch. */
  function AfterFetch(ms: seq<Stored>, accepts: seq<bool>): seq<Stored>
    requires |ms| == |accepts|
  {
    if AllAccepted(accepts) then [] else Erased(Refused(ms, accepts))
  }

  predicate FewHops(ms: seq<Stored>) { forall i :: 0 <= i < |ms| ==> !TooManyHops(ms[i]) }

  lemma {:induction false} ErasedAll(ms: seq<Stored>)
    ensures Erased(ms) == ms <==> FewHops(ms)
    ensures |Erased(ms)| <= |ms|
    decreases |ms|
  {
    if ms != [] {
      ErasedAll(ms[1..]);
      assert ms == [ms[0]] + ms[1..];
      if Erased(ms) == ms { assert |Erased(ms)| == |ms|; }
      assert FewHops(ms) <==> !TooManyHops(ms[0]) && FewHops(ms[1..]);
    }
  }

  lemma {:induction false} RefusedNone(ms: seq<Stored>, accepts: seq<bool>)
    requires |ms| == |accepts|
    ensures AllAccepted(accepts) <==> Refused(ms, accepts) == []
    decreases |ms|
  {
    if ms != [] {
      RefusedNone(ms[1..], accepts[1..]);
      assert AllAccepted(accepts) <==> accepts[0] && AllAccepted(accepts[1..]);
    }
  }

  /**
   A fetch keeps exactly the refused messages if and only if none of them came with the
   hop count that serves as the removal mark; such a message is dropped although refused.
   */
  lemma {:induction false} FetchKeepsRefusedIff(ms: seq<Stored>, accepts: seq<bool>)
    requires |ms| == |accepts|
    ensures AfterFetch(ms, accepts) == Refused(ms, accepts) <==> FewHops(Refused(ms, accepts))
  {
    RefusedNone(ms, accepts);
    ErasedAll(Refused(ms, accepts));
  }

  lemma {:induction false} ErasedCounts(ms: seq<Stored>, m: Stored)
    ensures multiset(Erased(ms))[m] == if m.hopCount >= 64 then 0 else multiset(ms)[m]
    decreases |ms|
  {
    if ms != [] {
      ErasedCounts(ms[1..], m);
      assert ms == [ms[0]] + ms[1..];
    }
  }

  /** What a fetch leaves: every refused message with fewer than 64 hops as often as it was there, no other. */
  lemma {:induction false} FetchLeaves(ms: seq<Stored>, accepts: seq<bool>, m: Stored)
    requires |ms| == |accepts|
    ensures multiset(AfterFetch(ms, accepts))[m] == if m.hopCount >= 64 then 0 else multiset(Refused(ms, accepts))[m]
  {
    RefusedNone(ms, accepts);
    ErasedCounts(Refused(ms, accepts), m);
  }

  lemma {:induction false} FetchPartitions(ms: seq<Stored>, accepts: seq<bool>)
    requires |ms| == |accepts|
    ensures multiset(ms) == multiset(Accepted(ms, accepts)) + multiset(Refused(ms, accepts))
    decreases |ms|
  {
    if ms != [] {
      FetchPartitions(ms[1..], accepts[1..]);
      assert ms == [ms[0]] + ms[1..];
    }
  }

  // The marking loop ---------------------------------------------------------------------

  function Marked(ms: seq<Stored>, accepts: seq<bool>): seq<Stored>
    requires |ms| == |accepts|
  {
    seq(|ms|, i requires 0 <= i < |ms| => if accepts[i] then MarkTooOld(ms[i]) else ms[i])
  }

  lemma {:induction false} MarkedErases(ms: seq<Stored>, accepts: seq<bool>)
    requires |ms| == |accepts|
    ensures Erased(Marked(ms, accepts)) == Erased(Refused(ms, accepts))
    decreases |ms|
  {
    if ms != [] {
      MarkedErases(ms[1..], accepts[1..]);
      assert Marked(ms, accepts)[1..] == Marked(ms[1..], accepts[1..]);
      var head := if accepts[0] then [] else [ms[0]];
      ErasedConcat(head, Refused(ms[1..], accepts[1..]));
      assert [ms[0]][1..] == [];
    }
  }

  lemma {:induction false} ErasedConcat(xs: seq<Stored>, ys: seq<Stored>)
    ensures Erased(xs + ys) == Erased(xs) + Erased(ys)
    decreases |xs|
  {
    if xs == [] {
      assert xs + ys == ys;
    } else {
      assert (xs + ys)[0] == xs[0] && (xs + ys)[1..] == xs[1..] + ys;
      ErasedConcat(xs[1..], ys);
    }
  }

  class MessageStorage {
    var messages: seq<Stored>

    constructor ()
      ensures messages == []
    {
      messages := [];
    }

    method Push(m: Stored)
      modifies this
      ensures messages == old(messages) + [m]
    {
      messages := messages + [m];
    }

    /** Pushes a slot, lets a function fill it, and takes it back if that fails. */
    method PushIf(filled: Stored, keep: bool) returns (pushed: bool)
      modifies this
      ensures pushed == keep && messages == old(messages) + if keep then [filled] else []
    {
      messages := messages + [Stored(0, 0, 0)];
      messages := messages[|messages| - 1 := filled];
      if !keep {
        messages := messages[..|messages| - 1];
        assert messages == old(messages) + [];
        return false;
      }
      return true;
    }

    method FetchAll(accepts: seq<bool>) returns (fetchedSome: bool)
      requires |accepts| == |messages|
      modifies this
      ensures messages == AfterFetch(old(messages), accepts)
      ensures fetchedSome <==> exists i :: 0 <= i < |accepts| && accepts[i]
    {
      fetchedSome := false;
      var clearAll := true;
      for i := 0 to |messages|
        invariant |messages| == |accepts|
        invariant forall j :: 0 <= j < i ==> messages[j] == Marked(old(messages), accepts)[j]
        invariant forall j :: i <= j < |messages| ==> messages[j] == old(messages)[j]
        invariant clearAll <==> forall j :: 0 <= j < i ==> accepts[j]
        invariant fetchedSome <==> exists j :: 0 <= j < i && accepts[j]
      {
        if accepts[i] {
          messages := messages[i := MarkTooOld(messages[i])];
          fetchedSome := true;
        } else {
          clearAll := false;
        }
      }
      if clearAll {
        messages := [];
      } else {
        assert messages == Marked(old(messages), accepts);
        MarkedErases(old(messages), accepts);
        messages := Erased(messages);
      }
    }
  }

  // The priority queue -------------------------------------------------------------------

  /** Lowest priority first. */
  ghost predicate Sorted(ms: seq<Stored>) {
    forall i, j :: 0 <= i < j < |ms| ==> ms[i].priority <= ms[j].priority
  }

  /** Index of the first message of at least the given priority. */
  function LowerBound(ms: seq<Stored>, p: nat): (k: nat)
    ensures k <= |ms| && (k < |ms| ==> ms[k].priority >= p)
    ensures forall j :: 0 <= j < k ==> ms[j].priority < p
  {
    if ms == [] || ms[0].priority >= p then 0 else 1 + LowerBound(ms[1..], p)
  }

  /** The messages of one priority, oldest first: what waits in that lane. */
  function Lane(ms: seq<Stored>, p: nat): seq<Stored> {
    if ms == [] then [] else Lane(ms[1..], p) + if ms[0].priority == p then [ms[0]] else []
  }

  lemma {:induction false} LaneConcat(xs: seq<Stored>, ys: seq<Stored>, p: nat)
    ensures Lane(xs + ys, p) == Lane(ys, p) + Lane(xs, p)
    decreases |xs|
  {
    if xs == [] {
      assert xs + ys == ys;
    } else {
      assert (xs + ys)[0] == xs[0] && (xs + ys)[1..] == xs[1..] + ys;
      LaneConcat(xs[1..], ys, p);
    }
  }

  lemma {:induction false} LaneEmpty(ms: seq<Stored>, p: nat)
    requires forall i :: 0 <= i < |ms| ==> ms[i].priority != p
    ensures Lane(ms, p) == []
    decreases |ms|
  {
    if ms != [] { LaneEmpty(ms[1..], p); }
  }

  lemma LaneOne(m: Stored, p: nat)
    ensures Lane([m], p) == if m.priority == p then [m] else []
  {
    assert [m][1..] == [];
  }

  lemma LaneInsert(low: seq<Stored>, m: Stored, high: seq<Stored>, p: nat)
    requires p == m.priority ==> Lane(low, p) == []
    ensures Lane(low + [m] + high, p) == Lane(low + high, p) + if p == m.priority then [m] else []
  {
    var added := if p == m.priority then [m] else [];
    LaneConcat(low, high, p);
    LaneConcat(low + [m], high, p);
    LaneConcat(low, [m], p);
    LaneOne(m, p);
    assert Lane(high, p) + (added + Lane(low, p)) == Lane(high, p) + Lane(low, p) + added;
  }

  lemma InsertSorted(ms: seq<Stored>, m: Stored)
    requires Sorted(ms)
    ensures var k := LowerBound(ms, m.priority);
            Sorted(ms[..k] + [m] + ms[k..])
  {
    var k := LowerBound(ms, m.priority);
    assert forall j :: k <= j < |ms| ==> m.priority <= ms[k].priority <= ms[j].priority;
    SortedAround(ms[..k], m, ms[k..]);
  }

  lemma SortedAround(low: seq<Stored>, m: Stored, high: seq<Stored>)
    requires Sorted(low) && Sorted(high)
    requires forall i :: 0 <= i < |low| ==> low[i].priority <= m.priority
    requires forall i :: 0 <= i < |high| ==> m.priority <= high[i].priority
    ensures Sorted(low + [m] + high)
  {
    var all := low + [m] + high;
    forall i, j | 0 <= i < j < |all| ensures all[i].priority <= all[j].priority {
      assert i <= |low| ==> all[i].priority <= m.priority;
      assert j >= |low| ==> m.priority <= all[j].priority;
    }
  }

  /** A push puts the message at the end of its own lane and leaves the other lanes alone. */
  lemma PushAppendsToLane(ms: seq<Stored>, m: Stored, p: nat)
    requires Sorted(ms)
    ensures var k := LowerBound(ms, m.priority);
            Lane(ms[..k] + [m] + ms[k..], p) == Lane(ms, p) + if p == m.priority then [m] else []
  {
    var k := LowerBound(ms, m.priority);
    if p == m.priority { LaneEmpty(ms[..k], p); }
    LaneInsert(ms[..k], m, ms[k..], p);
    assert ms == ms[..k] + ms[k..];
  }

  lemma LaneSnoc(front: seq<Stored>, back: Stored, p: nat)
    ensures Lane(front + [back], p) == (if back.priority == p then [back] else []) + Lane(front, p)
  {
    LaneConcat(front, [back], p);
    LaneOne(back, p);
  }

  /** The last message is the first in line in its lane. */
  lemma LaneOfBack(ms: seq<Stored>, p: nat)
    requires ms != []
    ensures var front, back := ms[..|ms| - 1], ms[|ms| - 1];
            Lane(ms, p) == if back.priority == p then [back] + Lane(front, p) else Lane(front, p)
  {
    LaneSnoc(ms[..|ms| - 1], ms[|ms| - 1], p);
    assert ms == ms[..|ms| - 1] + [ms[|ms| - 1]];
  }

  /** The answers for the messages of one lane, in the order of the lane. */
  function LaneAccepts(ms: seq<Stored>, accepts: seq<bool>, p: nat): (r: seq<bool>)
    requires |ms| == |accepts|
    ensures |r| == |Lane(ms, p)|
  {
    if ms == [] then []
    else LaneAccepts(ms[1..], accepts[1..], p) + if ms[0].priority == p then [accepts[0]] else []
  }

  lemma {:induction false} RefusedConcat(xs: seq<Stored>, a: seq<bool>, ys: seq<Stored>, b: seq<bool>)
    requires |xs| == |a| && |ys| == |b|
    ensures Refused(xs + ys, a + b) == Refused(xs, a) + Refused(ys, b)
    decreases |xs|
  {
    if xs == [] {
      assert xs + ys == ys && a + b == b;
    } else {
      assert (xs + ys)[0] == xs[0] && (xs + ys)[1..] == xs[1..] + ys;
      assert (a + b)[0] == a[0] && (a + b)[1..] == a[1..] + b;
      RefusedConcat(xs[1..], a[1..], ys, b);
    }
  }

  /** Refusing keeps the order within every lane: each lane keeps its own refused messages. */
  lemma {:induction false} LaneOfRefused(ms: seq<Stored>, accepts: seq<bool>, p: nat)
    requires |ms| == |accepts|
    ensures Lane(Refused(ms, accepts), p) == Refused(Lane(ms, p), LaneAccepts(ms, accepts, p))
    decreases |ms|
  {
    if ms != [] {
      var head := if accepts[0] then [] else [ms[0]];
      LaneOfRefused(ms[1..], accepts[1..], p);
      LaneConcat(head, Refused(ms[1..], accepts[1..]), p);
      LaneOne(ms[0], p);
      if ms[0].priority == p {
        RefusedConcat(Lane(ms[1..], p), LaneAccepts(ms[1..], accepts[1..], p), [ms[0]], [accepts[0]]);
        assert [ms[0]][1..] == [] && [accepts[0]][1..] == [];
      } else {
        assert Lane(ms, p) == Lane(ms[1..], p);
        assert LaneAccepts(ms, accepts, p) == LaneAccepts(ms[1..], accepts[1..], p);
      }
    }
  }

  lemma {:induction false} RefusedFewHops(ms: seq<Stored>, accepts: seq<bool>)
    requires |ms| == |accepts| && FewHops(ms)
    ensures FewHops(Refused(ms, accepts))
    decreases |ms|
  {
    if ms != [] { RefusedFewHops(ms[1..], accepts[1..]); }
  }

  /** After everything was offered each lane is left with its refused messages, in order. */
  lemma {:induction false} LanesAfterFetch(ms: seq<Stored>, accepts: seq<bool>)
    requires |ms| == |accepts|
    ensures FewHops(ms) ==>
              forall p: nat :: Lane(AfterFetch(ms, accepts), p) == Refused(Lane(ms, p), LaneAccepts(ms, accepts, p))
  {
    if FewHops(ms) {
      RefusedFewHops(ms, accepts);
      FetchKeepsRefusedIff(ms, accepts);
      forall p: nat ensures Lane(AfterFetch(ms, accepts), p) == Refused(Lane(ms, p), LaneAccepts(ms, accepts, p)) {
        LaneOfRefused(ms, accepts, p);
      }
    }
  }

  lemma {:induction false} RefusedSorted(ms: seq<Stored>, accepts: seq<bool>)
    requires |ms| == |accepts| && Sorted(ms)
    ensures Sorted(Refused(ms, accepts))
    ensures forall m :: m in Refused(ms, accepts) ==> m in ms
    decreases |ms|
  {
    if ms != [] {
      RefusedSorted(ms[1..], accepts[1..]);
      var tail := Refused(ms[1..], accepts[1..]);
      forall i | 0 <= i < |tail| ensures ms[0].priority <= tail[i].priority {
        assert tail[i] in ms[1..];
      }
    }
  }

  lemma {:induction false} ErasedSorted(ms: seq<Stored>)
    requires Sorted(ms)
    ensures Sorted(Erased(ms))
    ensures forall m :: m in Erased(ms) ==> m in ms
    decreases |ms|
  {
    if ms != [] {
      ErasedSorted(ms[1..]);
      var tail := Erased(ms[1..]);
      forall i | 0 <= i < |tail| ensures ms[0].priority <= tail[i].priority {
        assert tail[i] in ms[1..];
      }
    }
  }

  class MessagePriorityQueue {
    var messages: seq<Stored>

    ghost predicate Valid() reads this { Sorted(messages) }

    /** The lane of a priority, oldest message first. */
    ghost function Waiting(p: nat): seq<Stored> reads this { Lane(messages, p) }

    constructor ()
      ensures Valid() && messages == [] && forall p: nat :: Waiting(p) == []
    {
      messages := [];
    }

    method Push(m: Stored)
      requires Valid()
      modifies this
      ensures Valid()
      ensures multiset(messages) == multiset(old(messages)) + multiset{m}
      ensures forall p: nat :: Waiting(p) == old(Waiting(p)) + if p == m.priority then [m] else []
    {
      var pos := LowerBound(messages, m.priority);
      forall p: nat ensures Lane(messages[..pos] + [m] + messages[pos..], p)
                            == Lane(messages, p) + if p == m.priority then [m] else [] {
        PushAppendsToLane(messages, m, p);
      }
      InsertSorted(messages, m);
      assert messages == messages[..pos] + messages[pos..];
      messages := messages[..pos] + [m] + messages[pos..];
    }

    /** Offers the message whose turn it is; `accept` is the handler's answer. */
    method ProcessOne(accept: bool) returns (done: bool, offered: seq<Stored>)
      requires Valid()
      modifies this
      ensures Valid()
      ensures old(messages) == [] ==> !done && offered == [] && messages == []
      ensures old(messages) != [] ==>
                && done == accept && |offered| == 1
                && (forall m :: m in old(messages) ==> m.priority <= offered[0].priority)
                && old(Waiting(offered[0].priority)) != [] && offered[0] == old(Waiting(offered[0].priority))[0]
                && (forall p: nat :: Waiting(p) ==
                      if accept && p == offered[0].priority then old(Waiting(p))[1..] else old(Waiting(p)))
    {
      done, offered := false, [];
      if messages != [] {
        forall p: nat
          ensures var front, back := messages[..|messages| - 1], messages[|messages| - 1];
                  Lane(messages, p) == if back.priority == p then [back] + Lane(front, p) else Lane(front, p)
        {
          LaneOfBack(messages, p);
        }
        offered := [messages[|messages| - 1]];
        if accept {
          messages := messages[..|messages| - 1];
          done := true;
        }
      }
    }

    /** Offers all messages, lowest priority first; `accepts` are the answers. */
    method ProcessAll(accepts: seq<bool>) returns (result: nat)
      requires Valid() && |accepts| == |messages|
      modifies this
      ensures Valid()
      ensures messages == AfterFetch(old(messages), accepts)
      ensures FewHops(old(messages)) ==>
                forall p: nat :: Waiting(p) == Refused(old(Waiting(p)), LaneAccepts(old(messages), accepts, p))
      ensures result == |old(messages)| - |messages|
    {
      LanesAfterFetch(messages, accepts);
      result := |messages|;
      var clearAll := true;
      for i := 0 to |messages|
        invariant |messages| == |accepts| == |old(messages)| && result == |messages|
        invariant forall j :: 0 <= j < i ==> messages[j] == Marked(old(messages), accepts)[j]
        invariant forall j :: i <= j < |messages| ==> messages[j] == old(messages)[j]
        invariant clearAll <==> forall j :: 0 <= j < i ==> accepts[j]
      {
        if accepts[i] {
          messages := messages[i := MarkTooOld(messages[i])];
        } else {
          clearAll := false;
        }
      }
      if clearAll {
        messages := [];
      } else {
        assert messages == Marked(old(messages), accepts);
        MarkedErases(old(messages), accepts);
        RefusedSorted(old(messages), accepts);
        ErasedSorted(Refused(old(messages), accepts));
        ErasedAll(messages);
        result := |messages| - |Erased(messages)|;
        messages := Erased(messages);
      }
    }
  }
}
