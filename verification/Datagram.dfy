/**
 The datagram server connection shares one socket among many endpoints: each call packs
 the outbox of the next endpoint, in turn, that has something to send.
 */
module Datagram {
  import opened Basics
  import opened Outbox
  import opened SendMachine

  datatype Endpoint = Endpoint(address: int, queue: seq<Entry>)

  predicate Packable(f: Framing, room: nat, e: Endpoint) { PackCount(f, e.queue, room) > 0 }

  /** Steps from index s to endpoint k; slot n, one past the last endpoint, counts too. */
  function Dist(n: nat, s: nat, k: nat): int {
    if k >= s then k - s else k + n + 1 - s
  }

  /** Endpoints that come before k in the turn that starts at index s. */
  function Ahead(n: nat, s: nat, k: nat): int {
    if k >= s then k - s else n - s + k
  }

  /** r is the first packable endpoint in the turn that starts at index s. */
  ghost predicate FirstInTurn(f: Framing, room: nat, eps: seq<Endpoint>, s: nat, r: nat) {
    && r < |eps| && Packable(f, room, eps[r])
    && forall k :: 0 <= k < |eps| && Dist(|eps|, s, k) < Dist(|eps|, s, r) ==> !Packable(f, room, eps[k])
  }

  class AsioDatagramServerConnection {
    const framing: Framing
    var current: seq<Endpoint>
    var index: nat

    /** Endpoints are only ever added, so the index stays in range. */
    ghost predicate Valid() reads this { index <= |current| }

    constructor (f: Framing)
      ensures Valid() && framing == f && current == []
    {
      framing, current, index := f, [], 0;
    }

    /** Accepting an endpoint inserts it somewhere among the current ones. */
    method Accept(e: Endpoint, pos: nat)
      requires Valid() && pos <= |current|
      modifies this`current
      ensures Valid() && current == old(current)[..pos] + [e] + old(current)[pos..]
    {
      current := current[..pos] + [e] + current[pos..];
    }

    /** Besides target and block, the number and top priority of the packed messages. */
    method PackInto(room: nat) returns (target: Option<nat>, block: Bytes, count: nat, priority: Priority)
      requires Valid()
      modifies this`index
      ensures Valid()
      ensures target.Some? ==>
                && FirstInTurn(framing, room, current, old(index), target.value)
                && index == target.value + 1
                && |Frames(framing, Chosen(current[target.value].queue,
                                           PackChoices(framing, current[target.value].queue, room)))| <= room
                && block == Block(framing, current[target.value].queue, room)
                && count == PackCount(framing, current[target.value].queue, room)
                && priority == PackPriority(framing, current[target.value].queue, room)
      ensures target.None? ==>
                && index == old(index) && count == 0 && priority == IDLE
                && forall k :: 0 <= k < |current| ==> !Packable(framing, room, current[k])
    {
      var prevIdx := index;
      var n := |current|;
      ghost var steps := 0;
      target, block, count, priority := None, [], 0, IDLE;
      while true
        invariant 0 <= steps <= n && index <= n
        invariant index == if prevIdx + steps <= n then prevIdx + steps else prevIdx + steps - (n + 1)
        invariant forall k :: 0 <= k < n && Dist(n, prevIdx, k) < steps ==> !Packable(framing, room, current[k])
        decreases n + 1 - steps
      {
        if index < n {
          var pos := index;
          index := index + 1;
          BlockFits(framing, current[pos].queue, room);
          if Packable(framing, room, current[pos]) {
            target, block := Some(pos), Block(framing, current[pos].queue, room);
            count := PackCount(framing, current[pos].queue, room);
            priority := PackPriority(framing, current[pos].queue, room);
            return;
          }
        } else {
          index := 0;
        }
        steps := steps + 1;
        if index == prevIdx {
          break;
        }
      }
    }
  }

  /** The index after one empty-handed turn of the scan. */
  function Advance(n: nat, index: nat): nat { if index < n then index + 1 else 0 }

  function Advanced(n: nat, index: nat, steps: nat): nat {
    if steps == 0 then index else Advance(n, Advanced(n, index, steps - 1))
  }

  lemma {:induction false} AdvancedFrom(n: nat, index: nat, steps: nat)
    ensures index <= n && steps <= n + 1 ==>
              Advanced(n, index, steps) == if index + steps <= n then index + steps else index + steps - (n + 1)
    ensures steps > 0 ==> Advanced(n, index, steps) <= n
  {
    if steps > 0 { AdvancedFrom(n, index, steps - 1); }
  }

  /** With nothing to send, the scan comes back to where it started exactly when that is in range. */
  lemma ScanStopsIff(n: nat, start: nat)
    ensures start <= n <==> exists steps :: steps > 0 && Advanced(n, start, steps) == start
  {
    if start <= n {
      AdvancedFrom(n, start, n + 1);
      assert Advanced(n, start, n + 1) == start;
    } else {
      forall steps: nat | steps > 0 ensures Advanced(n, start, steps) != start { AdvancedFrom(n, start, steps); }
    }
  }

  /** Serving another endpoint brings endpoint j closer. */
  lemma TurnComesCloser(f: Framing, room: nat, eps: seq<Endpoint>, s: nat, r: nat, j: nat)
    requires s <= |eps| && j < |eps| && Packable(f, room, eps[j]) && FirstInTurn(f, room, eps, s, r)
    ensures 0 <= Ahead(|eps|, s, j) < |eps|
    ensures r != j ==> Ahead(|eps|, r + 1, j) < Ahead(|eps|, s, j)
  {
    assert Dist(|eps|, s, r) <= Dist(|eps|, s, j);
  }

  /**
   Calls on a fixed set of n endpoints, whose queues may change between calls: states[i] is
   what call i sees, starting at index starts[i] and serving served[i].
   */
  ghost predicate CallRun(f: Framing, room: nat, states: seq<seq<Endpoint>>, starts: seq<nat>, served: seq<nat>,
                          n: nat)
  {
    && |states| == |starts| == |served|
    && forall i :: 0 <= i < |states| ==>
         && |states[i]| == n && starts[i] <= n
         && FirstInTurn(f, room, states[i], starts[i], served[i])
         && (i + 1 < |states| ==> starts[i + 1] == served[i] + 1)
  }

  lemma {:induction false} ServedByRank(f: Framing, room: nat, states: seq<seq<Endpoint>>, starts: seq<nat>,
                                        served: seq<nat>, n: nat, j: nat, from: nat) returns (i: nat)
    requires CallRun(f, room, states, starts, served, n) && j < n && from < |states|
    requires forall i :: 0 <= i < |states| ==> Packable(f, room, states[i][j])
    requires Ahead(n, starts[from], j) < |states| - from
    ensures from <= i < |states| && served[i] == j
    decreases |states| - from
  {
    TurnComesCloser(f, room, states[from], starts[from], served[from], j);
    if served[from] == j {
      i := from;
    } else {
      i := ServedByRank(f, room, states, starts, served, n, j, from + 1);
    }
  }

  /** An endpoint that always has something packable is served within n calls. */
  lemma ServedWithinN(f: Framing, room: nat, states: seq<seq<Endpoint>>, starts: seq<nat>, served: seq<nat>,
                      n: nat, j: nat)
    returns (i: nat)
    requires CallRun(f, room, states, starts, served, n) && j < n && |states| == n
    requires forall i :: 0 <= i < |states| ==> Packable(f, room, states[i][j])
    ensures i < n && served[i] == j
  {
    TurnComesCloser(f, room, states[0], starts[0], served[0], j);
    i := ServedByRank(f, room, states, starts, served, n, j, 0);
  }
}
