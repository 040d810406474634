/**
 A datagram server drives the countdown of the send machine with the outboxes of many
 endpoints: every poll packs the next endpoint that has something to send, and compares the
 packed count with that of the endpoint before it.
 */
module DatagramSending {
  import opened Basics
  import opened Bits
  import opened Outbox
  import opened SendMachine
  import opened Datagram

  datatype Server = Server(endpoints: seq<Endpoint>, index: nat, counters: Counters, sending: bool)

  function CountOf(f: Framing, room: nat, e: Endpoint): nat { PackCount(f, e.queue, room) }

  function PriorityOf(f: Framing, room: nat, e: Endpoint): Priority { PackPriority(f, e.queue, room) }

  ghost predicate AnyPackable(f: Framing, room: nat, eps: seq<Endpoint>) {
    exists j :: 0 <= j < |eps| && Packable(f, room, eps[j])
  }

  lemma FirstUnique(f: Framing, room: nat, eps: seq<Endpoint>, s: nat, r: nat, q: nat)
    requires s <= |eps| && FirstInTurn(f, room, eps, s, r) && FirstInTurn(f, room, eps, s, q)
    ensures r == q
  {
    assert Dist(|eps|, s, r) == Dist(|eps|, s, q);
  }

  lemma {:induction false} FirstExists(f: Framing, room: nat, eps: seq<Endpoint>, s: nat, j: nat)
    requires s <= |eps| && j < |eps| && Packable(f, room, eps[j])
    ensures exists r: nat :: FirstInTurn(f, room, eps, s, r)
    decreases Dist(|eps|, s, j)
  {
    if k: nat :| k < |eps| && Dist(|eps|, s, k) < Dist(|eps|, s, j) && Packable(f, room, eps[k]) {
      FirstExists(f, room, eps, s, k);
    } else {
      assert FirstInTurn(f, room, eps, s, j);
    }
  }

  /** The endpoint whose turn it is. */
  ghost function Served(f: Framing, room: nat, eps: seq<Endpoint>, s: nat): (r: nat)
    requires s <= |eps| && AnyPackable(f, room, eps)
    ensures FirstInTurn(f, room, eps, s, r)
  {
    var j: nat :| j < |eps| && Packable(f, room, eps[j]);
    FirstExists(f, room, eps, s, j);
    var r: nat :| FirstInTurn(f, room, eps, s, r);
    r
  }

  ghost function AfterStart(f: Framing, room: nat, s: Server, force: bool): (t: Server)
    requires s.index <= |s.endpoints|
    ensures t.endpoints == s.endpoints && t.index <= |t.endpoints|
  {
    if AnyPackable(f, room, s.endpoints) then
      var r := Served(f, room, s.endpoints, s.index);
      var n, p := CountOf(f, room, s.endpoints[r]), PriorityOf(f, room, s.endpoints[r]);
      Server(s.endpoints, r + 1, AfterPacking(s.counters, n, p), Starts(s.counters, n, p))
    else if force then
      s.(counters := AfterPacking(s.counters, 0, IDLE), sending := Starts(s.counters, 0, IDLE))
    else s.(sending := false)
  }

  ghost function AfterPoll(f: Framing, room: nat, s: Server): (t: Server)
    requires s.index <= |s.endpoints|
    ensures t.endpoints == s.endpoints && t.index <= |t.endpoints|
  {
    if s.sending then s else AfterStart(f, room, s, false)
  }

  /** The connection state that drives a datagram server connection. */
  class AsioConnectionState {
    const group: AsioDatagramServerConnection
    const room: nat
    var writeBuffer: Bytes
    var target: Option<nat>
    var isSending: bool
    var prevPackedCount: nat
    var sendCountdown: int

    ghost function View(): Server
      reads this, group
    {
      Server(group.current, group.index, Counters(prevPackedCount, sendCountdown), isSending)
    }

    constructor (g: AsioDatagramServerConnection, blockSize: nat)
      requires g.Valid()
      ensures group == g && room == blockSize && View() == Server(g.current, g.index, Counters(0, 0), false)
    {
      group, room, writeBuffer, target := g, blockSize, Zeros(blockSize), None;
      isSending, prevPackedCount, sendCountdown := false, 0, 0;
    }

    method StartSendIfNeeded(force: bool) returns (something: bool)
      requires group.Valid()
      modifies this, group`index
      ensures group.Valid() && View() == AfterStart(group.framing, room, old(View()), force)
      ensures something <==> force || AnyPackable(group.framing, room, group.current)
      ensures isSending && AnyPackable(group.framing, room, group.current) ==>
                target == Some(Served(group.framing, room, group.current, old(group.index)))
    {
      var packed, block, count, priority := group.PackInto(room);
      writeBuffer := block;
      if packed.Some? {
        FirstUnique(group.framing, room, group.current, old(group.index), packed.value,
                    Served(group.framing, room, group.current, old(group.index)));
      }
      if force || count > 0 {
        sendCountdown := sendCountdown - if count == prevPackedCount then 1 else 0;
        if sendCountdown <= priority || count >= 64 {
          prevPackedCount, sendCountdown, isSending, target := 0, CRITICAL, true, packed;
          return true;
        }
        prevPackedCount, isSending := count, false;
        return true;
      }
      isSending := false;
      return false;
    }

    method StartSend() returns (something: bool)
      requires group.Valid()
      modifies this, group`index
      ensures group.Valid() && View() == AfterPoll(group.framing, room, old(View()))
    {
      something := true;
      if !isSending {
        something := StartSendIfNeeded(false);
      }
    }
  }

  /** With nothing to pack a poll changes nothing. */
  lemma PollWithNothing(f: Framing, room: nat, s: Server)
    requires s.index <= |s.endpoints| && !AnyPackable(f, room, s.endpoints)
    ensures AfterPoll(f, room, s) == s
  {
  }

  // When a send ever begins ----------------------------------------------------------------

  /** The server after n polls of queues that do not change. */
  ghost function Polled(f: Framing, room: nat, s: Server, n: nat): (t: Server)
    requires s.index <= |s.endpoints|
    ensures t.endpoints == s.endpoints && t.index <= |t.endpoints|
    decreases n
  {
    if n == 0 then s else Polled(f, room, AfterPoll(f, room, s), n - 1)
  }

  ghost predicate SendsBy(f: Framing, room: nat, s: Server, n: nat)
    requires s.index <= |s.endpoints|
  {
    Polled(f, room, s, n).sending
  }

  /** Two packable endpoints, one following the other in turn, pack equally many messages. */
  ghost predicate EqualNeighbours(f: Framing, room: nat, eps: seq<Endpoint>) {
    exists r: nat, q: nat :: Neighbours(f, room, eps, r, q) && CountOf(f, room, eps[r]) == CountOf(f, room, eps[q])
  }

  ghost predicate Neighbours(f: Framing, room: nat, eps: seq<Endpoint>, r: nat, q: nat) {
    r < |eps| && Packable(f, room, eps[r]) && FirstInTurn(f, room, eps, r + 1, q)
  }

  /** The endpoint packs a message so urgent, or so many, that a send starts at this countdown. */
  predicate Urgent(f: Framing, room: nat, e: Endpoint, countdown: int) {
    Packable(f, room, e) && (countdown <= PriorityOf(f, room, e) || CountOf(f, room, e) >= 64)
  }

  ghost predicate AnyUrgent(f: Framing, room: nat, eps: seq<Endpoint>, countdown: int) {
    exists j :: 0 <= j < |eps| && Urgent(f, room, eps[j], countdown)
  }

  lemma {:induction false} PolledAdd(f: Framing, room: nat, s: Server, a: nat, b: nat)
    requires s.index <= |s.endpoints|
    ensures Polled(f, room, s, a + b) == Polled(f, room, Polled(f, room, s, a), b)
    decreases a
  {
    if a > 0 { PolledAdd(f, room, AfterPoll(f, room, s), a - 1, b); }
  }

  /** The server has just packed endpoint r and started nothing. */
  ghost predicate JustPacked(f: Framing, room: nat, s: Server, r: nat) {
    && r < |s.endpoints| && s.index == r + 1 && !s.sending
    && Packable(f, room, s.endpoints[r]) && s.counters.prevPackedCount == CountOf(f, room, s.endpoints[r])
  }

  /** A poll packs an endpoint; it starts a send or leaves a countdown no higher than before. */
  lemma {:induction false} OnePoll(f: Framing, room: nat, s: Server) returns (r: nat)
    requires s.index <= |s.endpoints| && !s.sending && AnyPackable(f, room, s.endpoints)
    ensures FirstInTurn(f, room, s.endpoints, s.index, r)
    ensures var t := AfterPoll(f, room, s);
            var low := Lowered(s.counters, CountOf(f, room, s.endpoints[r]));
            if Urgent(f, room, s.endpoints[r], low) then t.sending
            else JustPacked(f, room, t, r) && t.counters.sendCountdown == low <= s.counters.sendCountdown
  {
    r := Served(f, room, s.endpoints, s.index);
  }

  /** Polling on, endpoint j gets its turn, unless a send starts before. */
  lemma {:induction false} Reach(f: Framing, room: nat, s: Server, j: nat) returns (n: nat)
    requires s.index <= |s.endpoints| && !s.sending && j < |s.endpoints| && Packable(f, room, s.endpoints[j])
    ensures var t := Polled(f, room, s, n);
            t.sending || (&& JustPacked(f, room, t, j) && t.counters.sendCountdown <= s.counters.sendCountdown
                          && !Urgent(f, room, s.endpoints[j], s.counters.sendCountdown))
    decreases Ahead(|s.endpoints|, s.index, j)
  {
    var t := AfterPoll(f, room, s);
    assert AnyPackable(f, room, s.endpoints);
    var r := OnePoll(f, room, s);
    TurnComesCloser(f, room, s.endpoints, s.index, r, j);
    n := 1;
    assert Polled(f, room, s, 1) == Polled(f, room, t, 0);
    if !t.sending && r != j {
      var rest := Reach(f, room, t, j);
      n := 1 + rest;
    }
  }

  lemma {:induction false} SendsAfterPoll(f: Framing, room: nat, s: Server, n: nat)
    requires s.index <= |s.endpoints| && SendsBy(f, room, AfterPoll(f, room, s), n)
    ensures SendsBy(f, room, s, 1 + n)
  {
  }

  lemma SendsLater(f: Framing, room: nat, s: Server, a: nat, b: nat)
    requires s.index <= |s.endpoints| && SendsBy(f, room, Polled(f, room, s, a), b)
    ensures SendsBy(f, room, s, a + b)
  {
    PolledAdd(f, room, s, a, b);
  }

  /** Packing the second of two equal neighbours after the first lowers the countdown. */
  lemma {:induction false} FollowerLowers(f: Framing, room: nat, s: Server, r: nat, q: nat)
    requires JustPacked(f, room, s, r) && Neighbours(f, room, s.endpoints, r, q)
    requires CountOf(f, room, s.endpoints[r]) == CountOf(f, room, s.endpoints[q])
    ensures var t := AfterPoll(f, room, s);
            t.sending || t.counters.sendCountdown == s.counters.sendCountdown - 1 > 0
  {
    var next := OnePoll(f, room, s);
    FirstUnique(f, room, s.endpoints, r + 1, next, q);
  }

  lemma {:induction false} EqualSends(f: Framing, room: nat, s: Server, r: nat, q: nat) returns (n: nat)
    requires s.index <= |s.endpoints| && !s.sending && Neighbours(f, room, s.endpoints, r, q)
    requires CountOf(f, room, s.endpoints[r]) == CountOf(f, room, s.endpoints[q])
    ensures SendsBy(f, room, s, n)
    decreases Max(s.counters.sendCountdown, 0)
  {
    n := Reach(f, room, s, r);
    var t := Polled(f, room, s, n);
    if !t.sending {
      FollowerLowers(f, room, t, r, q);
      var u := AfterPoll(f, room, t);
      var rest: nat := 0;
      if !u.sending { rest := EqualSends(f, room, u, r, q); }
      SendsAfterPoll(f, room, t, rest);
      SendsLater(f, room, s, n, 1 + rest);
      n := n + (1 + rest);
    }
  }

  /** Unequal neighbours leave the countdown where it is, and so no send starts. */
  lemma {:induction false} UnequalNeverSends(f: Framing, room: nat, s: Server, r: nat, n: nat)
    requires JustPacked(f, room, s, r)
    ensures EqualNeighbours(f, room, s.endpoints) || AnyUrgent(f, room, s.endpoints, s.counters.sendCountdown)
            || !SendsBy(f, room, s, n)
    decreases n
  {
    if n > 0 && !EqualNeighbours(f, room, s.endpoints)
       && !AnyUrgent(f, room, s.endpoints, s.counters.sendCountdown) {
      assert AnyPackable(f, room, s.endpoints);
      var q := OnePoll(f, room, s);
      assert Neighbours(f, room, s.endpoints, r, q);
      UnequalNeverSends(f, room, AfterPoll(f, room, s), q, n - 1);
    }
  }

  lemma {:induction false} NothingPackedNeverSends(f: Framing, room: nat, s: Server, n: nat)
    requires s.index <= |s.endpoints| && !s.sending && !AnyPackable(f, room, s.endpoints)
    ensures !SendsBy(f, room, s, n)
    decreases n
  {
    if n > 0 { NothingPackedNeverSends(f, room, AfterPoll(f, room, s), n - 1); }
  }

  /** The countdown once the endpoint whose turn it is was packed. */
  ghost function FirstCountdown(f: Framing, room: nat, s: Server): int
    requires s.index <= |s.endpoints| && AnyPackable(f, room, s.endpoints)
  {
    Lowered(s.counters, CountOf(f, room, s.endpoints[Served(f, room, s.endpoints, s.index)]))
  }

  lemma {:induction false} UrgentSends(f: Framing, room: nat, s: Server, j: nat) returns (n: nat)
    requires s.index <= |s.endpoints| && !s.sending && AnyPackable(f, room, s.endpoints)
    requires j < |s.endpoints| && Urgent(f, room, s.endpoints[j], FirstCountdown(f, room, s))
    ensures SendsBy(f, room, s, n)
  {
    var t := AfterPoll(f, room, s);
    var r := OnePoll(f, room, s);
    FirstUnique(f, room, s.endpoints, s.index, r, Served(f, room, s.endpoints, s.index));
    var rest: nat := 0;
    if !t.sending { rest := Reach(f, room, t, j); }
    SendsAfterPoll(f, room, s, rest);
    n := 1 + rest;
  }

  lemma {:induction false} SomethingSends(f: Framing, room: nat, s: Server) returns (n: nat)
    requires s.index <= |s.endpoints| && !s.sending && AnyPackable(f, room, s.endpoints)
    ensures EqualNeighbours(f, room, s.endpoints) || AnyUrgent(f, room, s.endpoints, FirstCountdown(f, room, s)) ==>
              SendsBy(f, room, s, n)
  {
    if EqualNeighbours(f, room, s.endpoints) {
      var r: nat, q: nat :| Neighbours(f, room, s.endpoints, r, q)
                            && CountOf(f, room, s.endpoints[r]) == CountOf(f, room, s.endpoints[q]);
      n := EqualSends(f, room, s, r, q);
    } else if AnyUrgent(f, room, s.endpoints, FirstCountdown(f, room, s)) {
      var j: nat :| j < |s.endpoints| && Urgent(f, room, s.endpoints[j], FirstCountdown(f, room, s));
      n := UrgentSends(f, room, s, j);
    } else {
      n := 0;
    }
  }

  /**
   As long as the queues do not change, polling a datagram server ever starts a send exactly
   when something can be packed and either two endpoints that follow one another pack equally
   many messages, or one packs a message whose priority the countdown has reached, or 64.
   */
  lemma {:induction false} SendEverBeginsIff(f: Framing, room: nat, s: Server)
    requires s.index <= |s.endpoints| && !s.sending
    ensures (exists n: nat :: SendsBy(f, room, s, n)) <==>
            && AnyPackable(f, room, s.endpoints)
            && (EqualNeighbours(f, room, s.endpoints) || AnyUrgent(f, room, s.endpoints, FirstCountdown(f, room, s)))
  {
    if !AnyPackable(f, room, s.endpoints) {
      forall n: nat ensures !SendsBy(f, room, s, n) { NothingPackedNeverSends(f, room, s, n); }
    } else if EqualNeighbours(f, room, s.endpoints) || AnyUrgent(f, room, s.endpoints, FirstCountdown(f, room, s)) {
      var n := SomethingSends(f, room, s);
    } else {
      forall n: nat ensures !SendsBy(f, room, s, n) {
        var r := OnePoll(f, room, s);
        FirstUnique(f, room, s.endpoints, s.index, r, Served(f, room, s.endpoints, s.index));
        if n > 0 { UnequalNeverSends(f, room, AfterPoll(f, room, s), r, n - 1); }
      }
    }
  }

  /** After a send was started: only critical messages, 64 messages or equal neighbours start another. */
  lemma {:induction false} NextSendBeginsIff(f: Framing, room: nat, s: Server)
    requires s.index <= |s.endpoints| && !s.sending && s.counters == STARTED
    ensures (exists n: nat :: SendsBy(f, room, s, n)) <==>
            AnyPackable(f, room, s.endpoints) &&
            (EqualNeighbours(f, room, s.endpoints) || AnyUrgent(f, room, s.endpoints, CRITICAL))
  {
    SendEverBeginsIff(f, room, s);
  }

  /** One endpoint is its own neighbour, so a server with one endpoint is never stalled. */
  lemma {:induction false} OneEndpointSends(f: Framing, room: nat, s: Server)
    requires |s.endpoints| == 1 && s.index <= 1 && !s.sending && Packable(f, room, s.endpoints[0])
    ensures exists n: nat :: SendsBy(f, room, s, n)
  {
    assert Neighbours(f, room, s.endpoints, 0, 0);
    SendEverBeginsIff(f, room, s);
  }

  lemma {:induction false} PacksAll(f: Framing, m: Entry, room: nat)
    requires 2 * |f.encode(m.data)| <= room
    ensures PackCount(f, [m], room) == 1 && PackCount(f, [m, m], room) == 2
    ensures PackPriority(f, [m], room) == PackPriority(f, [m, m], room) == m.priority
  {
    var w := |f.encode(m.data)|;
    assert [m][1..] == [] && [m, m][1..] == [m] && [true][1..] == [] && [true, true][1..] == [true];
    assert Considered([m]) == [m] && Considered([m, m]) == [m, m];
    assert Choices(f, [m], room) == [true] + Choices(f, [], room - w) == [true];
    assert Choices(f, [m], room - w) == [true] + Choices(f, [], room - w - w) == [true];
    assert Choices(f, [m, m], room) == [true] + Choices(f, [m], room - w) == [true, true];
    assert CountTrue([true]) == 1 && CountTrue([true, true]) == 1 + CountTrue([true]);
    assert Chosen([m], [true]) == [m] + Chosen([], []) == [m];
    assert Chosen([m, m], [true, true]) == [m] + Chosen([m], [true]) == [m, m];
    assert TopPriority([m]) == MaxPriority(m.priority, TopPriority([])) == m.priority;
    assert TopPriority([m, m]) == MaxPriority(m.priority, TopPriority([m]));
  }

  /**
   Two endpoints, one with one message and one with two, none of them critical, are never
   served: the counts alternate, and no poll lowers the countdown.
   */
  lemma {:induction false} TwoEndpointsStall(f: Framing, room: nat, m: Entry, a: int, b: int, index: nat, n: nat)
    requires 2 * |f.encode(m.data)| <= room && m.priority < CRITICAL && index <= 2
    ensures !SendsBy(f, room, Server([Endpoint(a, [m]), Endpoint(b, [m, m])], index, STARTED, false), n)
  {
    var eps := [Endpoint(a, [m]), Endpoint(b, [m, m])];
    PacksAll(f, m, room);
    assert Packable(f, room, eps[0]) && Packable(f, room, eps[1]);
    forall r: nat, q: nat | Neighbours(f, room, eps, r, q) ensures r != q {
      assert FirstInTurn(f, room, eps, 1, 1) && FirstInTurn(f, room, eps, 2, 0);
      FirstUnique(f, room, eps, r + 1, q, 1 - r);
    }
    NextSendBeginsIff(f, room, Server(eps, index, STARTED, false));
  }
}
