/**
 The send side of a connection: polls pack the outbox into the write buffer and, once
 enough polls went by or enough messages gathered, start an asynchronous send; the
 packed messages leave the outbox when that send is reported successful.
 */
module SendMachine {
  import opened Basics
  import opened Bits
  import opened Outbox

  /** A send under way: what its completion handler remembers, and the bytes being sent. */
  datatype Flight = Flight(choices: seq<bool>, block: Bytes)

  /** The packed count of the last poll, and how many polls with that count are still waited for. */
  datatype Counters = Counters(prevPackedCount: nat, sendCountdown: int)

  const STARTED: Counters := Counters(0, CRITICAL)

  /** The countdown after packing n messages. */
  function Lowered(c: Counters, n: nat): int { c.sendCountdown - if n == c.prevPackedCount then 1 else 0 }

  /** Whether packing n messages, p the highest priority among them, starts a send. */
  predicate Starts(c: Counters, n: nat, p: Priority) { Lowered(c, n) <= p || n >= 64 }

  function AfterPacking(c: Counters, n: nat, p: Priority): Counters {
    if Starts(c, n, p) then STARTED else Counters(n, Lowered(c, n))
  }

  datatype Conn = Conn(
    queue: seq<Entry>,
    buffer: Bytes,
    isSending: bool,
    counters: Counters,
    open: bool,
    flight: Option<Flight>)

  function Fresh(room: nat): Conn { Conn([], Zeros(room), false, Counters(0, 0), true, None) }

  /** The highest priority among the messages that would be packed. */
  function PackPriority(f: Framing, ms: seq<Entry>, room: nat): Priority {
    TopPriority(Chosen(ms, PackChoices(f, ms, room)))
  }

  /** Packs the outbox; starts a send, or waits for another poll. */
  function StartSendIfNeeded(f: Framing, room: nat, s: Conn, force: bool): Conn
  {
    BlockFits(f, s.queue, room);
    var c := PackChoices(f, s.queue, room);
    var n, block := CountTrue(c), Block(f, s.queue, room);
    if force || n > 0 then
      var p := PackPriority(f, s.queue, room);
      if Starts(s.counters, n, p) then
        s.(buffer := block, counters := STARTED, isSending := true, flight := Some(Flight(c, block)))
      else s.(buffer := block, counters := AfterPacking(s.counters, n, p), isSending := false)
    else s.(buffer := block, isSending := false)
  }

  function StartSend(f: Framing, room: nat, s: Conn): Conn {
    if s.isSending then s else StartSendIfNeeded(f, room, s, false)
  }

  function Enqueue(s: Conn, m: Entry): Conn {
    if m.data == [] then s else s.(queue := s.queue + [m])
  }

  /** The completion handler of a successful send. */
  function HandleSent(f: Framing, room: nat, s: Conn): Conn
    requires s.flight.Some?
  {
    var c := s.flight.value.choices;
    StartSendIfNeeded(f, room, s.(queue := Left(s.queue, c), flight := None), CountTrue(c) > 0)
  }

  function HandleSendError(s: Conn): Conn {
    s.(isSending := false, open := false, flight := None)
  }

  /** The socket was closed, by a failed receive for one; a send under way is still reported. */
  function HandleClose(s: Conn): Conn { s.(open := false) }

  /** A connector that finds its socket closed connects again, with the same state and outbox. */
  function HandleReopen(s: Conn): Conn { s.(open := true) }

  // The connection object ---------------------------------------------------------------

  class AsioConnection {
    const framing: Framing
    const outgoing: SerializedMessageStorage
    const room: nat
    var writeBuffer: Bytes
    var isSending: bool
    var prevPackedCount: nat
    var sendCountdown: int
    var open: bool
    var inFlight: Option<PackInfo>
    ghost var flight: Option<Flight>

    ghost function State(): Conn
      reads this, outgoing
    {
      Conn(outgoing.messages, writeBuffer, isSending, Counters(prevPackedCount, sendCountdown), open, flight)
    }

    ghost predicate Valid()
      reads this, outgoing
    {
      && outgoing.Valid()
      && (inFlight.Some? <==> flight.Some?)
      && (flight.Some? ==> Represents(inFlight.value.bits, flight.value.choices)
                           && |flight.value.choices| <= |outgoing.messages|)
    }

    constructor (f: Framing, blockSize: nat)
      ensures Valid() && State() == Fresh(blockSize) && framing == f && room == blockSize
      ensures fresh(outgoing)
    {
      framing, room, writeBuffer := f, blockSize, Zeros(blockSize);
      isSending, prevPackedCount, sendCountdown, open, inFlight := false, 0, 0, true, None;
      flight := None;
      outgoing := new SerializedMessageStorage();
    }

    method Send(message: Bytes, priority: Priority)
      requires Valid()
      modifies outgoing
      ensures Valid() && State() == Enqueue(old(State()), Entry(message, priority))
    {
      outgoing.Push(message, priority);
    }

    method StartIfNeeded(force: bool) returns (something: bool)
      requires Valid() && flight.None?
      modifies this
      ensures Valid() && State() == StartSendIfNeeded(framing, room, old(State()), force)
      ensures something <==> force || PackCount(framing, outgoing.messages, room) > 0
    {
      var packed, block := outgoing.PackInto(framing, room);
      writeBuffer := block;
      ghost var c := PackChoices(framing, outgoing.messages, room);
      PopCountCounts(packed.bits, c);
      if force || packed.bits != 0 {
        var currPackedCount := Count(packed.bits);
        sendCountdown := sendCountdown - if currPackedCount == prevPackedCount then 1 else 0;
        if sendCountdown <= packed.maxPriority || currPackedCount >= 64 {
          prevPackedCount := 0;
          sendCountdown := CRITICAL;
          isSending := true;
          inFlight := Some(packed);
          flight := Some(Flight(c, block));
          return true;
        }
        prevPackedCount := currPackedCount;
        isSending := false;
        return true;
      }
      isSending := false;
      return false;
    }

    method Poll() returns (something: bool)
      requires Valid() && (flight.Some? ==> isSending)
      modifies this
      ensures Valid() && State() == StartSend(framing, room, old(State()))
    {
      something := true;
      if !isSending {
        something := StartIfNeeded(false);
      }
    }

    method Sent()
      requires Valid() && flight.Some?
      modifies this, outgoing
      ensures Valid() && State() == HandleSent(framing, room, old(State()))
    {
      var toBeRemoved := inFlight.value;
      ghost var c := flight.value.choices;
      PopCountCounts(toBeRemoved.bits, c);
      CleanedIsLeft(outgoing.messages, toBeRemoved.bits, c);
      var sentSomething := toBeRemoved.bits != 0;
      inFlight, flight := None, None;
      outgoing.Cleanup(toBeRemoved);
      var _ := StartIfNeeded(sentSomething);
    }

    method SendFailed()
      requires Valid()
      modifies this
      ensures Valid() && State() == HandleSendError(old(State()))
    {
      isSending := false;
      open := false;
      inFlight, flight := None, None;
    }

    method Close()
      requires Valid()
      modifies this`open
      ensures Valid() && State() == HandleClose(old(State()))
    {
      open := false;
    }

    method Reopen()
      requires Valid() && !open
      modifies this`open
      ensures Valid() && State() == HandleReopen(old(State()))
    {
      open := true;
    }
  }

  // Whole runs --------------------------------------------------------------------------

  /** A block reported as sent: its bytes, and the messages it was packed from. */
  datatype SentBlock = SentBlock(bytes: Bytes, messages: seq<Entry>)

  datatype Event = Queue(m: Entry) | Poll | SendOk | SendFail | Close | Reopen

  /** The connection with its history: what was queued, and the blocks sent successfully. */
  datatype System = System(conn: Conn, queued: multiset<Entry>, sent: seq<SentBlock>)

  function Init(room: nat): System { System(Fresh(room), multiset{}, []) }

  /** Completions happen only while a send is under way; a closed socket is not polled. */
  function Step(f: Framing, room: nat, s: System, ev: Event): System {
    match ev
    case Queue(m) =>
      s.(conn := Enqueue(s.conn, m), queued := if m.data == [] then s.queued else s.queued + multiset{m})
    case Poll => if s.conn.open then s.(conn := StartSend(f, room, s.conn)) else s
    case SendOk =>
      if s.conn.flight.Some? then
        s.(conn := HandleSent(f, room, s.conn),
           sent := s.sent + [SentBlock(s.conn.flight.value.block, Chosen(s.conn.queue, s.conn.flight.value.choices))])
      else s
    case SendFail => if s.conn.flight.Some? then s.(conn := HandleSendError(s.conn)) else s
    case Close => s.(conn := HandleClose(s.conn))
    case Reopen => if s.conn.open then s else s.(conn := HandleReopen(s.conn))
  }

  function RunFrom(f: Framing, room: nat, s: System, evs: seq<Event>): System
    decreases |evs|
  {
    if evs == [] then s else RunFrom(f, room, Step(f, room, s, evs[0]), evs[1..])
  }

  function AllSent(sent: seq<SentBlock>): multiset<Entry> {
    if sent == [] then multiset{} else AllSent(sent[..|sent| - 1]) + multiset(sent[|sent| - 1].messages)
  }

  /**
   The send under way: the untouched write buffer holds exactly the chosen messages, and as
   long as they are in the outbox there is something to pack.
   */
  ghost predicate GoodFlight(f: Framing, room: nat, s: Conn) {
    s.flight.Some? ==>
      var fl := s.flight.value;
      && |fl.choices| <= |s.queue| && fl.block == s.buffer && CountTrue(fl.choices) > 0
      && Unpack(f, fl.block) == Contents(Chosen(s.queue, fl.choices))
      && PackCount(f, s.queue, room) > 0
  }

  ghost predicate GoodCounters(f: Framing, room: nat, s: Conn) {
    && 0 <= s.counters.sendCountdown <= CRITICAL
    && (s.flight.None? ==> s.counters.prevPackedCount <= PackCount(f, s.queue, room) && s.counters.prevPackedCount < 64)
    && (s.flight.Some? ==> s.counters == STARTED)
  }

  ghost predicate ConnInv(f: Framing, room: nat, s: Conn) {
    NonEmpty(s.queue) && (s.isSending <==> s.flight.Some?) && GoodFlight(f, room, s) && GoodCounters(f, room, s)
  }

  /** Each block sent reads back as its messages; what was queued is in the outbox or in a block. */
  ghost predicate HistoryInv(f: Framing, s: System) {
    && s.queued == multiset(s.conn.queue) + AllSent(s.sent)
    && forall i :: 0 <= i < |s.sent| ==> Unpack(f, s.sent[i].bytes) == Contents(s.sent[i].messages)
  }

  ghost predicate Inv(f: Framing, room: nat, s: System) { ConnInv(f, room, s.conn) && HistoryInv(f, s) }

  /** A start keeps the invariant when nothing is under way and an empty block cannot be forced out. */
  lemma StartKeeps(f: Framing, room: nat, s: Conn, force: bool)
    requires GoodFraming(f) && NonEmpty(s.queue) && s.flight.None?
    requires 0 <= s.counters.sendCountdown <= CRITICAL
    requires force && PackCount(f, s.queue, room) == 0 ==> s.counters.sendCountdown > 1
    requires force || (s.counters.prevPackedCount <= PackCount(f, s.queue, room) && s.counters.prevPackedCount < 64)
    ensures var t := StartSendIfNeeded(f, room, s, force);
            && t.queue == s.queue && t.open == s.open
            && (t.isSending <==> t.flight.Some?) && GoodFlight(f, room, t) && GoodCounters(f, room, t)
  {
    BlockFits(f, s.queue, room);
    UnpackBlock(f, s.queue, room);
    NothingChosen(s.queue, PackChoices(f, s.queue, room));
  }

  lemma {:induction false} NothingChosen(ms: seq<Entry>, c: seq<bool>)
    ensures |c| <= |ms| && CountTrue(c) == 0 ==> Chosen(ms, c) == []
    decreases |c|
  {
    if c != [] && ms != [] { NothingChosen(ms[1..], c[1..]); }
  }

  lemma EnqueueConn(f: Framing, room: nat, s: Conn, m: Entry)
    requires GoodFraming(f) && ConnInv(f, room, s)
    ensures ConnInv(f, room, Enqueue(s, m))
    ensures s.flight.Some? ==>
              Chosen(Enqueue(s, m).queue, s.flight.value.choices) == Chosen(s.queue, s.flight.value.choices)
  {
    PackCountGrows(f, s.queue, [m], room);
    if s.flight.Some? { LeftAndChosenOfAppend(s.queue, [m], s.flight.value.choices); }
  }

  /** The queue a completed send leaves behind, before anything else is packed. */
  function AfterFlight(s: Conn): Conn
    requires s.flight.Some?
  {
    s.(queue := Left(s.queue, s.flight.value.choices), flight := None)
  }

  lemma SentConn(f: Framing, room: nat, s: Conn)
    requires GoodFraming(f) && ConnInv(f, room, s) && s.flight.Some?
    ensures ConnInv(f, room, HandleSent(f, room, s))
    ensures HandleSent(f, room, s).queue == AfterFlight(s).queue
  {
    ChosenNonEmpty(s.queue, s.flight.value.choices);
    StartKeeps(f, room, AfterFlight(s), true);
  }

  lemma {:induction false} OneMoreBlock(f: Framing, queued: multiset<Entry>, queue: seq<Entry>, c: seq<bool>,
                                        sent: seq<SentBlock>, bytes: Bytes)
    requires |c| <= |queue| && queued == multiset(queue) + AllSent(sent)
    requires Unpack(f, bytes) == Contents(Chosen(queue, c))
    requires forall i :: 0 <= i < |sent| ==> Unpack(f, sent[i].bytes) == Contents(sent[i].messages)
    ensures var after := sent + [SentBlock(bytes, Chosen(queue, c))];
            && queued == multiset(Left(queue, c)) + AllSent(after)
            && forall i :: 0 <= i < |after| ==> Unpack(f, after[i].bytes) == Contents(after[i].messages)
  {
    ChosenCounts(queue, c);
    var after := sent + [SentBlock(bytes, Chosen(queue, c))];
    assert after[..|after| - 1] == sent;
  }

  lemma {:induction false} SentHistory(f: Framing, room: nat, s: System)
    requires GoodFraming(f) && Inv(f, room, s) && s.conn.flight.Some?
    ensures HistoryInv(f, Step(f, room, s, SendOk))
  {
    var fl := s.conn.flight.value;
    OneMoreBlock(f, s.queued, s.conn.queue, fl.choices, s.sent, fl.block);
    SentConn(f, room, s.conn);
  }

  lemma PollConn(f: Framing, room: nat, s: Conn)
    requires GoodFraming(f) && ConnInv(f, room, s)
    ensures ConnInv(f, room, StartSend(f, room, s)) && StartSend(f, room, s).queue == s.queue
  {
    if !s.isSending { StartKeeps(f, room, s, false); }
  }

  lemma StepKeeps(f: Framing, room: nat, s: System, ev: Event)
    requires GoodFraming(f) && Inv(f, room, s)
    ensures Inv(f, room, Step(f, room, s, ev))
  {
    match ev
    case Queue(m) => EnqueueConn(f, room, s.conn, m);
    case Poll => PollConn(f, room, s.conn);
    case SendOk => if s.conn.flight.Some? { SentConn(f, room, s.conn); SentHistory(f, room, s); }
    case SendFail =>
    case Close =>
    case Reopen =>
  }

  lemma {:induction false} RunKeeps(f: Framing, room: nat, s: System, evs: seq<Event>)
    requires GoodFraming(f) && Inv(f, room, s)
    ensures Inv(f, room, RunFrom(f, room, s, evs))
    decreases |evs|
  {
    if evs != [] {
      StepKeeps(f, room, s, evs[0]);
      RunKeeps(f, room, Step(f, room, s, evs[0]), evs[1..]);
    }
  }

  // Main results ------------------------------------------------------------------------

  /**
   Over every run: a send is under way exactly while the flag says so, and the write buffer
   still holds its block; every message queued is in the outbox or in exactly one block sent
   successfully, and the receiver of that block reads it back.
   */
  lemma SendRunsAreSafe(f: Framing, room: nat, evs: seq<Event>)
    requires GoodFraming(f)
    ensures var s := RunFrom(f, room, Init(room), evs);
            && (s.conn.isSending <==> s.conn.flight.Some?)
            && (s.conn.isSending ==>
                  s.conn.flight.value.block == s.conn.buffer && CountTrue(s.conn.flight.value.choices) > 0)
            && s.queued == multiset(s.conn.queue) + AllSent(s.sent)
            && (forall i :: 0 <= i < |s.sent| ==> Unpack(f, s.sent[i].bytes) == Contents(s.sent[i].messages))
  {
    RunKeeps(f, room, Init(room), evs);
  }

  /** While a send is under way neither queueing nor polling touches its buffer or its messages. */
  lemma FlightIsUndisturbed(f: Framing, room: nat, s: System, ev: Event)
    requires GoodFraming(f) && Inv(f, room, s) && s.conn.isSending && (ev.Queue? || ev.Poll?)
    ensures var t := Step(f, room, s, ev);
            && t.conn.buffer == s.conn.buffer && t.conn.flight == s.conn.flight
            && Chosen(t.conn.queue, s.conn.flight.value.choices) == Chosen(s.conn.queue, s.conn.flight.value.choices)
  {
    if ev.Queue? { EnqueueConn(f, room, s.conn, ev.m); }
  }

  /** A successful completion removes the messages of its block and no other. */
  lemma CompletionRemoves(f: Framing, room: nat, s: System)
    requires GoodFraming(f) && Inv(f, room, s) && s.conn.isSending
    ensures var t, c := Step(f, room, s, SendOk), s.conn.flight.value.choices;
            && t.sent == s.sent + [SentBlock(s.conn.flight.value.block, Chosen(s.conn.queue, c))]
            && t.conn.queue == Left(s.conn.queue, c)
  {
    SentConn(f, room, s.conn);
  }

  predicate NoReopen(evs: seq<Event>) { forall i :: 0 <= i < |evs| ==> !evs[i].Reopen? }

  /** A failed send removes nothing, and nothing is sent or removed until the socket is open again. */
  lemma FailureRemovesNothing(f: Framing, room: nat, s: System, evs: seq<Event>)
    requires s.conn.flight.Some? && NoReopen(evs)
    ensures var t := Step(f, room, s, SendFail);
            && t.conn.queue == s.conn.queue && t.sent == s.sent && !t.conn.open && t.conn.flight.None?
            && s.conn.queue <= RunFrom(f, room, t, evs).conn.queue && RunFrom(f, room, t, evs).sent == s.sent
  {
    ClosedStays(f, room, Step(f, room, s, SendFail), evs);
  }

  lemma {:induction false} ClosedStays(f: Framing, room: nat, s: System, evs: seq<Event>)
    requires !s.conn.open && s.conn.flight.None? && NoReopen(evs)
    ensures s.conn.queue <= RunFrom(f, room, s, evs).conn.queue && RunFrom(f, room, s, evs).sent == s.sent
    decreases |evs|
  {
    if evs != [] {
      var t := Step(f, room, s, evs[0]);
      assert !evs[0].Reopen? && s.conn.queue <= t.conn.queue;
      ClosedStays(f, room, t, evs[1..]);
    }
  }

  /** After a failed send the messages it had packed wait to be sent again. */
  lemma FailureIsRetried(f: Framing, room: nat, s: System)
    requires GoodFraming(f) && Inv(f, room, s) && s.conn.flight.Some?
    ensures var t := Step(f, room, Step(f, room, s, SendFail), Reopen);
            Waiting(f, room, t) && t.conn.open && t.conn.queue == s.conn.queue
  {
    StepKeeps(f, room, s, SendFail);
    StepKeeps(f, room, Step(f, room, s, SendFail), Reopen);
  }

  // Waiting is bounded --------------------------------------------------------------------

  /** No send is reported as finished; the socket may be closed and opened again meanwhile. */
  predicate NoCompletion(evs: seq<Event>) { forall i :: 0 <= i < |evs| ==> !evs[i].SendOk? && !evs[i].SendFail? }

  /** How many of the polls find the socket open. */
  function OpenPolls(evs: seq<Event>, open: bool): nat {
    if evs == [] then 0
    else match evs[0]
      case Poll => (if open then 1 else 0) + OpenPolls(evs[1..], open)
      case Close => OpenPolls(evs[1..], false)
      case Reopen => OpenPolls(evs[1..], true)
      case _ => OpenPolls(evs[1..], open)
  }

  /** Waiting: nothing is under way, and something could be packed. */
  ghost predicate Waiting(f: Framing, room: nat, s: System) {
    Inv(f, room, s) && !s.conn.isSending && PackCount(f, s.conn.queue, room) > 0
  }

  /** Decreases at every poll that does not start a send. */
  function Patience(s: System): int { 64 - s.conn.counters.prevPackedCount + s.conn.counters.sendCountdown }

  lemma PollProgress(f: Framing, room: nat, s: System)
    requires GoodFraming(f) && Waiting(f, room, s) && s.conn.open
    ensures var t := Step(f, room, s, Poll);
            t.conn.isSending || (Waiting(f, room, t) && t.conn.open && 1 < Patience(t) < Patience(s))
  {
    StepKeeps(f, room, s, Poll);
    BlockFits(f, s.conn.queue, room);
  }

  /** Queueing, closing, reopening, and polling a closed socket lose no patience. */
  lemma OtherProgress(f: Framing, room: nat, s: System, ev: Event)
    requires GoodFraming(f) && Waiting(f, room, s) && !ev.SendOk? && !ev.SendFail? && (ev.Poll? ==> !s.conn.open)
    ensures Waiting(f, room, Step(f, room, s, ev)) && Patience(Step(f, room, s, ev)) == Patience(s)
  {
    StepKeeps(f, room, s, ev);
    if ev.Queue? { PackCountGrows(f, s.conn.queue, [ev.m], room); }
  }

  lemma {:induction false} SendingStays(f: Framing, room: nat, s: System, evs: seq<Event>)
    requires s.conn.isSending && NoCompletion(evs)
    ensures RunFrom(f, room, s, evs).conn.isSending
    decreases |evs|
  {
    if evs != [] {
      assert !evs[0].SendOk? && !evs[0].SendFail?;
      SendingStays(f, room, Step(f, room, s, evs[0]), evs[1..]);
    }
  }

  /** How the number of open polls counts down. */
  lemma OpenPollsStep(f: Framing, room: nat, s: System, evs: seq<Event>)
    requires evs != [] && !evs[0].SendOk? && !evs[0].SendFail?
    requires evs[0].Poll? && s.conn.open ==> Step(f, room, s, Poll).conn.open
    ensures OpenPolls(evs, s.conn.open) ==
            OpenPolls(evs[1..], Step(f, room, s, evs[0]).conn.open) + if evs[0].Poll? && s.conn.open then 1 else 0
  {
  }

  /** The next state after the first of these events, still waiting or already sending. */
  lemma {:induction false} OneEvent(f: Framing, room: nat, s: System, evs: seq<Event>)
    requires GoodFraming(f) && Waiting(f, room, s) && NoCompletion(evs) && evs != []
    ensures var t := Step(f, room, s, evs[0]);
            && NoCompletion(evs[1..])
            && (t.conn.isSending
                || (&& Waiting(f, room, t)
                    && Patience(t) - OpenPolls(evs[1..], t.conn.open) <= Patience(s) - OpenPolls(evs, s.conn.open)
                    && (Patience(t) > 1 || Patience(t) == Patience(s))))
  {
    assert !evs[0].SendOk? && !evs[0].SendFail?;
    if evs[0].Poll? && s.conn.open {
      PollProgress(f, room, s);
    } else {
      OtherProgress(f, room, s, evs[0]);
    }
    if !Step(f, room, s, evs[0]).conn.isSending { OpenPollsStep(f, room, s, evs); }
  }

  lemma {:induction false} PatienceRunsOut(f: Framing, room: nat, s: System, evs: seq<Event>)
    requires GoodFraming(f) && Waiting(f, room, s) && NoCompletion(evs)
    requires OpenPolls(evs, s.conn.open) >= Max(1, Patience(s) - 1)
    ensures RunFrom(f, room, s, evs).conn.isSending
    decreases |evs|
  {
    var t := Step(f, room, s, evs[0]);
    OneEvent(f, room, s, evs);
    if t.conn.isSending { SendingStays(f, room, t, evs[1..]); } else { PatienceRunsOut(f, room, t, evs[1..]); }
  }

  /**
   Whatever is queued meanwhile, and however often the socket is closed and opened again, a
   packable outbox is being sent after at most 64 polls of an open socket plus the range of
   priorities.
   */
  lemma {:induction false} BoundedFlush(f: Framing, room: nat, s: System, evs: seq<Event>)
    requires GoodFraming(f) && Waiting(f, room, s) && NoCompletion(evs)
    requires OpenPolls(evs, s.conn.open) >= 64 + CRITICAL
    ensures RunFrom(f, room, s, evs).conn.isSending
  {
    PatienceRunsOut(f, room, s, evs);
  }

  lemma {:induction false} QueueOnlyGrows(f: Framing, room: nat, s: System, evs: seq<Event>)
    requires NoCompletion(evs)
    ensures PackCount(f, s.conn.queue, room) <= PackCount(f, RunFrom(f, room, s, evs).conn.queue, room)
    decreases |evs|
  {
    if evs != [] {
      assert !evs[0].SendOk? && !evs[0].SendFail?;
      QueueOnlyGrows(f, room, Step(f, room, s, evs[0]), evs[1..]);
      if evs[0].Queue? { PackCountGrows(f, s.conn.queue, [evs[0].m], room); }
    }
  }

  /** The other half: while nothing queued so far can be packed, no send starts. */
  lemma {:induction false} NothingPackableNothingSent(f: Framing, room: nat, s: System, evs: seq<Event>)
    requires NoCompletion(evs) && !s.conn.isSending
    requires PackCount(f, RunFrom(f, room, s, evs).conn.queue, room) == 0
    ensures !RunFrom(f, room, s, evs).conn.isSending
    decreases |evs|
  {
    if evs != [] {
      assert !evs[0].SendOk? && !evs[0].SendFail?;
      QueueOnlyGrows(f, room, s, evs);
      NothingPackableNothingSent(f, room, Step(f, room, s, evs[0]), evs[1..]);
    }
  }

  // The countdown, exactly ----------------------------------------------------------------

  function Polls(j: nat): seq<Event> { seq(j, _ => Poll) }

  /** How many polls it takes, with n messages packed each time and p their highest priority. */
  function PollsNeeded(c: Counters, n: nat, p: Priority): nat {
    if n >= 64 then 1 else Max(1, c.sendCountdown - p + if n == c.prevPackedCount then 0 else 1)
  }

  /** Nothing is under way, the socket is open, and n > 0 messages can be packed, p their highest priority. */
  ghost predicate Ready(f: Framing, room: nat, s: Conn, n: nat, p: Priority) {
    && s.open && !s.isSending && n > 0
    && PackCount(f, s.queue, room) == n && PackPriority(f, s.queue, room) == p
  }

  /** One poll: either the send starts, and then one poll was needed, or one poll less is. */
  lemma ReadyPoll(f: Framing, room: nat, s: System, n: nat, p: Priority)
    requires Ready(f, room, s.conn, n, p)
    ensures var t, needed := Step(f, room, s, Poll), PollsNeeded(s.conn.counters, n, p);
            && t.conn.queue == s.conn.queue
            && (t.conn.isSending <==> needed == 1)
            && (needed > 1 ==> Ready(f, room, t.conn, n, p) && PollsNeeded(t.conn.counters, n, p) == needed - 1)
  {
    BlockFits(f, s.conn.queue, room);
  }

  lemma PollsStep(f: Framing, room: nat, s: System, j: nat)
    requires j > 0
    ensures RunFrom(f, room, s, Polls(j)) == RunFrom(f, room, Step(f, room, s, Poll), Polls(j - 1))
    ensures NoCompletion(Polls(j))
  {
    assert Polls(j)[0] == Poll && Polls(j)[1..] == Polls(j - 1);
  }

  /** From any counters: the send starts at exactly the poll with that number. */
  lemma {:induction false} SendBeginsAtPoll(f: Framing, room: nat, s: System, n: nat, p: Priority, j: nat)
    requires Ready(f, room, s.conn, n, p)
    ensures var t := RunFrom(f, room, s, Polls(j));
            t.conn.isSending <==> j >= PollsNeeded(s.conn.counters, n, p)
    decreases j
  {
    if j > 0 {
      var t := Step(f, room, s, Poll);
      ReadyPoll(f, room, s, n, p);
      PollsStep(f, room, s, j);
      if t.conn.isSending {
        assert NoCompletion(Polls(j - 1));
        SendingStays(f, room, t, Polls(j - 1));
      } else {
        SendBeginsAtPoll(f, room, t, n, p, j - 1);
      }
    }
  }

  lemma {:induction false} ChosenHolds(ms: seq<Entry>, c: seq<bool>, m: Entry)
    ensures m in Chosen(ms, c) <==> exists i :: 0 <= i < |ms| && i < |c| && c[i] && ms[i] == m
    decreases |ms|
  {
    if ms != [] && c != [] {
      ChosenHolds(ms[1..], c[1..], m);
      if m in Chosen(ms[1..], c[1..]) {
        var i :| 0 <= i < |ms[1..]| && i < |c[1..]| && c[1..][i] && ms[1..][i] == m;
        assert c[i + 1] && ms[i + 1] == m;
      }
      if i :| 0 <= i < |ms| && i < |c| && c[i] && ms[i] == m {
        assert i > 0 ==> c[1..][i - 1] && ms[1..][i - 1] == m;
      }
    }
  }

  /** Only messages that would be packed count for the priority, and the highest of them does. */
  lemma PackPriorityIsHighest(f: Framing, ms: seq<Entry>, room: nat)
    ensures var c, p := PackChoices(f, ms, room), PackPriority(f, ms, room);
            && (forall i :: 0 <= i < |c| && c[i] ==> ms[i].priority <= p)
            && (p == 0 || exists i :: 0 <= i < |c| && c[i] && ms[i].priority == p)
  {
    var c := PackChoices(f, ms, room);
    var chosen := Chosen(ms, c);
    TopPriorityIsMax(chosen);
    forall i | 0 <= i < |c| && c[i] ensures ms[i].priority <= PackPriority(f, ms, room) { ChosenHolds(ms, c, ms[i]); }
    if PackPriority(f, ms, room) != 0 {
      var j :| 0 <= j < |chosen| && chosen[j].priority == TopPriority(chosen);
      ChosenHolds(ms, c, chosen[j]);
    }
  }

  /** With nothing to pack a poll changes nothing but the write buffer. */
  lemma PollWithNothing(f: Framing, room: nat, s: System)
    requires s.conn.open && !s.conn.isSending && PackCount(f, s.conn.queue, room) == 0
    ensures var t := Step(f, room, s, Poll); t == s.(conn := s.conn.(buffer := t.conn.buffer))
  {
    BlockFits(f, s.conn.queue, room);
  }

  /**
   From the counters that a started send leaves behind, with an outbox that does not change:
   fewer than 64 packable messages of highest priority p wait through 4 - p polls and are sent
   with the next one; 64 are sent with the first.
   */
  lemma {:induction false} CountdownIsExact(f: Framing, room: nat, s: System, n: nat, p: Priority, j: nat)
    requires Ready(f, room, s.conn, n, p) && s.conn.counters == Counters(0, 4)
    ensures RunFrom(f, room, s, Polls(j)).conn.isSending <==> j >= if n >= 64 then 1 else 5 - p
  {
    SendBeginsAtPoll(f, room, s, n, p, j);
  }

  /**
   After a failed send and a reconnect the same outbox goes through the full countdown again:
   fewer than 64 packable messages of highest priority p are sent with poll 5 - p, 64 with the first.
   */
  lemma {:induction false} FailureThenPolls(f: Framing, room: nat, s: System, n: nat, p: Priority, j: nat)
    requires GoodFraming(f) && Inv(f, room, s) && s.conn.isSending
    requires PackCount(f, s.conn.queue, room) == n && PackPriority(f, s.conn.queue, room) == p
    ensures var t := Step(f, room, Step(f, room, s, SendFail), Reopen);
            && t.conn == s.conn.(isSending := false, open := true, flight := None) && t.sent == s.sent
            && (RunFrom(f, room, t, Polls(j)).conn.isSending <==> j >= if n >= 64 then 1 else 5 - p)
  {
    CountdownIsExact(f, room, Step(f, room, Step(f, room, s, SendFail), Reopen), n, p, j);
  }

  /** A new connection does not count down: the first poll sends a first message that fits, if there is one. */
  lemma NewConnectionSends(f: Framing, room: nat, m: Entry)
    ensures var s := Step(f, room, Step(f, room, Init(room), Queue(m)), Poll);
            s.conn.isSending <==> m.data != [] && |f.encode(m.data)| <= room
  {
    var s := Step(f, room, Init(room), Queue(m));
    BlockFits(f, s.conn.queue, room);
    if m.data == [] {
      assert s.conn.queue == [];
    } else {
      assert s.conn.queue == [m];
      PackOnly(f, m, room);
      if |f.encode(m.data)| <= room { ReadyPoll(f, room, s, 1, PackPriority(f, [m], room)); }
    }
  }

  lemma PackOnly(f: Framing, m: Entry, room: nat)
    ensures PackCount(f, [m], room) == if |f.encode(m.data)| <= room then 1 else 0
  {
    assert Considered([m]) == [m] && [m][1..] == [];
    var c := PackChoices(f, [m], room);
    assert c == [|f.encode(m.data)| <= room] && c[1..] == [] && CountTrue(c[1..]) == 0;
  }

  /** What a completed send leaves is packed again at once. */
  lemma CompletionPacks(f: Framing, room: nat, s: Conn, n: nat, p: Priority)
    requires s.flight.Some? && s.open && CountTrue(s.flight.value.choices) > 0 && s.counters == STARTED
    requires var left := AfterFlight(s).queue; PackCount(f, left, room) == n && PackPriority(f, left, room) == p
    ensures var t := HandleSent(f, room, s);
            && (n > 0 ==> (t.isSending <==> n >= 64 || p == 4))
            && (!t.isSending && n > 0 ==> Ready(f, room, t, n, p) && t.counters == Counters(n, 4))
            && (n == 0 ==> !t.isSending && t.counters == Counters(0, 3))
  {
    BlockFits(f, AfterFlight(s).queue, room);
    var left := AfterFlight(s).queue;
    NothingChosen(left, PackChoices(f, left, room));
  }

  /**
   What is left in the outbox when a send completes is sent at once exactly when something
   critical or 64 messages can be packed; else the packable messages wait for 4 - p polls.
   */
  lemma {:induction false} CompletionThenPolls(f: Framing, room: nat, s: System, n: nat, p: Priority, j: nat)
    requires GoodFraming(f) && Inv(f, room, s) && s.conn.isSending && s.conn.open
    requires var left := AfterFlight(s.conn).queue; PackCount(f, left, room) == n && PackPriority(f, left, room) == p
    ensures var t := Step(f, room, s, SendOk);
            && (t.conn.isSending <==> n >= 64 || (n > 0 && p == 4))
            && (n > 0 ==> (RunFrom(f, room, t, Polls(j)).conn.isSending <==> n >= 64 || j >= 4 - p))
            && (n == 0 ==> t.conn.counters == Counters(0, 3))
  {
    SentConn(f, room, s.conn);
    CompletionPacks(f, room, s.conn, n, p);
    var t := Step(f, room, s, SendOk);
    assert NoCompletion(Polls(j));
    if t.conn.isSending {
      SendingStays(f, room, t, Polls(j));
    } else if n > 0 {
      SendBeginsAtPoll(f, room, t, n, p, j);
    }
  }
}
