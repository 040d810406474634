/**
 One direction of an in-process connection: the producer pushes into one of two message
 storages under a lock; the consumer swaps the storages under the same lock and then goes
 through the other one without it. All interleavings of the two are considered.
 */
module Direct {
  import opened Basics
  import opened Queues

  datatype Consumer = Idle | Fetching(buffer: bool, accepts: seq<bool>)

  /**
   Of the two storages, `current` names the consumer's, with the messages `mine`; the other
   one holds `theirs`. `sent` and `received` are the history. While fetching, the consumer
   holds on to one storage and `accepts` are the handler's answers so far.
   */
  datatype State = State(
    mine: seq<Stored>, theirs: seq<Stored>, current: bool, consumer: Consumer, sent: seq<Stored>, received: seq<Stored>)

  /** The messages of one of the storages. */
  function Buffer(s: State, which: bool): seq<Stored> { if which == s.current then s.mine else s.theirs }

  function WithBuffer(s: State, which: bool, ms: seq<Stored>): State {
    if which == s.current then s.(mine := ms) else s.(theirs := ms)
  }

  datatype Event = Send(m: Stored) | Begin | Handle(accept: bool) | Finish

  function Init(): State { State([], [], false, Idle, [], []) }

  /** The storage the producer would push into. */
  function ProducerBuffer(s: State): bool { !s.current }

  function Push(s: State, m: Stored): State {
    WithBuffer(s, ProducerBuffer(s), Buffer(s, ProducerBuffer(s)) + [m]).(sent := s.sent + [m])
  }

  function Swap(s: State): State {
    if s.consumer.Idle? then
      s.(mine := s.theirs, theirs := s.mine, current := !s.current, consumer := Fetching(!s.current, []))
    else s
  }

  /** The handler is offered the next message of the consumer's storage. */
  function Offer(s: State, accept: bool): State {
    if s.consumer.Fetching? && |s.consumer.accepts| < |Buffer(s, s.consumer.buffer)| then
      var m := Buffer(s, s.consumer.buffer)[|s.consumer.accepts|];
      s.(consumer := Fetching(s.consumer.buffer, s.consumer.accepts + [accept]),
         received := s.received + if accept then [m] else [])
    else s
  }

  /** All were offered: what the handler accepted is erased. */
  function Erase(s: State): State {
    if s.consumer.Fetching? && |s.consumer.accepts| == |Buffer(s, s.consumer.buffer)| then
      WithBuffer(s, s.consumer.buffer, AfterFetch(Buffer(s, s.consumer.buffer), s.consumer.accepts)).(consumer := Idle)
    else s
  }

  function Step(s: State, ev: Event): State {
    match ev
    case Send(m) => Push(s, m)
    case Begin => Swap(s)
    case Handle(accept) => Offer(s, accept)
    case Finish => Erase(s)
  }

  function Run(evs: seq<Event>): State
    decreases |evs|
  {
    if evs == [] then Init() else Step(Run(evs[..|evs| - 1]), evs[|evs| - 1])
  }

  /** The fetching consumer holds on to its own storage and got no more answers than messages. */
  ghost predicate Shape(s: State) {
    s.consumer.Fetching? ==> s.consumer.buffer == s.current && |s.consumer.accepts| <= |s.mine|
  }

  function Answers(s: State): seq<bool> { if s.consumer.Idle? then [] else s.consumer.accepts }

  /** The consumer's messages not handled yet: those refused so far, then those not offered yet. */
  function Unhandled(s: State): seq<Stored>
    requires |Answers(s)| <= |s.mine|
  {
    Refused(s.mine[..|Answers(s)|], Answers(s)) + s.mine[|Answers(s)|..]
  }

  ghost predicate Conserved(s: State) {
    Shape(s) && multiset(s.sent) == multiset(s.received) + multiset(Unhandled(s)) + multiset(s.theirs)
  }

  /** The order, as long as the handler refused nothing. */
  ghost predicate InOrder(s: State) {
    && Shape(s) && s.sent == s.received + Unhandled(s) + s.theirs
    && AllAccepted(Answers(s)) && (s.consumer.Idle? ==> s.mine == [])
  }

  /** No message is sent with the hop count that marks handled messages. */
  predicate HopsInRange(ms: seq<Stored>) { FewHops(ms) }

  lemma {:induction false} RefusedSnoc(ms: seq<Stored>, accepts: seq<bool>, m: Stored, a: bool)
    requires |ms| == |accepts|
    ensures Refused(ms + [m], accepts + [a]) == Refused(ms, accepts) + if a then [] else [m]
  {
    RefusedConcat(ms, accepts, [m], [a]);
    assert [m][1..] == [] && [a][1..] == [];
  }

  lemma MoveOne(sent: multiset<Stored>, received: seq<Stored>, refused: seq<Stored>, m: Stored, rest: seq<Stored>,
                other: seq<Stored>, accept: bool)
    requires sent == multiset(received) + multiset(refused + ([m] + rest)) + multiset(other)
    ensures sent == multiset(received + if accept then [m] else [])
                    + multiset(refused + (if accept then [] else [m]) + rest) + multiset(other)
  {
  }

  lemma NothingAnswered(s: State)
    requires s.consumer.Idle?
    ensures Unhandled(s) == s.mine
  {
    assert s.mine[..0] == [] && s.mine[0..] == s.mine;
    assert [] + s.mine == s.mine;
  }

  lemma FirstOffered(ms: seq<Stored>, n: nat)
    requires n < |ms|
    ensures ms[n..] == [ms[n]] + ms[n + 1..] && ms[..n + 1] == ms[..n] + [ms[n]]
  {
  }

  lemma RefusedOneMore(ms: seq<Stored>, accepts: seq<bool>, accept: bool)
    requires |accepts| < |ms|
    ensures Refused(ms[..|accepts| + 1], accepts + [accept]) ==
            Refused(ms[..|accepts|], accepts) + if accept then [] else [ms[|accepts|]]
  {
    FirstOffered(ms, |accepts|);
    RefusedSnoc(ms[..|accepts|], accepts, ms[|accepts|], accept);
  }

  /** The handler's next answer turns the first message not offered yet into a handled one. */
  lemma OfferSplits(s: State, accept: bool)
    requires Shape(s) && s.consumer.Fetching? && |s.consumer.accepts| < |s.mine|
    ensures var n := |s.consumer.accepts|;
            var refused := Refused(s.mine[..n], s.consumer.accepts);
            && Unhandled(s) == refused + ([s.mine[n]] + s.mine[n + 1..])
            && Unhandled(Offer(s, accept)) == refused + (if accept then [] else [s.mine[n]]) + s.mine[n + 1..]
  {
    FirstOffered(s.mine, |s.consumer.accepts|);
    RefusedOneMore(s.mine, s.consumer.accepts, accept);
  }

  lemma {:induction false} OfferConserves(s: State, accept: bool)
    requires Conserved(s)
    ensures Conserved(Offer(s, accept))
  {
    if s.consumer.Fetching? && |s.consumer.accepts| < |s.mine| {
      var n := |s.consumer.accepts|;
      OfferSplits(s, accept);
      MoveOne(multiset(s.sent), s.received, Refused(s.mine[..n], s.consumer.accepts), s.mine[n], s.mine[n + 1..],
              s.theirs, accept);
    }
  }

  lemma MoveAccepted<T>(whole: seq<T>, received: seq<T>, m: T, rest: seq<T>, other: seq<T>)
    requires whole == received + ([m] + rest) + other
    ensures whole == (received + [m]) + rest + other
  {
  }

  lemma OfferInOrder(s: State)
    requires InOrder(s)
    ensures InOrder(Offer(s, true))
  {
    if s.consumer.Fetching? && |s.consumer.accepts| < |s.mine| {
      var n, accepts := |s.consumer.accepts|, s.consumer.accepts;
      var t := Offer(s, true);
      OfferSplits(s, true);
      RefusedNone(s.mine[..n], accepts);
      RefusedNone(s.mine[..n + 1], accepts + [true]);
      assert AllAccepted(accepts + [true]);
      assert Unhandled(s) == s.mine[n..] == [s.mine[n]] + s.mine[n + 1..];
      assert Unhandled(t) == s.mine[n + 1..];
      MoveAccepted(s.sent, s.received, s.mine[n], s.mine[n + 1..], s.theirs);
    }
  }

  lemma RefusedAreSent(s: State)
    requires Conserved(s) && HopsInRange(s.sent)
    ensures FewHops(Unhandled(s))
  {
    forall i | 0 <= i < |Unhandled(s)| ensures !TooManyHops(Unhandled(s)[i]) {
      assert Unhandled(s)[i] in multiset(Unhandled(s));
      assert Unhandled(s)[i] in multiset(s.sent);
    }
  }

  lemma EraseKeepsRefused(s: State)
    requires Conserved(s) && HopsInRange(s.sent) && s.consumer.Fetching? && |s.consumer.accepts| == |s.mine|
    ensures var t := Erase(s);
            && t == s.(mine := Refused(s.mine, s.consumer.accepts), consumer := Idle)
            && t.mine == Unhandled(s) == Unhandled(t)
  {
    var ms, accepts := s.mine, s.consumer.accepts;
    assert ms[..|accepts|] == ms && ms[|accepts|..] == [];
    assert Unhandled(s) == Refused(ms, accepts);
    RefusedAreSent(s);
    FetchKeepsRefusedIff(ms, accepts);
    NothingAnswered(Erase(s));
  }

  lemma {:induction false} EraseKeeps(s: State)
    requires Conserved(s) && HopsInRange(s.sent)
    ensures Conserved(Erase(s))
    ensures InOrder(s) ==> InOrder(Erase(s))
  {
    if s.consumer.Fetching? && |s.consumer.accepts| == |s.mine| {
      EraseKeepsRefused(s);
      RefusedNone(s.mine, s.consumer.accepts);
    }
  }

  lemma AppendLast<T>(whole: seq<T>, a: seq<T>, b: seq<T>, c: seq<T>, x: T)
    requires whole == a + b + c
    ensures whole + [x] == a + b + (c + [x])
  {
  }

  lemma {:induction false} PushKeeps(s: State, m: Stored)
    requires Shape(s)
    ensures Conserved(s) ==> Conserved(Push(s, m))
    ensures InOrder(s) ==> InOrder(Push(s, m))
  {
    var t := Push(s, m);
    assert Answers(t) == Answers(s) && t.mine == s.mine && t.theirs == s.theirs + [m];
    if InOrder(s) { AppendLast(s.sent, s.received, Unhandled(s), s.theirs, m); }
  }

  lemma EmptyMiddle<T>(a: seq<T>, b: seq<T>, c: seq<T>)
    requires b == []
    ensures a + b + c == a + c + b
  {
  }

  lemma {:induction false} SwapKeeps(s: State)
    requires Shape(s)
    ensures Conserved(s) ==> Conserved(Swap(s))
    ensures InOrder(s) ==> InOrder(Swap(s))
  {
    var t := Swap(s);
    if s.consumer.Idle? {
      NothingAnswered(s);
      assert t.mine[..0] == [] && t.mine[0..] == t.mine;
      assert Unhandled(t) == [] + s.theirs == s.theirs;
      if InOrder(s) { EmptyMiddle(s.received, s.mine, s.theirs); }
    }
  }

  lemma {:induction false} StepKeeps(s: State, ev: Event)
    requires Conserved(s) && HopsInRange(s.sent)
    ensures Conserved(Step(s, ev))
    ensures InOrder(s) && (ev.Handle? ==> ev.accept) ==> InOrder(Step(s, ev))
  {
    match ev
    case Send(m) => PushKeeps(s, m);
    case Begin => SwapKeeps(s);
    case Handle(accept) => OfferConserves(s, accept); if accept && InOrder(s) { OfferInOrder(s); }
    case Finish => EraseKeeps(s);
  }

  lemma SentGrows(s: State, ev: Event)
    ensures HopsInRange(Step(s, ev).sent) ==> HopsInRange(s.sent)
  {
    var t := Step(s, ev);
    assert forall i :: 0 <= i < |s.sent| ==> t.sent[i] == s.sent[i];
  }

  predicate NoneRefused(evs: seq<Event>) { forall i :: 0 <= i < |evs| && evs[i].Handle? ==> evs[i].accept }

  lemma {:induction false} RunKeeps(evs: seq<Event>)
    requires HopsInRange(Run(evs).sent)
    ensures Conserved(Run(evs))
    ensures NoneRefused(evs) ==> InOrder(Run(evs))
    decreases |evs|
  {
    if evs == [] {
      NothingAnswered(Init());
    } else {
      var before, last := evs[..|evs| - 1], evs[|evs| - 1];
      SentGrows(Run(before), last);
      RunKeeps(before);
      StepKeeps(Run(before), last);
    }
  }

  /**
   In every interleaving the fetching consumer holds a storage the producer does not push
   into, and every message sent was accepted or still waits in one of the storages, exactly
   once; if the handler refuses nothing, what was received is the beginning of what was sent.
   */
  lemma DirectConnectionIsSafe(evs: seq<Event>)
    requires HopsInRange(Run(evs).sent)
    ensures var s := Run(evs);
            && |Answers(s)| <= |s.mine|
            && (s.consumer.Fetching? ==> s.consumer.buffer == s.current != ProducerBuffer(s))
            && multiset(s.sent) == multiset(s.received) + multiset(Unhandled(s)) + multiset(s.theirs)
            && (NoneRefused(evs) ==> s.received <= s.sent)
  {
    RunKeeps(evs);
  }

  // The shared state object ------------------------------------------------------------

  /** The handler's answers for the messages offered one after the other. */
  function Offers(s: State, accepts: seq<bool>): State
    decreases |accepts|
  {
    if accepts == [] then s else Offers(Offer(s, accepts[0]), accepts[1..])
  }

  /** A fetch that nothing interrupts: swap, offer every message, erase what was accepted. */
  function Fetch(s: State, accepts: seq<bool>): State { Erase(Offers(Swap(s), accepts)) }

  lemma AcceptedOneMore(ms: seq<Stored>, n: nat, accepts: seq<bool>)
    requires accepts != [] && n + |accepts| == |ms|
    ensures Accepted(ms[n..], accepts) == (if accepts[0] then [ms[n]] else []) + Accepted(ms[n + 1..], accepts[1..])
  {
    assert ms[n..][1..] == ms[n + 1..];
  }

  lemma {:induction false} OffersAll(s: State, accepts: seq<bool>)
    requires s.consumer.Fetching? && s.consumer.buffer == s.current
    requires |s.consumer.accepts| + |accepts| == |s.mine|
    ensures Offers(s, accepts) ==
            s.(consumer := Fetching(s.current, s.consumer.accepts + accepts),
               received := s.received + Accepted(s.mine[|s.consumer.accepts|..], accepts))
    decreases |accepts|
  {
    var n := |s.consumer.accepts|;
    if accepts == [] {
      assert s.consumer.accepts + accepts == s.consumer.accepts && s.mine[n..] == [];
      assert s.received + [] == s.received;
    } else {
      var first := if accepts[0] then [s.mine[n]] else [];
      OffersAll(Offer(s, accepts[0]), accepts[1..]);
      AcceptedOneMore(s.mine, n, accepts);
      Assoc(s.consumer.accepts, [accepts[0]], accepts[1..]);
      assert [accepts[0]] + accepts[1..] == accepts;
      Assoc(s.received, first, Accepted(s.mine[n + 1..], accepts[1..]));
    }
  }

  /** What an uninterrupted fetch does to the storages and the history. */
  lemma FetchAllOf(s: State, accepts: seq<bool>)
    requires s.consumer.Idle? && |accepts| == |s.theirs|
    ensures Fetch(s, accepts) ==
            State(AfterFetch(s.theirs, accepts), s.mine, !s.current, Idle, s.sent,
                  s.received + Accepted(s.theirs, accepts))
  {
    OffersAll(Swap(s), accepts);
    assert [] + accepts == accepts && s.theirs[0..] == s.theirs;
  }

  /** Two message storages; the flag tells which of them is the consumer's. */
  class DoubleBuffer {
    const one: MessageStorage
    const two: MessageStorage
    var flipped: bool
    ghost var sent: seq<Stored>
    ghost var received: seq<Stored>

    ghost predicate Valid() reads this { one != two }

    function Current(): MessageStorage reads this { if flipped then two else one }

    function Next(): MessageStorage reads this { if flipped then one else two }

    /** The abstract state between two locked operations. */
    ghost function View(): State
      reads this, one, two
    {
      State(Current().messages, Next().messages, flipped, Idle, sent, received)
    }

    constructor ()
      ensures Valid() && View() == Init() && fresh(one) && fresh(two)
    {
      one := new MessageStorage();
      two := new MessageStorage();
      flipped, sent, received := false, [], [];
    }

    method PushNext(m: Stored)
      requires Valid()
      modifies this, one, two
      ensures Valid() && View() == Push(old(View()), m)
      ensures Next() == old(Next()) && Next().messages == old(Next().messages) + [m]
      ensures Current().messages == old(Current().messages) && sent == old(sent) + [m] && received == old(received)
    {
      Next().Push(m);
      sent := sent + [m];
    }

    /** Swaps under the lock, then goes through what was pushed so far. */
    method SwapAndFetch(accepts: seq<bool>) returns (fetchedSome: bool)
      requires Valid() && |accepts| == |Next().messages|
      modifies this, one, two
      ensures Valid() && View() == Fetch(old(View()), accepts)
      ensures fetchedSome <==> exists i :: 0 <= i < |accepts| && accepts[i]
    {
      FetchAllOf(View(), accepts);
      received := received + Accepted(Next().messages, accepts);
      flipped := !flipped;
      fetchedSome := Current().FetchAll(accepts);
    }
  }

  /** The state the two ends of a connection share: one double buffer per direction. */
  class DirectConnectionState {
    const clientToServer: DoubleBuffer
    const serverToClient: DoubleBuffer
    var serverConnected: bool
    var clientConnected: bool

    ghost function Repr(): set<object> {
      {this, clientToServer, clientToServer.one, clientToServer.two,
       serverToClient, serverToClient.one, serverToClient.two}
    }

    ghost predicate Valid()
      reads Repr()
    {
      && clientToServer.Valid() && serverToClient.Valid()
      && {clientToServer, clientToServer.one, clientToServer.two}
         !! {serverToClient, serverToClient.one, serverToClient.two}
    }

    constructor ()
      ensures Valid() && fresh(Repr()) && serverConnected && !clientConnected
      ensures clientToServer.View() == Init() && serverToClient.View() == Init()
    {
      clientToServer := new DoubleBuffer();
      serverToClient := new DoubleBuffer();
      serverConnected, clientConnected := true, false;
    }

    method SendToServer(m: Stored)
      requires Valid()
      modifies clientToServer, clientToServer.one, clientToServer.two
      ensures Valid()
      ensures clientToServer.View() == Push(old(clientToServer.View()), m)
      ensures clientToServer.View().theirs == old(clientToServer.View().theirs) + [m]
      ensures serverToClient.View() == old(serverToClient.View())
    {
      clientToServer.PushNext(m);
    }

    /** Messages for a client that is not connected are dropped. */
    method SendToClient(m: Stored) returns (sent: bool)
      requires Valid()
      modifies serverToClient, serverToClient.one, serverToClient.two
      ensures Valid() && sent == clientConnected
      ensures serverToClient.View() == if sent then Push(old(serverToClient.View()), m) else old(serverToClient.View())
      ensures sent ==> serverToClient.View().theirs == old(serverToClient.View().theirs) + [m]
      ensures clientToServer.View() == old(clientToServer.View())
    {
      sent := clientConnected;
      if sent {
        serverToClient.PushNext(m);
      }
    }

    method FetchFromClient(accepts: seq<bool>) returns (fetchedSome: bool, connected: bool)
      requires Valid() && |accepts| == |clientToServer.View().theirs|
      modifies clientToServer, clientToServer.one, clientToServer.two
      ensures Valid() && connected == clientConnected
      ensures clientToServer.View() == Fetch(old(clientToServer.View()), accepts)
      ensures serverToClient.View() == old(serverToClient.View())
      ensures fetchedSome <==> exists i :: 0 <= i < |accepts| && accepts[i]
    {
      fetchedSome := clientToServer.SwapAndFetch(accepts);
      connected := clientConnected;
    }

    method FetchFromServer(accepts: seq<bool>) returns (fetchedSome: bool)
      requires Valid() && |accepts| == |serverToClient.View().theirs|
      modifies serverToClient, serverToClient.one, serverToClient.two
      ensures Valid()
      ensures serverToClient.View() == Fetch(old(serverToClient.View()), accepts)
      ensures clientToServer.View() == old(clientToServer.View())
      ensures fetchedSome <==> exists i :: 0 <= i < |accepts| && accepts[i]
    {
      fetchedSome := serverToClient.SwapAndFetch(accepts);
    }
  }
}
