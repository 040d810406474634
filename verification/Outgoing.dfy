/**
 Several outgoing blobs served in turn. One `process_outgoing` call gives a turn to a few
 of them, going round by an index that is kept between calls.
 */
module OutgoingBlobs {
  import opened Basics
  import opened Intervals
  import opened TransferSpec

  /** The largest blob id, a 32-bit number. */
  const MAX_ID: nat := 0xFFFF_FFFF

  /** An outgoing blob: its id, its todo list, its size, and the room its fragments have. */
  datatype Outgoing = Outgoing(id: nat, todo: Parts, size: nat, free: nat)

  ghost predicate GoodOutgoing(o: Outgoing) { GoodTodo(o.todo, o.size) && o.free > 0 }

  ghost predicate AllGood(os: seq<Outgoing>) { forall j :: 0 <= j < |os| ==> GoodOutgoing(os[j]) }

  /** Lists a sender can finish; all good ones are. */
  ghost predicate Servable(o: Outgoing) { CanFinish(o.todo, o.size) && o.free > 0 }

  ghost predicate AllServable(os: seq<Outgoing>) { forall j :: 0 <= j < |os| ==> Servable(os[j]) }

  predicate Done(o: Outgoing) { SentEverything(o.todo, o.size) }

  ghost function ToSend(o: Outgoing): int { Unsent(o.todo, o.size) }

  /** One turn: a fragment is sent unless everything was. */
  function Turn(o: Outgoing): Outgoing {
    if Done(o) then o else o.(todo := AfterSend(o.todo, o.size, o.free))
  }

  /** `count` turns in a row, starting at the given index. */
  function Turns(os: seq<Outgoing>, index: nat, count: nat): seq<Outgoing>
    requires os != []
    decreases count
  {
    if count == 0 then os
    else Turns(os[index % |os| := Turn(os[index % |os|])], index + 1, count - 1)
  }

  /** A fragment passed to the send handler: of the blob at a place of the list, with its id. */
  datatype Fragment = Fragment(place: nat, id: nat, offs: nat, size: nat)

  /** What one turn sends. */
  function TurnSends(o: Outgoing, place: nat): seq<Fragment> {
    if Done(o) || NextSize(o.todo, o.size, o.free) == 0 then []
    else [Fragment(place, o.id, Last(o.todo).bgn, NextSize(o.todo, o.size, o.free))]
  }

  /** Blobs, running index, and the fragments sent so far. */
  datatype Serving = Serving(os: seq<Outgoing>, index: nat, sent: seq<Fragment>)

  /** After `count` more turns. */
  function Serve(s: Serving, count: nat): Serving
    requires s.os != []
    decreases count
  {
    if count == 0 then s
    else
      var k := s.index % |s.os|;
      Serve(Serving(s.os[k := Turn(s.os[k])], s.index + 1, s.sent + TurnSends(s.os[k], k)), count - 1)
  }

  /** The id after the given one; ids wrap around to 1, never to 0. */
  function NextId(id: nat): nat { if id == MAX_ID then 1 else id + 1 }

  /** The id of the n-th blob pushed. */
  function IdOf(n: nat): nat { if n == 0 then 0 else NextId(IdOf(n - 1)) }

  lemma {:induction false} IdIsRemainder(n: nat)
    requires n > 0
    ensures IdOf(n) == (n - 1) % MAX_ID + 1
  {
    if n > 1 {
      IdIsRemainder(n - 1);
      NextRemainder(n - 2);
    }
  }

  lemma NextRemainder(x: nat)
    ensures (x + 1) % MAX_ID == if x % MAX_ID == MAX_ID - 1 then 0 else x % MAX_ID + 1
  {
  }

  /** Ids are never 0, and two blobs get the same id exactly when full cycles of pushes lie between them. */
  lemma IdsRepeatIff(i: nat, j: nat)
    requires 0 < i <= j
    ensures 1 <= IdOf(i) <= MAX_ID
    ensures IdOf(i) == IdOf(j) <==> (j - i) % MAX_ID == 0
  {
    IdIsRemainder(i);
    IdIsRemainder(j);
  }

  /** The first blob with the given id. */
  function FindBlob(os: seq<Outgoing>, id: nat): (k: nat)
    ensures k <= |os| && (k < |os| ==> os[k].id == id)
    ensures forall j :: 0 <= j < k ==> os[j].id != id
  {
    if os == [] || os[0].id == id then 0 else 1 + FindBlob(os[1..], id)
  }

  /** A resend request for a blob id changes the todo list of that blob only. */
  function Resent(os: seq<Outgoing>, id: nat, b: nat, e: nat): seq<Outgoing> {
    var k := FindBlob(os, id);
    if k < |os| then os[k := os[k].(todo := AfterResend(os[k].todo, os[k].size, b, e))] else os
  }

  ghost predicate FirstWithId(os: seq<Outgoing>, id: nat, k: nat) {
    k < |os| && os[k].id == id && forall j :: 0 <= j < k ==> os[j].id != id
  }

  /**
   What a request for [b, e) of a blob does: the first blob with that id has those bytes to
   send as well (an end of 0 stands for the blob's end); everything else is as before.
   */
  ghost predicate Requested(os: seq<Outgoing>, after: seq<Outgoing>, id: nat, b: nat, e: nat) {
    && |after| == |os|
    && (forall k :: 0 <= k < |os| && !FirstWithId(os, id, k) ==> after[k] == os[k])
    && (forall k :: 0 <= k < |os| && FirstWithId(os, id, k) ==>
          && after[k] == os[k].(todo := after[k].todo)
          && forall x :: Covers(after[k].todo, x) <==>
               Covers(os[k].todo, x) || b <= x < if e == 0 then os[k].size else e)
  }

  ghost predicate AllSeparated(os: seq<Outgoing>) { forall j :: 0 <= j < |os| ==> Separated(os[j].todo) }

  lemma ResentIsRequested(os: seq<Outgoing>, id: nat, b: nat, e: nat)
    requires AllSeparated(os)
    ensures Requested(os, Resent(os, id, b, e), id, b, e)
  {
    var k := FindBlob(os, id);
    if k < |os| {
      var end := if e == 0 then os[k].size else e;
      assert forall j :: FirstWithId(os, id, j) ==> j == k;
      forall x ensures Covers(Resent(os, id, b, e)[k].todo, x) <==> Covers(os[k].todo, x) || b <= x < end {
        if b < end { InsertCovers(os[k].todo, b, end, x); }
      }
    }
  }

  /** The lists stay good exactly when the request is empty, in range, or for no blob here. */
  lemma ResentGoodIff(os: seq<Outgoing>, id: nat, b: nat, e: nat)
    requires AllGood(os)
    ensures AllGood(Resent(os, id, b, e)) <==>
            b >= e || FindBlob(os, id) == |os| || e <= os[FindBlob(os, id)].size
  {
    var k := FindBlob(os, id);
    if k < |os| {
      AfterResendGoodIff(os[k].todo, os[k].size, b, e);
      assert Resent(os, id, b, e)[k].todo == AfterResend(os[k].todo, os[k].size, b, e);
    }
  }

  /** Blobs and running index after a call that serves at most m blobs. */
  function AfterCall(os: seq<Outgoing>, index: nat, m: nat): (seq<Outgoing>, nat) {
    var n := Min(m, |os|);
    (if os == [] then os else Turns(os, index, n), index + n)
  }

  function AfterCalls(os: seq<Outgoing>, index: nat, m: nat, calls: nat): (seq<Outgoing>, nat)
    decreases calls
  {
    if calls == 0 then (os, index)
    else var (next, i) := AfterCall(os, index, m); AfterCalls(next, i, m, calls - 1)
  }

  /** The fragments of such a call. */
  function CallSends(os: seq<Outgoing>, index: nat, m: nat): seq<Fragment> {
    if os == [] then [] else Serve(Serving(os, index, []), Min(m, |os|)).sent
  }

  // Every byte is sent --------------------------------------------------------------------

  ghost predicate Carries(f: Fragment, place: nat, x: int) { f.place == place && f.offs <= x < f.offs + f.size }

  ghost predicate Carried(fs: seq<Fragment>, place: nat, x: int) {
    exists i :: 0 <= i < |fs| && Carries(fs[i], place, x)
  }

  /** A byte is still to be sent exactly when it was and no fragment of its blob took it. */
  ghost predicate AccountedAt(os: seq<Outgoing>, after: seq<Outgoing>, fs: seq<Fragment>, place: nat, x: int)
    requires place < |os| == |after|
  {
    Covers(after[place].todo, x) <==> Covers(os[place].todo, x) && !Carried(fs, place, x)
  }

  ghost predicate Accounted(os: seq<Outgoing>, after: seq<Outgoing>, fs: seq<Fragment>) {
    |after| == |os| && forall place, x :: 0 <= place < |os| ==> AccountedAt(os, after, fs, place, x)
  }

  /** A piece of an unfinished blob, from a byte that was to be sent on, as long as room and blob allow. */
  ghost predicate ProperFragment(o: Outgoing, f: Fragment) {
    && f.id == o.id && !Done(o) && Covers(o.todo, f.offs) && f.size > 0
    && f.size <= o.free && f.offs + f.size <= o.size && (f.size == o.free || f.offs + f.size == o.size)
  }

  /** Proper fragments, at most one of each blob. */
  ghost predicate ProperFragments(os: seq<Outgoing>, fs: seq<Fragment>) {
    && (forall i :: 0 <= i < |fs| ==> fs[i].place < |os| && ProperFragment(os[fs[i].place], fs[i]))
    && (forall i, j :: 0 <= i < j < |fs| ==> fs[i].place != fs[j].place)
  }

  lemma CarriedConcat(fs: seq<Fragment>, gs: seq<Fragment>, place: nat, x: int)
    ensures Carried(fs + gs, place, x) <==> Carried(fs, place, x) || Carried(gs, place, x)
  {
    if Carried(fs, place, x) {
      var i :| 0 <= i < |fs| && Carries(fs[i], place, x);
      assert (fs + gs)[i] == fs[i];
    }
    if Carried(gs, place, x) {
      var i :| 0 <= i < |gs| && Carries(gs[i], place, x);
      assert (fs + gs)[|fs| + i] == gs[i];
    }
  }

  lemma TurnAccounts(os: seq<Outgoing>, k: nat)
    requires AllGood(os) && k < |os|
    ensures var after := os[k := Turn(os[k])];
            AllGood(after) && Accounted(os, after, TurnSends(os[k], k))
    ensures forall i :: 0 <= i < |TurnSends(os[k], k)| ==>
              TurnSends(os[k], k)[i].place == k && ProperFragment(os[k], TurnSends(os[k], k)[i])
  {
    var o, fs, after := os[k], TurnSends(os[k], k), os[k := Turn(os[k])];
    SentEverythingIffEmpty(o.todo, o.size);
    if !Done(o) {
      AfterSendGood(o.todo, o.size, o.free);
      assert Within(o.todo[|o.todo| - 1], Last(o.todo).bgn);
    }
    forall place, x | 0 <= place < |os| ensures AccountedAt(os, after, fs, place, x) {
      if place == k && !Done(o) {
        AfterSendCovers(o.todo, o.size, o.free, x);
        assert Carried(fs, place, x) <==> Carries(fs[0], place, x);
      }
    }
  }

  lemma AccountedAdds(os: seq<Outgoing>, mid: seq<Outgoing>, after: seq<Outgoing>, fs: seq<Fragment>, gs: seq<Fragment>)
    requires Accounted(os, mid, fs) && Accounted(mid, after, gs)
    ensures Accounted(os, after, fs + gs)
  {
    forall place, x | 0 <= place < |os| ensures AccountedAt(os, after, fs + gs, place, x) {
      assert AccountedAt(os, mid, fs, place, x) && AccountedAt(mid, after, gs, place, x);
      CarriedConcat(fs, gs, place, x);
    }
  }

  lemma {:induction false} ServeIsTurns(s: Serving, count: nat)
    requires s.os != []
    ensures Serve(s, count).os == Turns(s.os, s.index, count) && Serve(s, count).index == s.index + count
    decreases count
  {
    if count > 0 {
      var k := s.index % |s.os|;
      ServeIsTurns(Serving(s.os[k := Turn(s.os[k])], s.index + 1, s.sent + TurnSends(s.os[k], k)), count - 1);
    }
  }

  /** Good lists, and since the blobs `before` every byte accounted for. */
  ghost predicate GoodServing(before: seq<Outgoing>, s: Serving) { AllGood(s.os) && Accounted(before, s.os, s.sent) }

  /** Over any number of turns every byte to be sent either still is, or was in a fragment of its blob. */
  lemma {:induction false} ServeAccounts(before: seq<Outgoing>, s: Serving, count: nat)
    requires s.os != [] && GoodServing(before, s)
    ensures GoodServing(before, Serve(s, count))
    decreases count
  {
    if count > 0 {
      var k := s.index % |s.os|;
      TurnAccounts(s.os, k);
      AccountedAdds(before, s.os, s.os[k := Turn(s.os[k])], s.sent, TurnSends(s.os[k], k));
      ServeAccounts(before, Serving(s.os[k := Turn(s.os[k])], s.index + 1, s.sent + TurnSends(s.os[k], k)), count - 1);
    }
  }

  /** The place is that of one of the first c blobs from the index `first` on. */
  ghost predicate InTurn(first: nat, n: nat, c: nat, place: nat)
    requires n > 0
  {
    exists j :: 0 <= j < c && place == Ahead(first, n, j)
  }

  /** Of n blobs c had a turn so far: proper fragments were sent, and the others are as they were. */
  ghost predicate FirstTurns(before: seq<Outgoing>, first: nat, c: nat, s: Serving) {
    && s.os != [] && |s.os| == |before| && s.index == first + c
    && ProperFragments(before, s.sent)
    && (forall i :: 0 <= i < |s.sent| ==> InTurn(first, |before|, c, s.sent[i].place))
    && (forall k :: 0 <= k < |before| && !InTurn(first, |before|, c, k) ==> s.os[k] == before[k])
  }

  lemma NotYet(first: nat, n: nat, c: nat)
    requires c < n
    ensures !InTurn(first, n, c, Ahead(first, n, c))
  {
    forall j | 0 <= j < c ensures Ahead(first, n, j) != Ahead(first, n, c) { AheadDistinct(first, n, j, c); }
  }

  lemma InTurnGrows(first: nat, n: nat, c: nat, place: nat)
    requires n > 0
    ensures InTurn(first, n, c + 1, place) <==> InTurn(first, n, c, place) || place == Ahead(first, n, c)
  {
  }

  lemma ProperAdds(os: seq<Outgoing>, k: nat, fs: seq<Fragment>, gs: seq<Fragment>)
    requires k < |os| && |gs| <= 1 && ProperFragments(os, fs)
    requires forall i :: 0 <= i < |gs| ==> gs[i].place == k && ProperFragment(os[k], gs[i])
    requires forall i :: 0 <= i < |fs| ==> fs[i].place != k
    ensures ProperFragments(os, fs + gs)
  {
  }

  lemma OneMoreTurn(before: seq<Outgoing>, first: nat, c: nat, s: Serving, k: nat)
    requires FirstTurns(before, first, c, s) && AllGood(before) && c < |before| && k == Ahead(first, |before|, c)
    ensures var next := Serving(s.os[k := Turn(s.os[k])], s.index + 1, s.sent + TurnSends(s.os[k], k));
            FirstTurns(before, first, c + 1, next)
  {
    var n := |before|;
    NotYet(first, n, c);
    TurnAccounts(before, k);
    forall place: nat ensures InTurn(first, n, c + 1, place) <==> InTurn(first, n, c, place) || place == k {
      InTurnGrows(first, n, c, place);
    }
    ProperAdds(before, k, s.sent, TurnSends(before[k], k));
  }

  /** In one call each fragment is that of another blob, as the list was before the call. */
  lemma {:induction false} ServeIsProper(before: seq<Outgoing>, first: nat, c: nat, s: Serving, count: nat)
    requires FirstTurns(before, first, c, s) && AllGood(before) && c + count <= |before|
    ensures ProperFragments(before, Serve(s, count).sent)
    decreases count
  {
    if count > 0 {
      var k := s.index % |s.os|;
      OneMoreTurn(before, first, c, s, k);
      ServeIsProper(before, first, c + 1,
                    Serving(s.os[k := Turn(s.os[k])], s.index + 1, s.sent + TurnSends(s.os[k], k)), count - 1);
    }
  }

  lemma {:induction false} ServeSendsFew(s: Serving, count: nat)
    requires s.os != []
    ensures |Serve(s, count).sent| <= |s.sent| + count
    decreases count
  {
    if count > 0 {
      var k := s.index % |s.os|;
      ServeSendsFew(Serving(s.os[k := Turn(s.os[k])], s.index + 1, s.sent + TurnSends(s.os[k], k)), count - 1);
    }
  }

  lemma StartAccounted(os: seq<Outgoing>, index: nat)
    ensures AllGood(os) ==> GoodServing(os, Serving(os, index, []))
    ensures os != [] ==> FirstTurns(os, index, 0, Serving(os, index, []))
  {
  }

  lemma CallIsAccounted(os: seq<Outgoing>, index: nat, m: nat)
    ensures |CallSends(os, index, m)| <= m
    ensures AllGood(os) ==>
              && AllGood(AfterCall(os, index, m).0) && Accounted(os, AfterCall(os, index, m).0, CallSends(os, index, m))
              && ProperFragments(os, CallSends(os, index, m))
  {
    if os != [] {
      var s := Serving(os, index, []);
      ServeSendsFew(s, Min(m, |os|));
      ServeIsTurns(s, Min(m, |os|));
      StartAccounted(os, index);
      if AllGood(os) {
        ServeAccounts(os, s, Min(m, |os|));
        ServeIsProper(os, index, 0, s, Min(m, |os|));
      }
    }
  }

  class Sender {
    var outgoing: seq<Outgoing>
    var outgoingIndex: nat
    var blobIdSequence: nat

    constructor ()
      ensures outgoing == [] && outgoingIndex == 0 && blobIdSequence == 0
    {
      outgoing, outgoingIndex, blobIdSequence := [], 0, 0;
    }

    method NextBlobId() returns (id: nat)
      modifies this`blobIdSequence
      ensures id == blobIdSequence == NextId(old(blobIdSequence))
    {
      if blobIdSequence == MAX_ID {
        blobIdSequence := 0;
      }
      blobIdSequence := blobIdSequence + 1;
      id := blobIdSequence;
    }

    /** Blobs of size 0 are not queued and get the id 0. */
    method PushOutgoing(size: nat, free: nat) returns (id: nat)
      modifies this`outgoing, this`blobIdSequence
      ensures id == if size > 0 then NextId(old(blobIdSequence)) else 0
      ensures blobIdSequence == if size > 0 then id else old(blobIdSequence)
      ensures outgoing == old(outgoing) + if size > 0 then [Outgoing(id, [Part(0, size)], size, free)] else []
      ensures free > 0 && AllGood(old(outgoing)) ==> AllGood(outgoing)
    {
      id := 0;
      if size > 0 {
        id := NextBlobId();
        outgoing := outgoing + [Outgoing(id, [Part(0, size)], size, free)];
      }
    }

    /** Merges a request to send [b, e) of a blob again; requests for unknown blobs are ignored. */
    method ProcessResend(id: nat, b: nat, e: nat)
      modifies this`outgoing
      ensures outgoing == Resent(old(outgoing), id, b, e)
      ensures AllSeparated(old(outgoing)) ==> Requested(old(outgoing), outgoing, id, b, e)
    {
      if AllSeparated(outgoing) { ResentIsRequested(outgoing, id, b, e); }
      var pos := FindBlob(outgoing, id);
      if pos < |outgoing| {
        outgoing := outgoing[pos := outgoing[pos].(todo := AfterResend(outgoing[pos].todo, outgoing[pos].size, b, e))];
      }
    }

    /** Takes the next fragment of an unfinished blob off its todo list; returned unless it is empty. */
    method ProcessFinishedOutgoing(k: nat) returns (sent: seq<Fragment>)
      requires k < |outgoing| && !Done(outgoing[k])
      modifies this`outgoing
      ensures outgoing == old(outgoing)[k := Turn(old(outgoing)[k])]
      ensures sent == TurnSends(old(outgoing)[k], k)
      ensures GoodOutgoing(old(outgoing)[k]) ==> |sent| == 1 && ProperFragment(old(outgoing)[k], sent[0])
    {
      var pending := outgoing[k];
      var last := Last(pending.todo);
      var size := NextSize(pending.todo, pending.size, pending.free);
      sent := if size > 0 then [Fragment(k, pending.id, last.bgn, size)] else [];
      outgoing := outgoing[k := pending.(todo := AfterSend(pending.todo, pending.size, pending.free))];
      assert GoodOutgoing(pending) ==> Within(pending.todo[|pending.todo| - 1], last.bgn);
    }

    /** Returns the fragments sent. */
    method ProcessOutgoing(maxMessages: nat) returns (fragments: seq<Fragment>)
      modifies this
      ensures (outgoing, outgoingIndex) == AfterCall(old(outgoing), old(outgoingIndex), maxMessages)
      ensures fragments == CallSends(old(outgoing), old(outgoingIndex), maxMessages) && |fragments| <= maxMessages
      ensures AllGood(old(outgoing)) ==>
                ProperFragments(old(outgoing), fragments) && Accounted(old(outgoing), outgoing, fragments)
    {
      fragments := [];
      var left := Min(maxMessages, |outgoing|);
      ghost var n, start := left, Serving(outgoing, outgoingIndex, []);
      while left > 0
        invariant 0 <= left <= n
        invariant Reached(start, n, Serving(outgoing, outgoingIndex, fragments), left)
      {
        ghost var next := NextTurn(start, n, Serving(outgoing, outgoingIndex, fragments), left);
        left := left - 1;
        var k := outgoingIndex % |outgoing|;
        outgoingIndex := outgoingIndex + 1;
        if !SentEverything(outgoing[k].todo, outgoing[k].size) {
          var sent := ProcessFinishedOutgoing(k);
          fragments := fragments + sent;
        }
        assert Serving(outgoing, outgoingIndex, fragments) == next;
      }
      CallIsServed(start, maxMessages, Serving(outgoing, outgoingIndex, fragments));
      CallIsAccounted(start.os, start.index, maxMessages);
    }
  }

  /** The loop of a call: of its n turns `left` are still to be given. */
  ghost predicate Reached(start: Serving, n: nat, s: Serving, left: nat) {
    |s.os| == |start.os| && if s.os == [] then s == start else Serve(s, left) == Serve(start, n)
  }

  /** One turn of that loop. */
  lemma NextTurn(start: Serving, n: nat, s: Serving, left: nat) returns (next: Serving)
    requires Reached(start, n, s, left) && s.os != [] && left > 0
    ensures var k := s.index % |s.os|;
            if Done(s.os[k]) then next == s.(index := s.index + 1)
            else next == Serving(s.os[k := Turn(s.os[k])], s.index + 1, s.sent + TurnSends(s.os[k], k))
    ensures Reached(start, n, next, left - 1)
  {
    var k := s.index % |s.os|;
    next := Serving(s.os[k := Turn(s.os[k])], s.index + 1, s.sent + TurnSends(s.os[k], k));
  }

  lemma CallIsServed(start: Serving, m: nat, s: Serving)
    requires Reached(start, Min(m, |start.os|), s, 0) && start.sent == []
    ensures (s.os, s.index) == AfterCall(start.os, start.index, m)
    ensures s.sent == CallSends(start.os, start.index, m)
  {
    if start.os != [] { ServeIsTurns(start, Min(m, |start.os|)); }
  }

  lemma {:induction false} TurnsLength(os: seq<Outgoing>, index: nat, count: nat)
    requires os != []
    ensures |Turns(os, index, count)| == |os|
    decreases count
  {
    if count > 0 { TurnsLength(os[index % |os| := Turn(os[index % |os|])], index + 1, count - 1); }
  }

  /** Calls add up: the turns of consecutive calls are one run of turns. */
  lemma {:induction false} TurnsAddUp(os: seq<Outgoing>, index: nat, a: nat, b: nat)
    requires os != []
    ensures |Turns(os, index, a)| == |os|
    ensures Turns(os, index, a + b) == Turns(Turns(os, index, a), index + a, b)
    decreases a
  {
    TurnsLength(os, index, a);
    if a > 0 { TurnsAddUp(os[index % |os| := Turn(os[index % |os|])], index + 1, a - 1, b); }
  }

  /** The blob j places ahead of the index. */
  function Ahead(index: nat, n: nat, j: nat): nat
    requires n > 0
  {
    (index + j) % n
  }

  lemma Multiples(n: nat, d: int)
    ensures d >= 1 ==> n * d >= n
    ensures d <= 0 ==> n * d <= 0
    ensures d <= -1 ==> n * d <= 0 - n
  {
  }

  lemma AheadDistinct(index: nat, n: nat, i: nat, j: nat)
    requires i < j < n
    ensures Ahead(index, n, i) != Ahead(index, n, j)
  {
    var qi, qj := (index + i) / n, (index + j) / n;
    assert index + i == n * qi + (index + i) % n && index + j == n * qj + (index + j) % n;
    assert n * (qj - qi) == n * qj - n * qi;
    Multiples(n, qj - qi);
  }

  /** In fewer than n turns, exactly the blobs so far ahead got theirs, once each. */
  lemma {:induction false} TurnsOnce(os: seq<Outgoing>, index: nat, count: nat, j: nat)
    requires os != [] && count <= |os| && j < |os|
    ensures |Turns(os, index, count)| == |os|
    ensures var k := Ahead(index, |os|, j);
            Turns(os, index, count)[k] == if j < count then Turn(os[k]) else os[k]
    decreases count
  {
    TurnsLength(os, index, count);
    if count > 0 {
      TurnsAddUp(os, index, count - 1, 1);
      TurnsOnce(os, index, count - 1, j);
      TurnsOnce(os, index, count - 1, count - 1);
      if j < count - 1 { AheadDistinct(index, |os|, j, count - 1); }
      if count - 1 < j { AheadDistinct(index, |os|, count - 1, j); }
      var mid, at := Turns(os, index, count - 1), Ahead(index, |os|, count - 1);
      assert Turns(mid, index + (count - 1), 1) == mid[at := Turn(mid[at])];
    }
  }

  lemma AheadFinds(index: nat, n: nat, k: nat) returns (j: nat)
    requires k < n
    ensures j < n && Ahead(index, n, j) == k
  {
    var r := index % n;
    j := if k >= r then k - r else k + n - r;
    var q := index / n;
    assert index == n * q + r;
    if k >= r {
      ModOf(index + j, n, q, k);
    } else {
      assert n * (q + 1) == n * q + n;
      ModOf(index + j, n, q + 1, k);
    }
  }

  lemma ModOf(x: nat, n: nat, q: nat, k: nat)
    requires k < n && x == n * q + k
    ensures x % n == k
  {
    var q', r := x / n, x % n;
    assert x == n * q' + r;
    assert n * (q - q') == n * q - n * q';
    Multiples(n, q - q');
  }

  /** A full round gives every blob exactly one turn. */
  lemma RoundServesAll(os: seq<Outgoing>, index: nat)
    requires os != []
    ensures |Turns(os, index, |os|)| == |os|
    ensures forall k :: 0 <= k < |os| ==> Turns(os, index, |os|)[k] == Turn(os[k])
  {
    TurnsLength(os, index, |os|);
    forall k | 0 <= k < |os| ensures Turns(os, index, |os|)[k] == Turn(os[k]) {
      var j := AheadFinds(index, |os|, k);
      TurnsOnce(os, index, |os|, j);
    }
  }

  lemma TurnFacts(o: Outgoing)
    requires Servable(o)
    ensures Servable(Turn(o)) && Turn(o).size == o.size && ToSend(o) >= 0
    ensures if Done(o) then Turn(o) == o else ToSend(Turn(o)) < ToSend(o)
  {
    UnsentBounds(o.todo, o.size);
    if !Done(o) { SendFacts(o.todo, o.size, o.free); }
  }

  /** Servable blobs of the same sizes, none with more left to send. */
  ghost predicate NoWorse(os: seq<Outgoing>, after: seq<Outgoing>) {
    && |after| == |os| && AllServable(after)
    && forall k :: 0 <= k < |os| ==> after[k].size == os[k].size && ToSend(after[k]) <= ToSend(os[k])
  }

  lemma OneTurnNoWorse(os: seq<Outgoing>, k: nat)
    requires k < |os| && AllServable(os)
    ensures NoWorse(os, os[k := Turn(os[k])])
  {
    TurnFacts(os[k]);
  }

  lemma {:induction false} TurnsFacts(os: seq<Outgoing>, index: nat, count: nat)
    requires os != [] && AllServable(os)
    ensures NoWorse(os, Turns(os, index, count))
    decreases count
  {
    if count > 0 {
      var k := index % |os|;
      OneTurnNoWorse(os, k);
      TurnsFacts(os[k := Turn(os[k])], index + 1, count - 1);
    }
  }

  lemma CeilingCovers(n: nat, per: nat, calls: nat)
    requires per > 0 && calls == (n + per - 1) / per
    ensures calls * per >= n
  {
    var x := n + per - 1;
    assert x == per * (x / per) + x % per;
  }

  /** Blob k is still there and, if it was unfinished, has less left to send. */
  ghost predicate Advanced(os: seq<Outgoing>, after: seq<Outgoing>, k: nat)
    requires k < |os|
  {
    |after| == |os| && (!Done(os[k]) ==> ToSend(after[k]) < ToSend(os[k]))
  }

  lemma {:induction false} RoundAdvances(os: seq<Outgoing>, index: nat, k: nat)
    requires os != [] && AllServable(os) && k < |os|
    ensures Advanced(os, Turns(os, index, |os|), k) && AllServable(Turns(os, index, |os|))
  {
    RoundServesAll(os, index);
    TurnFacts(os[k]);
    TurnsFacts(os, index, |os|);
  }

  lemma {:induction false} StaysAdvanced(os: seq<Outgoing>, mid: seq<Outgoing>, k: nat, index: nat, extra: nat)
    requires k < |os| && Advanced(os, mid, k) && AllServable(mid) && mid != []
    ensures Advanced(os, Turns(mid, index, extra), k)
  {
    TurnsFacts(mid, index, extra);
    assert NoWorse(mid, Turns(mid, index, extra));
  }

  /** A round or more of turns: every unfinished blob sends something. */
  lemma {:induction false} RoundAndMore(os: seq<Outgoing>, index: nat, extra: nat, k: nat)
    requires os != [] && AllServable(os) && k < |os|
    ensures Advanced(os, Turns(os, index, |os| + extra), k)
  {
    var n := |os|;
    TurnsAddUp(os, index, n, extra);
    RoundAdvances(os, index, k);
    StaysAdvanced(os, Turns(os, index, n), k, index + n, extra);
  }

  /** The turns of r rounds of n blobs. */
  function RoundTurns(r: nat, n: nat): nat { if r == 0 then 0 else n + RoundTurns(r - 1, n) }

  lemma {:induction false} RoundTurnsIsProduct(r: nat, n: nat)
    ensures RoundTurns(r, n) == r * n
  {
    if r > 0 {
      RoundTurnsIsProduct(r - 1, n);
      assert r * n == (r - 1) * n + n;
    }
  }

  /** Consecutive calls give as many turns as each of them gives. */
  lemma {:induction false} CallsAreTurns(os: seq<Outgoing>, index: nat, m: nat, calls: nat)
    requires os != [] && m > 0
    ensures var turns := RoundTurns(calls, Min(m, |os|));
            AfterCalls(os, index, m, calls) == (Turns(os, index, turns), index + turns)
    decreases calls
  {
    if calls > 0 {
      var per := Min(m, |os|);
      TurnsLength(os, index, per);
      CallsAreTurns(Turns(os, index, per), index + per, m, calls - 1);
      TurnsAddUp(os, index, per, RoundTurns(calls - 1, per));
    }
  }

  /**
   With n blobs and m > 0 messages per call, every unfinished blob sends something within
   any ceil(n / m) consecutive calls.
   */
  lemma {:induction false} EveryBlobAdvances(os: seq<Outgoing>, index: nat, m: nat, calls: nat, k: nat)
    requires os != [] && AllServable(os) && m > 0 && k < |os|
    requires calls == (|os| + Min(m, |os|) - 1) / Min(m, |os|)
    ensures Advanced(os, AfterCalls(os, index, m, calls).0, k)
  {
    var turns := RoundTurns(calls, Min(m, |os|));
    RoundTurnsIsProduct(calls, Min(m, |os|));
    CeilingCovers(|os|, Min(m, |os|), calls);
    CallsAreTurns(os, index, m, calls);
    RoundAndMore(os, index, turns - |os|, k);
  }

  lemma RoundShrinks(os: seq<Outgoing>, index: nat, rounds: nat)
    requires os != [] && AllServable(os) && rounds > 0
    requires AtMost(os, rounds)
    ensures |Turns(os, index, |os|)| == |os| && AllServable(Turns(os, index, |os|))
    ensures AtMost(Turns(os, index, |os|), rounds - 1)
  {
    RoundServesAll(os, index);
    TurnsFacts(os, index, |os|);
    forall k | 0 <= k < |os| ensures ToSend(Turn(os[k])) <= rounds - 1 {
      TurnFacts(os[k]);
      UnsentBounds(os[k].todo, os[k].size);
    }
  }

  ghost predicate AtMost(os: seq<Outgoing>, bound: nat) { forall k :: 0 <= k < |os| ==> ToSend(os[k]) <= bound }

  ghost predicate AllSent(os: seq<Outgoing>) { forall k :: 0 <= k < |os| ==> Done(os[k]) }

  /** So many turns send every blob completely. */
  ghost predicate SentBy(os: seq<Outgoing>, index: nat, turns: nat)
    requires os != []
  {
    AllSent(Turns(os, index, turns))
  }

  lemma NoneLeftIsSent(os: seq<Outgoing>)
    requires AllServable(os) && AtMost(os, 0)
    ensures AllSent(os)
  {
    forall k | 0 <= k < |os| ensures Done(os[k]) { UnsentBounds(os[k].todo, os[k].size); }
  }

  lemma {:induction false} RoundsLeaveNothing(os: seq<Outgoing>, index: nat, rounds: nat)
    requires os != [] && AllServable(os) && AtMost(os, rounds)
    ensures AllSent(Turns(os, index, RoundTurns(rounds, |os|)))
    decreases rounds
  {
    if rounds == 0 {
      NoneLeftIsSent(os);
    } else {
      var n := |os|;
      RoundShrinks(os, index, rounds);
      TurnsAddUp(os, index, n, RoundTurns(rounds - 1, n));
      RoundsLeaveNothing(Turns(os, index, n), index + n, rounds - 1);
    }
  }

  /** Without resend requests, as many rounds as bytes are unsent send every blob completely. */
  lemma RoundsSendAll(os: seq<Outgoing>, index: nat, rounds: nat)
    requires os != [] && AllServable(os) && AtMost(os, rounds)
    ensures SentBy(os, index, rounds * |os|)
  {
    RoundsLeaveNothing(os, index, rounds);
    RoundTurnsIsProduct(rounds, |os|);
  }

  // What a resend request can do to the sender -------------------------------------------

  lemma {:induction false} SomeBound(os: seq<Outgoing>) returns (bound: nat)
    ensures AtMost(os, bound)
    decreases |os|
  {
    bound := 0;
    if os != [] {
      var rest := SomeBound(os[1..]);
      bound := Max(rest, ToSend(os[0]));
      forall k | 0 <= k < |os| ensures ToSend(os[k]) <= bound { assert k > 0 ==> os[k] == os[1..][k - 1]; }
    }
  }

  ghost predicate JammedAt(os: seq<Outgoing>, k: nat) { k < |os| && Jammed(os[k].todo, os[k].size) }

  lemma {:induction false} JammedTurns(os: seq<Outgoing>, index: nat, count: nat, k: nat)
    requires JammedAt(os, k)
    ensures JammedAt(Turns(os, index, count), k)
    decreases count
  {
    if count > 0 {
      JammedStays(os[k].todo, os[k].size, os[k].free);
      JammedTurns(os[index % |os| := Turn(os[index % |os|])], index + 1, count - 1, k);
    }
  }

  /** The request is for no blob here, or does not jam the blob it is for. */
  predicate HarmlessTo(os: seq<Outgoing>, id: nat, b: nat, e: nat) {
    var k := FindBlob(os, id);
    k == |os| || Harmless(os[k].todo, os[k].size, b, e)
  }

  lemma ResentServableOrJammed(os: seq<Outgoing>, id: nat, b: nat, e: nat)
    requires AllGood(os)
    ensures HarmlessTo(os, id, b, e) ==> AllServable(Resent(os, id, b, e))
    ensures !HarmlessTo(os, id, b, e) ==> JammedAt(Resent(os, id, b, e), FindBlob(os, id))
  {
    var k := FindBlob(os, id);
    if k < |os| { ResentCanFinishOrJams(os[k].todo, os[k].size, b, e); }
  }

  lemma {:induction false} JammedNeverSent(os: seq<Outgoing>, index: nat, k: nat, turns: nat)
    requires JammedAt(os, k)
    ensures !SentBy(os, index, turns)
  {
    JammedTurns(os, index, turns, k);
    var o := Turns(os, index, turns)[k];
    JammedStays(o.todo, o.size, o.free);
  }

  /** After a request every blob is eventually sent exactly when the request jams none. */
  lemma {:induction false} ResentFinishesIff(os: seq<Outgoing>, id: nat, b: nat, e: nat, index: nat)
    requires os != [] && AllGood(os)
    ensures (exists turns: nat :: SentBy(Resent(os, id, b, e), index, turns)) <==> HarmlessTo(os, id, b, e)
  {
    var after := Resent(os, id, b, e);
    ResentServableOrJammed(os, id, b, e);
    if HarmlessTo(os, id, b, e) {
      var bound := SomeBound(after);
      RoundsSendAll(after, index, bound);
      var turns: nat := bound * |after|;
      assert SentBy(after, index, turns);
    } else {
      forall turns: nat ensures !SentBy(after, index, turns) {
        JammedNeverSent(after, index, FindBlob(os, id), turns);
      }
    }
  }

  // Every byte is sent, and every request served -------------------------------------------

  lemma {:induction false} ServeAddUp(s: Serving, a: nat, b: nat)
    requires s.os != []
    ensures Serve(s, a).os != [] && Serve(s, a + b) == Serve(Serve(s, a), b)
    decreases a
  {
    if a > 0 {
      var k := s.index % |s.os|;
      ServeAddUp(Serving(s.os[k := Turn(s.os[k])], s.index + 1, s.sent + TurnSends(s.os[k], k)), a - 1, b);
    }
  }

  /** What was sent before makes no difference to what is sent next. */
  lemma {:induction false} ServeAppends(s: Serving, fs: seq<Fragment>, count: nat)
    requires s.os != []
    ensures Serve(s.(sent := fs + s.sent), count) == Serve(s, count).(sent := fs + Serve(s, count).sent)
    decreases count
  {
    if count > 0 {
      var k := s.index % |s.os|;
      ServeAppends(Serving(s.os[k := Turn(s.os[k])], s.index + 1, s.sent + TurnSends(s.os[k], k)), fs, count - 1);
      Assoc(fs, s.sent, TurnSends(s.os[k], k));
    }
  }

  /** The fragments of consecutive calls. */
  function CallsSend(os: seq<Outgoing>, index: nat, m: nat, calls: nat): seq<Fragment>
    decreases calls
  {
    if calls == 0 then []
    else var (next, i) := AfterCall(os, index, m); CallSends(os, index, m) + CallsSend(next, i, m, calls - 1)
  }

  lemma {:induction false} CallsServe(os: seq<Outgoing>, index: nat, m: nat, calls: nat)
    requires os != [] && m > 0
    ensures CallsSend(os, index, m, calls) == Serve(Serving(os, index, []), RoundTurns(calls, Min(m, |os|))).sent
    decreases calls
  {
    if calls > 0 {
      var per, rest := Min(m, |os|), RoundTurns(calls - 1, Min(m, |os|));
      var s := Serving(os, index, []);
      var mid := Serve(s, per);
      TurnsLength(os, index, per);
      ServeIsTurns(s, per);
      ServeAddUp(s, per, rest);
      CallsServe(mid.os, mid.index, m, calls - 1);
      ServeAppends(Serving(mid.os, mid.index, []), mid.sent, rest);
      assert mid == Serving(mid.os, mid.index, []).(sent := mid.sent + []);
    }
  }

  lemma {:induction false} SentStays(os: seq<Outgoing>, index: nat, count: nat)
    requires os != [] && AllSent(os)
    ensures Turns(os, index, count) == os
    decreases count
  {
    if count > 0 {
      var k := index % |os|;
      assert os[k := Turn(os[k])] == os;
      SentStays(os, index + 1, count - 1);
    }
  }

  lemma {:induction false} EnoughTurns(os: seq<Outgoing>, index: nat, rounds: nat, turns: nat)
    requires os != [] && AllGood(os) && AtMost(os, rounds) && turns >= rounds * |os|
    ensures AllSent(Turns(os, index, turns))
  {
    var enough := rounds * |os|;
    RoundsSendAll(os, index, rounds);
    TurnsAddUp(os, index, enough, turns - enough);
    SentStays(Turns(os, index, enough), index + enough, turns - enough);
  }

  lemma SentHasNothing(os: seq<Outgoing>, place: nat, x: int)
    requires AllGood(os) && AllSent(os) && place < |os|
    ensures !Covers(os[place].todo, x)
  {
    SentEverythingIffEmpty(os[place].todo, os[place].size);
  }

  /** So many turns or more put every byte that was to be sent into a fragment of its blob. */
  lemma {:induction false} TurnsCarryAll(os: seq<Outgoing>, index: nat, rounds: nat, turns: nat, place: nat, x: int)
    requires os != [] && AllGood(os) && AtMost(os, rounds) && turns >= rounds * |os|
    requires place < |os| && Covers(os[place].todo, x)
    ensures Carried(Serve(Serving(os, index, []), turns).sent, place, x)
  {
    var s := Serving(os, index, []);
    EnoughTurns(os, index, rounds, turns);
    ServeIsTurns(s, turns);
    StartAccounted(os, index);
    ServeAccounts(os, s, turns);
    SentHasNothing(Serve(s, turns).os, place, x);
    assert AccountedAt(os, Serve(s, turns).os, Serve(s, turns).sent, place, x);
  }

  /**
   Enough calls return every byte that was to be sent, in a fragment of its blob: at most one
   round of turns for each byte of the blob with most left to send is needed.
   */
  lemma {:induction false} EveryByteIsSent(os: seq<Outgoing>, index: nat, m: nat, calls: nat, rounds: nat,
                                           place: nat, x: int)
    requires os != [] && AllGood(os) && AtMost(os, rounds) && m > 0 && calls * Min(m, |os|) >= rounds * |os|
    requires place < |os| && Covers(os[place].todo, x)
    ensures Carried(CallsSend(os, index, m, calls), place, x)
  {
    CallsServe(os, index, m, calls);
    RoundTurnsIsProduct(calls, Min(m, |os|));
    TurnsCarryAll(os, index, rounds, calls * Min(m, |os|), place, x);
  }

  /** So an in-range request for a blob that is here is served: all its bytes are in returned fragments. */
  lemma {:induction false} RequestIsServed(os: seq<Outgoing>, id: nat, b: nat, e: nat, index: nat, m: nat, calls: nat,
                                           rounds: nat, k: nat, x: int)
    requires AllGood(os) && FirstWithId(os, id, k) && e <= os[k].size
    requires var asked := Resent(os, id, b, e);
             AtMost(asked, rounds) && m > 0 && |asked| == |os| && calls * Min(m, |os|) >= rounds * |os|
    requires b <= x < if e == 0 then os[k].size else e
    ensures Carried(CallsSend(Resent(os, id, b, e), index, m, calls), k, x)
  {
    ResentIsRequested(os, id, b, e);
    ResentGoodIff(os, id, b, e);
    EveryByteIsSent(Resent(os, id, b, e), index, m, calls, rounds, k, x);
  }
}
