/**
 The decisions both ends of a transfer take from their interval lists: what to send
 next, what to ask for again, and when each side is finished.
 */
module TransferSpec {
  import opened Basics
  import opened Intervals

  // Sender -----------------------------------------------------------------------

  /** Bytes a source of the given size can deliver at offs into a block of `free` bytes. */
  function FetchSize(size: nat, offs: nat, free: nat): nat {
    if offs >= size then 0 else Min(free, size - offs)
  }

  function Last(todo: Parts): Part
    requires todo != []
  {
    todo[|todo| - 1]
  }

  /** Size of the next fragment, taken at the begin of the last todo interval. */
  function NextSize(todo: Parts, size: nat, free: nat): nat
    requires todo != []
  {
    FetchSize(size, Last(todo).bgn, free)
  }

  /** The todo list after that fragment; the fragment is not clipped to the interval. */
  function AfterSend(todo: Parts, size: nat, free: nat): Parts
    requires todo != []
  {
    var w := NextSize(todo, size, free);
    var rest := todo[..|todo| - 1];
    if w == 0 then todo
    else if Last(todo).bgn + w >= Last(todo).end then rest
    else rest + [Part(Last(todo).bgn + w, Last(todo).end)]
  }

  /** The todo list after a resend request; an end of 0 stands for the blob's end. */
  function AfterResend(todo: Parts, total: nat, b: nat, e: nat): Parts {
    var end := if e == 0 then total else e;
    if b < end then Insert(todo, b, end) else todo
  }

  predicate SentEverything(todo: Parts, size: nat) {
    todo == [] || todo[0].bgn >= size
  }

  // Receiver ---------------------------------------------------------------------

  predicate ReceivedEverything(done: Parts, total: nat) {
    if |done| == 1 then done[0].bgn == 0 && total != 0 && done[0].end >= total
    else total != 0 && done == []
  }

  /** The range to ask for again. */
  function DoneBeginEnd(done: Parts, total: nat, maxMessageSize: nat): (int, int)
    requires done != []
  {
    var max := 2 * maxMessageSize / 3;
    if done[0].bgn > 0 then (0, Min(done[0].bgn, max))
    else if |done| == 1 then (done[0].end, done[0].end + Min(total - done[0].end, max))
    else (done[0].end, done[0].end + Min(done[1].bgn - done[0].end, max))
  }

  // Facts about the sender -------------------------------------------------------

  /** The sender's list over its whole life. */
  ghost predicate GoodTodo(todo: Parts, total: nat) { Canonical(todo) && Bounded(todo, total) }

  lemma AfterSendGood(todo: Parts, total: nat, free: nat)
    requires GoodTodo(todo, total) && todo != []
    ensures GoodTodo(AfterSend(todo, total, free), total)
  {
    var r := AfterSend(todo, total, free);
    assert forall i :: 0 <= i < |r| ==> todo[i].bgn <= r[i].bgn && r[i].end == todo[i].end;
  }

  /**
   A request keeps the list good exactly when it is empty or stays inside the blob;
   `process_resend` itself does not check the range it is given.
   */
  lemma AfterResendGoodIff(todo: Parts, total: nat, b: nat, e: nat)
    requires GoodTodo(todo, total)
    ensures GoodTodo(AfterResend(todo, total, b, e), total) <==> b >= e || e <= total
  {
    var end := if e == 0 then total else e;
    if b < end {
      InsertCanonicalIff(todo, b, end);
      if end <= total {
        InsertBounded(todo, b, end, total);
      } else {
        InsertCovers(todo, b, end, end - 1);
        var r := Insert(todo, b, end);
        var i :| 0 <= i < |r| && Within(r[i], end - 1);
        assert r[i].end > total;
      }
    }
  }

  /** In a good list nothing lies at or past the end, so "sent" means "nothing to do". */
  lemma SentEverythingIffEmpty(todo: Parts, total: nat)
    requires GoodTodo(todo, total)
    ensures SentEverything(todo, total) <==> todo == []
  {
    assert todo != [] ==> todo[0].bgn < todo[0].end <= total;
  }

  /** Still to be sent is exactly what was to be sent and is not in the fragment just taken. */
  lemma AfterSendCovers(todo: Parts, total: nat, free: nat, x: int)
    requires GoodTodo(todo, total) && todo != []
    ensures var b := Last(todo).bgn;
            Covers(AfterSend(todo, total, free), x) <==>
            Covers(todo, x) && !(b <= x < b + NextSize(todo, total, free))
  {
    var k := |todo| - 1;
    var p := Part(todo[k].bgn + NextSize(todo, total, free), todo[k].end);
    assert todo == todo[..k] + [todo[k]];
    CoversConcat(todo[..k], [todo[k]], x);
    CoversUncons([todo[k]], x);
    CoversConcat(todo[..k], [p], x);
    CoversUncons([p], x);
    assert [p][1..] == [] && [todo[k]][1..] == [];
    assert Covers(todo[..k], x) ==> x < todo[k].bgn;
  }

  lemma {:induction false} SizeConcat(ps: Parts, qs: Parts)
    ensures Size(ps + qs) == Size(ps) + Size(qs)
    decreases |ps|
  {
    if ps == [] {
      assert ps + qs == qs;
    } else {
      assert (ps + qs)[0] == ps[0] && (ps + qs)[1..] == ps[1..] + qs;
      SizeConcat(ps[1..], qs);
    }
  }

  lemma {:induction false} SizeNonNegative(ps: Parts)
    requires Canonical(ps)
    ensures Size(ps) >= |ps|
    decreases |ps|
  {
    if ps != [] { SizeNonNegative(ps[1..]); }
  }

  /** Each fragment sent lowers the number of unsent bytes, by its overlap with the list. */
  lemma AfterSendShrinks(todo: Parts, total: nat, free: nat)
    requires GoodTodo(todo, total) && todo != [] && free > 0
    ensures var last := Last(todo);
            Size(AfterSend(todo, total, free)) == Size(todo) - Min(NextSize(todo, total, free), last.end - last.bgn)
    ensures 0 <= Size(AfterSend(todo, total, free)) < Size(todo)
  {
    var k := |todo| - 1;
    assert todo == todo[..k] + [todo[k]];
    SizeConcat(todo[..k], [todo[k]]);
    SizeConcat(todo[..k], [Part(todo[k].bgn + NextSize(todo, total, free), todo[k].end)]);
    assert Size([todo[k]]) == todo[k].end - todo[k].bgn;
    AfterSendGood(todo, total, free);
    SizeNonNegative(AfterSend(todo, total, free));
  }

  /** The list after n sends of at most `free` bytes each. */
  function AfterSends(todo: Parts, total: nat, free: nat, n: nat): Parts
    decreases n
  {
    if n == 0 || todo == [] then todo else AfterSends(AfterSend(todo, total, free), total, free, n - 1)
  }

  /** The lists a sender can finish: good ones, and a single interval that reaches past the end. */
  ghost predicate CanFinish(todo: Parts, total: nat) {
    GoodTodo(todo, total) || (|todo| == 1 && todo[0].bgn <= todo[0].end && total < todo[0].end)
  }

  /** Bytes a finishing sender still has to send. */
  ghost function Unsent(todo: Parts, total: nat): int {
    if GoodTodo(todo, total) || todo == [] then Size(todo) else Max(0, total - todo[0].bgn)
  }

  lemma UnsentBounds(todo: Parts, total: nat)
    requires CanFinish(todo, total)
    ensures Unsent(todo, total) >= 0
    ensures Unsent(todo, total) == 0 <==> SentEverything(todo, total)
  {
    if GoodTodo(todo, total) {
      SizeNonNegative(todo);
      SentEverythingIffEmpty(todo, total);
    }
  }

  /** Sending never hurts such a list, and makes it shorter as long as anything is left. */
  lemma SendFacts(todo: Parts, total: nat, free: nat)
    requires CanFinish(todo, total) && todo != [] && free > 0
    ensures CanFinish(AfterSend(todo, total, free), total)
    ensures SentEverything(todo, total) ==> AfterSend(todo, total, free) == todo
    ensures !SentEverything(todo, total) ==> Unsent(AfterSend(todo, total, free), total) < Unsent(todo, total)
  {
    if GoodTodo(todo, total) {
      AfterSendGood(todo, total, free);
      AfterSendShrinks(todo, total, free);
      SentEverythingIffEmpty(todo, total);
    } else if !SentEverything(todo, total) {
      var w := NextSize(todo, total, free);
      assert AfterSend(todo, total, free) == [Part(todo[0].bgn + w, todo[0].end)];
    }
  }

  predicate FinishesIn(todo: Parts, total: nat, free: nat, n: nat) {
    SentEverything(AfterSends(todo, total, free, n), total)
  }

  /** Without resend requests a sender is done after as many sends as it has bytes. */
  lemma {:induction false} SendsFinish(todo: Parts, total: nat, free: nat, n: nat)
    requires CanFinish(todo, total) && free > 0 && n >= Unsent(todo, total)
    ensures FinishesIn(todo, total, free, n)
    decreases n
  {
    UnsentBounds(todo, total);
    if n > 0 && todo != [] {
      SendFacts(todo, total, free);
      SendsFinish(AfterSend(todo, total, free), total, free, n - 1);
    }
  }

  /** Something lies in front of a last interval that reaches past the end of the blob. */
  ghost predicate Jammed(todo: Parts, total: nat) {
    |todo| >= 2 && todo[0].bgn < total < Last(todo).end
  }

  /** The intervals in front of the last one, and that the list is jammed, as they were. */
  ghost predicate SameJam(todo: Parts, t: Parts, total: nat) {
    && Jammed(t, total) && |t| == |todo| && t[..|t| - 1] == todo[..|t| - 1]
    && (Separated(todo) ==> Separated(t))
  }

  lemma SameJamFollows(todo: Parts, mid: Parts, t: Parts, total: nat)
    requires SameJam(todo, mid, total) && SameJam(mid, t, total)
    ensures SameJam(todo, t, total)
  {
  }

  /** The rest of the last interval can never be read, so by sends alone nothing before it is sent. */
  lemma JammedStays(todo: Parts, total: nat, free: nat)
    requires Jammed(todo, total)
    ensures !SentEverything(todo, total) && SameJam(todo, AfterSend(todo, total, free), total)
  {
  }

  lemma {:induction false} SendsKeepJam(todo: Parts, total: nat, free: nat, n: nat) returns (t: Parts)
    requires Jammed(todo, total)
    ensures t == AfterSends(todo, total, free, n) && SameJam(todo, t, total)
    decreases n
  {
    t := todo;
    if n > 0 {
      var next := AfterSend(todo, total, free);
      JammedStays(todo, total, free);
      t := SendsKeepJam(next, total, free, n - 1);
      SendsStep(todo, total, free, n, next);
      SameJamFollows(todo, next, t, total);
    }
  }

  /** Without a further request the intervals in front of the last one stay unsent. */
  lemma {:induction false} JammedForever(todo: Parts, total: nat, free: nat, n: nat)
    requires Jammed(todo, total)
    ensures !FinishesIn(todo, total, free, n) && SameJam(todo, AfterSends(todo, total, free, n), total)
  {
    var t := SendsKeepJam(todo, total, free, n);
    assert t != [] && t[0].bgn < total;
  }

  lemma SendsStep(todo: Parts, total: nat, free: nat, n: nat, next: Parts)
    requires n > 0 && todo != [] && next == AfterSend(todo, total, free)
    ensures AfterSends(todo, total, free, n) == AfterSends(next, total, free, n - 1)
  {
  }

  /** Which requests leave a list the sender can finish, out of a good one. */
  predicate Harmless(todo: Parts, total: nat, b: nat, e: nat) {
    var end := if e == 0 then total else e;
    b >= end || end <= total || todo == [] || b <= todo[0].end
  }

  /** A request past the end either swallows the whole list or jams it. */
  lemma {:induction false} InsertPastEnd(ps: Parts, total: nat, b: nat, e: nat)
    requires Separated(ps) && Bounded(ps, total) && b <= e && total < e
    ensures Insert(ps, b, e) != [] && Last(Insert(ps, b, e)).end == e
    ensures ps == [] || b <= ps[0].end ==> Insert(ps, b, e) == [Part(if ps == [] then b else Min(b, ps[0].bgn), e)]
    ensures ps != [] && ps[0].end < b ==> |Insert(ps, b, e)| >= 2 && Insert(ps, b, e)[0] == ps[0]
    decreases |ps|
  {
    if ps != [] {
      assert |ps| > 1 ==> ps[0].bgn <= ps[0].end < ps[1].bgn <= ps[1].end;
      if ps[0].end < b {
        InsertPastEnd(ps[1..], total, b, e);
      } else {
        InsertPastEnd(ps[1..], total, Min(b, ps[0].bgn), e);
      }
    }
  }

  lemma ResentCanFinishOrJams(todo: Parts, total: nat, b: nat, e: nat)
    requires GoodTodo(todo, total)
    ensures Harmless(todo, total, b, e) ==> CanFinish(AfterResend(todo, total, b, e), total)
    ensures !Harmless(todo, total, b, e) ==> Jammed(AfterResend(todo, total, b, e), total)
  {
    var end := if e == 0 then total else e;
    if b >= end || end <= total {
      AfterResendGoodIff(todo, total, b, e);
    } else {
      InsertPastEnd(todo, total, b, end);
    }
  }

  /**
   After a request to a good list the sender still finishes exactly when the request is empty,
   ends inside the blob, meets an idle sender, or begins no later than the first todo interval
   ends; else everything in front of what it asks for is never sent.
   */
  lemma ResendFinishesIff(todo: Parts, total: nat, b: nat, e: nat, free: nat)
    requires GoodTodo(todo, total) && free > 0
    ensures (exists n: nat :: FinishesIn(AfterResend(todo, total, b, e), total, free, n)) <==>
            Harmless(todo, total, b, e)
  {
    var after := AfterResend(todo, total, b, e);
    ResentCanFinishOrJams(todo, total, b, e);
    if Harmless(todo, total, b, e) {
      UnsentBounds(after, total);
      var n: nat := Unsent(after, total);
      SendsFinish(after, total, free, n);
    } else {
      forall n: nat ensures !FinishesIn(after, total, free, n) { JammedForever(after, total, free, n); }
    }
  }

  /** Inserting fuses a whole list exactly when it touches the first and the last interval. */
  lemma {:induction false} InsertFusesIff(ps: Parts, b: nat, e: nat)
    requires Separated(ps) && ps != [] && b <= e
    ensures Insert(ps, b, e) != [] && Last(Insert(ps, b, e)).end == Max(Last(ps).end, e)
    ensures |Insert(ps, b, e)| == 1 <==> b <= ps[0].end && Last(ps).bgn <= e
    decreases |ps|
  {
    if |ps| > 1 {
      assert Last(ps[1..]) == Last(ps) && ps[0].end < Last(ps).bgn <= Last(ps).end;
      if ps[0].end < b {
        InsertFusesIff(ps[1..], b, e);
      } else if ps[0].bgn <= e {
        InsertFusesIff(ps[1..], Min(b, ps[0].bgn), Max(e, ps[0].end));
      }
    }
  }

  /** Which requests undo a jam. */
  predicate Unjams(todo: Parts, total: nat, b: nat, e: nat)
    requires todo != []
  {
    var end := if e == 0 then total else e;
    b < end && b <= todo[0].end && Last(todo).bgn <= end
  }

  lemma ResentUnjams(todo: Parts, total: nat, b: nat, e: nat)
    requires Separated(todo) && Jammed(todo, total)
    ensures Unjams(todo, total, b, e) ==> CanFinish(AfterResend(todo, total, b, e), total)
    ensures !Unjams(todo, total, b, e) ==> Jammed(AfterResend(todo, total, b, e), total)
  {
    var end := if e == 0 then total else e;
    if b < end {
      InsertFusesIff(todo, b, end);
      InsertSeparated(todo, b, end);
      assert todo[0].end < Last(todo).bgn;
    }
  }

  /**
   One further request lets the sender of a jammed list finish exactly when it reaches from the
   first todo interval, at the latest from its end, to the last one; else the list stays jammed.
   */
  lemma UnjamsIff(todo: Parts, total: nat, b: nat, e: nat, free: nat)
    requires Separated(todo) && Jammed(todo, total) && free > 0
    ensures (exists n: nat :: FinishesIn(AfterResend(todo, total, b, e), total, free, n)) <==>
            Unjams(todo, total, b, e)
    ensures !Unjams(todo, total, b, e) ==> Jammed(AfterResend(todo, total, b, e), total)
  {
    var after := AfterResend(todo, total, b, e);
    ResentUnjams(todo, total, b, e);
    if Unjams(todo, total, b, e) {
      UnsentBounds(after, total);
      var n: nat := Unsent(after, total);
      SendsFinish(after, total, free, n);
    } else {
      forall n: nat ensures !FinishesIn(after, total, free, n) { JammedForever(after, total, free, n); }
    }
  }

  // Facts about the receiver -----------------------------------------------------

  ghost predicate GoodDone(done: Parts, total: nat) { Separated(done) && Bounded(done, total) }

  /** Once anything was received, completion is exactly full coverage. */
  lemma ReceivedEverythingIff(done: Parts, total: nat)
    requires GoodDone(done, total) && done != [] && total > 0
    ensures ReceivedEverything(done, total) <==> CoversAll(done, total)
  {
    SinglePartIffCoversAll(done, total);
  }

  /** An incomplete list has a gap behind (or before) its first interval. */
  lemma FirstGap(done: Parts, total: nat)
    requires GoodDone(done, total) && done != [] && !CoversAll(done, total) && total > 0
    ensures done[0].bgn == 0 ==> done[0].end < (if |done| == 1 then total else done[1].bgn) <= total
  {
    SinglePartIffCoversAll(done, total);
    assert |done| > 1 ==> done[0].end < done[1].bgn <= done[1].end <= total;
  }

  /**
   The resend request of an incomplete transfer is a non-empty range of at most two
   thirds of a message, starts at the first missing byte, asks for missing bytes only, and
   ends before the gap does only when it has that length.
   */
  lemma ResendAsksForFirstGap(done: Parts, total: nat, maxMessageSize: nat)
    requires GoodDone(done, total) && done != [] && !CoversAll(done, total) && maxMessageSize >= 2 && total > 0
    ensures var (b, e) := DoneBeginEnd(done, total, maxMessageSize);
            && 0 <= b < e <= total && e - b <= 2 * maxMessageSize / 3
            && (forall x :: 0 <= x < b ==> Covers(done, x))
            && (forall x :: b <= x < e ==> !Covers(done, x))
            && (e - b == 2 * maxMessageSize / 3 || e == total || exists i :: 0 <= i < |done| && done[i].bgn == e)
  {
    FirstGap(done, total);
    var (b, e) := DoneBeginEnd(done, total, maxMessageSize);
    assert |done| > 1 ==> done[0].end < done[1].bgn <= done[1].end <= total;
    assert done[0].bgn <= done[0].end <= total;
    forall x | 0 <= x < b ensures Covers(done, x) { assert Within(done[0], x); }
    forall x | b <= x < e ensures !Covers(done, x) {
      forall i | 0 <= i < |done| ensures !Within(done[i], x) {
        assert 0 < i ==> done[0].end < done[i].bgn;
        assert 1 < i ==> done[1].bgn <= done[1].end < done[i].bgn;
      }
    }
  }

  /**
   One repair round that nothing disturbs: the receiver asks, an idle sender merges the
   request and sends its next fragment, the receiver merges that.
   */
  function RepairRound(done: Parts, total: nat, maxMessageSize: nat, free: nat): Parts
    requires GoodDone(done, total) && done != [] && maxMessageSize >= 2
  {
    var (b, e) := DoneBeginEnd(done, total, maxMessageSize);
    assert |done| > 1 ==> done[0].end < done[1].bgn;
    var todo := AfterResend([], total, b, e);
    if SentEverything(todo, total) then done
    else Insert(done, Last(todo).bgn, Last(todo).bgn + NextSize(todo, total, free))
  }

  /** What an idle sender sends first after a request. */
  lemma IdleResend(total: nat, b: nat, e: nat, free: nat)
    requires total > 0 && b <= e <= total && e > 0
    ensures var todo := AfterResend([], total, b, e);
            if b == e then todo == []
            else
              && todo == [Part(b, e)] && !SentEverything(todo, total)
              && NextSize(todo, total, free) == FetchSize(total, b, free)
  {
  }

  /** A round on a complete transfer changes nothing; else it merges bytes from the first missing one on. */
  lemma {:induction false} RoundMerges(done: Parts, total: nat, maxMessageSize: nat, free: nat) returns (b: nat, w: nat)
    requires GoodDone(done, total) && done != [] && total > 0 && maxMessageSize >= 2 && free > 0
    ensures CoversAll(done, total) ==> RepairRound(done, total, maxMessageSize, free) == done
    ensures !CoversAll(done, total) ==>
              && RepairRound(done, total, maxMessageSize, free) == Insert(done, b, b + w)
              && w > 0 && b + w <= total && !Covers(done, b)
  {
    var (bgn, end) := DoneBeginEnd(done, total, maxMessageSize);
    if CoversAll(done, total) {
      SinglePartIffCoversAll(done, total);
      assert bgn == end == total;
      IdleResend(total, total, total, free);
      b, w := 0, 0;
    } else {
      ResendAsksForFirstGap(done, total, maxMessageSize);
      IdleResend(total, bgn, end, free);
      b, w := bgn, FetchSize(total, bgn, free);
    }
  }

  lemma InsertFillsGap(done: Parts, total: nat, b: nat, w: nat)
    requires GoodDone(done, total) && w > 0 && b + w <= total && !Covers(done, b)
    ensures var next := Insert(done, b, b + w);
            && GoodDone(next, total) && next != []
            && (forall x :: Covers(done, x) ==> Covers(next, x))
            && Missing(next, total) < Missing(done, total)
  {
    var next := Insert(done, b, b + w);
    InsertSeparated(done, b, b + w);
    InsertBounded(done, b, b + w, total);
    forall x: int ensures Covers(next, x) <==> Covers(done, x) || b <= x < b + w { InsertCovers(done, b, b + w, x); }
    FewerMissing(done, next, total, b);
  }

  lemma FewerMissing(ps: Parts, qs: Parts, total: nat, x: nat)
    requires x < total && !Covers(ps, x) && Covers(qs, x)
    requires forall y :: Covers(ps, y) ==> Covers(qs, y)
    ensures Missing(qs, total) < Missing(ps, total)
  {
    assert x in MissingSet(ps, total) && x !in MissingSet(qs, total);
    SubsetSize(MissingSet(qs, total), MissingSet(ps, total));
  }

  /** A round on an incomplete transfer keeps what was there and lowers the missing count. */
  lemma {:induction false} RepairProgress(done: Parts, total: nat, maxMessageSize: nat, free: nat)
    requires GoodDone(done, total) && done != [] && total > 0 && maxMessageSize >= 2 && free > 0
    ensures var next := RepairRound(done, total, maxMessageSize, free);
            && GoodDone(next, total) && next != []
            && (forall x :: Covers(done, x) ==> Covers(next, x))
            && (!CoversAll(done, total) ==> Missing(next, total) < Missing(done, total))
            && (CoversAll(done, total) ==> next == done)
  {
    var b, w := RoundMerges(done, total, maxMessageSize, free);
    if !CoversAll(done, total) { InsertFillsGap(done, total, b, w); }
  }

  function RepairRounds(done: Parts, total: nat, maxMessageSize: nat, free: nat, n: nat): Parts
    requires GoodDone(done, total) && done != [] && total > 0 && maxMessageSize >= 2 && free > 0
    decreases n
  {
    if n == 0 then done
    else
      RepairProgress(done, total, maxMessageSize, free);
      RepairRounds(RepairRound(done, total, maxMessageSize, free), total, maxMessageSize, free, n - 1)
  }

  /** Undisturbed rounds complete any transfer, at the latest after one per missing byte. */
  lemma {:induction false} RepairCompletes(done: Parts, total: nat, maxMessageSize: nat, free: nat, n: nat)
    requires GoodDone(done, total) && done != [] && total > 0 && maxMessageSize >= 2 && free > 0
    requires n >= Missing(done, total)
    ensures ReceivedEverything(RepairRounds(done, total, maxMessageSize, free, n), total)
    decreases n
  {
    MissingZero(done, total);
    RepairProgress(done, total, maxMessageSize, free);
    if n == 0 {
      ReceivedEverythingIff(done, total);
    } else {
      RepairCompletes(RepairRound(done, total, maxMessageSize, free), total, maxMessageSize, free, n - 1);
    }
  }
}
