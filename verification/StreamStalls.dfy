/**
 When a stream sink fails to pass on what was received: the exact condition for one merge,
 for a run, and for which blobs it can happen at all.
 */
module StreamStalls {
  import opened Basics
  import opened Intervals
  import opened MergeSpec
  import opened Arrivals
  import opened StreamSink

  /** The byte the sink waits for was already received, so it will never be stored. */
  ghost predicate Stalled(ps: Parts, s: Stream, blob: Bytes) { s.offsDone in Held(ps, blob) }

  /** A waiting piece that begins before what was passed on; it blocks the front of the map. */
  ghost predicate Leftover(s: Stream) { s.unmerged != [] && s.unmerged[0].offs < s.offsDone }

  // For good ---------------------------------------------------------------------------

  lemma {:induction false} StoresLeaveStalled(s: Stream, blob: Bytes, held: set<int>, calls: seq<Call>)
    requires s.offsDone in held && FreshStores(held, calls, blob)
    ensures StreamRun(s, calls).offsDone == s.offsDone && StreamRun(s, calls).log == s.log
    ensures held <= HeldAfter(held, calls)
    decreases |calls|
  {
    if calls != [] {
      var c := calls[0];
      StoresLeaveStalled(StreamStore(s, c.offs, c.data), blob, held + Span(c.offs, c.data), calls[1..]);
    }
  }

  lemma {:induction false} MergeLeavesStalled(s: Stream, ps: Parts, b: nat, frag: Bytes, blob: Bytes)
    requires Separated(ps) && IsPieceOf(blob, b, frag) && frag != [] && Stalled(ps, s, blob)
    ensures var t := StreamRun(s, MergeCalls(ps, b, frag));
            && t.offsDone == s.offsDone && t.log == s.log
            && Stalled(Insert(ps, b, b + |frag|), t, blob)
  {
    OnlyStoresMatter(ps, b, frag, s);
    MergeStoresFresh(ps, b, frag, blob);
    StoresLeaveStalled(s, blob, Held(ps, blob), MergeStores(ps, b, frag));
  }

  /** The run after one arrival. */
  lemma FeedStep(ps: Parts, s: Stream, arrivals: seq<Arrival>, a: Arrival, rest: seq<Arrival>)
    requires Separated(ps) && arrivals != [] && a == arrivals[0] && rest == arrivals[1..]
    ensures Feed(ps, s, arrivals) ==
            Feed(Insert(ps, a.offs, a.offs + |a.data|), StreamRun(s, MergeCalls(ps, a.offs, a.data)), rest)
  {
  }

  /** One arrival of a piece of the blob takes the first state to the second. */
  ghost predicate Arrives(ps: Parts, s: Stream, a: Arrival, next: Parts, t: Stream, blob: Bytes) {
    && a.data != [] && IsPieceOf(blob, a.offs, a.data) && Separated(ps)
    && next == Insert(ps, a.offs, a.offs + |a.data|) && t == StreamRun(s, MergeCalls(ps, a.offs, a.data))
  }

  /** Whatever every arrival keeps holds after a run. */
  lemma {:induction false} FeedKeeps(keeps: (Parts, Stream) -> bool, ps: Parts, s: Stream,
                                     arrivals: seq<Arrival>, blob: Bytes)
    requires HonestArrivals(arrivals, blob) && Separated(ps) && keeps(ps, s)
    requires forall qs, u, a, next, t :: Arrives(qs, u, a, next, t, blob) && keeps(qs, u) ==> keeps(next, t)
    ensures keeps(Feed(ps, s, arrivals).0, Feed(ps, s, arrivals).1)
    decreases |arrivals|
  {
    if arrivals != [] {
      var a := arrivals[0];
      var next, t := Insert(ps, a.offs, a.offs + |a.data|), StreamRun(s, MergeCalls(ps, a.offs, a.data));
      assert Arrives(ps, s, a, next, t, blob);
      InsertSeparated(ps, a.offs, a.offs + |a.data|);
      FeedStep(ps, s, arrivals, a, arrivals[1..]);
      FeedKeeps(keeps, next, t, arrivals[1..], blob);
    }
  }

  /** What holds for good once a sink was stalled there. */
  ghost predicate StaysAt(ps: Parts, s: Stream, blob: Bytes, offsDone: nat, log: seq<Signal>) {
    Feeding(ps, s, blob) && Stalled(ps, s, blob) && s.offsDone == offsDone && s.log == log
  }

  lemma NextStaysAt(ps: Parts, s: Stream, a: Arrival, next: Parts, t: Stream, blob: Bytes)
    requires Arrives(ps, s, a, next, t, blob) && StaysAt(ps, s, blob, s.offsDone, s.log)
    ensures StaysAt(next, t, blob, s.offsDone, s.log)
  {
    FeedOne(ps, s, a, blob);
    MergeLeavesStalled(s, ps, a.offs, a.data, blob);
  }

  /** A stalled sink passes on nothing more, whatever pieces of the blob still arrive. */
  lemma {:induction false} StalledForever(ps: Parts, s: Stream, arrivals: seq<Arrival>, blob: Bytes)
    requires HonestArrivals(arrivals, blob) && Feeding(ps, s, blob) && Stalled(ps, s, blob)
    ensures var (qs, t) := Feed(ps, s, arrivals);
            t.offsDone == s.offsDone && t.log == s.log && Stalled(qs, t, blob)
  {
    var keeps := (qs: Parts, u: Stream) => StaysAt(qs, u, blob, s.offsDone, s.log);
    forall qs, u, a, next, t | Arrives(qs, u, a, next, t, blob) && keeps(qs, u) ensures keeps(next, t) {
      NextStaysAt(qs, u, a, next, t, blob);
    }
    FeedKeeps(keeps, ps, s, arrivals, blob);
  }

  // One merge --------------------------------------------------------------------------

  /** The sink never is ahead of the leading interval; it is stalled exactly when it is behind. */
  lemma StalledIffBehind(ps: Parts, s: Stream, blob: Bytes)
    requires Feeding(ps, s, blob)
    ensures s.offsDone <= LeadingEnd(ps)
    ensures Stalled(ps, s, blob) <==> s.offsDone < LeadingEnd(ps)
  {
    var n := LeadingEnd(ps);
    assert forall i :: 0 < i < |ps| ==> ps[0].end < ps[i].bgn;
    assert !Covers(ps, n) by {
      if ps != [] && ps[0].bgn == 0 { EndNotCovered(ps, 0); }
    }
    assert n !in Held(ps, blob) && s.offsDone <= n;
    if s.offsDone < n {
      assert Within(ps[0], s.offsDone);
      assert Covers(ps, s.offsDone);
    }
  }

  /** A fragment behind the leading interval leaves it alone. */
  lemma {:induction false} InsertBehindLeading(ps: Parts, b: nat, e: nat)
    requires Separated(ps) && b <= e && LeadingEnd(ps) < b
    ensures LeadingEnd(Insert(ps, b, e)) == LeadingEnd(ps)
  {
    InsertSeparated(ps, b, e);
  }

  /**
   Where a merge leaves the sink. A fragment that does not reach over the leading interval's
   end is not passed on. Else its part behind that end is one store; without a leading interval
   it may be two, before and behind the first interval. The pieces that waited for a store's end
   follow it; the second store waits itself unless they brought the sink to where it begins.
   */
  function PassesTo(ps: Parts, s: Stream, b: nat, e: nat): nat {
    var n := LeadingEnd(ps);
    if !(b <= n < e) then s.offsDone
    else if n > 0 || ps == [] || e < ps[0].bgn then ChainEnd(s.unmerged, e)
    else
      var mid := ChainEnd(s.unmerged, ps[0].bgn);
      if mid == ps[0].end < e then ChainEnd(s.unmerged[ChainLength(s.unmerged, ps[0].bgn)..], e) else mid
  }

  /** The guard of a stall: the fragment is in line, and the sink stops before the new leading end. */
  predicate Stops(ps: Parts, s: Stream, b: nat, e: nat) {
    b <= LeadingEnd(ps) < e && PassesTo(ps, s, b, e) < LeadingEnd(Insert(ps, b, e))
  }

  function StoreSome(s: Stream, offs: nat, data: Bytes): Stream {
    if data == [] then s else StreamStore(s, offs, data)
  }

  lemma OneRun(s: Stream, c: Call)
    requires c.Store?
    ensures StreamRun(s, [c]) == StreamStore(s, c.offs, c.data)
  {
    assert [c][1..] == [];
  }

  lemma {:induction false} RunNonEmpty(s: Stream, c: Call, d: Call)
    requires c.Store? && d.Store?
    ensures StreamRun(s, NonEmpty(c, d)) == StoreSome(StoreSome(s, c.offs, c.data), d.offs, d.data)
  {
    var mid := StoreSome(s, c.offs, c.data);
    var first, second := if c.data != [] then [c] else [], if d.data != [] then [d] else [];
    assert NonEmpty(c, d) == first + second;
    RunConcatStream(s, first, second);
    OneRun(s, c);
    OneRun(mid, d);
  }

  /** The stores of a merge that touches an interval, as two stores of which either may be empty. */
  lemma TouchRun(s: Stream, ps: Parts, b: nat, frag: Bytes, p: Part)
    requires Separated(ps) && EndingBefore(ps, b) < |ps| && p == ps[EndingBefore(ps, b)] && p.bgn <= b + |frag|
    ensures StreamRun(s, MergeStores(ps, b, frag)) ==
            StoreSome(StoreSome(s, b, LeftEnd(p, b, frag)), p.end, RightEnd(p, b, frag))
  {
    EndStores(p, b, frag);
    RunNonEmpty(s, Store(b, LeftEnd(p, b, frag)), Store(p.end, RightEnd(p, b, frag)));
  }

  lemma OutOfLineStays(s: Stream, ps: Parts, b: nat, frag: Bytes)
    requires Separated(ps) && s.offsDone == LeadingEnd(ps) < b
    ensures StreamRun(s, MergeStores(ps, b, frag)).offsDone == s.offsDone
    ensures LeadingEnd(Insert(ps, b, b + |frag|)) == LeadingEnd(ps)
  {
    var k := EndingBefore(ps, b);
    if k < |ps| && ps[k].bgn <= b + |frag| {
      TouchRun(s, ps, b, frag, ps[k]);
    } else {
      OneRun(s, Store(b, frag));
    }
    InsertBehindLeading(ps, b, b + |frag|);
  }

  lemma LeadingGrows(s: Stream, ps: Parts, b: nat, frag: Bytes)
    requires Separated(ps) && ps != [] && ps[0].bgn == 0 && b <= ps[0].end == s.offsDone
    ensures var e, t := b + |frag|, StreamRun(s, MergeStores(ps, b, frag));
            && t.offsDone == (if s.offsDone < e then ChainEnd(s.unmerged, e) else s.offsDone)
            && (e <= s.offsDone ==> LeadingEnd(Insert(ps, b, e)) == s.offsDone)
  {
    assert |ps| > 1 ==> ps[0].end < ps[1].bgn;
    TouchRun(s, ps, b, frag, ps[0]);
  }

  lemma FromTheStart(s: Stream, ps: Parts, frag: Bytes)
    requires Separated(ps) && s.offsDone == 0 && frag != [] && (ps != [] ==> ps[0].bgn > 0)
    ensures StreamRun(s, MergeStores(ps, 0, frag)).offsDone == PassesTo(ps, s, 0, |frag|)
  {
    assert EndingBefore(ps, 0) == 0;
    if ps != [] && ps[0].bgn <= |frag| {
      TouchRun(s, ps, 0, frag, ps[0]);
      ChainShape(s.unmerged, ps[0].bgn);
    } else {
      OneRun(s, Store(0, frag));
    }
  }

  lemma MergePassesTo(s: Stream, ps: Parts, b: nat, frag: Bytes)
    requires Canonical(ps) && s.offsDone == LeadingEnd(ps) && frag != []
    ensures StreamRun(s, MergeCalls(ps, b, frag)).offsDone == PassesTo(ps, s, b, b + |frag|)
    ensures !(b <= s.offsDone < b + |frag|) ==> LeadingEnd(Insert(ps, b, b + |frag|)) == s.offsDone
  {
    OnlyStoresMatter(ps, b, frag, s);
    if LeadingEnd(ps) < b {
      OutOfLineStays(s, ps, b, frag);
    } else if ps != [] && ps[0].bgn == 0 {
      LeadingGrows(s, ps, b, frag);
    } else {
      FromTheStart(s, ps, frag);
    }
  }

  lemma NextBehind(ps: Parts, s: Stream, a: Arrival, next: Parts, t: Stream, blob: Bytes)
    requires Feeding(ps, s, blob) && Arrives(ps, s, a, next, t, blob)
    ensures Feeding(next, t, blob)
    ensures t.offsDone <= LeadingEnd(next) && (Stalled(next, t, blob) <==> t.offsDone < LeadingEnd(next))
  {
    FeedOne(ps, s, a, blob);
    StalledIffBehind(next, t, blob);
  }

  /**
   One merge, exactly: how far a sink that is not stalled passes on, and that the merge stalls
   it if and only if the guard holds.
   */
  lemma MergeStallsIff(s: Stream, ps: Parts, b: nat, frag: Bytes, blob: Bytes)
    requires Feeding(ps, s, blob) && !Stalled(ps, s, blob) && IsPieceOf(blob, b, frag) && frag != []
    ensures var e, t := b + |frag|, StreamRun(s, MergeCalls(ps, b, frag));
            && t.offsDone == PassesTo(ps, s, b, e)
            && (Stalled(Insert(ps, b, e), t, blob) <==> Stops(ps, s, b, e))
  {
    StalledIffBehind(ps, s, blob);
    NextBehind(ps, s, Arrival(b, frag), Insert(ps, b, b + |frag|), StreamRun(s, MergeCalls(ps, b, frag)), blob);
    MergePassesTo(s, ps, b, frag);
  }

  /** The same for an arrival. */
  lemma NextStalls(ps: Parts, s: Stream, a: Arrival, next: Parts, t: Stream, blob: Bytes)
    requires Feeding(ps, s, blob) && !Stalled(ps, s, blob) && Arrives(ps, s, a, next, t, blob)
    ensures Feeding(next, t, blob) && (Stalled(next, t, blob) <==> Stops(ps, s, a.offs, a.offs + |a.data|))
  {
    NextBehind(ps, s, a, next, t, blob);
    MergeStallsIff(s, ps, a.offs, a.data, blob);
  }

  // Tight sinks ------------------------------------------------------------------------

  /** In-line data over a waiting piece is passed on, and nothing after it; the piece stays behind. */
  lemma StopsAtEnd(s: Stream, blob: Bytes, held: set<int>, data: Bytes, q: int)
    requires Safe(s, blob, held) && Tight(s, held) && q in held && s.offsDone < q < s.offsDone + |data|
    ensures var t := StreamStore(s, s.offsDone, data); t.offsDone == s.offsDone + |data| && Leftover(t)
  {
    assert Waiting(s, q);
    var i :| 0 <= i < |s.unmerged| && InPiece(s.unmerged[i], q);
    assert i > 0 ==> s.unmerged[0].offs < s.unmerged[i].offs;
  }

  /** A tight sink is at n when everything before n is held and n is not. */
  lemma TightIsAt(s: Stream, blob: Bytes, held: set<int>, n: nat)
    requires Safe(s, blob, held) && Tight(s, held)
    requires n !in held && forall x :: 0 <= x < n ==> x in held
    ensures s.offsDone == n
  {
  }

  /** In line, a tight sink comes as far as the first touched interval's end. */
  lemma AtOverlap(s: Stream, ps: Parts, b: nat, frag: Bytes, blob: Bytes)
    returns (first: seq<Call>, mid: Stream, h: set<int>)
    requires Feeding(ps, s, blob) && Tight(s, Held(ps, blob)) && IsPieceOf(blob, b, frag)
    requires b <= LeadingEnd(ps) && !NoSecondOverlap(ps, b, b + |frag|)
    ensures EndingBefore(ps, b) == 0 && ps[0].end < ps[1].bgn < b + |frag| && ps[1].bgn in h
    ensures MergeStores(ps, b, frag) == first + [Store(ps[0].end, RightEnd(ps[0], b, frag))]
    ensures mid == StreamRun(s, first) && Safe(mid, blob, h) && Tight(mid, h) && mid.offsDone == ps[0].end
  {
    assert EndingBefore(ps, b) == 0;
    var p := ps[0];
    first := LastStore(s, ps, b, frag, blob);
    mid, h := StreamRun(s, first), HeldAfter(Held(ps, blob), first);
    SecondIsHeld(ps, 0, b + |frag|, blob);
    SpanMeaning(b, LeftEnd(p, b, frag));
    forall x | 0 <= x < p.end ensures x in h {
      if x >= p.bgn { assert Within(ps[0], x); }
    }
    TightIsAt(mid, blob, h, p.end);
  }

  /** With a second overlap in line, the sink passes on the fragment and stops at its end. */
  lemma {:induction false} SecondOverlapStops(s: Stream, ps: Parts, b: nat, frag: Bytes, blob: Bytes)
    requires Feeding(ps, s, blob) && Tight(s, Held(ps, blob)) && IsPieceOf(blob, b, frag)
    requires b <= LeadingEnd(ps) && !NoSecondOverlap(ps, b, b + |frag|)
    ensures var t := StreamRun(s, MergeCalls(ps, b, frag)); t.offsDone == b + |frag| && Leftover(t)
  {
    var first, mid, h := AtOverlap(s, ps, b, frag, blob);
    var last := Store(ps[0].end, RightEnd(ps[0], b, frag));
    StopsAtEnd(mid, blob, h, last.data, ps[1].bgn);
    RunConcatStream(s, first, [last]);
    OneRun(mid, last);
    OnlyStoresMatter(ps, b, frag, s);
  }

  lemma TightNotStalled(s: Stream, ps: Parts, blob: Bytes)
    requires Tight(s, Held(ps, blob))
    ensures !Stalled(ps, s, blob) && !Leftover(s)
  {
  }

  lemma NoOverlapFollows(s: Stream, ps: Parts, b: nat, frag: Bytes, blob: Bytes)
    requires Feeding(ps, s, blob) && Tight(s, Held(ps, blob)) && IsPieceOf(blob, b, frag) && frag != []
    requires NoSecondOverlap(ps, b, b + |frag|)
    ensures var t := StreamRun(s, MergeCalls(ps, b, frag));
            !Stalled(Insert(ps, b, b + |frag|), t, blob) && !Leftover(t)
  {
    MergeIntoStream(s, ps, b, frag, blob);
    TightNotStalled(StreamRun(s, MergeCalls(ps, b, frag)), Insert(ps, b, b + |frag|), blob);
  }

  lemma OverlapStallsIff(s: Stream, ps: Parts, b: nat, frag: Bytes, blob: Bytes)
    requires Feeding(ps, s, blob) && Tight(s, Held(ps, blob)) && IsPieceOf(blob, b, frag) && frag != []
    requires b <= LeadingEnd(ps) && !NoSecondOverlap(ps, b, b + |frag|)
    ensures var e, t := b + |frag|, StreamRun(s, MergeCalls(ps, b, frag));
            && (Stalled(Insert(ps, b, e), t, blob) <==> LeadingEnd(Insert(ps, b, e)) > e)
            && Leftover(t)
  {
    NextBehind(ps, s, Arrival(b, frag), Insert(ps, b, b + |frag|), StreamRun(s, MergeCalls(ps, b, frag)), blob);
    SecondOverlapStops(s, ps, b, frag, blob);
  }

  /**
   For a tight sink the interval list alone decides: an in-line fragment leaves a piece behind
   exactly when it overlaps a second received interval, and then stalls the sink exactly when
   the leading interval now reaches beyond the fragment's end.
   */
  lemma TightStallsIff(s: Stream, ps: Parts, b: nat, frag: Bytes, blob: Bytes)
    requires Feeding(ps, s, blob) && Tight(s, Held(ps, blob)) && IsPieceOf(blob, b, frag) && frag != []
    ensures var e, t := b + |frag|, StreamRun(s, MergeCalls(ps, b, frag));
            && (Stalled(Insert(ps, b, e), t, blob) <==>
                  b <= LeadingEnd(ps) && !NoSecondOverlap(ps, b, e) && LeadingEnd(Insert(ps, b, e)) > e)
            && (b <= LeadingEnd(ps) ==> (Leftover(t) <==> !NoSecondOverlap(ps, b, e)))
  {
    if NoSecondOverlap(ps, b, b + |frag|) {
      NoOverlapFollows(s, ps, b, frag, blob);
    } else if b <= LeadingEnd(ps) {
      OverlapStallsIff(s, ps, b, frag, blob);
    } else {
      TightNotStalled(s, ps, blob);
      MergeStallsIff(s, ps, b, frag, blob);
    }
  }

  // The cause --------------------------------------------------------------------------

  /** A leftover piece stays, and nothing follows on from a store any more. */
  lemma LeftoverBlocks(s: Stream, offset: nat, data: Bytes)
    requires Leftover(s) && offset >= s.offsDone
    ensures var t := StreamStore(s, offset, data); Leftover(t) && t.unmerged[0] == s.unmerged[0]
    ensures offset == s.offsDone ==> StreamStore(s, offset, data).offsDone == offset + |data|
    ensures forall e :: e >= s.offsDone ==> ChainEnd(s.unmerged, e) == e
  {
  }

  lemma {:induction false} LeftoverThrough(s: Stream, calls: seq<Call>)
    requires Leftover(s) && AssertionsHold(s, calls)
    ensures var t := StreamRun(s, calls); Leftover(t) && t.unmerged[0] == s.unmerged[0]
    decreases |calls|
  {
    if calls != [] {
      var c := calls[0];
      if c.Store? {
        LeftoverBlocks(s, c.offs, c.data);
        LeftoverThrough(StreamStore(s, c.offs, c.data), calls[1..]);
      } else {
        LeftoverThrough(s, calls[1..]);
      }
    }
  }

  ghost predicate LeavesBehind(ps: Parts, s: Stream, blob: Bytes, p: Piece) {
    Feeding(ps, s, blob) && Leftover(s) && s.unmerged[0] == p
  }

  lemma NextLeavesBehind(ps: Parts, s: Stream, a: Arrival, next: Parts, t: Stream, blob: Bytes, p: Piece)
    requires Arrives(ps, s, a, next, t, blob) && LeavesBehind(ps, s, blob, p)
    ensures LeavesBehind(next, t, blob, p)
  {
    FeedOne(ps, s, a, blob);
    LeftoverThrough(s, MergeCalls(ps, a.offs, a.data));
  }

  /** A piece that was left behind is so for good. */
  lemma {:induction false} LeftoverForever(ps: Parts, s: Stream, arrivals: seq<Arrival>, blob: Bytes)
    requires HonestArrivals(arrivals, blob) && Feeding(ps, s, blob) && Leftover(s)
    ensures var t := Feed(ps, s, arrivals).1; Leftover(t) && t.unmerged[0] == s.unmerged[0]
  {
    var keeps := (qs: Parts, u: Stream) => LeavesBehind(qs, u, blob, s.unmerged[0]);
    forall qs, u, a, next, t | Arrives(qs, u, a, next, t, blob) && keeps(qs, u) ensures keeps(next, t) {
      NextLeavesBehind(qs, u, a, next, t, blob, s.unmerged[0]);
    }
    FeedKeeps(keeps, ps, s, arrivals, blob);
  }

  /**
   A sink that left a piece behind passes on in-line fragments only, and stalls as soon as one
   of them makes the leading interval reach beyond its own end, with or without a second overlap.
   */
  lemma LeftoverStallsIff(s: Stream, ps: Parts, b: nat, frag: Bytes, blob: Bytes)
    requires Feeding(ps, s, blob) && !Stalled(ps, s, blob) && Leftover(s) && IsPieceOf(blob, b, frag) && frag != []
    ensures var e, n, t := b + |frag|, LeadingEnd(ps), StreamRun(s, MergeCalls(ps, b, frag));
            && Leftover(t)
            && t.offsDone == (if b <= n < e then e else n)
            && (Stalled(Insert(ps, b, e), t, blob) <==> b <= n < e < LeadingEnd(Insert(ps, b, e)))
  {
    var e := b + |frag|;
    StalledIffBehind(ps, s, blob);
    MergeStallsIff(s, ps, b, frag, blob);
    FeedOne(ps, s, Arrival(b, frag), blob);
    LeftoverThrough(s, MergeCalls(ps, b, frag));
    LeftoverBlocks(s, s.offsDone, frag);
  }

  // Whole runs -------------------------------------------------------------------------

  lemma {:induction false} FeedConcat(ps: Parts, s: Stream, xs: seq<Arrival>, ys: seq<Arrival>)
    requires Separated(ps)
    ensures Feed(ps, s, xs + ys) == Feed(Feed(ps, s, xs).0, Feed(ps, s, xs).1, ys)
    decreases |xs|
  {
    if xs == [] {
      assert xs + ys == ys;
    } else {
      var a := xs[0];
      assert (xs + ys)[0] == a && (xs + ys)[1..] == xs[1..] + ys;
      FeedStep(ps, s, xs, a, xs[1..]);
      FeedStep(ps, s, xs + ys, a, xs[1..] + ys);
      InsertSeparated(ps, a.offs, a.offs + |a.data|);
      var next := Insert(ps, a.offs, a.offs + |a.data|);
      FeedConcat(next, StreamRun(s, MergeCalls(ps, a.offs, a.data)), xs[1..], ys);
    }
  }

  /** No arrival meets the guard of a stall in the state before it. */
  ghost predicate NeverStops(ps: Parts, s: Stream, arrivals: seq<Arrival>)
    requires Separated(ps)
    decreases |arrivals|
  {
    arrivals == [] ||
    var a := arrivals[0];
    var next := Insert(ps, a.offs, a.offs + |a.data|);
    && !Stops(ps, s, a.offs, a.offs + |a.data|) && Separated(next)
    && NeverStops(next, StreamRun(s, MergeCalls(ps, a.offs, a.data)), arrivals[1..])
  }

  lemma StopsInRun(ps: Parts, s: Stream, arrivals: seq<Arrival>, a: Arrival, rest: seq<Arrival>)
    requires Separated(ps) && arrivals != [] && a == arrivals[0] && rest == arrivals[1..]
    ensures var next, t := Insert(ps, a.offs, a.offs + |a.data|), StreamRun(s, MergeCalls(ps, a.offs, a.data));
            && Separated(next)
            && (NeverStops(ps, s, arrivals) <==> !Stops(ps, s, a.offs, a.offs + |a.data|) && NeverStops(next, t, rest))
  {
    InsertSeparated(ps, a.offs, a.offs + |a.data|);
  }

  lemma {:induction false} StallsInRunIff(ps: Parts, s: Stream, arrivals: seq<Arrival>, blob: Bytes)
    requires HonestArrivals(arrivals, blob) && Feeding(ps, s, blob) && !Stalled(ps, s, blob)
    ensures Stalled(Feed(ps, s, arrivals).0, Feed(ps, s, arrivals).1, blob) <==> !NeverStops(ps, s, arrivals)
    decreases |arrivals|
  {
    if arrivals != [] {
      var a, rest := arrivals[0], arrivals[1..];
      var next, t := Insert(ps, a.offs, a.offs + |a.data|), StreamRun(s, MergeCalls(ps, a.offs, a.data));
      assert Arrives(ps, s, a, next, t, blob);
      NextStalls(ps, s, a, next, t, blob);
      FeedStep(ps, s, arrivals, a, rest);
      StopsInRun(ps, s, arrivals, a, rest);
      if Stalled(next, t, blob) {
        StalledForever(next, t, rest, blob);
      } else {
        StallsInRunIff(next, t, rest, blob);
      }
    }
  }

  /**
   After any run of pieces of the blob everything received in one piece from the start has been
   passed on exactly when no arrival met the guard; so a complete blob completely.
   */
  lemma CompletePassedOnIff(arrivals: seq<Arrival>, blob: Bytes)
    requires HonestArrivals(arrivals, blob)
    ensures var (done, s) := Feed([], EMPTY, arrivals);
            && (s.offsDone == LeadingEnd(done) <==> NeverStops([], EMPTY, arrivals))
            && (CoversAll(done, |blob|) ==> (s.offsDone == |blob| <==> NeverStops([], EMPTY, arrivals)))
  {
    var (done, s) := Feed([], EMPTY, arrivals);
    StartFeeds(blob);
    FeedKeepsSafe([], EMPTY, arrivals, blob);
    StallsInRunIff([], EMPTY, arrivals, blob);
    StalledIffBehind(done, s, blob);
    if CoversAll(done, |blob|) && |blob| > 0 { SinglePartIffCoversAll(done, |blob|); }
  }

  lemma StartFeeds(blob: Bytes)
    ensures Feeding([], EMPTY, blob) && Tight(EMPTY, Held([], blob))
  {
    assert Held([], blob) == {};
  }

  // Which blobs -------------------------------------------------------------------------

  /** An arrival beyond everything received so far is stored as it is. */
  lemma {:induction false} FeedBeyond(ps: Parts, s: Stream, arrivals: seq<Arrival>, a: Arrival,
                                      rest: seq<Arrival>, qs: Parts, t: Stream)
    requires Separated(ps) && (ps != [] ==> ps[|ps| - 1].end < a.offs)
    requires arrivals != [] && a == arrivals[0] && rest == arrivals[1..]
    requires qs == ps + [Part(a.offs, a.offs + |a.data|)] && t == StreamStore(s, a.offs, a.data)
    ensures Feed(ps, s, arrivals) == Feed(qs, t, rest)
  {
    InsertAppends(ps, a.offs, a.offs + |a.data|);
    CallsBeyond(ps, a.offs, a.data);
    var c := Store(a.offs, a.data);
    assert [c][1..] == [];
    assert StreamRun(s, [c]) == StreamStore(s, c.offs, c.data);
  }

  lemma {:induction false} CallsBeyond(ps: Parts, b: nat, frag: Bytes)
    requires Separated(ps) && (ps != [] ==> ps[|ps| - 1].end < b)
    ensures MergeCalls(ps, b, frag) == [Store(b, frag)]
    decreases |ps|
  {
    if ps != [] {
      assert |ps| > 1 ==> ps[0].end < ps[|ps| - 1].bgn;
      CallsBeyond(ps[1..], b, frag);
    }
  }

  /** A fragment over the second byte and the first waiting one leaves the rest waiting. */
  lemma StallingStep(s: Stream, blob: Bytes)
    requires |blob| >= 4 && s.offsDone == 1 && s.unmerged == [Piece(2, blob[2..])]
    ensures Separated([Part(0, 1), Part(2, |blob|)])
    ensures Insert([Part(0, 1), Part(2, |blob|)], 1, 3) == [Part(0, |blob|)]
    ensures StreamRun(s, MergeCalls([Part(0, 1), Part(2, |blob|)], 1, blob[1..3])).offsDone == 3
  {
    var ps, frag := [Part(0, 1), Part(2, |blob|)], blob[1..3];
    assert ps[1..] == [Part(2, |blob|)] && ps[1..][1..] == [];
    assert Insert(ps, 1, 3) == Insert(ps[1..], 0, 3) == Insert(ps[1..][1..], 0, |blob|);
    OnlyStoresMatter(ps, 1, frag, s);
    assert EndingBefore(ps, 1) == 0;
    assert Cut(1, frag, 1, 3) == frag;
    assert MergeStores(ps, 1, frag) == [Store(1, frag)];
    assert [Store(1, frag)][1..] == [];
    assert ChainLength(s.unmerged, 3) == 0;
  }

  lemma FeedLast(ps: Parts, s: Stream, last: seq<Arrival>, c: Arrival)
    requires Separated(ps) && last == [c]
    ensures Feed(ps, s, last) ==
            (Insert(ps, c.offs, c.offs + |c.data|), StreamRun(s, MergeCalls(ps, c.offs, c.data)))
  {
    assert last[1..] == [];
  }

  lemma ThreeStall(a: Arrival, b: Arrival, c: Arrival, blob: Bytes)
    requires |blob| >= 4
    requires a == Arrival(0, blob[..1]) && b == Arrival(2, blob[2..]) && c == Arrival(1, blob[1..3])
    ensures Feed([], EMPTY, [a, b, c]).0 == [Part(0, |blob|)]
    ensures Feed([], EMPTY, [a, b, c]).1.offsDone == 3
  {
    var s1, p := StreamStore(EMPTY, a.offs, a.data), [Part(0, 1)];
    var s2, ps := StreamStore(s1, b.offs, b.data), [Part(0, 1), Part(2, |blob|)];
    assert [] + p == p && ps == p + [Part(2, |blob|)];
    assert Put([], 2, b.data) == [Piece(2, b.data)];
    FeedBeyond([], EMPTY, [a, b, c], a, [b, c], p, s1);
    FeedBeyond(p, s1, [b, c], b, [c], ps, s2);
    FeedLast(ps, s2, [c], c);
    StallingStep(s2, blob);
  }

  /** Two bytes over the second and the third one, of which the third waits. */
  lemma LeavingStep(s: Stream, blob: Bytes, ps: Parts)
    requires |blob| >= 6 && s.offsDone == 1 && s.unmerged == [Piece(2, blob[2..3]), Piece(5, blob[5..])]
    requires ps == [Part(0, 1), Part(2, 3), Part(5, |blob|)]
    ensures Insert(ps, 1, 3) == [Part(0, 3), Part(5, |blob|)]
    ensures var t := StreamRun(s, MergeCalls(ps, 1, blob[1..3])); t.offsDone == 3 && t.unmerged == s.unmerged
  {
    var frag := blob[1..3];
    assert ps[1..] == [Part(2, 3), Part(5, |blob|)] && ps[1..][1..] == [Part(5, |blob|)];
    assert Insert(ps, 1, 3) == Insert(ps[1..], 0, 3) == Insert(ps[1..][1..], 0, 3);
    OnlyStoresMatter(ps, 1, frag, s);
    assert EndingBefore(ps, 1) == 0;
    assert Cut(1, frag, 1, 3) == frag;
    assert MergeStores(ps, 1, frag) == [Store(1, frag)];
    OneRun(s, Store(1, frag));
    assert ChainLength(s.unmerged, 3) == 0;
  }

  lemma {:induction false} FeedApart(ps: Parts, s: Stream, a: Arrival, rest: seq<Arrival>, qs: Parts, t: Stream)
    requires Separated(ps) && (ps != [] ==> ps[|ps| - 1].end < a.offs)
    requires qs == ps + [Part(a.offs, a.offs + |a.data|)] && t == StreamStore(s, a.offs, a.data)
    ensures Feed(ps, s, [a] + rest) == Feed(qs, t, rest)
  {
    assert ([a] + rest)[1..] == rest;
    FeedBeyond(ps, s, [a] + rest, a, rest, qs, t);
  }

  lemma TwoWait(s: Stream, p: Piece, q: Piece)
    requires s.offsDone != p.offs && s.offsDone != q.offs && s.unmerged == [] && p.offs < q.offs
    ensures var t := StreamStore(StreamStore(s, p.offs, p.data), q.offs, q.data);
            t.offsDone == s.offsDone && t.unmerged == [p, q]
  {
    assert Put([], p.offs, p.data) == [p] && [p][1..] == [] && Put([], q.offs, q.data) == [q];
  }

  /** Three arrivals apart from each other, and one more. */
  lemma {:induction false} ThreeApart(a: Arrival, b: Arrival, c: Arrival, rest: seq<Arrival>, blob: Bytes)
    returns (ps: Parts, s: Stream)
    requires |blob| >= 6 && a == Arrival(0, blob[..1])
    requires b == Arrival(2, blob[2..3]) && c == Arrival(5, blob[5..])
    ensures ps == [Part(0, 1), Part(2, 3), Part(5, |blob|)]
    ensures s.offsDone == 1 && s.unmerged == [Piece(2, blob[2..3]), Piece(5, blob[5..])]
    ensures Feed([], EMPTY, [a] + ([b] + ([c] + rest))) == Feed(ps, s, rest)
  {
    var s1, p1 := StreamStore(EMPTY, 0, a.data), [Part(0, 1)];
    var s2, p2 := StreamStore(s1, 2, b.data), [Part(0, 1), Part(2, 3)];
    s, ps := StreamStore(s2, 5, c.data), [Part(0, 1), Part(2, 3), Part(5, |blob|)];
    assert [] + p1 == p1 && p2 == p1 + [Part(2, 3)] && ps == p2 + [Part(5, |blob|)];
    TwoWait(s1, Piece(2, b.data), Piece(5, c.data));
    FeedApart([], EMPTY, a, [b] + ([c] + rest), p1, s1);
    FeedApart(p1, s1, b, [c] + rest, p2, s2);
    FeedApart(p2, s2, c, rest, ps, s);
  }

  /** The sink after the first four arrivals of `LeftoverCanStall`. */
  lemma FourLeave(a: Arrival, b: Arrival, c: Arrival, d: Arrival, blob: Bytes)
    requires |blob| >= 6 && a == Arrival(0, blob[..1]) && b == Arrival(2, blob[2..3])
    requires c == Arrival(5, blob[5..]) && d == Arrival(1, blob[1..3])
    ensures var (ps, s) := Feed([], EMPTY, [a] + ([b] + ([c] + [d])));
            && ps == [Part(0, 3), Part(5, |blob|)] && s.offsDone == 3
            && s.unmerged == [Piece(2, b.data), Piece(5, c.data)]
  {
    var ps, s := ThreeApart(a, b, c, [d], blob);
    FeedLast(ps, s, [d], d);
    LeavingStep(s, blob, ps);
  }

  /** The gap between what was passed on and a last waiting piece is closed, and the piece is lost. */
  lemma ClosingStep(ps: Parts, s: Stream, blob: Bytes)
    requires |blob| >= 6 && Feeding(ps, s, blob) && s.offsDone == 3 && Leftover(s)
    requires ps == [Part(0, 3), Part(5, |blob|)]
    ensures !Stalled(ps, s, blob) && NoSecondOverlap(ps, 3, 5) && Stops(ps, s, 3, 5)
    ensures Insert(ps, 3, 5) == [Part(0, |blob|)]
    ensures StreamRun(s, MergeCalls(ps, 3, blob[3..5])).offsDone == 5
  {
    StalledIffBehind(ps, s, blob);
    assert ps[1..] == [Part(5, |blob|)] && ps[1..][1..] == [];
    assert Insert(ps, 3, 5) == Insert(ps[1..], 0, 5) == Insert(ps[1..][1..], 0, |blob|);
    assert EndingBefore(ps, 3) == 0;
    LeftoverStallsIff(s, ps, 3, blob[3..5], blob);
    MergeStallsIff(s, ps, 3, blob[3..5], blob);
  }

  lemma {:induction false} LosesAt(arrivals: seq<Arrival>, last: Arrival, ps: Parts, s: Stream, blob: Bytes)
    requires HonestArrivals(arrivals, blob) && last.data != [] && IsPieceOf(blob, last.offs, last.data)
    requires (ps, s) == Feed([], EMPTY, arrivals) && Separated(ps)
    requires Insert(ps, last.offs, last.offs + |last.data|) == [Part(0, |blob|)]
    requires StreamRun(s, MergeCalls(ps, last.offs, last.data)).offsDone < |blob|
    ensures LosesTheEnd(arrivals + [last], blob)
  {
    FeedConcat([], EMPTY, arrivals, [last]);
    FeedLast(ps, s, [last], last);
    WholeCovers(|blob|);
  }

  /**
   A sink need not be tight to be in step, and need not meet a second overlap to stall: in every
   blob of six or more bytes an earlier fragment, over a waiting piece, can leave that piece
   behind with the sink in step; a fragment that only closes the last gap then loses the end.
   */
  lemma LeftoverCanStall(blob: Bytes) returns (arrivals: seq<Arrival>, last: Arrival, ps: Parts, s: Stream)
    requires |blob| >= 6
    ensures (ps, s) == Feed([], EMPTY, arrivals)
    ensures !Stalled(ps, s, blob) && Leftover(s) && !Tight(s, Held(ps, blob))
    ensures var b, e := last.offs, last.offs + |last.data|; NoSecondOverlap(ps, b, e) && Stops(ps, s, b, e)
    ensures LosesTheEnd(arrivals + [last], blob)
  {
    var a, b, c, d := Arrival(0, blob[..1]), Arrival(2, blob[2..3]), Arrival(5, blob[5..]), Arrival(1, blob[1..3]);
    arrivals := [a] + ([b] + ([c] + [d]));
    last := Arrival(3, blob[3..5]);
    FourLeave(a, b, c, d, blob);
    ps, s := Feed([], EMPTY, arrivals).0, Feed([], EMPTY, arrivals).1;
    StartFeeds(blob);
    FeedKeepsSafe([], EMPTY, arrivals, blob);
    ClosingStep(ps, s, blob);
    LosesAt(arrivals, last, ps, s, blob);
  }

  /** What holds of a sink for a blob of at most three bytes. */
  ghost predicate Small(ps: Parts, s: Stream, blob: Bytes) {
    Feeding(ps, s, blob) && |blob| <= 3 && (Tight(s, Held(ps, blob)) || s.offsDone == |blob|)
  }

  lemma {:induction false} EndAtLeast(ps: Parts, k: nat)
    requires Canonical(ps) && k < |ps|
    ensures ps[k].end >= 1 + 2 * k
    decreases k
  {
    if k > 0 { EndAtLeast(ps, k - 1); }
  }

  /** So small a blob has room for one second overlap only, with the last byte, and that is passed on. */
  lemma SmallOverlap(ps: Parts, s: Stream, b: nat, frag: Bytes, blob: Bytes)
    requires Small(ps, s, blob) && IsPieceOf(blob, b, frag) && frag != []
    requires Tight(s, Held(ps, blob)) && !NoSecondOverlap(ps, b, b + |frag|)
    ensures StreamRun(s, MergeCalls(ps, b, frag)).offsDone == |blob|
  {
    var k := EndingBefore(ps, b);
    EndAtLeast(ps, k + 1);
    assert k == 0;
    assert ps[0].bgn < ps[0].end < ps[1].bgn < ps[1].end <= 3;
    SecondOverlapStops(s, ps, b, frag, blob);
  }

  lemma {:induction false} NeverBack(s: Stream, calls: seq<Call>)
    requires AssertionsHold(s, calls)
    ensures s.offsDone <= StreamRun(s, calls).offsDone
    decreases |calls|
  {
    if calls != [] {
      if calls[0].Store? {
        ChainShape(s.unmerged, calls[0].offs + |calls[0].data|);
        NeverBack(StreamStore(s, calls[0].offs, calls[0].data), calls[1..]);
      } else {
        NeverBack(s, calls[1..]);
      }
    }
  }

  lemma PassedInBlob(s: Stream, blob: Bytes, held: set<int>)
    requires Safe(s, blob, held)
    ensures s.offsDone <= |blob|
  {
  }

  lemma SmallMerge(ps: Parts, s: Stream, a: Arrival, next: Parts, t: Stream, blob: Bytes)
    requires Arrives(ps, s, a, next, t, blob) && Small(ps, s, blob)
    ensures Small(next, t, blob)
  {
    FeedOne(ps, s, a, blob);
    NeverBack(s, MergeCalls(ps, a.offs, a.data));
    PassedInBlob(t, blob, Held(next, blob));
    if Tight(s, Held(ps, blob)) && !NoSecondOverlap(ps, a.offs, a.offs + |a.data|) {
      SmallOverlap(ps, s, a.offs, a.data, blob);
    }
  }

  lemma {:induction false} SmallRun(arrivals: seq<Arrival>, blob: Bytes)
    requires HonestArrivals(arrivals, blob) && |blob| <= 3
    ensures Small(Feed([], EMPTY, arrivals).0, Feed([], EMPTY, arrivals).1, blob)
  {
    var keeps := (qs: Parts, u: Stream) => Small(qs, u, blob);
    StartFeeds(blob);
    forall qs, u, a, next, t | Arrives(qs, u, a, next, t, blob) && keeps(qs, u) ensures keeps(next, t) {
      SmallMerge(qs, u, a, next, t, blob);
    }
    FeedKeeps(keeps, [], EMPTY, arrivals, blob);
  }

  /** The run completes the blob, but leaves the sink stalled before its end. */
  ghost predicate LosesTheEnd(arrivals: seq<Arrival>, blob: Bytes) {
    var (done, s) := Feed([], EMPTY, arrivals);
    HonestArrivals(arrivals, blob) && CoversAll(done, |blob|) && s.offsDone < |blob|
  }

  /** The blob's end is not passed on by the run, nor by any continuation of it. */
  lemma {:induction false} LostForever(arrivals: seq<Arrival>, more: seq<Arrival>, blob: Bytes)
    requires LosesTheEnd(arrivals, blob) && HonestArrivals(more, blob)
    ensures Feed([], EMPTY, arrivals + more).1.offsDone == Feed([], EMPTY, arrivals).1.offsDone < |blob|
  {
    var (ps, s) := Feed([], EMPTY, arrivals);
    StartFeeds(blob);
    FeedKeepsSafe([], EMPTY, arrivals, blob);
    FeedConcat([], EMPTY, arrivals, more);
    assert Stalled(ps, s, blob);
    StalledForever(ps, s, more, blob);
  }

  /**
   A second overlap can cost the end of the stream: every blob of four or more bytes has a
   run of honest arrivals that completes it, yet its end is never passed on, whatever follows.
   */
  lemma StreamCanStall(blob: Bytes) returns (arrivals: seq<Arrival>)
    requires |blob| >= 4
    ensures LosesTheEnd(arrivals, blob)
    ensures forall more :: HonestArrivals(more, blob) ==> Feed([], EMPTY, arrivals + more).1.offsDone < |blob|
  {
    arrivals := [Arrival(0, blob[..1]), Arrival(2, blob[2..]), Arrival(1, blob[1..3])];
    ThreeStall(arrivals[0], arrivals[1], arrivals[2], blob);
    WholeCovers(|blob|);
    forall more | HonestArrivals(more, blob) ensures Feed([], EMPTY, arrivals + more).1.offsDone < |blob| {
      LostForever(arrivals, more, blob);
    }
  }

  lemma {:induction false} SmallKeepsTheEnd(arrivals: seq<Arrival>, blob: Bytes)
    requires |blob| <= 3
    ensures !LosesTheEnd(arrivals, blob)
  {
    if HonestArrivals(arrivals, blob) {
      SmallRun(arrivals, blob);
      var (done, s) := Feed([], EMPTY, arrivals);
      assert CoversAll(done, |blob|) && s.offsDone < |blob| ==> s.offsDone in Held(done, blob);
    }
  }

  /** A blob can lose its end exactly when it has four bytes or more. */
  lemma {:induction false} StallPossibleIff(blob: Bytes)
    ensures (exists arrivals :: LosesTheEnd(arrivals, blob)) <==> |blob| >= 4
  {
    if |blob| >= 4 {
      var arrivals := StreamCanStall(blob);
    } else {
      forall arrivals ensures !LosesTheEnd(arrivals, blob) { SmallKeepsTheEnd(arrivals, blob); }
    }
  }

  lemma WholeCovers(total: nat)
    ensures CoversAll([Part(0, total)], total)
  {
    var ps := [Part(0, total)];
    forall x | 0 <= x < total ensures Covers(ps, x) { assert Within(ps[0], x); }
  }
}
