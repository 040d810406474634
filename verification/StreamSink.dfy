/**
 The stream sink: fragments arrive in any order, the data is passed on in order. A piece
 that is not next in line waits in a map keyed by its offset.
 */
module StreamSink {
  import opened Basics
  import opened Intervals
  import opened MergeSpec
  import opened Arrivals

  datatype Piece = Piece(offs: nat, data: Bytes)

  /** One data-appended signal: consecutive blocks, starting at the given blob offset. */
  datatype Signal = Signal(offs: nat, blocks: seq<Bytes>)

  /** `unmerged` is the flat map, in key order. */
  datatype Stream = Stream(offsDone: nat, unmerged: seq<Piece>, log: seq<Signal>)

  const EMPTY: Stream := Stream(0, [], [])

  function Flat(blocks: seq<Bytes>): Bytes {
    if blocks == [] then [] else blocks[0] + Flat(blocks[1..])
  }

  function Datas(ps: seq<Piece>): seq<Bytes> {
    seq(|ps|, i requires 0 <= i < |ps| => ps[i].data)
  }

  /** How many waiting pieces follow on from `end` without a gap. */
  function ChainLength(ps: seq<Piece>, end: nat): (k: nat)
    ensures k <= |ps|
  {
    if ps != [] && ps[0].offs == end then 1 + ChainLength(ps[1..], end + |ps[0].data|) else 0
  }

  function ChainEnd(ps: seq<Piece>, end: nat): nat {
    if ps != [] && ps[0].offs == end then ChainEnd(ps[1..], end + |ps[0].data|) else end
  }

  /** Assignment to a key of the map. */
  function Put(ps: seq<Piece>, offs: nat, data: Bytes): seq<Piece> {
    if ps == [] || offs < ps[0].offs then [Piece(offs, data)] + ps
    else if ps[0].offs == offs then [Piece(offs, data)] + ps[1..]
    else [ps[0]] + Put(ps[1..], offs, data)
  }

  lemma ChainStep(ps: seq<Piece>, pos: nat, end: nat)
    requires pos < |ps| && ps[pos].offs == end
    ensures ChainLength(ps[pos..], end) == 1 + ChainLength(ps[pos + 1..], end + |ps[pos].data|)
    ensures ChainEnd(ps[pos..], end) == ChainEnd(ps[pos + 1..], end + |ps[pos].data|)
    ensures Datas(ps[..pos + 1]) == Datas(ps[..pos]) + [ps[pos].data]
  {
    assert ps[pos..][1..] == ps[pos + 1..];
  }

  function StreamStore(s: Stream, offset: nat, data: Bytes): Stream {
    if offset == s.offsDone then
      var k := ChainLength(s.unmerged, offset + |data|);
      Stream(ChainEnd(s.unmerged, offset + |data|), s.unmerged[k..],
             s.log + [Signal(offset, [data] + Datas(s.unmerged[..k]))])
    else s.(unmerged := Put(s.unmerged, offset, data))
  }

  class BlobStreamIo {
    var offsDone: nat
    var unmerged: seq<Piece>
    var log: seq<Signal>

    function State(): Stream reads this { Stream(offsDone, unmerged, log) }

    constructor ()
      ensures State() == EMPTY
    {
      offsDone, unmerged, log := 0, [], [];
    }

    /** The preconditions are the source's own assertions. */
    method StoreFragment(offset: nat, data: Bytes) returns (ok: bool)
      requires data != [] && offset >= offsDone
      modifies this
      ensures ok && State() == StreamStore(old(State()), offset, data)
    {
      if offset == offsDone {
        if unmerged == [] {
          log := log + [Signal(offset, [data])];
          offsDone := offset + |data|;
          assert [data] + Datas([]) == [data];
        } else {
          var consecutive := [data];
          var dataEnd: nat := offset + |data|;
          var pos := 0;
          while pos < |unmerged| && unmerged[pos].offs == dataEnd
            invariant pos <= |unmerged| && unchanged(this)
            invariant consecutive == [data] + Datas(unmerged[..pos])
            invariant ChainLength(unmerged, offset + |data|) == pos + ChainLength(unmerged[pos..], dataEnd)
            invariant ChainEnd(unmerged, offset + |data|) == ChainEnd(unmerged[pos..], dataEnd)
          {
            ChainStep(unmerged, pos, dataEnd);
            Assoc([data], Datas(unmerged[..pos]), [unmerged[pos].data]);
            dataEnd := unmerged[pos].offs + |unmerged[pos].data|;
            consecutive := consecutive + [unmerged[pos].data];
            pos := pos + 1;
          }
          unmerged := unmerged[pos..];
          offsDone := dataEnd;
          log := log + [Signal(offset, consecutive)];
        }
      } else {
        unmerged := Put(unmerged, offset, data);
      }
      ok := true;
    }
  }

  // Invariants -------------------------------------------------------------------

  /** The signals pass on exactly blob[..n], in order, each at its right offset. */
  ghost predicate LogTells(log: seq<Signal>, blob: Bytes, n: int)
    decreases |log|
  {
    if log == [] then n == 0
    else
      var last := log[|log| - 1];
      && last.offs <= n <= |blob|
      && Flat(last.blocks) == blob[last.offs..n]
      && LogTells(log[..|log| - 1], blob, last.offs)
  }

  ghost predicate InPiece(p: Piece, x: int) { p.offs <= x < p.offs + |p.data| }

  ghost predicate Sorted(ps: seq<Piece>) {
    forall i, j :: 0 <= i < j < |ps| ==> ps[i].offs < ps[j].offs
  }

  ghost predicate Disjoint(ps: seq<Piece>) {
    forall i, j :: 0 <= i < j < |ps| ==> ps[i].offs + |ps[i].data| <= ps[j].offs
  }

  /** The piece is part of the blob and of the held bytes. */
  ghost predicate GoodPiece(p: Piece, blob: Bytes, held: set<int>) {
    p.data != [] && IsPieceOf(blob, p.offs, p.data) && forall x :: InPiece(p, x) ==> x in held
  }

  /** Nothing wrong was passed on or kept. */
  ghost predicate Safe(s: Stream, blob: Bytes, held: set<int>) {
    && LogTells(s.log, blob, s.offsDone)
    && (forall x :: 0 <= x < s.offsDone ==> x in held)
    && Sorted(s.unmerged)
    && (forall i :: 0 <= i < |s.unmerged| ==> GoodPiece(s.unmerged[i], blob, held))
  }

  ghost predicate Waiting(s: Stream, x: int) {
    exists i :: 0 <= i < |s.unmerged| && InPiece(s.unmerged[i], x)
  }

  /** Everything held was passed on or waits, disjointly, beyond a missing byte. */
  ghost predicate Tight(s: Stream, held: set<int>) {
    && s.offsDone !in held
    && Disjoint(s.unmerged)
    && (forall i :: 0 <= i < |s.unmerged| ==> s.offsDone <= s.unmerged[i].offs)
    && (forall x :: x in held ==> x < s.offsDone || Waiting(s, x))
  }

  ghost function Span(offs: nat, data: Bytes): set<int> {
    set x: int | offs <= x < offs + |data| && InPiece(Piece(offs, data), x)
  }

  lemma {:induction false} ChainShape(ps: seq<Piece>, end: nat)
    ensures var k, e := ChainLength(ps, end), ChainEnd(ps, end);
            && end <= e
            && (k < |ps| ==> ps[k].offs != e)
            && (forall i :: 0 <= i < k ==> ps[i].offs + |ps[i].data| <= e)
    decreases |ps|
  {
    if ps != [] && ps[0].offs == end {
      ChainShape(ps[1..], end + |ps[0].data|);
      assert forall i :: 0 < i < |ps| ==> ps[i] == ps[1..][i - 1];
    }
  }

  lemma {:induction false} ChainHeld(ps: seq<Piece>, blob: Bytes, held: set<int>, end: nat)
    requires forall i :: 0 <= i < |ps| ==> GoodPiece(ps[i], blob, held)
    ensures forall x :: end <= x < ChainEnd(ps, end) ==> x in held
    decreases |ps|
  {
    if ps != [] && ps[0].offs == end {
      var next := end + |ps[0].data|;
      ChainHeld(ps[1..], blob, held, next);
      assert forall x :: end <= x < next ==> InPiece(ps[0], x);
    }
  }

  lemma {:induction false} ChainData(ps: seq<Piece>, blob: Bytes, held: set<int>, end: nat)
    requires end <= |blob|
    requires forall i :: 0 <= i < |ps| ==> GoodPiece(ps[i], blob, held)
    ensures end <= ChainEnd(ps, end) <= |blob|
    ensures Flat(Datas(ps[..ChainLength(ps, end)])) == blob[end..ChainEnd(ps, end)]
    decreases |ps|
  {
    if ps != [] && ps[0].offs == end {
      var k, next := ChainLength(ps, end), end + |ps[0].data|;
      ChainData(ps[1..], blob, held, next);
      assert Datas(ps[..k]) == [ps[0].data] + Datas(ps[1..][..k - 1]);
      FlatCons(ps[0].data, Datas(ps[1..][..k - 1]));
      SliceJoin(blob, end, next, ChainEnd(ps, end));
    } else {
      assert Datas(ps[..0]) == [];
    }
  }

  lemma SliceJoin(blob: Bytes, lo: nat, mid: nat, hi: nat)
    requires lo <= mid <= hi <= |blob|
    ensures blob[lo..mid] + blob[mid..hi] == blob[lo..hi]
  {
  }

  lemma FlatCons(block: Bytes, blocks: seq<Bytes>)
    ensures Flat([block] + blocks) == block + Flat(blocks)
  {
    assert ([block] + blocks)[1..] == blocks;
  }

  lemma {:induction false} PutMembers(ps: seq<Piece>, offs: nat, data: Bytes, p: Piece)
    requires Sorted(ps)
    ensures p in Put(ps, offs, data) <==> p == Piece(offs, data) || (p in ps && p.offs != offs)
    decreases |ps|
  {
    if ps != [] {
      assert ps == [ps[0]] + ps[1..];
      assert forall q :: q in ps[1..] ==> ps[0].offs < q.offs;
      if ps[0].offs < offs { PutMembers(ps[1..], offs, data, p); }
    }
  }

  lemma {:induction false} PutSorted(ps: seq<Piece>, offs: nat, data: Bytes)
    requires Sorted(ps)
    ensures Sorted(Put(ps, offs, data))
    decreases |ps|
  {
    if ps != [] && ps[0].offs < offs {
      PutSorted(ps[1..], offs, data);
      var t := Put(ps[1..], offs, data);
      forall j | 0 <= j < |t| ensures ps[0].offs < t[j].offs {
        PutMembers(ps[1..], offs, data, t[j]);
      }
    }
  }

  lemma PutFacts(ps: seq<Piece>, offs: nat, data: Bytes)
    requires Sorted(ps)
    ensures Sorted(Put(ps, offs, data))
    ensures forall p :: p in Put(ps, offs, data) <==> p == Piece(offs, data) || (p in ps && p.offs != offs)
  {
    PutSorted(ps, offs, data);
    forall p ensures p in Put(ps, offs, data) <==> p == Piece(offs, data) || (p in ps && p.offs != offs) {
      PutMembers(ps, offs, data, p);
    }
  }

  lemma LogAppend(log: seq<Signal>, blob: Bytes, offset: nat, data: Bytes, waiting: seq<Bytes>, e: nat)
    requires LogTells(log, blob, offset) && IsPieceOf(blob, offset, data)
    requires offset + |data| <= e <= |blob| && Flat(waiting) == blob[offset + |data|..e]
    ensures LogTells(log + [Signal(offset, [data] + waiting)], blob, e)
  {
    var longer := log + [Signal(offset, [data] + waiting)];
    assert longer[..|longer| - 1] == log;
    FlatCons(data, waiting);
    SliceJoin(blob, offset, offset + |data|, e);
  }

  lemma AppendSafe(s: Stream, blob: Bytes, held: set<int>, data: Bytes)
    requires Safe(s, blob, held) && IsPieceOf(blob, s.offsDone, data) && data != []
    ensures Safe(StreamStore(s, s.offsDone, data), blob, held + Span(s.offsDone, data))
  {
    var t, all := StreamStore(s, s.offsDone, data), held + Span(s.offsDone, data);
    var end := s.offsDone + |data|;
    var k := ChainLength(s.unmerged, end);
    ChainData(s.unmerged, blob, held, end);
    LogAppend(s.log, blob, s.offsDone, data, Datas(s.unmerged[..k]), t.offsDone);
    ChainHeld(s.unmerged, blob, held, end);
    SpanMeaning(s.offsDone, data);
    PiecesLeft(s.unmerged, k, blob, held, all);
  }

  lemma PiecesLeft(ps: seq<Piece>, k: nat, blob: Bytes, held: set<int>, all: set<int>)
    requires k <= |ps| && Sorted(ps) && held <= all && forall i :: 0 <= i < |ps| ==> GoodPiece(ps[i], blob, held)
    ensures Sorted(ps[k..]) && forall i :: 0 <= i < |ps[k..]| ==> GoodPiece(ps[k..][i], blob, all)
  {
  }

  lemma PutSafe(s: Stream, blob: Bytes, held: set<int>, offset: nat, data: Bytes)
    requires Safe(s, blob, held) && IsPieceOf(blob, offset, data) && data != []
    ensures var t := s.(unmerged := Put(s.unmerged, offset, data));
            Safe(t, blob, held + Span(offset, data))
  {
    var ps, all := Put(s.unmerged, offset, data), held + Span(offset, data);
    PutFacts(s.unmerged, offset, data);
    assert GoodPiece(Piece(offset, data), blob, all);
    forall i | 0 <= i < |ps| ensures GoodPiece(ps[i], blob, all) {
      assert ps[i] in ps;
    }
  }

  /**
   Storing a piece whose first byte is new: the source's assertion holds, and the sink
   still has passed on and kept nothing wrong.
   */
  lemma StoreSafe(s: Stream, blob: Bytes, held: set<int>, offset: nat, data: Bytes)
    requires Safe(s, blob, held) && IsPieceOf(blob, offset, data) && data != [] && offset !in held
    ensures offset >= s.offsDone
    ensures Safe(StreamStore(s, offset, data), blob, held + Span(offset, data))
  {
    if offset == s.offsDone { AppendSafe(s, blob, held, data); } else { PutSafe(s, blob, held, offset, data); }
  }

  /** Storing only new bytes keeps the sink tight. */
  lemma StoreTight(s: Stream, blob: Bytes, held: set<int>, offset: nat, data: Bytes)
    requires Safe(s, blob, held) && Tight(s, held)
    requires IsPieceOf(blob, offset, data) && data != [] && Span(offset, data) !! held
    ensures Tight(StreamStore(s, offset, data), held + Span(offset, data))
  {
    assert InPiece(Piece(offset, data), offset) && offset in Span(offset, data);
    if offset == s.offsDone {
      AppendTight(s, blob, held, data);
    } else {
      PutTight(s, blob, held, offset, data);
    }
  }

  /** All waiting pieces start at or behind the end of new data stored at offsDone. */
  lemma WaitBehind(s: Stream, blob: Bytes, held: set<int>, data: Bytes)
    requires Safe(s, blob, held) && Tight(s, held) && Span(s.offsDone, data) !! held
    ensures forall i :: 0 <= i < |s.unmerged| ==> s.offsDone + |data| <= s.unmerged[i].offs
  {
    forall i | 0 <= i < |s.unmerged| ensures s.offsDone + |data| <= s.unmerged[i].offs {
      var first := s.unmerged[i].offs;
      assert InPiece(s.unmerged[i], first) && first in held;
      assert first < s.offsDone + |data| ==> InPiece(Piece(s.offsDone, data), first);
      assert first !in Span(s.offsDone, data);
    }
  }

  lemma WaitsLeft(s: Stream, t: Stream, k: nat, x: int)
    requires k <= |s.unmerged| && t.unmerged == s.unmerged[k..] && t.offsDone <= x && Waiting(s, x)
    requires forall i :: 0 <= i < k ==> s.unmerged[i].offs + |s.unmerged[i].data| <= t.offsDone
    requires forall i :: k <= i < |s.unmerged| ==> t.offsDone < s.unmerged[i].offs
    ensures x != t.offsDone && Waiting(t, x)
  {
    var i :| 0 <= i < |s.unmerged| && InPiece(s.unmerged[i], x);
    assert t.unmerged[i - k] == s.unmerged[i];
  }

  lemma ChainLeaves(ps: seq<Piece>, end: nat)
    requires Sorted(ps) && Disjoint(ps) && forall i :: 0 <= i < |ps| ==> end <= ps[i].offs
    ensures var k, e := ChainLength(ps, end), ChainEnd(ps, end);
            && end <= e
            && (forall i :: 0 <= i < k ==> ps[i].offs + |ps[i].data| <= e)
            && (forall i :: k <= i < |ps| ==> e < ps[i].offs)
  {
    ChainBeyond(ps, end);
    ChainShape(ps, end);
  }

  lemma AppendTight(s: Stream, blob: Bytes, held: set<int>, data: Bytes)
    requires Safe(s, blob, held) && Tight(s, held) && data != [] && Span(s.offsDone, data) !! held
    ensures Tight(StreamStore(s, s.offsDone, data), held + Span(s.offsDone, data))
  {
    var end := s.offsDone + |data|;
    WaitBehind(s, blob, held, data);
    ChainLeaves(s.unmerged, end);
    SpanMeaning(s.offsDone, data);
    TightLeft(s, StreamStore(s, s.offsDone, data), ChainLength(s.unmerged, end), held, held + Span(s.offsDone, data));
  }

  /** Passing on the first k waiting pieces, up to where the new position is. */
  lemma TightLeft(s: Stream, t: Stream, k: nat, held: set<int>, all: set<int>)
    requires Tight(s, held) && k <= |s.unmerged| && t.unmerged == s.unmerged[k..] && s.offsDone <= t.offsDone
    requires forall i :: 0 <= i < k ==> s.unmerged[i].offs + |s.unmerged[i].data| <= t.offsDone
    requires forall i :: k <= i < |s.unmerged| ==> t.offsDone < s.unmerged[i].offs
    requires forall x :: x in all ==> x in held || x < t.offsDone
    ensures Tight(t, all)
  {
    forall x | x in all && x >= t.offsDone ensures x != t.offsDone && Waiting(t, x) { WaitsLeft(s, t, k, x); }
  }

  /** What is left of the map after a chain starts at or beyond the chain's end. */
  lemma {:induction false} ChainBeyond(ps: seq<Piece>, end: nat)
    requires Sorted(ps) && Disjoint(ps) && forall i :: 0 <= i < |ps| ==> end <= ps[i].offs
    ensures forall i :: ChainLength(ps, end) <= i < |ps| ==> ChainEnd(ps, end) < ps[i].offs
    decreases |ps|
  {
    if ps != [] && ps[0].offs == end {
      ChainBeyond(ps[1..], end + |ps[0].data|);
      assert forall i :: 0 < i < |ps| ==> ps[i] == ps[1..][i - 1];
    }
  }

  /** A waiting piece lies entirely before or entirely behind new data. */
  lemma Apart(p: Piece, blob: Bytes, held: set<int>, offset: nat, data: Bytes)
    requires GoodPiece(p, blob, held) && data != [] && Span(offset, data) !! held
    ensures p.offs + |p.data| <= offset || offset + |data| <= p.offs
  {
    var added := Piece(offset, data);
    assert InPiece(added, offset) && InPiece(p, p.offs);
    assert InPiece(p, offset) ==> offset in held && offset in Span(offset, data);
    assert InPiece(added, p.offs) ==> p.offs in Span(offset, data) && p.offs in held;
  }

  lemma {:induction false} PutDisjoint(ps: seq<Piece>, blob: Bytes, held: set<int>, offset: nat, data: Bytes)
    requires Sorted(ps) && Disjoint(ps) && data != [] && Span(offset, data) !! held
    requires forall i :: 0 <= i < |ps| ==> GoodPiece(ps[i], blob, held)
    ensures Disjoint(Put(ps, offset, data))
    ensures forall p :: p in Put(ps, offset, data) <==> p == Piece(offset, data) || p in ps
  {
    var qs := Put(ps, offset, data);
    PutFacts(ps, offset, data);
    forall p | p in ps ensures p.offs + |p.data| <= offset || offset + |data| <= p.offs {
      Apart(p, blob, held, offset, data);
    }
    forall i, j | 0 <= i < j < |qs| ensures qs[i].offs + |qs[i].data| <= qs[j].offs {
      assert qs[i] in qs && qs[j] in qs && qs[i].offs < qs[j].offs;
    }
  }

  lemma PutTight(s: Stream, blob: Bytes, held: set<int>, offset: nat, data: Bytes)
    requires Safe(s, blob, held) && Tight(s, held) && offset > s.offsDone
    requires data != [] && Span(offset, data) !! held
    ensures Tight(StreamStore(s, offset, data), held + Span(offset, data))
  {
    var t := StreamStore(s, offset, data);
    PutDisjoint(s.unmerged, blob, held, offset, data);
    forall i | 0 <= i < |t.unmerged| ensures s.offsDone <= t.unmerged[i].offs { assert t.unmerged[i] in t.unmerged; }
    forall x | x in held && x >= s.offsDone ensures Waiting(t, x) {
      var i :| 0 <= i < |s.unmerged| && InPiece(s.unmerged[i], x);
      assert s.unmerged[i] in t.unmerged;
    }
    forall x | x in Span(offset, data) ensures Waiting(t, x) { assert Piece(offset, data) in t.unmerged; }
    SpanMeaning(offset, data);
  }

  // Merges into the stream sink --------------------------------------------------

  /** The sink after the stores of a call sequence; checks always succeed here. */
  function StreamRun(s: Stream, calls: seq<Call>): Stream
    decreases |calls|
  {
    if calls == [] then s
    else StreamRun(if calls[0].Store? then StreamStore(s, calls[0].offs, calls[0].data) else s, calls[1..])
  }

  /** The source's assertions hold at every store of the sequence. */
  ghost predicate AssertionsHold(s: Stream, calls: seq<Call>)
    decreases |calls|
  {
    calls == [] ||
    if calls[0].Store? then
      && calls[0].data != [] && calls[0].offs >= s.offsDone
      && AssertionsHold(StreamStore(s, calls[0].offs, calls[0].data), calls[1..])
    else AssertionsHold(s, calls[1..])
  }

  lemma {:induction false} RunConcatStream(s: Stream, cs: seq<Call>, ds: seq<Call>)
    ensures StreamRun(s, cs + ds) == StreamRun(StreamRun(s, cs), ds)
    ensures AssertionsHold(s, cs + ds) <==> AssertionsHold(s, cs) && AssertionsHold(StreamRun(s, cs), ds)
    decreases |cs|
  {
    if cs == [] {
      assert cs + ds == ds;
    } else {
      assert (cs + ds)[0] == cs[0] && (cs + ds)[1..] == cs[1..] + ds;
      RunConcatStream(if cs[0].Store? then StreamStore(s, cs[0].offs, cs[0].data) else s, cs[1..], ds);
    }
  }

  lemma {:induction false} ChecksAreIgnored(s: Stream, calls: seq<Call>)
    requires forall i :: 0 <= i < |calls| ==> calls[i].Check?
    ensures StreamRun(s, calls) == s && AssertionsHold(s, calls)
    decreases |calls|
  {
    if calls != [] { ChecksAreIgnored(s, calls[1..]); }
  }

  /** The stores of a merge, as `MergeCalls` issues them. */
  function MergeStores(ps: Parts, b: nat, frag: Bytes): seq<Call>
    requires Separated(ps)
  {
    var k := EndingBefore(ps, b);
    if k < |ps| && ps[k].bgn <= b + |frag| then TouchStores(ps[k], b, frag) else [Store(b, frag)]
  }

  lemma TouchThenChecks(ps: Parts, b: nat, frag: Bytes) returns (checks: seq<Call>)
    requires Separated(ps) && ps != [] && Touches(ps[0], b, b + |frag|)
    ensures TouchCalls(ps[0], b, frag) + TailChecks(ps[1..], b, frag) == TouchStores(ps[0], b, frag) + checks
    ensures forall i :: 0 <= i < |checks| ==> checks[i].Check?
  {
    var lo, hi := Max(b, ps[0].bgn), Min(b + |frag|, ps[0].end);
    TouchCheck(ps[0], b, frag, lo, hi);
    TailChecksFaithful(ps[1..], b, frag);
    var first := Check(lo, Cut(b, frag, lo, hi));
    checks := [first] + TailChecks(ps[1..], b, frag);
    Assoc(TouchStores(ps[0], b, frag), [first], TailChecks(ps[1..], b, frag));
  }

  lemma {:induction false} StoresThenChecks(ps: Parts, b: nat, frag: Bytes) returns (checks: seq<Call>)
    requires Separated(ps)
    ensures MergeCalls(ps, b, frag) == MergeStores(ps, b, frag) + checks
    ensures forall i :: 0 <= i < |checks| ==> checks[i].Check?
    decreases |ps|
  {
    if ps != [] && ps[0].end < b {
      checks := StoresThenChecks(ps[1..], b, frag);
    } else if ps != [] && ps[0].bgn <= b + |frag| {
      checks := TouchThenChecks(ps, b, frag);
    } else {
      checks := [];
      assert [Store(b, frag)] + [] == [Store(b, frag)];
    }
  }

  lemma OnlyStoresMatter(ps: Parts, b: nat, frag: Bytes, s: Stream)
    requires Separated(ps)
    ensures StreamRun(s, MergeCalls(ps, b, frag)) == StreamRun(s, MergeStores(ps, b, frag))
    ensures AssertionsHold(s, MergeCalls(ps, b, frag)) <==> AssertionsHold(s, MergeStores(ps, b, frag))
  {
    var checks := StoresThenChecks(ps, b, frag);
    RunConcatStream(s, MergeStores(ps, b, frag), checks);
    ChecksAreIgnored(StreamRun(s, MergeStores(ps, b, frag)), checks);
  }

  /** No received interval after the first one touched begins before the fragment's end. */
  predicate NoSecondOverlap(ps: Parts, b: nat, e: nat) {
    var k := EndingBefore(ps, b);
    k < |ps| && ps[k].bgn <= e && k + 1 < |ps| ==> e <= ps[k + 1].bgn
  }

  // Bytes held after the stores of a merge ----------------------------------------

  ghost function HeldAfter(held: set<int>, calls: seq<Call>): set<int>
    decreases |calls|
  {
    if calls == [] then held else HeldAfter(held + Span(calls[0].offs, calls[0].data), calls[1..])
  }

  /** Stores of blob pieces, each starting at a byte not held before. */
  ghost predicate FreshStores(held: set<int>, calls: seq<Call>, blob: Bytes)
    decreases |calls|
  {
    calls == [] ||
    (&& calls[0].Store? && calls[0].data != [] && IsPieceOf(blob, calls[0].offs, calls[0].data)
     && calls[0].offs !in held
     && FreshStores(held + Span(calls[0].offs, calls[0].data), calls[1..], blob))
  }

  /** No store of the sequence repeats a held byte. */
  ghost predicate NewStores(held: set<int>, calls: seq<Call>)
    decreases |calls|
  {
    calls == [] ||
    (Span(calls[0].offs, calls[0].data) !! held && NewStores(held + Span(calls[0].offs, calls[0].data), calls[1..]))
  }

  lemma {:induction false} FreshRunSafe(s: Stream, blob: Bytes, held: set<int>, calls: seq<Call>)
    requires Safe(s, blob, held) && FreshStores(held, calls, blob)
    ensures AssertionsHold(s, calls)
    ensures Safe(StreamRun(s, calls), blob, HeldAfter(held, calls))
    ensures Tight(s, held) && NewStores(held, calls) ==> Tight(StreamRun(s, calls), HeldAfter(held, calls))
    decreases |calls|
  {
    if calls != [] {
      var c := calls[0];
      StoreSafe(s, blob, held, c.offs, c.data);
      if Tight(s, held) && NewStores(held, calls) { StoreTight(s, blob, held, c.offs, c.data); }
      FreshRunSafe(StreamStore(s, c.offs, c.data), blob, held + Span(c.offs, c.data), calls[1..]);
    }
  }

  ghost function Held(ps: Parts, blob: Bytes): set<int> { CoveredSet(ps, |blob|) }

  lemma SpanMeaning(offs: nat, data: Bytes)
    ensures forall x :: x in Span(offs, data) <==> offs <= x < offs + |data|
  {
    assert forall x :: InPiece(Piece(offs, data), x) <==> offs <= x < offs + |data|;
  }

  lemma CutIsPiece(blob: Bytes, b: nat, frag: Bytes, lo: nat, hi: nat)
    requires IsPieceOf(blob, b, frag) && b <= lo <= hi <= b + |frag|
    ensures IsPieceOf(blob, lo, Cut(b, frag, lo, hi))
  {
    var cut := Cut(b, frag, lo, hi);
    assert forall k :: 0 <= k < |cut| ==> cut[k] == frag[lo - b + k] == blob[lo + k];
    assert cut == blob[lo..lo + |cut|];
  }

  /** No received interval reaches into [lo, hi). */
  ghost predicate Free(ps: Parts, lo: nat, hi: nat) { forall x :: lo <= x < hi ==> !Covers(ps, x) }

  lemma {:induction false} FreeBeforeFirst(ps: Parts, b: nat, hi: nat)
    requires Separated(ps)
    requires var k := EndingBefore(ps, b); k < |ps| ==> hi <= ps[k].bgn
    ensures Free(ps, b, hi)
  {
    var k := EndingBefore(ps, b);
    forall x, i | b <= x < hi && 0 <= i < |ps| ensures !Within(ps[i], x) {
      assert k < i ==> ps[k].end < ps[i].bgn;
    }
  }

  lemma FreeBehind(ps: Parts, k: nat, hi: nat)
    requires Separated(ps) && k < |ps| && (k + 1 < |ps| ==> hi <= ps[k + 1].bgn)
    ensures Free(ps, ps[k].end, hi)
  {
    forall x, i | ps[k].end <= x < hi && 0 <= i < |ps| ensures !Within(ps[i], x) {
      assert i < k ==> ps[i].end < ps[k].bgn;
      assert k + 1 < i ==> ps[k + 1].end < ps[i].bgn;
    }
  }

  lemma FreeIsNew(ps: Parts, blob: Bytes, lo: nat, data: Bytes)
    ensures Free(ps, lo, lo + |data|) ==> Span(lo, data) !! Held(ps, blob)
    ensures !Covers(ps, lo) ==> lo !in Held(ps, blob)
  {
  }

  lemma OneFresh(held: set<int>, c: Call, blob: Bytes)
    requires c.Store? && c.data != [] && IsPieceOf(blob, c.offs, c.data) && c.offs !in held
    ensures FreshStores(held, [c], blob)
    ensures HeldAfter(held, [c]) == held + Span(c.offs, c.data)
    ensures Span(c.offs, c.data) !! held ==> NewStores(held, [c])
  {
    assert [c][1..] == [];
  }

  /** The calls with data among two. */
  function NonEmpty(c: Call, d: Call): seq<Call> {
    (if c.data != [] then [c] else []) + (if d.data != [] then [d] else [])
  }

  lemma TwoFresh(held: set<int>, c: Call, d: Call, blob: Bytes)
    requires c.Store? && (c.data != [] ==> IsPieceOf(blob, c.offs, c.data) && c.offs !in held)
    requires d.Store? && (d.data != [] ==> IsPieceOf(blob, d.offs, d.data) && d.offs !in held)
    requires c.offs + |c.data| <= d.offs
    ensures FreshStores(held, NonEmpty(c, d), blob)
    ensures HeldAfter(held, NonEmpty(c, d)) == held + Span(c.offs, c.data) + Span(d.offs, d.data)
    ensures Span(c.offs, c.data) !! held && Span(d.offs, d.data) !! held ==> NewStores(held, NonEmpty(c, d))
  {
    var mid := held + Span(c.offs, c.data);
    SpanMeaning(c.offs, c.data);
    SpanMeaning(d.offs, d.data);
    if d.data != [] { OneFresh(mid, d, blob); } else { assert Span(d.offs, d.data) == {}; }
    if c.data != [] {
      assert NonEmpty(c, d)[0] == c && NonEmpty(c, d)[1..] == if d.data != [] then [d] else [];
    } else {
      assert Span(c.offs, c.data) == {} && mid == held;
    }
  }

  /** The two ends of a fragment that sticks out of the interval it touches first. */
  function LeftEnd(p: Part, b: nat, frag: Bytes): Bytes
    requires p.bgn <= p.end && Touches(p, b, b + |frag|)
  {
    if b < p.bgn then Cut(b, frag, b, p.bgn) else []
  }

  function RightEnd(p: Part, b: nat, frag: Bytes): Bytes
    requires p.bgn <= p.end && Touches(p, b, b + |frag|)
  {
    if b + |frag| > p.end then Cut(b, frag, p.end, b + |frag|) else []
  }

  lemma EndStores(p: Part, b: nat, frag: Bytes)
    requires p.bgn <= p.end && Touches(p, b, b + |frag|)
    ensures TouchStores(p, b, frag) == NonEmpty(Store(b, LeftEnd(p, b, frag)), Store(p.end, RightEnd(p, b, frag)))
    ensures b + |LeftEnd(p, b, frag)| <= p.end
  {
  }

  lemma LeftIsFresh(ps: Parts, k: nat, b: nat, frag: Bytes, blob: Bytes)
    requires Separated(ps) && IsPieceOf(blob, b, frag)
    requires k < |ps| && k == EndingBefore(ps, b) && Touches(ps[k], b, b + |frag|)
    ensures var left := LeftEnd(ps[k], b, frag);
            && IsPieceOf(blob, b, left) && Span(b, left) !! Held(ps, blob) && (left != [] ==> b !in Held(ps, blob))
  {
    var p := ps[k];
    var left := LeftEnd(p, b, frag);
    if b < p.bgn {
      CutIsPiece(blob, b, frag, b, p.bgn);
      FreeBeforeFirst(ps, b, p.bgn);
      FreeIsNew(ps, blob, b, left);
    } else {
      SpanMeaning(b, left);
    }
  }

  lemma RightIsFresh(ps: Parts, k: nat, b: nat, frag: Bytes, blob: Bytes)
    requires Separated(ps) && IsPieceOf(blob, b, frag)
    requires k < |ps| && Touches(ps[k], b, b + |frag|)
    ensures var p := ps[k];
            var right := RightEnd(p, b, frag);
            && (right != [] ==> IsPieceOf(blob, p.end, right)) && p.end !in Held(ps, blob)
            && ((k + 1 < |ps| ==> b + |frag| <= ps[k + 1].bgn) ==> Span(p.end, right) !! Held(ps, blob))
  {
    var p, e := ps[k], b + |frag|;
    var right := RightEnd(p, b, frag);
    if e > p.end { CutIsPiece(blob, b, frag, p.end, e); }
    EndNotCovered(ps, k);
    if k + 1 < |ps| ==> e <= ps[k + 1].bgn { RightIsNew(ps, k, p.end + |right|, right, blob); }
    FreeIsNew(ps, blob, p.end, right);
  }

  lemma RightIsNew(ps: Parts, k: nat, hi: nat, right: Bytes, blob: Bytes)
    requires Separated(ps) && k < |ps| && hi == ps[k].end + |right|
    requires k + 1 < |ps| ==> hi <= ps[k + 1].bgn
    ensures Span(ps[k].end, right) !! Held(ps, blob)
  {
    FreeBehind(ps, k, hi);
    FreeIsNew(ps, blob, ps[k].end, right);
  }

  lemma TouchFresh(ps: Parts, b: nat, frag: Bytes, blob: Bytes)
    requires Separated(ps) && IsPieceOf(blob, b, frag)
    requires var k := EndingBefore(ps, b); k < |ps| && ps[k].bgn <= b + |frag|
    ensures FreshStores(Held(ps, blob), MergeStores(ps, b, frag), blob)
    ensures NoSecondOverlap(ps, b, b + |frag|) ==> NewStores(Held(ps, blob), MergeStores(ps, b, frag))
    ensures var k := EndingBefore(ps, b);
            HeldAfter(Held(ps, blob), MergeStores(ps, b, frag)) ==
            Held(ps, blob) + Span(b, LeftEnd(ps[k], b, frag)) + Span(ps[k].end, RightEnd(ps[k], b, frag))
  {
    var k := EndingBefore(ps, b);
    var p := ps[k];
    var left, right := LeftEnd(p, b, frag), RightEnd(p, b, frag);
    LeftIsFresh(ps, k, b, frag, blob);
    RightIsFresh(ps, k, b, frag, blob);
    EndStores(p, b, frag);
    TwoFresh(Held(ps, blob), Store(b, left), Store(p.end, right), blob);
  }

  lemma UntouchedFresh(ps: Parts, b: nat, frag: Bytes, blob: Bytes)
    requires Separated(ps) && IsPieceOf(blob, b, frag) && frag != []
    requires var k := EndingBefore(ps, b); k < |ps| ==> b + |frag| < ps[k].bgn
    ensures FreshStores(Held(ps, blob), [Store(b, frag)], blob) && NewStores(Held(ps, blob), [Store(b, frag)])
    ensures HeldAfter(Held(ps, blob), [Store(b, frag)]) == Held(ps, blob) + Span(b, frag)
  {
    FreeBeforeFirst(ps, b, b + |frag|);
    FreeIsNew(ps, blob, b, frag);
    assert b <= b < b + |frag| && !Covers(ps, b);
    OneFresh(Held(ps, blob), Store(b, frag), blob);
  }

  lemma HeldAfterMerge(ps: Parts, b: nat, frag: Bytes, blob: Bytes, after: set<int>)
    requires Separated(ps) && IsPieceOf(blob, b, frag)
    requires var k := EndingBefore(ps, b);
             after == Held(ps, blob) +
               if k < |ps| && ps[k].bgn <= b + |frag|
               then Span(b, LeftEnd(ps[k], b, frag)) + Span(ps[k].end, RightEnd(ps[k], b, frag))
               else Span(b, frag)
    ensures after == Held(Insert(ps, b, b + |frag|), blob)
  {
    var k, e := EndingBefore(ps, b), b + |frag|;
    SpanMeaning(b, frag);
    if k < |ps| && ps[k].bgn <= e {
      SpanMeaning(b, LeftEnd(ps[k], b, frag));
      SpanMeaning(ps[k].end, RightEnd(ps[k], b, frag));
    }
    forall x: int ensures x in after <==> x in Held(Insert(ps, b, e), blob) {
      InsertCovers(ps, b, e, x);
      assert k < |ps| && Within(ps[k], x) ==> Covers(ps, x);
    }
  }

  /** The stores of a merge: each starts at a new byte, all are new without second overlap. */
  lemma MergeStoresFresh(ps: Parts, b: nat, frag: Bytes, blob: Bytes)
    requires Separated(ps) && IsPieceOf(blob, b, frag) && frag != []
    ensures FreshStores(Held(ps, blob), MergeStores(ps, b, frag), blob)
    ensures NoSecondOverlap(ps, b, b + |frag|) ==> NewStores(Held(ps, blob), MergeStores(ps, b, frag))
    ensures HeldAfter(Held(ps, blob), MergeStores(ps, b, frag)) == Held(Insert(ps, b, b + |frag|), blob)
  {
    var k := EndingBefore(ps, b);
    if k < |ps| && ps[k].bgn <= b + |frag| {
      TouchFresh(ps, b, frag, blob);
    } else {
      UntouchedFresh(ps, b, frag, blob);
    }
    HeldAfterMerge(ps, b, frag, blob, HeldAfter(Held(ps, blob), MergeStores(ps, b, frag)));
  }

  // Main results -----------------------------------------------------------------

  /**
   Merging a piece of the blob: no assertion of the sink fires, what was passed on is still
   the beginning of the blob, and without a second overlap everything received in one piece
   from the start has been passed on.
   */
  lemma MergeIntoStream(s: Stream, ps: Parts, b: nat, frag: Bytes, blob: Bytes)
    requires Separated(ps) && IsPieceOf(blob, b, frag) && frag != [] && Safe(s, blob, Held(ps, blob))
    ensures var t := StreamRun(s, MergeCalls(ps, b, frag));
            var after := Held(Insert(ps, b, b + |frag|), blob);
            && AssertionsHold(s, MergeCalls(ps, b, frag))
            && Safe(t, blob, after)
            && (Tight(s, Held(ps, blob)) && NoSecondOverlap(ps, b, b + |frag|) ==> Tight(t, after))
  {
    OnlyStoresMatter(ps, b, frag, s);
    MergeStoresFresh(ps, b, frag, blob);
    FreshRunSafe(s, blob, Held(ps, blob), MergeStores(ps, b, frag));
  }

  lemma AppendSpoils(s: Stream, data: Bytes, i: nat, all: set<int>)
    requires i < |s.unmerged| && Sorted(s.unmerged) && s.unmerged[i].offs < s.offsDone + |data|
    ensures !Tight(StreamStore(s, s.offsDone, data), all)
  {
    assert i > 0 ==> s.unmerged[0].offs < s.unmerged[i].offs;
    assert ChainLength(s.unmerged, s.offsDone + |data|) == 0;
    var t := StreamStore(s, s.offsDone, data);
    assert t.unmerged[i] == s.unmerged[i];
  }

  lemma PutSpoils(s: Stream, offset: nat, data: Bytes, p: Piece, all: set<int>)
    requires Sorted(s.unmerged) && p in s.unmerged && offset < p.offs < offset + |data| && offset != s.offsDone
    ensures !Tight(StreamStore(s, offset, data), all)
  {
    var ps := Put(s.unmerged, offset, data);
    PutFacts(s.unmerged, offset, data);
    var j :| 0 <= j < |ps| && ps[j] == p;
    var l :| 0 <= l < |ps| && ps[l] == Piece(offset, data);
    assert l < j;
  }

  /** Storing over a waiting piece spoils the sink. */
  lemma OverlapSpoils(s: Stream, blob: Bytes, held: set<int>, offset: nat, data: Bytes, q: int)
    requires Safe(s, blob, held) && Tight(s, held) && offset !in held
    requires q in held && offset < q < offset + |data|
    ensures !Tight(StreamStore(s, offset, data), held + Span(offset, data))
  {
    assert s.offsDone <= offset;
    assert Waiting(s, q);
    var i :| 0 <= i < |s.unmerged| && InPiece(s.unmerged[i], q);
    var p := s.unmerged[i];
    assert InPiece(p, offset) ==> offset in held;
    if offset == s.offsDone {
      AppendSpoils(s, data, i, held + Span(offset, data));
    } else {
      PutSpoils(s, offset, data, p, held + Span(offset, data));
    }
  }

  /** The last store of a merge, and what comes before it, when the fragment sticks out on the right. */
  lemma LastStore(s: Stream, ps: Parts, b: nat, frag: Bytes, blob: Bytes) returns (first: seq<Call>)
    requires Separated(ps) && IsPieceOf(blob, b, frag)
    requires Safe(s, blob, Held(ps, blob)) && Tight(s, Held(ps, blob))
    requires var k := EndingBefore(ps, b); k < |ps| && ps[k].bgn <= b + |frag| && ps[k].end < b + |frag|
    ensures var p, mid, h := ps[EndingBefore(ps, b)], StreamRun(s, first), HeldAfter(Held(ps, blob), first);
            && MergeStores(ps, b, frag) == first + [Store(p.end, RightEnd(p, b, frag))]
            && h == Held(ps, blob) + Span(b, LeftEnd(p, b, frag))
            && Safe(mid, blob, h) && Tight(mid, h) && p.end !in h
  {
    var k, held := EndingBefore(ps, b), Held(ps, blob);
    var p := ps[k];
    var left, right := LeftEnd(p, b, frag), RightEnd(p, b, frag);
    LeftIsFresh(ps, k, b, frag, blob);
    RightIsFresh(ps, k, b, frag, blob);
    SpanMeaning(b, left);
    if left == [] {
      first := [];
      assert MergeStores(ps, b, frag) == [Store(p.end, right)];
    } else {
      first := [Store(b, left)];
      assert MergeStores(ps, b, frag) == first + [Store(p.end, right)];
      OneFresh(held, Store(b, left), blob);
      FreshRunSafe(s, blob, held, first);
    }
  }

  lemma SecondOverlapSpoils(s: Stream, ps: Parts, b: nat, frag: Bytes, blob: Bytes)
    requires Canonical(ps) && IsPieceOf(blob, b, frag)
    requires Safe(s, blob, Held(ps, blob)) && Tight(s, Held(ps, blob))
    requires !NoSecondOverlap(ps, b, b + |frag|)
    ensures !Tight(StreamRun(s, MergeStores(ps, b, frag)), HeldAfter(Held(ps, blob), MergeStores(ps, b, frag)))
  {
    var k := EndingBefore(ps, b);
    var p, q := ps[k], ps[k + 1].bgn;
    var first := LastStore(s, ps, b, frag, blob);
    SecondIsHeld(ps, k, b + |frag|, blob);
    SpoiledLast(s, blob, Held(ps, blob), first, Store(p.end, RightEnd(p, b, frag)), q);
  }

  lemma SecondIsHeld(ps: Parts, k: nat, e: nat, blob: Bytes)
    requires Canonical(ps) && k + 1 < |ps| && ps[k + 1].bgn < e <= |blob|
    ensures ps[k].end < ps[k + 1].bgn && ps[k + 1].bgn in Held(ps, blob)
  {
    assert Within(ps[k + 1], ps[k + 1].bgn);
  }

  /** Whatever harmless stores come first, an overlapping last one spoils the sink. */
  lemma SpoiledLast(s: Stream, blob: Bytes, held: set<int>, first: seq<Call>, last: Call, q: int)
    requires var mid, h := StreamRun(s, first), HeldAfter(held, first);
             && Safe(mid, blob, h) && Tight(mid, h) && last.Store?
             && last.offs !in h && q in h && last.offs < q < last.offs + |last.data|
    ensures !Tight(StreamRun(s, first + [last]), HeldAfter(held, first + [last]))
  {
    RunConcatStream(s, first, [last]);
    HeldConcat(held, first, [last]);
    assert [last][1..] == [];
    OverlapSpoils(StreamRun(s, first), blob, HeldAfter(held, first), last.offs, last.data, q);
  }

  lemma {:induction false} HeldConcat(held: set<int>, cs: seq<Call>, ds: seq<Call>)
    ensures HeldAfter(held, cs + ds) == HeldAfter(HeldAfter(held, cs), ds)
    decreases |cs|
  {
    if cs == [] {
      assert cs + ds == ds;
    } else {
      assert (cs + ds)[0] == cs[0] && (cs + ds)[1..] == cs[1..] + ds;
      HeldConcat(held + Span(cs[0].offs, cs[0].data), cs[1..], ds);
    }
  }

  /** A merge keeps the sink tight exactly when it has no second overlap. */
  lemma TightIffNoSecondOverlap(s: Stream, ps: Parts, b: nat, frag: Bytes, blob: Bytes)
    requires Canonical(ps) && IsPieceOf(blob, b, frag) && frag != []
    requires Safe(s, blob, Held(ps, blob)) && Tight(s, Held(ps, blob))
    ensures Tight(StreamRun(s, MergeCalls(ps, b, frag)), Held(Insert(ps, b, b + |frag|), blob))
            <==> NoSecondOverlap(ps, b, b + |frag|)
  {
    MergeIntoStream(s, ps, b, frag, blob);
    if !NoSecondOverlap(ps, b, b + |frag|) {
      SecondOverlapSpoils(s, ps, b, frag, blob);
      OnlyStoresMatter(ps, b, frag, s);
      MergeStoresFresh(ps, b, frag, blob);
    }
  }

  /** End of the interval that starts at 0, or 0 when there is none. */
  function LeadingEnd(ps: Parts): nat {
    if ps != [] && ps[0].bgn == 0 then ps[0].end else 0
  }

  /** A tight sink has passed on exactly the leading interval. */
  lemma TightMeansLeading(s: Stream, ps: Parts, blob: Bytes)
    requires Canonical(ps) && Bounded(ps, |blob|)
    requires Safe(s, blob, Held(ps, blob)) && Tight(s, Held(ps, blob))
    ensures s.offsDone == LeadingEnd(ps)
  {
    var n := LeadingEnd(ps);
    assert ps != [] && ps[0].bgn == 0 ==> forall x :: 0 <= x < n ==> Within(ps[0], x);
    assert forall i :: 0 < i < |ps| ==> ps[0].end < ps[i].bgn;
    assert n <= |blob| && s.offsDone <= |blob|;
    assert !Covers(ps, n) by {
      if ps != [] && ps[0].bgn == 0 { EndNotCovered(ps, 0); }
    }
    assert n !in Held(ps, blob);
    assert s.offsDone <= n;
  }

  /** Done list and sink after a run of arrivals. */
  ghost function Feed(ps: Parts, s: Stream, arrivals: seq<Arrival>): (Parts, Stream)
    decreases |arrivals|
  {
    if arrivals == [] || !Separated(ps) then (ps, s)
    else
      var a := arrivals[0];
      Feed(Insert(ps, a.offs, a.offs + |a.data|), StreamRun(s, MergeCalls(ps, a.offs, a.data)), arrivals[1..])
  }

  /** The source's assertions hold at every store of the run. */
  ghost predicate FeedAsserts(ps: Parts, s: Stream, arrivals: seq<Arrival>)
    requires Separated(ps)
    decreases |arrivals|
  {
    arrivals == [] ||
    var a := arrivals[0];
    var next := Insert(ps, a.offs, a.offs + |a.data|);
    && AssertionsHold(s, MergeCalls(ps, a.offs, a.data)) && Separated(next)
    && FeedAsserts(next, StreamRun(s, MergeCalls(ps, a.offs, a.data)), arrivals[1..])
  }

  /** No arrival of the run overlaps a second received interval. */
  ghost predicate NeverSecondOverlap(ps: Parts, arrivals: seq<Arrival>)
    decreases |arrivals|
  {
    arrivals == [] ||
    (&& NoSecondOverlap(ps, arrivals[0].offs, arrivals[0].offs + |arrivals[0].data|)
     && NeverSecondOverlap(Insert(ps, arrivals[0].offs, arrivals[0].offs + |arrivals[0].data|), arrivals[1..]))
  }

  /** The invariant of a receiver that feeds a stream sink. */
  ghost predicate Feeding(ps: Parts, s: Stream, blob: Bytes) {
    Canonical(ps) && Bounded(ps, |blob|) && Safe(s, blob, Held(ps, blob))
  }

  lemma FeedOne(ps: Parts, s: Stream, a: Arrival, blob: Bytes)
    requires a.data != [] && IsPieceOf(blob, a.offs, a.data) && Feeding(ps, s, blob)
    ensures var e := a.offs + |a.data|;
            var t := StreamRun(s, MergeCalls(ps, a.offs, a.data));
            && AssertionsHold(s, MergeCalls(ps, a.offs, a.data))
            && Feeding(Insert(ps, a.offs, e), t, blob)
            && (Tight(s, Held(ps, blob)) && NoSecondOverlap(ps, a.offs, e) ==>
                 Tight(t, Held(Insert(ps, a.offs, e), blob)))
  {
    InsertCanonicalIff(ps, a.offs, a.offs + |a.data|);
    InsertBounded(ps, a.offs, a.offs + |a.data|, |blob|);
    MergeIntoStream(s, ps, a.offs, a.data, blob);
  }

  lemma {:induction false} FeedKeepsSafe(ps: Parts, s: Stream, arrivals: seq<Arrival>, blob: Bytes)
    requires HonestArrivals(arrivals, blob) && Feeding(ps, s, blob)
    ensures var (qs, t) := Feed(ps, s, arrivals);
            && FeedAsserts(ps, s, arrivals) && Feeding(qs, t, blob)
            && (Tight(s, Held(ps, blob)) && NeverSecondOverlap(ps, arrivals) ==> Tight(t, Held(qs, blob)))
    decreases |arrivals|
  {
    if arrivals != [] {
      var a := arrivals[0];
      FeedOne(ps, s, a, blob);
      var next := Insert(ps, a.offs, a.offs + |a.data|);
      FeedKeepsSafe(next, StreamRun(s, MergeCalls(ps, a.offs, a.data)), arrivals[1..], blob);
    }
  }

  /**
   Over every run of arriving blob pieces no assertion of the sink fires and the stream
   passes on the blob's beginning, in order; if no piece ever overlapped a second received
   interval, it has passed on all that was received in one piece from the start, so a
   complete blob completely.
   */
  lemma {:induction false} StreamPassesOnTheBlob(arrivals: seq<Arrival>, blob: Bytes)
    requires HonestArrivals(arrivals, blob)
    ensures var (done, s) := Feed([], EMPTY, arrivals);
            && FeedAsserts([], EMPTY, arrivals)
            && LogTells(s.log, blob, s.offsDone)
            && (NeverSecondOverlap([], arrivals) ==>
                 && s.offsDone == LeadingEnd(done)
                 && (CoversAll(done, |blob|) ==> s.offsDone == |blob|))
  {
    assert Held([], blob) == {};
    FeedKeepsSafe([], EMPTY, arrivals, blob);
    var (done, s) := Feed([], EMPTY, arrivals);
    if NeverSecondOverlap([], arrivals) {
      TightMeansLeading(s, done, blob);
      if CoversAll(done, |blob|) && |blob| > 0 { SinglePartIffCoversAll(done, |blob|); }
    }
  }
}
