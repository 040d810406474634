/**
 What one merged fragment makes the receiver do: the calls it issues to the target
 I/O object, and what those calls do to a flat buffer.
 */
module MergeSpec {
  import opened Basics
  import opened Intervals

  /** A call on the target I/O object; their results never steer the merge loop. */
  datatype Call = Store(offs: nat, data: Bytes) | Check(offs: nat, data: Bytes)

  /** The piece of the fragment at [lo, hi), in blob coordinates. */
  function Cut(b: nat, frag: Bytes, lo: nat, hi: nat): Bytes
    requires b <= lo <= hi <= b + |frag|
  {
    frag[lo - b..hi - b]
  }

  /** Calls for the first interval the fragment touches. */
  function TouchCalls(p: Part, b: nat, frag: Bytes): seq<Call>
    requires p.bgn <= p.end && Touches(p, b, b + |frag|)
  {
    var e := b + |frag|;
    if b < p.bgn then
      [Store(b, Cut(b, frag, b, p.bgn))]
      + (if e > p.end then [Store(p.end, Cut(b, frag, p.end, e))] else [])
      + [Check(p.bgn, Cut(b, frag, p.bgn, Min(e, p.end)))]
    else if e <= p.end then
      [Check(b, frag)]
    else
      [Store(p.end, Cut(b, frag, p.end, e)), Check(b, Cut(b, frag, b, p.end))]
  }

  /** Calls for the further intervals the fragment touches. */
  function TailChecks(ps: Parts, b: nat, frag: Bytes): seq<Call>
    requires Separated(ps) && (ps != [] ==> b < ps[0].bgn)
  {
    var e := b + |frag|;
    if ps == [] || e < ps[0].bgn then []
    else [Check(ps[0].bgn, Cut(b, frag, ps[0].bgn, Min(e, ps[0].end)))] + TailChecks(ps[1..], b, frag)
  }

  /** All the calls of one merge into the done list ps, in order. */
  function MergeCalls(ps: Parts, b: nat, frag: Bytes): seq<Call>
    requires Separated(ps)
  {
    if ps == [] || b + |frag| < ps[0].bgn then [Store(b, frag)]
    else if ps[0].end < b then MergeCalls(ps[1..], b, frag)
    else TouchCalls(ps[0], b, frag) + TailChecks(ps[1..], b, frag)
  }

  /** How many intervals end before b: the index of the first one [b, e) may touch. */
  function EndingBefore(ps: Parts, b: nat): (k: nat)
    ensures k <= |ps|
    ensures forall j :: 0 <= j < k ==> ps[j].end < b
    ensures k < |ps| ==> b <= ps[k].end
  {
    if ps != [] && ps[0].end < b then 1 + EndingBefore(ps[1..], b) else 0
  }

  /** x lies in the first interval of ps that [b, e) touches. */
  predicate InFirstTouched(ps: Parts, b: nat, e: nat, x: int)
  {
    var k := EndingBefore(ps, b);
    k < |ps| && ps[k].bgn <= e && ps[k].bgn <= x < ps[k].end
  }

  // The flat buffer sink ---------------------------------------------------------

  /** Stores nothing and reports failure when the data does not fit behind offs. */
  function BufferStore(buf: Bytes, offs: nat, src: Bytes): (Bytes, bool)
  {
    if offs + |src| <= |buf| then
      (seq(|buf|, (x: nat) requires x < |buf| => if offs <= x < offs + |src| then src[x - offs] else buf[x]), true)
    else (buf, |src| == 0)
  }

  predicate BufferCheck(buf: Bytes, offs: nat, blk: Bytes)
  {
    buf[Min(offs, |buf|)..Min(offs + |blk|, |buf|)] == blk
  }

  function RunCall(buf: Bytes, c: Call): (Bytes, bool)
  {
    match c
    case Store(offs, data) => BufferStore(buf, offs, data)
    case Check(offs, data) => (buf, BufferCheck(buf, offs, data))
  }

  /** Final buffer and conjunction of the results of a call sequence. */
  function RunCalls(buf: Bytes, calls: seq<Call>): (Bytes, bool)
    decreases |calls|
  {
    if calls == [] then (buf, true)
    else
      var (b1, ok1) := RunCall(buf, calls[0]);
      var (b2, ok2) := RunCalls(b1, calls[1..]);
      (b2, ok1 && ok2)
  }

  lemma {:induction false} RunConcat(buf: Bytes, cs: seq<Call>, ds: seq<Call>)
    ensures RunCalls(buf, cs + ds) ==
            (RunCalls(RunCalls(buf, cs).0, ds).0, RunCalls(buf, cs).1 && RunCalls(RunCalls(buf, cs).0, ds).1)
    decreases |cs|
  {
    if cs == [] {
      assert cs + ds == ds;
    } else {
      assert (cs + ds)[0] == cs[0] && (cs + ds)[1..] == cs[1..] + ds;
      RunConcat(RunCall(buf, cs[0]).0, cs[1..], ds);
    }
  }

  lemma RunSnoc(buf: Bytes, cs: seq<Call>, c: Call)
    ensures RunCalls(buf, cs + [c]) ==
            (RunCall(RunCalls(buf, cs).0, c).0, RunCalls(buf, cs).1 && RunCall(RunCalls(buf, cs).0, c).1)
  {
    RunConcat(buf, cs, [c]);
    var mid := RunCalls(buf, cs).0;
    assert RunCalls(RunCall(mid, c).0, []) == (RunCall(mid, c).0, true);
    assert [c][1..] == [];
  }

  lemma {:induction false} StoreKeepsSize(buf: Bytes, cs: seq<Call>)
    ensures |RunCalls(buf, cs).0| == |buf|
    decreases |cs|
  {
    if cs != [] { StoreKeepsSize(RunCall(buf, cs[0]).0, cs[1..]); }
  }

  /** The fragment's bytes everywhere except where the first touched interval was held. */
  function MergedBuffer(buf: Bytes, ps: Parts, b: nat, frag: Bytes): (r: Bytes)
    requires b + |frag| <= |buf|
  {
    seq(|buf|, (x: nat) requires x < |buf| =>
      if b <= x < b + |frag| && !InFirstTouched(ps, b, b + |frag|, x) then frag[x - b] else buf[x])
  }

  /** The fragment repeats what the buffer holds in the first touched interval. */
  ghost predicate AgreesOnFirst(buf: Bytes, ps: Parts, b: nat, frag: Bytes)
    requires b + |frag| <= |buf|
  {
    forall x :: b <= x < b + |frag| && InFirstTouched(ps, b, b + |frag|, x) ==> buf[x] == frag[x - b]
  }

  lemma {:induction false} TailChecksPass(ps: Parts, b: nat, frag: Bytes, buf: Bytes, lo: nat)
    requires Separated(ps) && (ps != [] ==> b < ps[0].bgn && lo <= ps[0].bgn)
    requires b <= lo && b + |frag| <= |buf|
    requires forall x :: lo <= x < b + |frag| ==> buf[x] == frag[x - b]
    ensures RunCalls(buf, TailChecks(ps, b, frag)) == (buf, true)
    decreases |ps|
  {
    var e := b + |frag|;
    if ps != [] && ps[0].bgn <= e {
      var c := Check(ps[0].bgn, Cut(b, frag, ps[0].bgn, Min(e, ps[0].end)));
      assert BufferCheck(buf, c.offs, c.data);
      TailChecksPass(ps[1..], b, frag, buf, lo);
      assert TailChecks(ps, b, frag)[1..] == TailChecks(ps[1..], b, frag);
    }
  }

  /** The stores that precede the check of a touched interval. */
  function TouchStores(p: Part, b: nat, frag: Bytes): seq<Call>
    requires p.bgn <= p.end && Touches(p, b, b + |frag|)
  {
    var e := b + |frag|;
    (if b < p.bgn then [Store(b, Cut(b, frag, b, p.bgn))] else [])
    + (if e > p.end then [Store(p.end, Cut(b, frag, p.end, e))] else [])
  }

  lemma TouchStoresRun(p: Part, b: nat, frag: Bytes, buf: Bytes)
    requires p.bgn <= p.end && Touches(p, b, b + |frag|) && b + |frag| <= |buf|
    ensures var r := RunCalls(buf, TouchStores(p, b, frag));
            && |r.0| == |buf| && r.1
            && (forall x :: 0 <= x < |buf| ==>
                 r.0[x] == if b <= x < b + |frag| && !Within(p, x) then frag[x - b] else buf[x])
  {
    var e := b + |frag|;
    var first := if b < p.bgn then [Store(b, Cut(b, frag, b, p.bgn))] else [];
    var second := if e > p.end then [Store(p.end, Cut(b, frag, p.end, e))] else [];
    RunConcat(buf, first, second);
  }

  /** A touch issues its stores, then one check of the overlap. */
  lemma TouchCheck(p: Part, b: nat, frag: Bytes, lo: nat, hi: nat)
    requires p.bgn <= p.end && Touches(p, b, b + |frag|)
    requires lo == Max(b, p.bgn) && hi == Min(b + |frag|, p.end)
    ensures b <= lo <= hi <= b + |frag|
    ensures TouchCalls(p, b, frag) == TouchStores(p, b, frag) + [Check(lo, Cut(b, frag, lo, hi))]
  {
    assert Cut(b, frag, b, b + |frag|) == frag;
  }

  lemma TouchCallsRun(p: Part, b: nat, frag: Bytes, buf: Bytes)
    requires p.bgn <= p.end && Touches(p, b, b + |frag|) && b + |frag| <= |buf|
    ensures var r := RunCalls(buf, TouchCalls(p, b, frag));
            && |r.0| == |buf|
            && (forall x :: 0 <= x < |buf| ==>
                 r.0[x] == if b <= x < b + |frag| && !Within(p, x) then frag[x - b] else buf[x])
            && (r.1 <==> forall x :: b <= x < b + |frag| && Within(p, x) ==> buf[x] == frag[x - b])
  {
    var lo, hi := Max(b, p.bgn), Min(b + |frag|, p.end);
    TouchCheck(p, b, frag, lo, hi);
    var chk := Check(lo, Cut(b, frag, lo, hi));
    RunSnoc(buf, TouchStores(p, b, frag), chk);
    TouchStoresRun(p, b, frag, buf);
    var mid := RunCalls(buf, TouchStores(p, b, frag)).0;
    assert forall x :: lo <= x < hi ==> mid[x] == buf[x];
    CheckMeaning(mid, b, frag, lo, hi);
  }

  lemma CheckMeaning(buf: Bytes, b: nat, frag: Bytes, lo: nat, hi: nat)
    requires b <= lo <= hi <= b + |frag| <= |buf|
    ensures BufferCheck(buf, lo, Cut(b, frag, lo, hi)) <==> forall x :: lo <= x < hi ==> buf[x] == frag[x - b]
  {
    var cut := Cut(b, frag, lo, hi);
    assert forall k :: 0 <= k < hi - lo ==> buf[lo..hi][k] == buf[lo + k] && cut[k] == frag[lo + k - b];
    if buf[lo..hi] == cut {
      forall x | lo <= x < hi ensures buf[x] == frag[x - b] {
        assert buf[lo..hi][x - lo] == cut[x - lo];
      }
    }
  }

  lemma TouchedRunsOnBuffer(ps: Parts, b: nat, frag: Bytes, buf: Bytes)
    requires Separated(ps) && b + |frag| <= |buf|
    requires ps != [] && Touches(ps[0], b, b + |frag|)
    ensures var r := RunCalls(buf, TouchCalls(ps[0], b, frag) + TailChecks(ps[1..], b, frag));
            && r.0 == MergedBuffer(buf, ps, b, frag)
            && (r.1 <==> AgreesOnFirst(buf, ps, b, frag))
  {
    var first := TouchCalls(ps[0], b, frag);
    TouchCallsRun(ps[0], b, frag, buf);
    var mid := RunCalls(buf, first).0;
    assert EndingBefore(ps, b) == 0;
    assert forall x :: InFirstTouched(ps, b, b + |frag|, x) <==> Within(ps[0], x);
    assert mid == MergedBuffer(buf, ps, b, frag);
    RunConcat(buf, first, TailChecks(ps[1..], b, frag));
    TailChecksPass(ps[1..], b, frag, mid, Max(b, ps[0].end));
  }

  /**
   Exactly what a merge does to a flat buffer, for any fragment inside it: the final
   bytes, and that the merge reports success if and only if the fragment repeats the
   held bytes of the first interval it touches (bytes held in further intervals are
   overwritten before they are checked).
   */
  lemma {:induction false} MergeRunsOnBuffer(ps: Parts, b: nat, frag: Bytes, buf: Bytes)
    requires Separated(ps) && b + |frag| <= |buf|
    ensures RunCalls(buf, MergeCalls(ps, b, frag)).0 == MergedBuffer(buf, ps, b, frag)
    ensures RunCalls(buf, MergeCalls(ps, b, frag)).1 <==> AgreesOnFirst(buf, ps, b, frag)
    decreases |ps|
  {
    if ps == [] || b + |frag| < ps[0].bgn {
      RunSnoc(buf, [], Store(b, frag));
      assert MergeCalls(ps, b, frag) == [] + [Store(b, frag)];
    } else if ps[0].end < b {
      MergeRunsOnBuffer(ps[1..], b, frag, buf);
      assert EndingBefore(ps, b) == 1 + EndingBefore(ps[1..], b);
      assert MergedBuffer(buf, ps, b, frag) == MergedBuffer(buf, ps[1..], b, frag);
    } else {
      TouchedRunsOnBuffer(ps, b, frag, buf);
    }
  }

  // What every sink may rely on --------------------------------------------------

  /** The call carries bytes of the fragment, for a place inside the fragment. */
  ghost predicate CarriesFragment(c: Call, b: nat, frag: Bytes) {
    b <= c.offs && c.offs + |c.data| <= b + |frag| && c.data == Cut(b, frag, c.offs, c.offs + |c.data|)
  }

  ghost predicate InCall(c: Call, x: int) { c.offs <= x < c.offs + |c.data| }

  ghost predicate StoresByte(cs: seq<Call>, x: int) {
    exists i :: 0 <= i < |cs| && cs[i].Store? && InCall(cs[i], x)
  }

  /** All calls carry fragment bytes, and only bytes held in ps are checked. */
  ghost predicate FaithfulCalls(cs: seq<Call>, ps: Parts, b: nat, frag: Bytes) {
    && (forall i :: 0 <= i < |cs| ==> CarriesFragment(cs[i], b, frag))
    && (forall i, x :: 0 <= i < |cs| && cs[i].Check? && InCall(cs[i], x) ==> Covers(ps, x))
  }

  lemma CheckFaithful(p: Part, b: nat, frag: Bytes, lo: nat, hi: nat)
    requires b <= lo <= hi <= b + |frag| && p.bgn <= lo && hi <= p.end
    ensures FaithfulCalls([Check(lo, Cut(b, frag, lo, hi))], [p], b, frag)
  {
    forall x | lo <= x < hi ensures Covers([p], x) { assert Within([p][0], x); }
  }

  lemma {:induction false} TailChecksFaithful(ps: Parts, b: nat, frag: Bytes)
    requires Separated(ps) && (ps != [] ==> b < ps[0].bgn)
    ensures FaithfulCalls(TailChecks(ps, b, frag), ps, b, frag)
    ensures forall i :: 0 <= i < |TailChecks(ps, b, frag)| ==> TailChecks(ps, b, frag)[i].Check?
    decreases |ps|
  {
    var e := b + |frag|;
    if ps != [] && ps[0].bgn <= e {
      var lo, hi := ps[0].bgn, Min(e, ps[0].end);
      TailChecksFaithful(ps[1..], b, frag);
      CheckFaithful(ps[0], b, frag, lo, hi);
      forall x: int ensures Covers([ps[0]], x) || Covers(ps[1..], x) ==> Covers(ps, x) { CoversSplit(ps, x); }
      FaithfulConcat([Check(lo, Cut(b, frag, lo, hi))], TailChecks(ps[1..], b, frag), [ps[0]], ps[1..], ps, b, frag);
    }
  }

  lemma CoversSplit(ps: Parts, x: int)
    requires ps != []
    ensures Covers(ps, x) <==> Covers([ps[0]], x) || Covers(ps[1..], x)
    ensures Covers([ps[0]], x) <==> Within(ps[0], x)
  {
    CoversUncons(ps, x);
    CoversUncons([ps[0]], x);
  }

  lemma StoreFaithful(b: nat, frag: Bytes, lo: nat, hi: nat)
    requires b <= lo <= hi <= b + |frag|
    ensures FaithfulCalls([Store(lo, Cut(b, frag, lo, hi))], [], b, frag)
    ensures forall x :: lo <= x < hi ==> StoresByte([Store(lo, Cut(b, frag, lo, hi))], x)
  {
    var cs := [Store(lo, Cut(b, frag, lo, hi))];
    forall x | lo <= x < hi ensures StoresByte(cs, x) { assert InCall(cs[0], x); }
  }

  lemma TouchStoresFaithful(p: Part, b: nat, frag: Bytes)
    requires p.bgn <= p.end && Touches(p, b, b + |frag|)
    ensures FaithfulCalls(TouchStores(p, b, frag), [], b, frag)
    ensures forall x :: b <= x < b + |frag| && !Within(p, x) ==> StoresByte(TouchStores(p, b, frag), x)
  {
    var e := b + |frag|;
    var first := if b < p.bgn then [Store(b, Cut(b, frag, b, p.bgn))] else [];
    var second := if e > p.end then [Store(p.end, Cut(b, frag, p.end, e))] else [];
    if b < p.bgn { StoreFaithful(b, frag, b, p.bgn); }
    if e > p.end { StoreFaithful(b, frag, p.end, e); }
    FaithfulConcat(first, second, [], [], [], b, frag);
  }

  lemma TouchCallsFaithful(p: Part, b: nat, frag: Bytes)
    requires p.bgn <= p.end && Touches(p, b, b + |frag|)
    ensures FaithfulCalls(TouchCalls(p, b, frag), [p], b, frag)
    ensures forall x :: b <= x < b + |frag| && !Within(p, x) ==> StoresByte(TouchCalls(p, b, frag), x)
  {
    var lo, hi := Max(b, p.bgn), Min(b + |frag|, p.end);
    TouchCheck(p, b, frag, lo, hi);
    TouchStoresFaithful(p, b, frag);
    CheckFaithful(p, b, frag, lo, hi);
    FaithfulConcat(TouchStores(p, b, frag), [Check(lo, Cut(b, frag, lo, hi))], [], [p], [p], b, frag);
  }

  lemma FaithfulConcat(cs: seq<Call>, ds: seq<Call>, qs: Parts, rs: Parts, ps: Parts, b: nat, frag: Bytes)
    requires FaithfulCalls(cs, qs, b, frag) && FaithfulCalls(ds, rs, b, frag)
    requires forall x: int :: Covers(qs, x) || Covers(rs, x) ==> Covers(ps, x)
    ensures FaithfulCalls(cs + ds, ps, b, frag)
    ensures forall x: int :: StoresByte(cs, x) || StoresByte(ds, x) ==> StoresByte(cs + ds, x)
  {
    var all := cs + ds;
    assert forall i :: 0 <= i < |all| ==> all[i] == if i < |cs| then cs[i] else ds[i - |cs|];
    forall x: int | StoresByte(cs, x) || StoresByte(ds, x) ensures StoresByte(all, x) { StoresConcat(cs, ds, x); }
  }

  lemma StoresConcat(cs: seq<Call>, ds: seq<Call>, x: int)
    ensures StoresByte(cs, x) || StoresByte(ds, x) ==> StoresByte(cs + ds, x)
  {
    if StoresByte(cs, x) {
      var i :| 0 <= i < |cs| && cs[i].Store? && InCall(cs[i], x);
      assert InCall((cs + ds)[i], x);
    }
    if StoresByte(ds, x) {
      var i :| 0 <= i < |ds| && ds[i].Store? && InCall(ds[i], x);
      assert InCall((cs + ds)[|cs| + i], x);
    }
  }

  /**
   A merge only passes on bytes of the fragment, at their place in the blob; it checks
   only bytes already held, and it stores at least every byte not held before.
   */
  lemma {:induction false} MergeCallsFaithful(ps: Parts, b: nat, frag: Bytes)
    requires Separated(ps)
    ensures FaithfulCalls(MergeCalls(ps, b, frag), ps, b, frag)
    ensures forall x :: b <= x < b + |frag| && !Covers(ps, x) ==> StoresByte(MergeCalls(ps, b, frag), x)
    decreases |ps|
  {
    var e := b + |frag|;
    if ps == [] || e < ps[0].bgn {
      var cs := [Store(b, frag)];
      assert Cut(b, frag, b, e) == frag;
      forall x: int | b <= x < e && !Covers(ps, x) ensures StoresByte(cs, x) { assert InCall(cs[0], x); }
    } else {
      forall x: int ensures Covers(ps, x) <==> Covers([ps[0]], x) || Covers(ps[1..], x) { CoversSplit(ps, x); }
      if ps[0].end < b {
        MergeCallsFaithful(ps[1..], b, frag);
      } else {
        TouchCallsFaithful(ps[0], b, frag);
        TailChecksFaithful(ps[1..], b, frag);
        forall x: int ensures Within(ps[0], x) ==> Covers(ps, x) { CoversSplit(ps, x); }
        FaithfulConcat(TouchCalls(ps[0], b, frag), TailChecks(ps[1..], b, frag), [ps[0]], ps[1..], ps, b, frag);
      }
    }
  }

  // Honest fragments -------------------------------------------------------------

  /** data is what the blob has at offs. */
  ghost predicate IsPieceOf(blob: Bytes, offs: nat, data: Bytes) {
    offs + |data| <= |blob| && data == blob[offs..offs + |data|]
  }

  /** The buffer has the blob's size and its bytes wherever ps says so. */
  ghost predicate InSync(buf: Bytes, blob: Bytes, ps: Parts) {
    |buf| == |blob| && forall x :: 0 <= x < |blob| && Covers(ps, x) ==> buf[x] == blob[x]
  }

  lemma PieceAgrees(ps: Parts, b: nat, frag: Bytes, buf: Bytes, blob: Bytes)
    requires InSync(buf, blob, ps) && IsPieceOf(blob, b, frag)
    ensures AgreesOnFirst(buf, ps, b, frag)
    ensures forall x :: b <= x < b + |frag| ==> frag[x - b] == blob[x]
  {
    assert forall x :: InFirstTouched(ps, b, b + |frag|, x) ==> Within(ps[EndingBefore(ps, b)], x);
  }

  /** A piece of the blob merges without a failed check and extends the agreement. */
  lemma MergeKeepsSync(ps: Parts, b: nat, frag: Bytes, buf: Bytes, blob: Bytes)
    requires Separated(ps) && InSync(buf, blob, ps) && IsPieceOf(blob, b, frag)
    ensures RunCalls(buf, MergeCalls(ps, b, frag)).1
    ensures InSync(RunCalls(buf, MergeCalls(ps, b, frag)).0, blob, Insert(ps, b, b + |frag|))
  {
    MergeRunsOnBuffer(ps, b, frag, buf);
    PieceAgrees(ps, b, frag, buf, blob);
    forall x | 0 <= x < |blob| && Covers(Insert(ps, b, b + |frag|), x)
      ensures MergedBuffer(buf, ps, b, frag)[x] == blob[x]
    {
      InsertCovers(ps, b, b + |frag|, x);
    }
  }
}
