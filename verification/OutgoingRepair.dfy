/**
 Repair of one blob by a sender that serves many: the receiver asks for its first gap, the
 request joins the queue, and whatever the sender has to send meanwhile, the gap is closed.
 */
module OutgoingRepair {
  import opened Basics
  import opened Intervals
  import opened TransferSpec
  import opened OutgoingBlobs

  /** The fragments of one blob, merged in order by its receiver. */
  function MergeSent(done: Parts, fs: seq<Fragment>, place: nat): Parts
    decreases |fs|
  {
    if fs == [] then done
    else
      var f := fs[0];
      MergeSent(if f.place == place then Insert(done, f.offs, f.offs + f.size) else done, fs[1..], place)
  }

  ghost predicate InBlob(os: seq<Outgoing>, f: Fragment) { f.place < |os| && f.offs + f.size <= os[f.place].size }

  /** Since the blobs `before` only todo lists changed, and only pieces of the blobs were sent. */
  ghost predicate Kept(before: seq<Outgoing>, s: Serving) {
    && |s.os| == |before| && AllGood(s.os)
    && (forall k :: 0 <= k < |before| ==> s.os[k] == before[k].(todo := s.os[k].todo))
    && forall i :: 0 <= i < |s.sent| ==> InBlob(before, s.sent[i])
  }

  lemma {:induction false} ServeKeeps(before: seq<Outgoing>, s: Serving, count: nat)
    requires s.os != [] && Kept(before, s)
    ensures Kept(before, Serve(s, count))
    decreases count
  {
    if count > 0 {
      var k := s.index % |s.os|;
      TurnAccounts(s.os, k);
      ServeKeeps(before, Serving(s.os[k := Turn(s.os[k])], s.index + 1, s.sent + TurnSends(s.os[k], k)), count - 1);
    }
  }

  lemma CarriedUncons(fs: seq<Fragment>, place: nat, x: int)
    requires fs != []
    ensures Carried(fs, place, x) <==> Carries(fs[0], place, x) || Carried(fs[1..], place, x)
  {
    assert fs == [fs[0]] + fs[1..];
    CarriedConcat([fs[0]], fs[1..], place, x);
    assert Carried([fs[0]], place, x) <==> Carries([fs[0]][0], place, x);
  }

  lemma MergeOne(done: Parts, b: nat, e: nat, total: nat)
    requires GoodDone(done, total) && b <= e <= total
    ensures var next := Insert(done, b, e);
            GoodDone(next, total) && next != [] && forall x :: Covers(next, x) <==> Covers(done, x) || b <= x < e
  {
    InsertSeparated(done, b, e);
    InsertBounded(done, b, e, total);
    forall x ensures Covers(Insert(done, b, e), x) <==> Covers(done, x) || b <= x < e { InsertCovers(done, b, e, x); }
  }

  /** The receiver has what it had and what the fragments carried. */
  lemma {:induction false} MergeSentCovers(done: Parts, fs: seq<Fragment>, place: nat, total: nat)
    requires GoodDone(done, total)
    requires forall i :: 0 <= i < |fs| && fs[i].place == place ==> fs[i].offs + fs[i].size <= total
    ensures var r := MergeSent(done, fs, place); GoodDone(r, total) && (done != [] ==> r != [])
    ensures forall x :: Covers(MergeSent(done, fs, place), x) <==> Covers(done, x) || Carried(fs, place, x)
    decreases |fs|
  {
    if fs != [] {
      var f := fs[0];
      if f.place == place {
        MergeOne(done, f.offs, f.offs + f.size, total);
        MergeSentCovers(Insert(done, f.offs, f.offs + f.size), fs[1..], place, total);
      } else {
        MergeSentCovers(done, fs[1..], place, total);
      }
      forall x ensures Covers(MergeSent(done, fs, place), x) <==> Covers(done, x) || Carried(fs, place, x) {
        CarriedUncons(fs, place, x);
      }
    }
  }

  /** No good list has more to send than its blob has bytes. */
  lemma SizesBound(os: seq<Outgoing>, rounds: nat)
    requires AllGood(os) && forall k :: 0 <= k < |os| ==> os[k].size <= rounds
    ensures AtMost(os, rounds)
  {
    forall k | 0 <= k < |os| ensures ToSend(os[k]) <= rounds {
      SizeIsCoverage(os[k].todo, os[k].size);
      RangeSize(Part(0, os[k].size));
      forall x | x in CoveredSet(os[k].todo, os[k].size) ensures x in Range(Part(0, os[k].size)) {
        assert Within(Part(0, os[k].size), x);
      }
      SubsetSize(CoveredSet(os[k].todo, os[k].size), Range(Part(0, os[k].size)));
    }
  }

  /** The sender of many blobs, and the receiver of the one at place k. */
  datatype Repair = Repair(os: seq<Outgoing>, index: nat, done: Parts)

  /** After so many turns, whose fragments of the blob at k arrive. */
  function AfterTurns(r: Repair, k: nat, asked: seq<Outgoing>, turns: nat): Repair {
    if asked == [] then r
    else
      var s := Serve(Serving(asked, r.index, []), turns);
      Repair(s.os, s.index, MergeSent(r.done, s.sent, k))
  }

  /** The receiver asks; the request is merged; so many turns are given; their fragments arrive. */
  function RepairBySender(r: Repair, id: nat, k: nat, maxMessageSize: nat, turns: nat): Repair
    requires k < |r.os| && r.done != []
  {
    var (b, e) := DoneBeginEnd(r.done, r.os[k].size, maxMessageSize);
    AfterTurns(r, k, if 0 <= b && 0 <= e then Resent(r.os, id, b, e) else r.os, turns)
  }

  /** All blobs good, none longer than `rounds`; the one at k is the first with the id, and is being received. */
  ghost predicate Repairing(r: Repair, id: nat, k: nat, rounds: nat) {
    && AllGood(r.os) && FirstWithId(r.os, id, k) && r.os[k].size > 0
    && (forall j :: 0 <= j < |r.os| ==> r.os[j].size <= rounds)
    && GoodDone(r.done, r.os[k].size) && r.done != []
  }

  /** What the receiver asks for is in range; while bytes are missing, it begins with one of them. */
  lemma {:induction false} AsksInRange(done: Parts, total: nat, maxMessageSize: nat)
    requires GoodDone(done, total) && done != [] && total > 0 && maxMessageSize >= 2
    ensures var (b, e) := DoneBeginEnd(done, total, maxMessageSize);
            0 <= b <= e <= total && e > 0 && (!CoversAll(done, total) ==> b < e && !Covers(done, b))
  {
    if CoversAll(done, total) {
      SinglePartIffCoversAll(done, total);
    } else {
      ResendAsksForFirstGap(done, total, maxMessageSize);
    }
  }

  lemma {:induction false} AskedIsGood(r: Repair, id: nat, k: nat, rounds: nat, b: nat, e: nat)
    requires Repairing(r, id, k, rounds) && b <= e <= r.os[k].size && e > 0
    ensures var asked := Resent(r.os, id, b, e);
            && AllGood(asked) && |asked| == |r.os| && AtMost(asked, rounds)
            && (forall j :: 0 <= j < |asked| ==> asked[j] == r.os[j].(todo := asked[j].todo))
            && forall x :: b <= x < e ==> Covers(asked[k].todo, x)
  {
    ResentIsRequested(r.os, id, b, e);
    ResentGoodIff(r.os, id, b, e);
    SizesBound(Resent(r.os, id, b, e), rounds);
  }

  /** What the turns send of the blob at k, in the blob. */
  lemma SentOfOne(before: seq<Outgoing>, s: Serving, k: nat, total: nat)
    requires Kept(before, s) && k < |before| && total == before[k].size
    ensures forall i :: 0 <= i < |s.sent| && s.sent[i].place == k ==> s.sent[i].offs + s.sent[i].size <= total
  {
    assert forall i :: 0 <= i < |s.sent| ==> InBlob(before, s.sent[i]);
  }

  /** The senders' side of a round: what is asked for was merged into its queue. */
  ghost predicate Asked(r: Repair, k: nat, rounds: nat, asked: seq<Outgoing>) {
    && AllGood(asked) && |asked| == |r.os| && AtMost(asked, rounds)
    && forall j :: 0 <= j < |asked| ==> asked[j] == r.os[j].(todo := asked[j].todo)
  }

  /** The round asks for a missing byte, if there is one. */
  lemma {:induction false} RoundAsks(r: Repair, id: nat, k: nat, maxMessageSize: nat, rounds: nat)
    returns (asked: seq<Outgoing>, b: nat)
    requires Repairing(r, id, k, rounds) && maxMessageSize >= 2
    ensures forall turns: nat :: RepairBySender(r, id, k, maxMessageSize, turns) == AfterTurns(r, k, asked, turns)
    ensures Asked(r, k, rounds, asked)
    ensures !CoversAll(r.done, r.os[k].size) ==> b < r.os[k].size && !Covers(r.done, b) && Covers(asked[k].todo, b)
  {
    var (bgn, end) := DoneBeginEnd(r.done, r.os[k].size, maxMessageSize);
    AsksInRange(r.done, r.os[k].size, maxMessageSize);
    AskedIsGood(r, id, k, rounds, bgn, end);
    asked, b := Resent(r.os, id, bgn, end), bgn;
  }

  lemma RoundKeeps(r: Repair, id: nat, k: nat, rounds: nat, asked: seq<Outgoing>, turns: nat)
    requires Repairing(r, id, k, rounds) && Asked(r, k, rounds, asked)
    ensures var next := AfterTurns(r, k, asked, turns);
            && Repairing(next, id, k, rounds) && next.os[k].size == r.os[k].size && |next.os| == |r.os|
            && forall x :: Covers(next.done, x) <==>
                 Covers(r.done, x) || Carried(Serve(Serving(asked, r.index, []), turns).sent, k, x)
  {
    var start := Serving(asked, r.index, []);
    ServeKeeps(asked, start, turns);
    SentOfOne(asked, Serve(start, turns), k, r.os[k].size);
    MergeSentCovers(r.done, Serve(start, turns).sent, k, r.os[k].size);
    StillFirst(r, AfterTurns(r, k, asked, turns), id, k, rounds);
  }

  lemma StillFirst(r: Repair, next: Repair, id: nat, k: nat, rounds: nat)
    requires Repairing(r, id, k, rounds) && |next.os| == |r.os| && AllGood(next.os)
    requires forall j :: 0 <= j < |r.os| ==> next.os[j] == r.os[j].(todo := next.os[j].todo)
    requires GoodDone(next.done, r.os[k].size) && next.done != []
    ensures Repairing(next, id, k, rounds) && next.os[k].size == r.os[k].size
  {
  }

  /**
   One repair round through the sender's queue, whatever else it has to send: nothing received
   is lost, and an incomplete blob misses less afterwards.
   */
  lemma {:induction false} SenderRepairProgress(r: Repair, id: nat, k: nat, maxMessageSize: nat, rounds: nat,
                                                turns: nat)
    requires Repairing(r, id, k, rounds) && maxMessageSize >= 2 && turns >= rounds * |r.os|
    ensures var next, total := RepairBySender(r, id, k, maxMessageSize, turns), r.os[k].size;
            && Repairing(next, id, k, rounds) && next.os[k].size == total && |next.os| == |r.os|
            && (forall x :: Covers(r.done, x) ==> Covers(next.done, x))
            && (!CoversAll(r.done, total) ==> Missing(next.done, total) < Missing(r.done, total))
  {
    var asked, b := RoundAsks(r, id, k, maxMessageSize, rounds);
    RoundKeeps(r, id, k, rounds, asked, turns);
    if !CoversAll(r.done, r.os[k].size) {
      TurnsCarryAll(asked, r.index, rounds, turns, k, b);
      FewerMissing(r.done, AfterTurns(r, k, asked, turns).done, r.os[k].size, b);
    }
  }

  function RepairsBySender(r: Repair, id: nat, k: nat, maxMessageSize: nat, turns: nat, n: nat): Repair
    decreases n
  {
    if n == 0 || k >= |r.os| || r.done == [] then r
    else RepairsBySender(RepairBySender(r, id, k, maxMessageSize, turns), id, k, maxMessageSize, turns, n - 1)
  }

  /** The state after a round, and how many bytes it still misses at most. */
  lemma {:induction false} NextRepair(r: Repair, id: nat, k: nat, maxMessageSize: nat, rounds: nat, turns: nat, n: nat)
    returns (next: Repair)
    requires Repairing(r, id, k, rounds) && maxMessageSize >= 2 && turns >= rounds * |r.os|
    requires n > 0 && n >= Missing(r.done, r.os[k].size)
    ensures next == RepairBySender(r, id, k, maxMessageSize, turns)
    ensures Repairing(next, id, k, rounds) && next.os[k].size == r.os[k].size && |next.os| == |r.os|
    ensures n - 1 >= Missing(next.done, r.os[k].size)
  {
    var total := r.os[k].size;
    next := RepairBySender(r, id, k, maxMessageSize, turns);
    SenderRepairProgress(r, id, k, maxMessageSize, rounds, turns);
    if CoversAll(r.done, total) { StillCovers(r.done, next.done, total); }
  }

  lemma StillCovers(done: Parts, next: Parts, total: nat)
    requires CoversAll(done, total) && forall x :: Covers(done, x) ==> Covers(next, x)
    ensures Missing(next, total) == 0
  {
    MissingZero(next, total);
  }

  lemma RepairsStep(r: Repair, id: nat, k: nat, maxMessageSize: nat, turns: nat, n: nat, next: Repair)
    requires k < |r.os| && r.done != [] && next == RepairBySender(r, id, k, maxMessageSize, turns)
    ensures RepairsBySender(r, id, k, maxMessageSize, turns, 0) == r
    ensures n > 0 ==>
              RepairsBySender(r, id, k, maxMessageSize, turns, n) ==
              RepairsBySender(next, id, k, maxMessageSize, turns, n - 1)
  {
  }

  /** With enough turns in each, at most one such round for each missing byte completes the blob. */
  lemma {:induction false} SenderRepairCompletes(r: Repair, id: nat, k: nat, maxMessageSize: nat, rounds: nat,
                                                 turns: nat, n: nat)
    requires Repairing(r, id, k, rounds) && maxMessageSize >= 2 && turns >= rounds * |r.os|
    requires n >= Missing(r.done, r.os[k].size)
    ensures ReceivedEverything(RepairsBySender(r, id, k, maxMessageSize, turns, n).done, r.os[k].size)
    decreases n
  {
    RepairsStep(r, id, k, maxMessageSize, turns, n, RepairBySender(r, id, k, maxMessageSize, turns));
    if n == 0 {
      MissingZero(r.done, r.os[k].size);
      ReceivedEverythingIff(r.done, r.os[k].size);
    } else {
      var next := NextRepair(r, id, k, maxMessageSize, rounds, turns, n);
      SenderRepairCompletes(next, id, k, maxMessageSize, rounds, turns, n - 1);
    }
  }
}
