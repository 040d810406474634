/** Runs of fragments arriving at one receiver, and all the calls they cause on its sink. */
module Arrivals {
  import opened Basics
  import opened Intervals
  import opened MergeSpec

  datatype Arrival = Arrival(offs: nat, data: Bytes)

  ghost predicate HonestArrivals(arrivals: seq<Arrival>, blob: Bytes) {
    forall i :: 0 <= i < |arrivals| ==> arrivals[i].data != [] && IsPieceOf(blob, arrivals[i].offs, arrivals[i].data)
  }

  /** The done list after the arrivals, and every call on the sink, in order. */
  ghost function Merged(ps: Parts, arrivals: seq<Arrival>): (Parts, seq<Call>)
    decreases |arrivals|
  {
    if arrivals == [] || !Separated(ps) then (ps, [])
    else
      var a := arrivals[0];
      var (done, calls) := Merged(Insert(ps, a.offs, a.offs + |a.data|), arrivals[1..]);
      (done, MergeCalls(ps, a.offs, a.data) + calls)
  }

  /** The call carries bytes of the blob. */
  ghost predicate HonestCall(c: Call, blob: Bytes) { IsPieceOf(blob, c.offs, c.data) }

  lemma CarriedIsHonest(c: Call, b: nat, frag: Bytes, blob: Bytes)
    requires CarriesFragment(c, b, frag) && IsPieceOf(blob, b, frag)
    ensures HonestCall(c, blob)
  {
    assert forall k :: 0 <= k < |c.data| ==> c.data[k] == frag[c.offs - b + k] == blob[c.offs + k];
    assert c.data == blob[c.offs..c.offs + |c.data|];
  }

  /** Every byte received was stored, and only bytes of the blob were ever passed on. */
  lemma {:induction false} MergedStoresAll(ps: Parts, arrivals: seq<Arrival>, blob: Bytes)
    requires HonestArrivals(arrivals, blob) && Canonical(ps) && Bounded(ps, |blob|)
    ensures var (done, calls) := Merged(ps, arrivals);
            && Canonical(done) && Bounded(done, |blob|)
            && (forall i :: 0 <= i < |calls| ==> HonestCall(calls[i], blob))
            && (forall x :: Covers(done, x) && !Covers(ps, x) ==> StoresByte(calls, x))
    decreases |arrivals|
  {
    if arrivals != [] {
      var a, e := arrivals[0], arrivals[0].offs + |arrivals[0].data|;
      var mine, next := MergeCalls(ps, a.offs, a.data), Insert(ps, a.offs, e);
      MergeCallsFaithful(ps, a.offs, a.data);
      InsertCanonicalIff(ps, a.offs, e);
      InsertBounded(ps, a.offs, e, |blob|);
      MergedStoresAll(next, arrivals[1..], blob);
      var (done, calls) := Merged(next, arrivals[1..]);
      forall i | 0 <= i < |mine| ensures HonestCall(mine[i], blob) { CarriedIsHonest(mine[i], a.offs, a.data, blob); }
      forall x | Covers(done, x) && !Covers(ps, x) ensures StoresByte(mine + calls, x) {
        InsertCovers(ps, a.offs, e, x);
        StoresConcat(mine, calls, x);
      }
    }
  }
}
