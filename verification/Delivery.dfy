/**
 Progress of the receiving half: a live blob whose fragments have arrived is handed over by
 the next fetch, and to the sink its receiver gave when it announced the blob.
 */
module BlobDelivery {
  import opened Basics
  import opened Intervals
  import opened MergeSpec
  import opened TransferSpec
  import opened BlobManipulators
  import ChunkSink

  function KeyOf(m: Message): Key { Key(m.msgId, m.source, m.targetBlob) }

  /** A message with the ids of a live blob. */
  function Probe(key: Key, live: Live): Message {
    Message(key.msgId, key.source, live.sourceBlob, key.targetBlob, 0, |live.blob|, [])
  }

  /** The blob is live, and no other from its source has its blob id. */
  ghost predicate LiveAlone(w: World, key: Key, live: Live) {
    && GoodWorld(w) && key in w && w[key] == live && live.blob != []
    && forall l :: l in w && l.source == key.source && w[l].sourceBlob == live.sourceBlob ==> l == key
  }

  /** A sink of its receiver's own takes a blob of any size, a buffer is made for small ones only. */
  predicate Fits(live: Live, own: bool) { own || |live.blob| < MAX_BLOB_SIZE }

  /** Another source sends a blob under the same message id and target blob id. */
  ghost predicate Rival(m: Message, key: Key) {
    m.msgId == key.msgId && m.targetBlob == key.targetBlob && m.source != key.source
  }

  /** A byte of the blob in the fragment. */
  ghost predicate Brings(m: Message, key: Key, x: int) { KeyOf(m) == key && m.offset <= x < m.offset + |m.data| }

  ghost function Brought(m: Message, key: Key): iset<int> { iset x: int | Brings(m, key, x) }

  /** The pending blob is this one; it has all these bytes, and if asked for the caller's own sink. */
  ghost predicate Receives(p: Pending, key: Key, live: Live, got: iset<int>, own: bool) {
    && p.msgId == key.msgId && p.targetBlob == key.targetBlob && p.total == |live.blob|
    && (forall x :: x in got ==> Covers(p.done, x))
    && (own ==> p.target.CallerTarget?)
  }

  /** An announced blob that only fragments of this one can take. */
  ghost predicate Expects(p: Pending, key: Key, rivals: bool) {
    && Unbound(p) && p.msgId == key.msgId && p.targetBlob == key.targetBlob
    && (p.source == key.source || (p.source == BROADCAST && !rivals))
  }

  /** What is known of a live blob while its fragments arrive and nothing is dropped. */
  ghost predicate Tracked(ps: seq<Pending>, key: Key, live: Live, got: iset<int>, own: bool, rivals: bool) {
    if NoneKnown(ps, Probe(key, live)) then
      got == iset{} && (own ==> exists p :: p in ps && Expects(p, key, rivals))
    else exists k: nat :: TrackedAt(ps, key, live, got, own, k)
  }

  ghost predicate TrackedAt(ps: seq<Pending>, key: Key, live: Live, got: iset<int>, own: bool, k: nat) {
    KnownAt(ps, Probe(key, live), k) && Receives(ps[k], key, live, got, own)
  }

  // One event ----------------------------------------------------------------------------

  /** Of the pending blobs the one with the blob's ids is the blob itself. */
  lemma KnownIsIt(w: World, ps: seq<Pending>, key: Key, live: Live, k: nat)
    requires LiveAlone(w, key, live) && AllGood(w, ps) && KnownAt(ps, Probe(key, live), k)
    ensures Receives(ps[k], key, live, iset{}, false) && Bound(w, ps[k]) && ps[k].source == key.source
  {
    assert GoodPending(w, ps[k]);
  }

  /** Its own fragment reaches it. */
  lemma OwnReaches(w: World, ps: seq<Pending>, qs: seq<Pending>, m: Message, key: Key, live: Live, got: iset<int>,
                   own: bool, rivals: bool)
    requires LiveAlone(w, key, live) && AllGood(w, ps) && Genuine(w, m) && KeyOf(m) == key && Sized(m)
    requires TakesFragment(ps, qs, m) && Tracked(ps, key, live, got, own, rivals) && Fits(live, own)
    ensures Tracked(qs, key, live, got + Brought(m, key), own, rivals)
  {
    var probe := Probe(key, live);
    var more := got + Brought(m, key);
    if !NoneKnown(ps, probe) {
      var k: nat :| TrackedAt(ps, key, live, got, own, k);
      assert KnownAt(ps, m, k);
      assert qs[..k] == ps[..k];
      assert TrackedAt(qs, key, live, more, own, k);
    } else if !NoneAwaits(ps, m) {
      var j := FirstAwaiting(ps, m);
      assert ExpectedAt(ps, m, j);
      ExpectedIsUnbound(w, ps, m, j);
      assert qs[..j] == ps[..j];
      assert TrackedAt(qs, key, live, more, own, j);
    } else {
      assert !own;
      assert qs[..|ps|] == ps;
      assert TrackedAt(qs, key, live, more, own, |ps|);
    }
  }

  lemma FirstAwaiting(ps: seq<Pending>, m: Message) returns (j: nat)
    requires !NoneAwaits(ps, m)
    ensures j < |ps| && Awaits(ps[j], m) && NoneAwaits(ps[..j], m)
  {
    LookupsFind(ps, m);
    j := FindTarget(ps, m);
  }

  lemma ExpectedIsUnbound(w: World, ps: seq<Pending>, m: Message, j: nat)
    requires GoodWorld(w) && Genuine(w, m) && AllGood(w, ps) && ExpectedAt(ps, m, j)
    ensures Unbound(ps[j])
  {
    assert GoodPending(w, ps[j]);
  }

  /** Fragments of other blobs leave it alone. */
  lemma OthersLeaveIt(w: World, ps: seq<Pending>, qs: seq<Pending>, m: Message, key: Key, live: Live, got: iset<int>,
                      own: bool, rivals: bool)
    requires LiveAlone(w, key, live) && AllGood(w, ps) && Genuine(w, m) && KeyOf(m) != key && Sized(m)
    requires TakesFragment(ps, qs, m) && Tracked(ps, key, live, got, own, rivals) && (Rival(m, key) ==> rivals)
    ensures Tracked(qs, key, live, got, own, rivals)
  {
    if !NoneKnown(ps, m) {
      var i := FirstKnown(ps, m);
      ChangedIsOther(w, ps, m, key, live, rivals, i);
      StaysTracked(ps, qs, key, live, got, own, rivals, i);
    } else if !NoneAwaits(ps, m) {
      var j := FirstAwaiting(ps, m);
      assert ExpectedAt(ps, m, j);
      ExpectedIsUnbound(w, ps, m, j);
      ChangedIsOther(w, ps, m, key, live, rivals, j);
      StaysTracked(ps, qs, key, live, got, own, rivals, j);
    } else if qs != ps {
      assert qs == ps + [qs[|ps|]];
      AddedStaysTracked(ps, qs[|ps|], key, live, got, own, rivals);
    }
  }

  lemma FirstKnown(ps: seq<Pending>, m: Message) returns (i: nat)
    requires !NoneKnown(ps, m)
    ensures KnownAt(ps, m, i)
  {
    LookupsFind(ps, m);
    i := FindSource(ps, m);
  }

  predicate HasIds(p: Pending, key: Key, live: Live) { p.source == key.source && p.sourceBlob == live.sourceBlob }

  /** The pending blob a fragment of another blob changes is not this one, nor one that expects it. */
  lemma ChangedIsOther(w: World, ps: seq<Pending>, m: Message, key: Key, live: Live, rivals: bool, i: nat)
    requires LiveAlone(w, key, live) && AllGood(w, ps) && Genuine(w, m) && KeyOf(m) != key
    requires (Rival(m, key) ==> rivals) && (KnownAt(ps, m, i) || (ExpectedAt(ps, m, i) && Unbound(ps[i])))
    ensures i < |ps| && !HasIds(ps[i], key, live) && !Expects(ps[i], key, rivals)
    ensures m.source != key.source || m.sourceBlob != live.sourceBlob
  {
    assert GoodPending(w, ps[i]);
  }

  lemma StaysTracked(ps: seq<Pending>, qs: seq<Pending>, key: Key, live: Live, got: iset<int>, own: bool, rivals: bool,
                     i: nat)
    requires Tracked(ps, key, live, got, own, rivals) && i < |ps| && OnlyAt(ps, qs, i)
    requires !HasIds(ps[i], key, live) && !HasIds(qs[i], key, live) && !Expects(ps[i], key, rivals)
    ensures Tracked(qs, key, live, got, own, rivals)
  {
    var probe := Probe(key, live);
    forall j | 0 <= j < |ps| ensures HasIds(qs[j], key, live) <==> HasIds(ps[j], key, live) {}
    if NoneKnown(ps, probe) {
      forall j | 0 <= j < |qs| ensures qs[j].source != probe.source || qs[j].sourceBlob != probe.sourceBlob {
        assert !HasIds(ps[j], key, live);
      }
      if own {
        var p :| p in ps && Expects(p, key, rivals);
        var e :| 0 <= e < |ps| && ps[e] == p;
        assert qs[e] == p;
      }
    } else {
      var k: nat :| TrackedAt(ps, key, live, got, own, k);
      forall j | 0 <= j < k ensures qs[..k][j].source != probe.source || qs[..k][j].sourceBlob != probe.sourceBlob {
        assert ps[..k][j] == ps[j] && !HasIds(ps[j], key, live);
      }
      assert TrackedAt(qs, key, live, got, own, k);
    }
  }

  lemma AddedStaysTracked(ps: seq<Pending>, q: Pending, key: Key, live: Live, got: iset<int>, own: bool, rivals: bool)
    requires Tracked(ps, key, live, got, own, rivals) && !HasIds(q, key, live)
    ensures Tracked(ps + [q], key, live, got, own, rivals)
  {
    var probe := Probe(key, live);
    if NoneKnown(ps, probe) {
      if own {
        var p :| p in ps && Expects(p, key, rivals);
        assert p in ps + [q];
      }
    } else {
      var k: nat :| TrackedAt(ps, key, live, got, own, k);
      assert (ps + [q])[..k] == ps[..k];
      assert TrackedAt(ps + [q], key, live, got, own, k);
    }
  }

  // A fetch ------------------------------------------------------------------------------

  ghost predicate IsHandover(h: Handover, key: Key, own: bool) {
    Key(h.msgId, h.source, h.targetBlob) == key && (own ==> h.target.CallerTarget?)
  }

  lemma {:induction false} UnfinishedTracked(ps: seq<Pending>, m: Message, k: nat) returns (l: nat)
    requires KnownAt(ps, m, k) && !ReceivedEverything(ps[k].done, ps[k].total)
    ensures KnownAt(Unfinished(ps), m, l) && Unfinished(ps)[l] == ps[k]
    decreases |ps|
  {
    var rest := Unfinished(ps[1..]);
    if k == 0 {
      l := 0;
    } else {
      assert ps[..k][0] == ps[0];
      assert ps[1..][..k - 1] == ps[..k][1..];
      var i := UnfinishedTracked(ps[1..], m, k - 1);
      if ReceivedEverything(ps[0].done, ps[0].total) {
        l := i;
        assert Unfinished(ps) == rest;
      } else {
        l := i + 1;
        assert Unfinished(ps) == [ps[0]] + rest;
        assert ([ps[0]] + rest)[..l] == [ps[0]] + rest[..i];
      }
    }
  }

  /** A fetch hands the blob over, when it is complete, or leaves it as it was. */
  lemma {:induction false} FetchTracks(w: World, ps: seq<Pending>, key: Key, live: Live, got: iset<int>, own: bool,
                                       rivals: bool)
    requires LiveAlone(w, key, live) && AllGood(w, ps) && Tracked(ps, key, live, got, own, rivals)
    ensures (exists h :: h in Finished(ps) && IsHandover(h, key, own)) ||
            Tracked(Unfinished(ps), key, live, got, own, rivals)
    ensures (forall x :: 0 <= x < |live.blob| ==> x in got) ==> exists h :: h in Finished(ps) && IsHandover(h, key, own)
  {
    var probe := Probe(key, live);
    FetchPartitions(ps);
    if NoneKnown(ps, probe) {
      forall j | 0 <= j < |Unfinished(ps)|
        ensures Unfinished(ps)[j].source != probe.source || Unfinished(ps)[j].sourceBlob != probe.sourceBlob
      {
        assert Unfinished(ps)[j] in ps;
      }
      if own {
        var p :| p in ps && Expects(p, key, rivals);
        assert p in Unfinished(ps);
      }
      assert 0 !in got;
    } else {
      var k: nat :| TrackedAt(ps, key, live, got, own, k);
      KnownIsIt(w, ps, key, live, k);
      CompleteIff(w, ps[k]);
      if ReceivedEverything(ps[k].done, ps[k].total) {
        assert ps[k] in ps;
        assert HandoverOf(ps[k]) in Finished(ps) && IsHandover(HandoverOf(ps[k]), key, own);
      } else {
        var l := UnfinishedTracked(ps, probe, k);
        assert TrackedAt(Unfinished(ps), key, live, got, own, l);
      }
    }
  }

  // Whole runs ---------------------------------------------------------------------------

  /** The byte has come in a fragment of the blob since event `from`. */
  ghost predicate Arrived(evs: seq<Event>, from: nat, key: Key, x: int) {
    exists i :: from <= i < |evs| && evs[i].Incoming? && Brings(evs[i].m, key, x)
  }

  ghost function ArrivedSet(evs: seq<Event>, from: nat, key: Key): iset<int> {
    iset x: int | Arrived(evs, from, key, x)
  }

  ghost predicate Rivals(evs: seq<Event>, from: nat, key: Key) {
    exists i :: from <= i < |evs| && evs[i].Incoming? && Rival(evs[i].m, key)
  }

  ghost predicate NoDrop(evs: seq<Event>, from: nat) { forall i :: from <= i < |evs| ==> !evs[i].Drop? }

  ghost predicate StaysLive(worlds: seq<World>, from: nat, key: Key, live: Live) {
    forall i :: from <= i < |worlds| ==> LiveAlone(worlds[i], key, live)
  }

  /** It was handed over since event `from`, whole, and if asked for to the caller's own sink. */
  ghost predicate HandedSince(evs: seq<Event>, from: nat, key: Key, live: Live, own: bool)
    requires from <= |evs|
  {
    exists i :: HandedAt(evs, from, key, live, own, i)
  }

  ghost predicate HandedAt(evs: seq<Event>, from: nat, key: Key, live: Live, own: bool, i: int)
    requires from <= |evs|
  {
    && |Run(evs[..from]).1| <= i < |Run(evs).1|
    && IsHandover(Run(evs).1[i], key, own) && IsWhole(Run(evs).1[i].target, live.blob)
  }

  ghost predicate IsWhole(t: Target, blob: Bytes) {
    match t
    case BufferTarget(bytes) => bytes == blob
    case CallerTarget(calls) => ChunkSink.Delivers(calls, blob)
  }

  lemma ArrivedNext(evs: seq<Event>, from: nat, key: Key)
    requires |evs| > from
    ensures var n := |evs| - 1;
            ArrivedSet(evs, from, key) ==
            ArrivedSet(evs[..n], from, key) + if evs[n].Incoming? then Brought(evs[n].m, key) else iset{}
  {
    var n := |evs| - 1;
    forall x
      ensures Arrived(evs, from, key, x) <==>
              Arrived(evs[..n], from, key, x) || (evs[n].Incoming? && Brings(evs[n].m, key, x))
    {
      if Arrived(evs[..n], from, key, x) {
        var i :| from <= i < n && evs[..n][i].Incoming? && Brings(evs[..n][i].m, key, x);
        assert evs[i].Incoming? && Brings(evs[i].m, key, x);
      }
      if Arrived(evs, from, key, x) {
        var i :| from <= i < |evs| && evs[i].Incoming? && Brings(evs[i].m, key, x);
        assert i < n ==> evs[..n][i] == evs[i];
      }
    }
  }

  lemma FewerRivals(evs: seq<Event>, from: nat, key: Key)
    requires |evs| > from
    ensures Rivals(evs[..|evs| - 1], from, key) ==> Rivals(evs, from, key)
  {
    var n := |evs| - 1;
    if Rivals(evs[..n], from, key) {
      var i :| from <= i < n && evs[..n][i].Incoming? && Rival(evs[..n][i].m, key);
      assert evs[i].Incoming? && Rival(evs[i].m, key);
    }
  }

  /** What was handed over stays so. */
  lemma HandedStays(evs: seq<Event>, from: nat, key: Key, live: Live, own: bool)
    requires |evs| > from && HandedSince(evs[..|evs| - 1], from, key, live, own)
    ensures HandedSince(evs, from, key, live, own)
  {
    var n := |evs| - 1;
    var i :| HandedAt(evs[..n], from, key, live, own, i);
    assert evs[..n][..from] == evs[..from];
    assert Run(evs[..n]).1 <= Run(evs).1;
    assert HandedAt(evs, from, key, live, own, i);
  }

  lemma {:induction false} HandedGrows(evs: seq<Event>, from: nat)
    requires from <= |evs|
    ensures Run(evs[..from]).1 <= Run(evs).1
    decreases |evs|
  {
    if from < |evs| {
      assert evs[..|evs| - 1][..from] == evs[..from];
      HandedGrows(evs[..|evs| - 1], from);
    } else {
      assert evs[..from] == evs;
    }
  }

  /** A fetch that hands it over. */
  lemma {:induction false} FetchHands(w: World, evs: seq<Event>, from: nat, key: Key, live: Live, own: bool,
                                      h: Handover)
    requires from <= |evs| && AllGood(w, Run(evs).0) && LiveAlone(w, key, live)
    requires h in Finished(Run(evs).0) && IsHandover(h, key, own)
    ensures HandedSince(evs + [Fetch], from, key, live, own)
  {
    var more := evs + [Fetch];
    RunOneMore(evs, Fetch);
    FetchKeepsGood(w, Run(evs).0);
    assert GoodHandover(w, h);
    HandedGrows(evs, from);
    assert more[..from] == evs[..from];
    var j :| 0 <= j < |Finished(Run(evs).0)| && Finished(Run(evs).0)[j] == h;
    assert Run(more).1[|Run(evs).1| + j] == h;
    assert HandedAt(more, from, key, live, own, |Run(evs).1| + j);
  }

  lemma EmptyBringsNothing(w: World, m: Message, key: Key)
    requires Genuine(w, m) && !InBounds(m)
    ensures Brought(m, key) == iset{}
  {
  }

  lemma GoodIsSeparated(w: World, ps: seq<Pending>)
    requires AllGood(w, ps)
    ensures AllSeparated(ps)
  {
    forall i | 0 <= i < |ps| ensures Separated(ps[i].done) { assert GoodPending(w, ps[i]); }
  }

  /** A fragment of any live blob. */
  lemma {:induction false} IncomingTracks(w: World, s: (seq<Pending>, seq<Handover>), m: Message, key: Key, live: Live,
                                          got: iset<int>, own: bool, rivals: bool)
    requires LiveAlone(w, key, live) && AllGood(w, s.0) && Genuine(w, m) && (Rival(m, key) ==> rivals)
    requires Tracked(s.0, key, live, got, own, rivals) && Fits(live, own)
    ensures Tracked(Step(s, Incoming(m)).0, key, live, got + Brought(m, key), own, rivals)
  {
    GoodIsSeparated(w, s.0);
    if !InBounds(m) {
      EmptyBringsNothing(w, m, key);
      assert got + iset{} == got;
    } else {
      PushedTakes(s.0, m);
      if KeyOf(m) == key {
        OwnReaches(w, s.0, Pushed(s.0, m), m, key, live, got, own, rivals);
      } else {
        OthersLeaveIt(w, s.0, Pushed(s.0, m), m, key, live, got, own, rivals);
        assert got + Brought(m, key) == got;
      }
    }
  }

  lemma {:induction false} ExpectTracks(s: (seq<Pending>, seq<Handover>), ev: Event, key: Key, live: Live,
                                        got: iset<int>, own: bool, rivals: bool)
    requires ev.Expect? && live.sourceBlob != 0 && Tracked(s.0, key, live, got, own, rivals)
    ensures Tracked(Step(s, ev).0, key, live, got, own, rivals)
  {
    var q := Pending(ev.msgId, ev.source, 0, ev.targetBlob, 0, [], CallerTarget([]));
    AddedStaysTracked(s.0, q, key, live, got, own, rivals);
  }

  lemma ReplacedFed(worlds: seq<World>, evs: seq<Event>)
    requires Fed(worlds, evs) && evs != []
    ensures var n := |evs| - 1;
            && |worlds| == n + 2 && Fed(worlds[..n + 1], evs[..n]) && worlds[..n + 1][n] == worlds[n]
            && (evs[n].Incoming? ==> Genuine(worlds[n], evs[n].m))
  {
  }

  /** As long as nothing is dropped, the blob was handed over or is tracked. */
  lemma {:induction false} RunTracks(worlds: seq<World>, evs: seq<Event>, from: nat, key: Key, live: Live, own: bool,
                                     rivals: bool)
    requires Fed(worlds, evs) && from <= |evs| && StaysLive(worlds, from, key, live) && NoDrop(evs, from)
    requires (Rivals(evs, from, key) ==> rivals) && Fits(live, own)
    requires Tracked(Run(evs[..from]).0, key, live, iset{}, own, rivals)
    ensures HandedSince(evs, from, key, live, own) ||
            Tracked(Run(evs).0, key, live, ArrivedSet(evs, from, key), own, rivals)
    decreases |evs|
  {
    if |evs| == from {
      assert evs[..from] == evs;
      assert ArrivedSet(evs, from, key) == iset{};
    } else {
      var n := |evs| - 1;
      ReplacedFed(worlds, evs);
      FewerRivals(evs, from, key);
      assert evs[..n][..from] == evs[..from];
      RunTracks(worlds[..n + 1], evs[..n], from, key, live, own, rivals);
      if HandedSince(evs[..n], from, key, live, own) {
        HandedStays(evs, from, key, live, own);
      } else {
        LastEventTracks(worlds, evs, from, key, live, own, rivals);
      }
    }
  }

  lemma {:induction false} LastEventTracks(worlds: seq<World>, evs: seq<Event>, from: nat, key: Key, live: Live,
                                           own: bool, rivals: bool)
    requires Fed(worlds, evs) && from < |evs| && StaysLive(worlds, from, key, live) && NoDrop(evs, from)
    requires (Rivals(evs, from, key) ==> rivals) && Fits(live, own)
    requires Tracked(Run(evs[..|evs| - 1]).0, key, live, ArrivedSet(evs[..|evs| - 1], from, key), own, rivals)
    ensures HandedSince(evs, from, key, live, own) ||
            Tracked(Run(evs).0, key, live, ArrivedSet(evs, from, key), own, rivals)
  {
    var n := |evs| - 1;
    var w, s, ev, got := worlds[n], Run(evs[..n]), evs[n], ArrivedSet(evs[..n], from, key);
    ReplacedFed(worlds, evs);
    ManipulatorIsSafe(worlds[..n + 1], evs[..n]);
    ArrivedNext(evs, from, key);
    assert LiveAlone(w, key, live);
    match ev
    case Incoming(m) =>
      assert Rival(m, key) ==> Rivals(evs, from, key);
      IncomingTracks(w, s, m, key, live, got, own, rivals);
    case Expect(_, _, _) =>
      ExpectTracks(s, ev, key, live, got, own, rivals);
      assert got + iset{} == got;
    case Fetch =>
      FetchTracks(w, s.0, key, live, got, own, rivals);
      assert got + iset{} == got;
      if h :| h in Finished(s.0) && IsHandover(h, key, own) {
        FetchHands(w, evs[..n], from, key, live, own, h);
        assert evs[..n] + [Fetch] == evs;
      }
    case Drop(_) => assert false;
  }

  /** Once all of it has come, the next fetch hands it over, if none did before. */
  lemma {:induction false} TrackedIsHanded(worlds: seq<World>, evs: seq<Event>, from: nat, key: Key, live: Live,
                                           own: bool, rivals: bool)
    requires Fed(worlds, evs) && from <= |evs| && StaysLive(worlds, from, key, live) && NoDrop(evs, from)
    requires (Rivals(evs, from, key) ==> rivals) && Fits(live, own)
    requires Tracked(Run(evs[..from]).0, key, live, iset{}, own, rivals)
    requires forall x :: 0 <= x < |live.blob| ==> Arrived(evs, from, key, x)
    ensures HandedSince(evs + [Fetch], from, key, live, own)
  {
    RunTracks(worlds, evs, from, key, live, own, rivals);
    var more := evs + [Fetch];
    assert more[..|more| - 1] == evs;
    if HandedSince(evs, from, key, live, own) {
      HandedStays(more, from, key, live, own);
    } else {
      var w := worlds[|evs|];
      ManipulatorIsSafe(worlds, evs);
      FetchTracks(w, Run(evs).0, key, live, ArrivedSet(evs, from, key), own, rivals);
      var h :| h in Finished(Run(evs).0) && IsHandover(h, key, own);
      FetchHands(w, evs, from, key, live, own, h);
    }
  }

  /**
   Progress: when since some event every byte of a live blob below the size limit came in fragments, and nothing was
   dropped since, then after the next fetch it has been handed over, whole.
   */
  lemma {:induction false} ReceivedIsHandedOver(worlds: seq<World>, evs: seq<Event>, from: nat, key: Key, live: Live)
    requires Fed(worlds, evs) && from <= |evs| && StaysLive(worlds, from, key, live) && NoDrop(evs, from)
    requires |live.blob| < MAX_BLOB_SIZE
    requires forall x :: 0 <= x < |live.blob| ==> Arrived(evs, from, key, x)
    ensures HandedSince(evs + [Fetch], from, key, live, false)
  {
    FedBefore(worlds, evs, from);
    ManipulatorIsSafe(worlds[..from + 1], evs[..from]);
    StartTracked(worlds[from], Run(evs[..from]).0, key, live);
    TrackedIsHanded(worlds, evs, from, key, live, false, true);
  }

  lemma {:induction false} FedBefore(worlds: seq<World>, evs: seq<Event>, from: nat)
    requires Fed(worlds, evs) && from <= |evs|
    ensures |worlds| == |evs| + 1 && Fed(worlds[..from + 1], evs[..from])
    decreases |evs|
  {
    if from < |evs| {
      var n := |evs| - 1;
      FedBefore(worlds[..n + 1], evs[..n], from);
      assert worlds[..n + 1][..from + 1] == worlds[..from + 1] && evs[..n][..from] == evs[..from];
    } else {
      assert worlds[..from + 1] == worlds && evs[..from] == evs;
    }
  }

  lemma StartTracked(w: World, ps: seq<Pending>, key: Key, live: Live)
    requires AllGood(w, ps) && LiveAlone(w, key, live)
    ensures Tracked(ps, key, live, iset{}, false, true)
  {
    var probe := Probe(key, live);
    if !NoneKnown(ps, probe) {
      var k := FirstKnown(ps, probe);
      KnownIsIt(w, ps, key, live, k);
      assert TrackedAt(ps, key, live, iset{}, false, k);
    }
  }

  /** From the announcement on it is tracked, with the sink of its receiver. */
  lemma ExpectStarts(s: (seq<Pending>, seq<Handover>), key: Key, live: Live, source: nat, rivals: bool)
    requires NoneKnown(s.0, Probe(key, live)) && live.sourceBlob != 0
    requires source == key.source || (source == BROADCAST && !rivals)
    ensures Tracked(Step(s, Expect(key.msgId, source, key.targetBlob)).0, key, live, iset{}, true, rivals)
  {
    var p := Pending(key.msgId, source, 0, key.targetBlob, 0, [], CallerTarget([]));
    assert p in s.0 + [p] && Expects(p, key, rivals);
  }

  /**
   And it goes to the sink its receiver announced it with, whatever its size: announced for its
   source, or for any source while no other one sends under the same ids, before anything of it
   was received.
   */
  lemma {:induction false} ExpectedIsDelivered(worlds: seq<World>, evs: seq<Event>, from: nat, key: Key, live: Live,
                                               source: nat)
    requires Fed(worlds, evs) && 0 < from <= |evs| && StaysLive(worlds, from - 1, key, live) && NoDrop(evs, from)
    requires evs[from - 1] == Expect(key.msgId, source, key.targetBlob)
    requires NoneKnown(Run(evs[..from - 1]).0, Probe(key, live))
    requires source == key.source || (source == BROADCAST && !Rivals(evs, from, key))
    requires forall x :: 0 <= x < |live.blob| ==> Arrived(evs, from, key, x)
    ensures HandedSince(evs + [Fetch], from, key, live, true)
  {
    var before := evs[..from - 1];
    assert evs[..from] == before + [evs[from - 1]];
    RunOneMore(before, evs[from - 1]);
    var rivals := Rivals(evs, from, key);
    assert LiveAlone(worlds[from - 1], key, live);
    ExpectStarts(Run(before), key, live, source, rivals);
    TrackedIsHanded(worlds, evs, from, key, live, true, rivals);
  }

  /** Every non-empty piece of a live blob is let in, and its bytes end up in the blob with its ids. */
  lemma {:induction false} PieceIsDelivered(w: World, ps: seq<Pending>, m: Message) returns (k: nat)
    requires AllGood(w, ps) && AllSeparated(ps) && Genuine(w, m) && m.data != []
    requires LiveAlone(w, KeyOf(m), w[KeyOf(m)]) && m.total < MAX_BLOB_SIZE
    ensures InBounds(m) && KnownAt(Pushed(ps, m), m, k)
    ensures forall x :: m.offset <= x < m.offset + |m.data| ==> Covers(Pushed(ps, m)[k].done, x)
  {
    var key, live := KeyOf(m), w[KeyOf(m)];
    StartTracked(w, ps, key, live);
    IncomingTracks(w, (ps, []), m, key, live, iset{}, false, true);
    var got := iset{} + Brought(m, key);
    assert m.offset in got by { assert Brings(m, key, m.offset); }
    k :| TrackedAt(Pushed(ps, m), key, live, got, false, k);
    forall x | m.offset <= x < m.offset + |m.data| ensures Covers(Pushed(ps, m)[k].done, x) {
      assert Brings(m, key, x) && x in got;
    }
  }
}
