/**
 The receiving half of the blob manipulator: many pending blobs at once, found by the ids
 in the fragment header. Every run of header contents is considered.
 */
module BlobManipulators {
  import opened Basics
  import opened Intervals
  import opened MergeSpec
  import opened TransferSpec
  import opened Arrivals
  import ChunkSink

  const BROADCAST: nat := 0

  /** A buffer made for the blob, or the caller's own sink, of which we see the calls. */
  datatype Target = BufferTarget(bytes: Bytes) | CallerTarget(calls: seq<Call>)

  datatype Pending = Pending(
    msgId: int, source: nat, sourceBlob: nat, targetBlob: nat, total: nat, done: Parts, target: Target)

  /** A fragment message: header fields and data. */
  datatype Message = Message(
    msgId: int, source: nat, sourceBlob: nat, targetBlob: nat, offset: int, total: int, data: Bytes)

  /** What completion passes on: the buffer, or the finished signal to the caller's sink. */
  datatype Handover = Handover(msgId: int, source: nat, targetBlob: nat, target: Target)

  predicate SameSource(p: Pending, m: Message) { p.source == m.source && p.sourceBlob == m.sourceBlob }

  predicate SameTarget(p: Pending, m: Message) {
    p.msgId == m.msgId && p.targetBlob == m.targetBlob && (p.source == m.source || p.source == BROADCAST)
  }

  function FindSource(ps: seq<Pending>, m: Message): (i: nat)
    ensures i <= |ps| && (i < |ps| ==> SameSource(ps[i], m))
    ensures forall j :: 0 <= j < i ==> !SameSource(ps[j], m)
  {
    if ps == [] || SameSource(ps[0], m) then 0 else 1 + FindSource(ps[1..], m)
  }

  function FindTarget(ps: seq<Pending>, m: Message): (i: nat)
    ensures i <= |ps| && (i < |ps| ==> SameTarget(ps[i], m))
    ensures forall j :: 0 <= j < i ==> !SameTarget(ps[j], m)
  {
    if ps == [] || SameTarget(ps[0], m) then 0 else 1 + FindTarget(ps[1..], m)
  }

  function CallTarget(t: Target, calls: seq<Call>): Target {
    match t
    case BufferTarget(bytes) => BufferTarget(RunCalls(bytes, calls).0)
    case CallerTarget(seen) => CallerTarget(seen + calls)
  }

  function Merge(p: Pending, offset: nat, data: Bytes): Pending
    requires Separated(p.done)
  {
    p.(done := Insert(p.done, offset, offset + |data|),
       target := CallTarget(p.target, MergeCalls(p.done, offset, data)))
  }

  /** An expected blob takes over the ids and the total size of the fragment. */
  function Rebind(p: Pending, m: Message): Pending
    requires m.total >= 0
  {
    p.(source := if p.source == BROADCAST then m.source else p.source, sourceBlob := m.sourceBlob, total := m.total)
  }

  /** A fragment for a pending blob is merged unless total size or message id disagree. */
  function Accept(p: Pending, m: Message): Pending
    requires Separated(p.done) && m.offset >= 0 && m.total >= 0
  {
    if (p.total != 0 && p.total != m.total) || p.msgId != m.msgId then p
    else Merge(p.(total := Max(p.total, m.total)), m.offset, m.data)
  }

  /** A pending blob made for a fragment of a blob not seen before. */
  function Unseen(m: Message): Pending
    requires m.total >= 0
  {
    Pending(m.msgId, m.source, m.sourceBlob, m.targetBlob, m.total, [], BufferTarget(seq(m.total, _ => 0)))
  }

  ghost predicate AllSeparated(ps: seq<Pending>) { forall i :: 0 <= i < |ps| ==> Separated(ps[i].done) }

  predicate InBounds(m: Message) { 0 <= m.offset < m.total && |m.data| <= m.total - m.offset }

  /** Offset and total size are numbers of bytes; `InBounds` says how they must fit the data. */
  predicate Sized(m: Message) { m.offset >= 0 && m.total >= 0 }

  /** The pending blobs after a fragment. */
  function Pushed(ps: seq<Pending>, m: Message): seq<Pending>
    requires AllSeparated(ps) && Sized(m)
  {
    var i, j := FindSource(ps, m), FindTarget(ps, m);
    if i < |ps| then ps[i := Accept(ps[i], m)]
    else if j < |ps| then ps[j := Accept(Rebind(ps[j], m), m)]
    else if m.source != BROADCAST && m.total < MAX_BLOB_SIZE then
      ps + [Merge(Unseen(m), m.offset, m.data)]
    else ps
  }

  // What a fragment does, without the functions above ------------------------------------

  /** The calls carry only bytes of the fragment, and store each one not held before. */
  ghost predicate Relays(calls: seq<Call>, done: Parts, b: nat, data: Bytes) {
    && FaithfulCalls(calls, done, b, data)
    && forall x :: b <= x < b + |data| && !Covers(done, x) ==> StoresByte(calls, x)
  }

  /** The bytes outside the fragment are the old ones, those inside not held before the fragment's. */
  ghost predicate Wrote(before: Bytes, after: Bytes, done: Parts, b: nat, data: Bytes) {
    && |after| == |before|
    && (b + |data| <= |before| ==>
          forall x :: 0 <= x < |before| ==>
            if b <= x < b + |data| then after[x] == data[x - b] || (Covers(done, x) && after[x] == before[x])
            else after[x] == before[x])
  }

  /** The blob took in the fragment's bytes: so says its done list, and its own target got them. */
  ghost predicate TookIn(p: Pending, q: Pending, b: nat, data: Bytes) {
    && (forall x :: Covers(q.done, x) <==> Covers(p.done, x) || b <= x < b + |data|)
    && match p.target
       case BufferTarget(bytes) => q.target.BufferTarget? && Wrote(bytes, q.target.bytes, p.done, b, data)
       case CallerTarget(seen) =>
         q.target.CallerTarget? && seen <= q.target.calls && Relays(q.target.calls[|seen|..], p.done, b, data)
  }

  /** No pending blob has the fragment's source ids. */
  ghost predicate NoneKnown(ps: seq<Pending>, m: Message) {
    forall j :: 0 <= j < |ps| ==> ps[j].source != m.source || ps[j].sourceBlob != m.sourceBlob
  }

  /** The first pending blob with the fragment's source ids. */
  ghost predicate KnownAt(ps: seq<Pending>, m: Message, k: nat) {
    k < |ps| && ps[k].source == m.source && ps[k].sourceBlob == m.sourceBlob && NoneKnown(ps[..k], m)
  }

  /** Expected under the fragment's message id and target blob id, from its source or from anyone. */
  ghost predicate Awaits(p: Pending, m: Message) {
    p.msgId == m.msgId && p.targetBlob == m.targetBlob && (p.source == m.source || p.source == 0)
  }

  ghost predicate NoneAwaits(ps: seq<Pending>, m: Message) { forall j :: 0 <= j < |ps| ==> !Awaits(ps[j], m) }

  /** The first such pending blob, when none is known by the source ids. */
  ghost predicate ExpectedAt(ps: seq<Pending>, m: Message, k: nat) {
    NoneKnown(ps, m) && k < |ps| && Awaits(ps[k], m) && NoneAwaits(ps[..k], m)
  }

  ghost predicate OnlyAt(ps: seq<Pending>, qs: seq<Pending>, k: nat) {
    |qs| == |ps| && forall j :: 0 <= j < |ps| && j != k ==> qs[j] == ps[j]
  }

  /** A known blob takes the fragment in when message id and total size agree. */
  ghost predicate KnownTakes(p: Pending, q: Pending, m: Message)
    requires Sized(m)
  {
    if p.msgId == m.msgId && (p.total == 0 || p.total == m.total) then
      q == p.(total := m.total, done := q.done, target := q.target) && TookIn(p, q, m.offset, m.data)
    else q == p
  }

  /** An expected blob takes over the fragment's ids and total size and keeps the target it was given. */
  ghost predicate ExpectedTakes(p: Pending, q: Pending, m: Message)
    requires Sized(m)
  {
    && q == Pending(p.msgId, m.source, m.sourceBlob, p.targetBlob, m.total, q.done, q.target)
    && TookIn(p, q, m.offset, m.data)
  }

  /** A blob not seen before gets a buffer of its size, unless it is too big or from no one. */
  ghost predicate NewTakes(ps: seq<Pending>, qs: seq<Pending>, m: Message)
    requires Sized(m)
  {
    if m.source == 0 || m.total >= 0x800_0000 then qs == ps
    else
      && |qs| == |ps| + 1 && qs[..|ps|] == ps
      && var q := qs[|ps|];
         && q == Pending(m.msgId, m.source, m.sourceBlob, m.targetBlob, m.total, q.done, q.target)
         && TookIn(q.(done := [], target := BufferTarget(seq(m.total, _ => 0))), q, m.offset, m.data)
  }

  ghost predicate TakesFragment(ps: seq<Pending>, qs: seq<Pending>, m: Message)
    requires Sized(m)
  {
    && (forall k: nat :: KnownAt(ps, m, k) ==> OnlyAt(ps, qs, k) && KnownTakes(ps[k], qs[k], m))
    && (forall k: nat :: ExpectedAt(ps, m, k) ==> OnlyAt(ps, qs, k) && ExpectedTakes(ps[k], qs[k], m))
    && (NoneKnown(ps, m) && NoneAwaits(ps, m) ==> NewTakes(ps, qs, m))
  }

  lemma MergeTakesIn(p: Pending, offset: nat, data: Bytes)
    requires Separated(p.done)
    ensures TookIn(p, Merge(p, offset, data), offset, data)
  {
    forall x ensures Covers(Merge(p, offset, data).done, x) <==> Covers(p.done, x) || offset <= x < offset + |data| {
      InsertCovers(p.done, offset, offset + |data|, x);
    }
    var calls := MergeCalls(p.done, offset, data);
    match p.target
    case BufferTarget(bytes) => BufferTakesIn(p.done, bytes, offset, data);
    case CallerTarget(seen) =>
      MergeCallsFaithful(p.done, offset, data);
      assert (seen + calls)[|seen|..] == calls;
  }

  lemma BufferTakesIn(done: Parts, bytes: Bytes, offset: nat, data: Bytes)
    requires Separated(done)
    ensures Wrote(bytes, RunCalls(bytes, MergeCalls(done, offset, data)).0, done, offset, data)
  {
    StoreKeepsSize(bytes, MergeCalls(done, offset, data));
    if offset + |data| <= |bytes| {
      MergeRunsOnBuffer(done, offset, data, bytes);
      MergedIsWritten(done, bytes, offset, data, MergedBuffer(bytes, done, offset, data));
    }
  }

  lemma MergedIsWritten(done: Parts, bytes: Bytes, offset: nat, data: Bytes, after: Bytes)
    requires offset + |data| <= |bytes| && after == MergedBuffer(bytes, done, offset, data)
    ensures Wrote(bytes, after, done, offset, data)
  {
    TouchedIsCovered(done, offset, offset + |data|);
  }

  lemma TouchedIsCovered(ps: Parts, b: nat, e: nat)
    ensures forall x :: InFirstTouched(ps, b, e, x) ==> Covers(ps, x)
  {
    forall x | InFirstTouched(ps, b, e, x) ensures Covers(ps, x) { assert Within(ps[EndingBefore(ps, b)], x); }
  }

  /** The two lookups find what they should, or nothing. */
  lemma LookupsFind(ps: seq<Pending>, m: Message)
    ensures var i := FindSource(ps, m); if i < |ps| then KnownAt(ps, m, i) else NoneKnown(ps, m)
    ensures var j := FindTarget(ps, m);
            if j < |ps| then Awaits(ps[j], m) && NoneAwaits(ps[..j], m) else NoneAwaits(ps, m)
  {
    var i, j := FindSource(ps, m), FindTarget(ps, m);
    assert forall k :: 0 <= k < i ==> !SameSource(ps[k], m);
    assert forall k :: 0 <= k < |ps| ==> (SameTarget(ps[k], m) <==> Awaits(ps[k], m));
  }

  lemma FirstIsOne(ps: seq<Pending>, m: Message, k: nat, l: nat)
    requires k < |ps| && l < |ps|
    ensures KnownAt(ps, m, k) && KnownAt(ps, m, l) ==> k == l
    ensures Awaits(ps[k], m) && NoneAwaits(ps[..k], m) && Awaits(ps[l], m) && NoneAwaits(ps[..l], m) ==> k == l
  {
    assert k < l ==> ps[..l][k] == ps[k];
    assert l < k ==> ps[..k][l] == ps[l];
  }

  lemma {:induction false} PushedTakes(ps: seq<Pending>, m: Message)
    requires AllSeparated(ps) && Sized(m)
    ensures TakesFragment(ps, Pushed(ps, m), m)
  {
    var i, j, offset: nat, qs := FindSource(ps, m), FindTarget(ps, m), m.offset, Pushed(ps, m);
    LookupsFind(ps, m);
    if i < |ps| {
      KnownIsTaken(ps, m, i);
      forall k: nat | KnownAt(ps, m, k) ensures k == i { FirstIsOne(ps, m, k, i); }
    } else if j < |ps| {
      MergeTakesIn(Rebind(ps[j], m), offset, m.data);
      forall k: nat | ExpectedAt(ps, m, k) ensures k == j { FirstIsOne(ps, m, k, j); }
    } else if m.source != BROADCAST && m.total < MAX_BLOB_SIZE {
      MergeTakesIn(Unseen(m), offset, m.data);
    }
  }

  lemma KnownIsTaken(ps: seq<Pending>, m: Message, i: nat)
    requires AllSeparated(ps) && Sized(m) && i < |ps|
    ensures KnownTakes(ps[i], Accept(ps[i], m), m)
  {
    MergeTakesIn(ps[i].(total := Max(ps[i].total, m.total)), m.offset, m.data);
  }

  function Unfinished(ps: seq<Pending>): seq<Pending> {
    if ps == [] then []
    else (if ReceivedEverything(ps[0].done, ps[0].total) then [] else [ps[0]]) + Unfinished(ps[1..])
  }

  function HandoverOf(p: Pending): Handover { Handover(p.msgId, p.source, p.targetBlob, p.target) }

  function Finished(ps: seq<Pending>): seq<Handover> {
    if ps == [] then []
    else (if ReceivedEverything(ps[0].done, ps[0].total) then [HandoverOf(ps[0])] else []) + Finished(ps[1..])
  }

  /** Every pending blob is kept or handed over, exactly once: kept if incomplete, else handed over. */
  lemma {:induction false} FetchPartitions(ps: seq<Pending>)
    ensures |Unfinished(ps)| + |Finished(ps)| == |ps|
    ensures forall p :: p in Unfinished(ps) <==> p in ps && !ReceivedEverything(p.done, p.total)
    ensures forall p :: p in ps && ReceivedEverything(p.done, p.total) ==> HandoverOf(p) in Finished(ps)
    ensures forall h :: h in Finished(ps) ==>
              exists p :: p in ps && ReceivedEverything(p.done, p.total) && h == HandoverOf(p)
    decreases |ps|
  {
    if ps != [] {
      FetchPartitions(ps[1..]);
      assert forall p :: p in ps <==> p == ps[0] || p in ps[1..];
    }
  }

  lemma {:induction false} FetchCounts(ps: seq<Pending>)
    requires AllSeparated(ps)
    ensures |Unfinished(ps)| + |Finished(ps)| == |ps| && AllSeparated(Unfinished(ps))
    decreases |ps|
  {
    if ps != [] { FetchCounts(ps[1..]); }
  }

  class BlobManipulator {
    var incoming: seq<Pending>
    var handed: seq<Handover>

    ghost predicate Valid() reads this { AllSeparated(incoming) }

    constructor ()
      ensures Valid() && incoming == [] && handed == []
    {
      incoming, handed := [], [];
    }

    /** The caller announces a blob of yet unknown size for its own sink. */
    method ExpectIncoming(msgId: int, source: nat, targetBlob: nat)
      requires Valid()
      modifies this`incoming
      ensures Valid()
      ensures incoming == old(incoming) + [Pending(msgId, source, 0, targetBlob, 0, [], CallerTarget([]))]
    {
      incoming := incoming + [Pending(msgId, source, 0, targetBlob, 0, [], CallerTarget([]))];
    }

    method ProcessIncoming(m: Message) returns (ok: bool)
      requires Valid()
      modifies this`incoming
      ensures Valid()
      ensures ok == InBounds(m)
      ensures ok <==> 0 <= m.offset < m.total && m.offset + |m.data| <= m.total
      ensures incoming == if ok then Pushed(old(incoming), m) else old(incoming)
      ensures ok ==> TakesFragment(old(incoming), incoming, m)
    {
      ok := false;
      if m.offset >= 0 && m.offset < m.total {
        var maxFragSize := m.total - m.offset;
        if |m.data| <= maxFragSize {
          PushIncomingFragment(m);
          ok := true;
        }
      }
    }

    method PushIncomingFragment(m: Message)
      requires Valid() && Sized(m)
      modifies this`incoming
      ensures Valid()
      ensures incoming == Pushed(old(incoming), m) && TakesFragment(old(incoming), incoming, m)
    {
      PushedSeparated(incoming, m);
      PushedTakes(incoming, m);
      var pos := FindSource(incoming, m);
      if pos == |incoming| {
        pos := FindTarget(incoming, m);
        if pos != |incoming| {
          if incoming[pos].source == BROADCAST {
            incoming := incoming[pos := incoming[pos].(source := m.source)];
          }
          incoming := incoming[pos := incoming[pos].(sourceBlob := m.sourceBlob, total := m.total)];
          assert incoming == old(incoming)[pos := Rebind(old(incoming)[pos], m)];
        }
      }
      if pos != |incoming| {
        var pending := incoming[pos];
        if !(pending.total != 0 && pending.total != m.total) {
          if pending.msgId == m.msgId {
            pending := pending.(total := Max(pending.total, m.total));
            incoming := incoming[pos := Merge(pending, m.offset, m.data)];
          }
        }
      } else if m.source != BROADCAST {
        if m.total < MAX_BLOB_SIZE {
          var io := BufferTarget(seq(m.total, _ => 0));
          var pending := Pending(m.msgId, m.source, m.sourceBlob, m.targetBlob, m.total, [], io);
          incoming := incoming + [Merge(pending, m.offset, m.data)];
        }
      }
      assert incoming == Pushed(old(incoming), m);
    }

    method CancelIncoming(targetBlob: nat) returns (found: bool)
      requires Valid()
      modifies this`incoming
      ensures Valid()
      ensures found <==> exists i :: 0 <= i < |old(incoming)| && old(incoming)[i].targetBlob == targetBlob
      ensures if found then exists k :: 0 <= k < |old(incoming)| && old(incoming)[k].targetBlob == targetBlob
                              && (forall j :: 0 <= j < k ==> old(incoming)[j].targetBlob != targetBlob)
                              && incoming == old(incoming)[..k] + old(incoming)[k + 1..]
              else incoming == old(incoming)
    {
      var pos := 0;
      while pos < |incoming| && incoming[pos].targetBlob != targetBlob
        invariant 0 <= pos <= |incoming| && incoming == old(incoming)
        invariant forall j :: 0 <= j < pos ==> incoming[j].targetBlob != targetBlob
      {
        pos := pos + 1;
      }
      found := pos != |incoming|;
      if found {
        incoming := incoming[..pos] + incoming[pos + 1..];
      }
    }

    /** Hands over and removes every complete blob. */
    method FetchAll() returns (count: nat)
      requires Valid()
      modifies this
      ensures Valid()
      ensures incoming == Unfinished(old(incoming)) && handed == old(handed) + Finished(old(incoming))
      ensures count == |Finished(old(incoming))|
    {
      var kept: seq<Pending>, done: seq<Handover> := [], [];
      for i := 0 to |incoming|
        invariant incoming == old(incoming) && handed == old(handed)
        invariant Unfinished(incoming) == kept + Unfinished(incoming[i..])
        invariant Finished(incoming) == done + Finished(incoming[i..])
      {
        FetchStep(incoming, i, kept, done);
        var pending := incoming[i];
        if ReceivedEverything(pending.done, pending.total) {
          done := done + [HandoverOf(pending)];
        } else {
          kept := kept + [pending];
        }
      }
      FetchEnd(incoming, incoming[|incoming|..], kept, done);
      count := |incoming| - |kept|;
      incoming, handed := kept, handed + done;
    }
  }

  lemma {:induction false} FetchEnd(ps: seq<Pending>, rest: seq<Pending>, kept: seq<Pending>, done: seq<Handover>)
    requires AllSeparated(ps) && |rest| == 0
    requires Unfinished(ps) == kept + Unfinished(rest) && Finished(ps) == done + Finished(rest)
    ensures kept == Unfinished(ps) && done == Finished(ps) && AllSeparated(kept) && |kept| + |done| == |ps|
  {
    FetchCounts(ps);
    assert Unfinished(rest) == [] && Finished(rest) == [];
  }

  lemma {:induction false} FetchStep(ps: seq<Pending>, i: nat, kept: seq<Pending>, done: seq<Handover>)
    requires i < |ps|
    requires Unfinished(ps) == kept + Unfinished(ps[i..]) && Finished(ps) == done + Finished(ps[i..])
    ensures var p := ps[i];
            var over := ReceivedEverything(p.done, p.total);
            && Unfinished(ps) == (if over then kept else kept + [p]) + Unfinished(ps[i + 1..])
            && Finished(ps) == (if over then done + [HandoverOf(p)] else done) + Finished(ps[i + 1..])
  {
    var p := ps[i];
    var over := ReceivedEverything(p.done, p.total);
    var keep, fin := if over then [] else [p], if over then [HandoverOf(p)] else [];
    assert ps[i..][1..] == ps[i + 1..];
    Regroup(Unfinished(ps), kept, Unfinished(ps[i..]), keep, Unfinished(ps[i + 1..]));
    Regroup(Finished(ps), done, Finished(ps[i..]), fin, Finished(ps[i + 1..]));
    assert kept + [] == kept && done + [] == done;
  }

  lemma {:induction false} PushedSeparated(ps: seq<Pending>, m: Message)
    requires AllSeparated(ps) && Sized(m)
    ensures AllSeparated(Pushed(ps, m))
  {
    var offset: nat := m.offset;
    InsertSeparated([], offset, offset + |m.data|);
    var i, j := FindSource(ps, m), FindTarget(ps, m);
    if i < |ps| { InsertSeparated(ps[i].done, offset, offset + |m.data|); }
    else if j < |ps| { InsertSeparated(ps[j].done, offset, offset + |m.data|); }
  }

  /**
   When a fragment changes a total size that was already known: exactly when no pending blob
   has its source ids, the blob is the first with its target ids, and the sizes differ.
   */
  lemma TotalChangesIff(ps: seq<Pending>, m: Message, k: nat)
    requires AllSeparated(ps) && Sized(m) && k < |ps| && ps[k].total != 0
    ensures |Pushed(ps, m)| >= |ps|
    ensures Pushed(ps, m)[k].total != ps[k].total <==>
            FindSource(ps, m) == |ps| && FindTarget(ps, m) == k && m.total != ps[k].total
  {
  }

  lemma BufferKeepsSize(t: Target, calls: seq<Call>)
    requires t.BufferTarget?
    ensures CallTarget(t, calls).BufferTarget? && |CallTarget(t, calls).bytes| == |t.bytes|
  {
    StoreKeepsSize(t.bytes, calls);
  }

  /** A buffer keeps its size whatever arrives, so a changed total no longer fits it. */
  lemma ResizeSpoilsBuffer(ps: seq<Pending>, m: Message, k: nat)
    requires AllSeparated(ps) && Sized(m) && k < |ps| && ps[k].target.BufferTarget?
    ensures k < |Pushed(ps, m)| && Pushed(ps, m)[k].target.BufferTarget?
    ensures |Pushed(ps, m)[k].target.bytes| == |ps[k].target.bytes|
    ensures ps[k].total == |ps[k].target.bytes| && Pushed(ps, m)[k].total != ps[k].total ==>
              Pushed(ps, m)[k].total != |Pushed(ps, m)[k].target.bytes|
  {
    BufferKeepsSize(ps[k].target, MergeCalls(ps[k].done, m.offset, m.data));
  }

  // Many blobs from many sources ---------------------------------------------------

  datatype Key = Key(msgId: int, source: nat, targetBlob: nat)

  datatype Live = Live(sourceBlob: nat, blob: Bytes)

  /** The blobs being sent: one per (message id, source, target blob id). */
  type World = map<Key, Live>

  /** Source blob ids start at 1 and tell apart the blobs of one source and message id. */
  ghost predicate GoodWorld(w: World) {
    && (forall k :: k in w ==> w[k].sourceBlob >= 1 && k.source != BROADCAST)
    && (forall k, l :: k in w && l in w && k.source == l.source && k.msgId == l.msgId ==>
          w[k].sourceBlob == w[l].sourceBlob ==> k == l)
  }

  /** The message carries a piece of a live blob. */
  ghost predicate Genuine(w: World, m: Message) {
    var k := Key(m.msgId, m.source, m.targetBlob);
    && k in w && m.sourceBlob == w[k].sourceBlob && m.total == |w[k].blob|
    && m.offset >= 0 && IsPieceOf(w[k].blob, m.offset, m.data)
  }

  ghost predicate CallsInSync(calls: seq<Call>, blob: Bytes, done: Parts) {
    && (forall i :: 0 <= i < |calls| ==> HonestCall(calls[i], blob))
    && (forall x :: Covers(done, x) ==> StoresByte(calls, x))
  }

  /** What the target got is the blob's bytes wherever `done` says so. */
  ghost predicate TargetInSync(t: Target, blob: Bytes, done: Parts) {
    match t
    case BufferTarget(bytes) => InSync(bytes, blob, done)
    case CallerTarget(calls) => CallsInSync(calls, blob, done)
  }

  ghost predicate Unbound(p: Pending) {
    p.total == 0 && p.sourceBlob == 0 && p.done == [] && p.target == CallerTarget([])
  }

  ghost predicate Bound(w: World, p: Pending) {
    var k := Key(p.msgId, p.source, p.targetBlob);
    && k in w && p.sourceBlob == w[k].sourceBlob && p.total == |w[k].blob| && p.total > 0
    && GoodDone(p.done, p.total) && p.done != []
    && TargetInSync(p.target, w[k].blob, p.done)
  }

  ghost predicate GoodPending(w: World, p: Pending) { Unbound(p) || Bound(w, p) }

  ghost predicate GoodHandover(w: World, h: Handover) {
    var k := Key(h.msgId, h.source, h.targetBlob);
    k in w &&
    match h.target
    case BufferTarget(bytes) => bytes == w[k].blob
    case CallerTarget(calls) => ChunkSink.Delivers(calls, w[k].blob)
  }

  ghost predicate AllGood(w: World, ps: seq<Pending>) { forall i :: 0 <= i < |ps| ==> GoodPending(w, ps[i]) }

  lemma CallsStayInSync(seen: seq<Call>, blob: Bytes, done: Parts, offset: nat, data: Bytes)
    requires Separated(done) && CallsInSync(seen, blob, done) && IsPieceOf(blob, offset, data)
    ensures CallsInSync(seen + MergeCalls(done, offset, data), blob, Insert(done, offset, offset + |data|))
  {
    var calls := MergeCalls(done, offset, data);
    MergeCallsFaithful(done, offset, data);
    forall i | 0 <= i < |calls| ensures HonestCall(calls[i], blob) { CarriedIsHonest(calls[i], offset, data, blob); }
    forall x | Covers(Insert(done, offset, offset + |data|), x) ensures StoresByte(seen + calls, x) {
      InsertCovers(done, offset, offset + |data|, x);
      StoresConcat(seen, calls, x);
    }
  }

  lemma TargetStaysInSync(t: Target, blob: Bytes, done: Parts, offset: nat, data: Bytes)
    requires Separated(done) && TargetInSync(t, blob, done) && IsPieceOf(blob, offset, data)
    ensures TargetInSync(CallTarget(t, MergeCalls(done, offset, data)), blob, Insert(done, offset, offset + |data|))
  {
    match t
    case BufferTarget(bytes) => MergeKeepsSync(done, offset, data, bytes, blob);
    case CallerTarget(seen) => CallsStayInSync(seen, blob, done, offset, data);
  }

  lemma MergeBinds(w: World, p: Pending, m: Message)
    requires Genuine(w, m) && p.msgId == m.msgId && p.source == m.source && p.targetBlob == m.targetBlob
    requires p.sourceBlob == m.sourceBlob && p.total == m.total > m.offset && GoodDone(p.done, p.total)
    requires TargetInSync(p.target, w[Key(m.msgId, m.source, m.targetBlob)].blob, p.done)
    ensures Bound(w, Merge(p, m.offset, m.data))
  {
    var offset: nat := m.offset;
    InsertSeparated(p.done, offset, offset + |m.data|);
    InsertBounded(p.done, offset, offset + |m.data|, p.total);
    TargetStaysInSync(p.target, w[Key(m.msgId, m.source, m.targetBlob)].blob, p.done, offset, m.data);
  }

  /** Only blobs whose ids are not yet known are found by their target ids. */
  lemma FoundByTargetIsUnbound(w: World, ps: seq<Pending>, m: Message)
    requires GoodWorld(w) && Genuine(w, m) && AllGood(w, ps)
    requires FindSource(ps, m) == |ps| && FindTarget(ps, m) < |ps|
    ensures Unbound(ps[FindTarget(ps, m)])
  {
    var p := ps[FindTarget(ps, m)];
    assert SameTarget(p, m) && !SameSource(p, m);
  }

  lemma AcceptKeepsGood(w: World, p: Pending, m: Message)
    requires GoodWorld(w) && Genuine(w, m) && InBounds(m) && SameSource(p, m) && GoodPending(w, p)
    ensures GoodPending(w, Accept(p, m))
  {
    assert Bound(w, p);
    if p.total == m.total && p.msgId == m.msgId {
      MergeBinds(w, p, m);
    }
  }

  /** A piece of a live blob keeps every pending blob good. */
  lemma PushKeepsGood(w: World, ps: seq<Pending>, m: Message)
    requires GoodWorld(w) && AllGood(w, ps) && Genuine(w, m) && InBounds(m) && AllSeparated(ps)
    ensures AllGood(w, Pushed(ps, m))
  {
    var i, j := FindSource(ps, m), FindTarget(ps, m);
    if i < |ps| {
      AcceptKeepsGood(w, ps[i], m);
    } else if j < |ps| {
      FoundByTargetIsUnbound(w, ps, m);
      MergeBinds(w, Rebind(ps[j], m), m);
    } else if m.source != BROADCAST && m.total < MAX_BLOB_SIZE {
      MergeBinds(w, Unseen(m), m);
    }
  }

  /** The pending blob a fragment is for; one past the last for a blob not seen before. */
  function Taker(ps: seq<Pending>, m: Message): nat {
    if FindSource(ps, m) < |ps| then FindSource(ps, m) else FindTarget(ps, m)
  }

  /** Not taken are fragments of blobs too big, and of a blob whose id another message id uses. */
  predicate Taken(ps: seq<Pending>, m: Message) {
    if FindSource(ps, m) < |ps| then ps[FindSource(ps, m)].msgId == m.msgId
    else FindTarget(ps, m) < |ps| || m.total < MAX_BLOB_SIZE
  }

  /** A piece of a live blob that is taken is merged into the blob with its ids, and into no other. */
  lemma {:induction false} PushMerges(w: World, ps: seq<Pending>, m: Message)
    requires GoodWorld(w) && AllGood(w, ps) && Genuine(w, m) && InBounds(m) && AllSeparated(ps) && Taken(ps, m)
    ensures var qs, t := Pushed(ps, m), Taker(ps, m);
            && t < |qs| == Max(|ps|, t + 1)
            && qs[t].done == Insert(if t < |ps| then ps[t].done else [], m.offset, m.offset + |m.data|)
            && Key(qs[t].msgId, qs[t].source, qs[t].targetBlob) == Key(m.msgId, m.source, m.targetBlob)
            && qs[t].sourceBlob == m.sourceBlob
            && forall k :: 0 <= k < |ps| && k != t ==> qs[k] == ps[k]
  {
    var t := Taker(ps, m);
    if FindSource(ps, m) < |ps| {
      assert GoodPending(w, ps[t]) && Bound(w, ps[t]);
      assert ps[t].targetBlob == m.targetBlob;
    } else if t < |ps| {
      FoundByTargetIsUnbound(w, ps, m);
    }
  }

  /**
   What a piece of a live blob does: taken, it adds exactly its bytes to the done list of the
   blob with its ids, and nothing else changes; not taken, nothing does.
   */
  lemma {:induction false} PushDelivers(w: World, ps: seq<Pending>, m: Message, x: int)
    requires GoodWorld(w) && AllGood(w, ps) && Genuine(w, m) && InBounds(m) && AllSeparated(ps)
    ensures var qs, t := Pushed(ps, m), Taker(ps, m);
            if Taken(ps, m) then
              && t < |qs| == Max(|ps|, t + 1) && Bound(w, qs[t])
              && Key(qs[t].msgId, qs[t].source, qs[t].targetBlob) == Key(m.msgId, m.source, m.targetBlob)
              && (Covers(qs[t].done, x) <==> (t < |ps| && Covers(ps[t].done, x)) || m.offset <= x < m.offset + |m.data|)
              && forall k :: 0 <= k < |ps| && k != t ==> qs[k] == ps[k]
            else qs == ps
  {
    if Taken(ps, m) {
      var t := Taker(ps, m);
      PushMerges(w, ps, m);
      PushKeepsGood(w, ps, m);
      assert GoodPending(w, Pushed(ps, m)[t]);
      InsertCovers(if t < |ps| then ps[t].done else [], m.offset, m.offset + |m.data|, x);
    }
  }

  /** In a good state completion is full coverage, and what it hands over is the whole blob. */
  lemma CompleteIff(w: World, p: Pending)
    requires GoodPending(w, p)
    ensures ReceivedEverything(p.done, p.total) <==> p.total > 0 && CoversAll(p.done, p.total)
    ensures ReceivedEverything(p.done, p.total) ==> GoodHandover(w, HandoverOf(p))
  {
    if Bound(w, p) { ReceivedEverythingIff(p.done, p.total); }
  }

  lemma {:induction false} FetchKeepsGood(w: World, ps: seq<Pending>)
    requires AllGood(w, ps)
    ensures AllGood(w, Unfinished(ps))
    ensures forall h :: h in Finished(ps) ==> GoodHandover(w, h)
    decreases |ps|
  {
    if ps != [] {
      CompleteIff(w, ps[0]);
      FetchKeepsGood(w, ps[1..]);
    }
  }

  datatype Event = Expect(msgId: int, source: nat, targetBlob: nat) | Incoming(m: Message) | Drop(k: nat) | Fetch

  /** One step of the receiving manipulator; `Drop` stands for a cancel or a timeout. */
  ghost function Step(s: (seq<Pending>, seq<Handover>), ev: Event): (seq<Pending>, seq<Handover>) {
    match ev
    case Expect(msgId, source, targetBlob) =>
      (s.0 + [Pending(msgId, source, 0, targetBlob, 0, [], CallerTarget([]))], s.1)
    case Incoming(m) => if AllSeparated(s.0) && InBounds(m) then (Pushed(s.0, m), s.1) else s
    case Drop(k) => if k < |s.0| then (s.0[..k] + s.0[k + 1..], s.1) else s
    case Fetch => (Unfinished(s.0), s.1 + Finished(s.0))
  }

  ghost function Run(evs: seq<Event>): (seq<Pending>, seq<Handover>)
    decreases |evs|
  {
    if evs == [] then ([], []) else Step(Run(evs[..|evs| - 1]), evs[|evs| - 1])
  }

  lemma RunOneMore(evs: seq<Event>, ev: Event)
    ensures Run(evs + [ev]) == Step(Run(evs), ev)
  {
    assert (evs + [ev])[..|evs|] == evs;
  }

  /** Other blobs may come and go, but not those a pending blob is being received from. */
  ghost predicate KeepsReceived(w: World, next: World, ps: seq<Pending>) {
    forall i :: 0 <= i < |ps| && Bound(w, ps[i]) ==>
      var k := Key(ps[i].msgId, ps[i].source, ps[i].targetBlob);
      k in next && next[k] == w[k]
  }

  /**
   worlds[i] holds the blobs live when event i happens: the fragment that arrives then is a
   piece of one of them, and ids are used for another blob only once nothing is left of the old.
   */
  ghost predicate Fed(worlds: seq<World>, evs: seq<Event>)
    decreases |evs|
  {
    && |worlds| == |evs| + 1 && GoodWorld(worlds[|evs|])
    && (evs != [] ==>
          var n := |evs| - 1;
          && Fed(worlds[..n + 1], evs[..n])
          && (evs[n].Incoming? ==> Genuine(worlds[n], evs[n].m))
          && KeepsReceived(worlds[n], worlds[n + 1], Run(evs).0))
  }

  /** The handover was made by a fetch of the run and is a blob that was live then. */
  ghost predicate HandedBy(worlds: seq<World>, evs: seq<Event>, h: Handover)
    requires |worlds| == |evs| + 1
  {
    exists i :: 0 <= i < |evs| && evs[i].Fetch? && GoodHandover(worlds[i], h)
  }

  lemma {:induction false} StepKeepsGood(w: World, s: (seq<Pending>, seq<Handover>), ev: Event)
    requires GoodWorld(w) && AllGood(w, s.0) && (ev.Incoming? ==> Genuine(w, ev.m))
    ensures AllGood(w, Step(s, ev).0)
    ensures forall h :: h in Step(s, ev).1 ==> h in s.1 || (ev.Fetch? && GoodHandover(w, h))
  {
    match ev
    case Incoming(m) => if AllSeparated(s.0) && InBounds(m) { PushKeepsGood(w, s.0, m); }
    case Fetch => FetchKeepsGood(w, s.0);
    case _ =>
  }

  /**
   Over every run fed by live blobs, each pending blob is either still unbound or has the
   right ids, the right size and agrees with its blob, and whatever is handed over is whole.
   */
  lemma {:induction false} ManipulatorIsSafe(worlds: seq<World>, evs: seq<Event>)
    requires Fed(worlds, evs)
    ensures AllGood(worlds[|evs|], Run(evs).0)
    ensures forall h :: h in Run(evs).1 ==> HandedBy(worlds, evs, h)
    decreases |evs|
  {
    if evs != [] {
      var n := |evs| - 1;
      ManipulatorIsSafe(worlds[..n + 1], evs[..n]);
      StepKeepsGood(worlds[n], Run(evs[..n]), evs[n]);
      forall h | h in Run(evs).1 ensures HandedBy(worlds, evs, h) {
        if h in Run(evs[..n]).1 {
          var i :| 0 <= i < n && evs[..n][i].Fetch? && GoodHandover(worlds[..n + 1][i], h);
          assert evs[i].Fetch? && GoodHandover(worlds[i], h);
        }
      }
      ReplacedKeepsGood(worlds[n], worlds[n + 1], Run(evs).0);
    }
  }

  lemma ReplacedKeepsGood(w: World, next: World, ps: seq<Pending>)
    requires AllGood(w, ps) && KeepsReceived(w, next, ps)
    ensures AllGood(next, ps)
  {
    forall i | 0 <= i < |ps| ensures GoodPending(next, ps[i]) { assert GoodPending(w, ps[i]); }
  }

  /** In such runs a total size, once known, never changes, and the odd clauses of completion do no harm. */
  lemma TotalsAreStable(worlds: seq<World>, evs: seq<Event>, m: Message, k: nat)
    requires Fed(worlds, evs) && Genuine(worlds[|evs|], m) && InBounds(m)
    requires k < |Run(evs).0| && AllSeparated(Run(evs).0)
    ensures var p := Run(evs).0[k];
            && (p.total != 0 ==> Pushed(Run(evs).0, m)[k].total == p.total && p.done != [] && Bounded(p.done, p.total))
            && (ReceivedEverything(p.done, p.total) <==> p.total > 0 && CoversAll(p.done, p.total))
  {
    var w, ps := worlds[|evs|], Run(evs).0;
    ManipulatorIsSafe(worlds, evs);
    CompleteIff(w, ps[k]);
    if ps[k].total != 0 {
      TotalChangesIff(ps, m, k);
      if FindSource(ps, m) == |ps| && FindTarget(ps, m) == k { FoundByTargetIsUnbound(w, ps, m); }
    }
  }

  /** A chunk sink whose blob is handed over in such a run holds exactly that blob, cut into chunks. */
  lemma {:induction false} HandedChunksAreTheBlob(worlds: seq<World>, evs: seq<Event>, h: Handover, size: nat,
                                                  states: seq<ChunkSink.Chunks>)
    returns (i: nat)
    requires Fed(worlds, evs)
    requires h in Run(evs).1 && h.target.CallerTarget? && size > 0 && ChunkSink.SinkRun(states, size, h.target.calls)
    ensures i < |evs| && evs[i].Fetch? && Key(h.msgId, h.source, h.targetBlob) in worlds[i]
    ensures var blob := worlds[i][Key(h.msgId, h.source, h.targetBlob)].blob;
            states[|states| - 1] == ChunkSink.SplitBlob(blob, size) && ChunkSink.Join(states[|states| - 1]) == blob
  {
    ManipulatorIsSafe(worlds, evs);
    assert HandedBy(worlds, evs, h);
    i :| 0 <= i < |evs| && evs[i].Fetch? && GoodHandover(worlds[i], h);
    var blob := worlds[i][Key(h.msgId, h.source, h.targetBlob)].blob;
    ChunkSink.ChunksAreTheBlob(h.target.calls, blob, size, states);
  }

  // Ids used for a second blob too early ---------------------------------------------

  lemma {:induction false} FirstPiece(x: Bytes, m: Message)
    requires m.source != BROADCAST && 0 < |x| < MAX_BLOB_SIZE && m.offset == 0 && m.total == |x| && m.data == x[..1]
    ensures InBounds(m) && AllSeparated([])
    ensures Pushed([], m) == [Unseen(m).(done := [Part(0, 1)], target := Pushed([], m)[0].target)]
    ensures Pushed([], m)[0].target.BufferTarget? && |Pushed([], m)[0].target.bytes| == |x|
  {
    BufferKeepsSize(Unseen(m).target, MergeCalls([], 0, m.data));
  }

  lemma {:induction false} SecondBlob(p: Pending, y: Bytes, m: Message)
    requires p.done == [Part(0, 1)] && SameTarget(p, m) && !SameSource(p, m) && p.target.BufferTarget?
    requires y != [] && m.offset == 0 && m.total == |y| && m.data == y
    ensures InBounds(m) && AllSeparated([p])
    ensures |Pushed([p], m)| == 1 && Pushed([p], m)[0].total == |y| && Pushed([p], m)[0].done == [Part(0, |y|)]
    ensures Pushed([p], m)[0].target.BufferTarget? && |Pushed([p], m)[0].target.bytes| == |p.target.bytes|
  {
    assert FindSource([p], m) == 1 && FindTarget([p], m) == 0;
    assert [Part(0, 1)][1..] == [];
    assert Insert(p.done, 0, |y|) == Insert(p.done[1..], 0, |y|);
    ResizeSpoilsBuffer([p], m, 0);
  }

  lemma HandsOverOne(p: Pending)
    requires p.total > 0 && p.done == [Part(0, p.total)]
    ensures Finished([p]) == [HandoverOf(p)]
  {
    assert [p][1..] == [];
  }

  /**
   What happens to any two blobs of different size whose fragments carry the same target ids:
   once the first byte of x was received, the whole of y resizes the pending blob to the size
   of y; it then counts as complete, and what is handed over has the size of x.
   */
  lemma {:induction false} TotalCanChange(x: Bytes, y: Bytes, first: Message, second: Message)
    requires 0 < |x| < MAX_BLOB_SIZE && 0 < |y| && |x| != |y|
    requires first.source != BROADCAST && first.sourceBlob != second.sourceBlob
    requires second.msgId == first.msgId && second.source == first.source && second.targetBlob == first.targetBlob
    requires first.offset == 0 && first.total == |x| && first.data == x[..1]
    requires second.offset == 0 && second.total == |y| && second.data == y
    ensures var one := [] + [Incoming(first)];
            var two := one + [Incoming(second)];
            && |Run(one).0| == |Run(two).0| == 1
            && Run(one).0[0].total == |x| && Run(two).0[0].total == |y|
            && |Run(two + [Fetch]).1| == 1 && Run(two + [Fetch]).1[0].target.BufferTarget?
            && |Run(two + [Fetch]).1[0].target.bytes| == |x| != |y|
  {
    var one := [] + [Incoming(first)];
    var two := one + [Incoming(second)];
    RunOneMore([], Incoming(first));
    FirstPiece(x, first);
    var p := Pushed([], first)[0];
    assert Run(one) == ([p], []);
    RunOneMore(one, Incoming(second));
    SecondBlob(p, y, second);
    var q := Pushed([p], second)[0];
    assert Pushed([p], second) == [q];
    assert Run(two) == ([q], []);
    RunOneMore(two, Fetch);
    HandsOverOne(q);
  }
}
