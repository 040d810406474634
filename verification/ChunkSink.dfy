/**
 The chunk sink: the blob is kept in chunks of one fixed size, allocated as needed, and
 handed over as a list of chunks once it is complete.
 */
module ChunkSink {
  import opened Basics
  import opened Intervals
  import opened MergeSpec
  import opened Arrivals

  type Chunks = seq<Bytes>

  /** Chunk i has a byte at position p. */
  predicate Has(chunks: Chunks, i: nat, p: nat) { i < |chunks| && p < |chunks[i]| }

  function LenOf(chunks: Chunks, i: nat): nat { if i < |chunks| then |chunks[i]| else 0 }

  /** Blob offset of the begin of chunk i. */
  function Start(size: nat, i: nat): nat { if i == 0 then 0 else Start(size, i - 1) + size }

  /** Blob offset of position p of chunk i. */
  function Offset(size: nat, i: nat, p: nat): nat { Start(size, i) + p }

  /** How far [offset, end) reaches into chunk i; 0 when it does not. */
  function Reach(size: nat, i: nat, offset: nat, end: nat): nat {
    if offset < end && offset < Start(size, i + 1) && Start(size, i) < end
    then Min(size, end - Start(size, i)) else 0
  }

  /** Position p of chunk i after storing data at offset: the data's byte, or what was there. */
  predicate StoredAt(pre: Chunks, post: Chunks, size: nat, offset: nat, data: Bytes, i: nat, p: nat) {
    p < size ==>
      if offset <= Offset(size, i, p) < offset + |data|
      then Has(post, i, p) && post[i][p] == data[Offset(size, i, p) - offset]
      else Has(pre, i, p) ==> Has(post, i, p) && post[i][p] == pre[i][p]
  }

  /** Chunk i is exactly as long as the bytes stored demand. */
  predicate LongAt(pre: Chunks, post: Chunks, size: nat, offset: nat, n: nat, i: nat) {
    LenOf(post, i) == Max(LenOf(pre, i), Reach(size, i, offset, offset + n))
  }

  /**
   What storing data at offset must do: every byte of it at its place, every other stored
   byte unchanged, and chunks exactly as long as the bytes stored demand.
   */
  ghost predicate Stored(pre: Chunks, post: Chunks, size: nat, offset: nat, data: Bytes) {
    && (forall i: nat, p: nat :: StoredAt(pre, post, size, offset, data, i, p))
    && (forall i: nat :: LongAt(pre, post, size, offset, |data|, i))
    && |pre| <= |post|
    && (|post| > |pre| ==> LenOf(post, |post| - 1) > 0)
  }

  lemma {:induction false} StartsApart(size: nat, i: nat, j: nat)
    ensures i < j ==> Start(size, i + 1) <= Start(size, j)
    decreases j
  {
    if i + 1 < j { StartsApart(size, i, j - 1); }
  }

  lemma {:induction false} StartIsProduct(size: nat, i: nat)
    ensures Start(size, i) == i * size
  {
    if i > 0 {
      StartIsProduct(size, i - 1);
      assert i * size == (i - 1) * size + size;
    }
  }

  lemma StartOfQuotient(size: nat, x: nat)
    requires size > 0
    ensures 0 <= x / size && Start(size, x / size) <= x < Start(size, x / size) + size
    ensures x % size == x - Start(size, x / size)
  {
    StartIsProduct(size, x / size);
    assert x == size * (x / size) + x % size;
  }

  /** Writing inside one chunk. */
  lemma OneChunkStored(pre: Chunks, post: Chunks, size: nat, idx: nat, dsto: nat, data: Bytes)
    requires data != [] && dsto + |data| <= size
    requires |post| == Max(|pre|, idx + 1)
    requires forall j :: 0 <= j < |post| && j != idx ==> post[j] == if j < |pre| then pre[j] else []
    requires |post[idx]| == Max(LenOf(pre, idx), dsto + |data|)
    requires forall p :: 0 <= p < |post[idx]| && (dsto <= p < dsto + |data|) ==> post[idx][p] == data[p - dsto]
    requires forall p :: 0 <= p < LenOf(pre, idx) && !(dsto <= p < dsto + |data|) ==> post[idx][p] == pre[idx][p]
    ensures Stored(pre, post, size, Offset(size, idx, dsto), data)
  {
    var offset := Offset(size, idx, dsto);
    forall i: nat, p: nat ensures StoredAt(pre, post, size, offset, data, i, p) {
      StartsApart(size, i, idx);
      StartsApart(size, idx, i);
    }
    forall i: nat ensures LongAt(pre, post, size, offset, |data|, i) {
      StartsApart(size, i, idx);
      StartsApart(size, idx, i);
    }
  }

  /** Two consecutive stores make one. */
  lemma StoredJoins(c0: Chunks, c1: Chunks, c2: Chunks, size: nat, offset: nat, d1: Bytes, d2: Bytes)
    requires Stored(c0, c1, size, offset, d1) && Stored(c1, c2, size, offset + |d1|, d2)
    ensures Stored(c0, c2, size, offset, d1 + d2)
  {
    var data, mid := d1 + d2, offset + |d1|;
    forall i: nat, p: nat ensures StoredAt(c0, c2, size, offset, data, i, p) {
      assert StoredAt(c0, c1, size, offset, d1, i, p) && StoredAt(c1, c2, size, mid, d2, i, p);
    }
    forall i: nat ensures LongAt(c0, c2, size, offset, |data|, i) {
      assert LongAt(c0, c1, size, offset, |d1|, i) && LongAt(c1, c2, size, mid, |d2|, i);
    }
    if |c2| > |c0| && |c2| == |c1| {
      assert LongAt(c1, c2, size, mid, |d2|, |c2| - 1);
    }
  }

  class BlobChunkIo {
    const chunkSize: nat
    var chunks: Chunks

    constructor (size: nat)
      requires size > 0
      ensures chunkSize == size && chunks == []
    {
      chunkSize, chunks := size, [];
    }

    /** Lengthens a buffer to at least n bytes; the new bytes are unspecified. */
    method Ensure(chunk: Bytes, n: nat) returns (r: Bytes)
      ensures |r| == Max(|chunk|, n) && r[..|chunk|] == chunk
    {
      r := chunk + seq(Max(0, n - |chunk|), _ => 0);
    }

    /** Copies data into one chunk, creating the chunks up to it as needed. */
    method StoreInChunk(idx: nat, dsto: nat, data: Bytes)
      requires data != [] && dsto + |data| <= chunkSize
      modifies this`chunks
      ensures Stored(old(chunks), chunks, chunkSize, Offset(chunkSize, idx, dsto), data)
    {
      var nsz := idx + 1;
      if |chunks| < nsz {
        chunks := chunks + seq(nsz - |chunks|, _ => []);
      }
      var chunk := Ensure(chunks[idx], dsto + |data|);
      chunks := chunks[idx := chunk[..dsto] + data + chunk[dsto + |data|..]];
      OneChunkStored(old(chunks), chunks, chunkSize, idx, dsto, data);
    }

    /** The store step of the loop: the part of the data that goes into one chunk, if any. */
    method StorePart(chunkIdx: nat, dsto: nat, part: Bytes, ghost offset: nat, ghost stored: Bytes, ghost pre: Chunks)
      requires dsto + |part| <= chunkSize
      requires part != [] ==> Start(chunkSize, chunkIdx) + dsto == offset + |stored|
      requires Stored(pre, chunks, chunkSize, offset, stored)
      modifies this`chunks
      ensures Stored(pre, chunks, chunkSize, offset, stored + part)
    {
      if part != [] {
        ghost var before := chunks;
        StoreInChunk(chunkIdx, dsto, part);
        StoredJoins(pre, before, chunks, chunkSize, offset, stored, part);
      } else {
        assert stored + part == stored;
      }
    }

    /** The chunk of a blob offset: the quotient by the chunk size. */
    method ChunkOf(x: nat) returns (idx: nat)
      requires chunkSize > 0
      ensures Start(chunkSize, idx) <= x < Start(chunkSize, idx) + chunkSize
    {
      idx := x / chunkSize;
      StartOfQuotient(chunkSize, x);
    }

    /** One turn of the copy loop: what of the data is left for chunk idx. */
    method StoreTurn(offset: nat, data: Bytes, idx: nat, src: nat, ghost pre: Chunks) returns (next: nat)
      requires Progress(chunkSize, offset, data, idx, src, pre, chunks)
      modifies this`chunks
      ensures Progress(chunkSize, offset, data, idx + 1, next, pre, chunks)
    {
      var copySize: nat := Min(chunkSize, |data| - src);
      var part := data[src..][..copySize];
      NextCopy(chunkSize, offset, |data|, idx, src);
      StorePart(idx, 0, part, offset, data[..src], pre);
      next := src + copySize;
      assert data[..src] + part == data[..next];
    }

    method StoreFragment(offset: nat, data: Bytes) returns (ok: bool)
      requires data != [] && chunkSize > 0
      modifies this`chunks
      ensures ok && Stored(old(chunks), chunks, chunkSize, offset, data)
    {
      var chunkIdx := ChunkOf(offset);
      var lastChunk := ChunkOf(offset + |data|);
      var dsto: nat := offset - Start(chunkSize, chunkIdx);
      var copySrco: nat := Min(chunkSize - dsto, |data|);
      NothingStored(chunks, chunkSize, offset);
      StorePart(chunkIdx, dsto, data[..copySrco], offset, [], chunks);
      Begun(chunkSize, offset, data, chunkIdx, lastChunk, old(chunks), chunks);
      chunkIdx := chunkIdx + 1;
      while chunkIdx <= lastChunk
        invariant chunkIdx <= lastChunk + 1
        invariant Progress(chunkSize, offset, data, chunkIdx, copySrco, old(chunks), chunks)
      {
        copySrco := StoreTurn(offset, data, chunkIdx, copySrco, old(chunks));
        chunkIdx := chunkIdx + 1;
      }
      Finished(chunkSize, offset, data, lastChunk, copySrco, old(chunks), chunks);
      ok := true;
    }
  }

  /** After the chunks before idx: the first `src` bytes of the data are stored. */
  ghost predicate Progress(size: nat, offset: nat, data: Bytes, idx: nat, src: nat, pre: Chunks, post: Chunks) {
    Copied(size, offset, |data|, idx, src) && Stored(pre, post, size, offset, data[..src])
  }

  /** The first `src` of n bytes are those that belong before chunk idx. */
  ghost predicate Copied(size: nat, offset: nat, n: nat, idx: nat, src: nat) {
    0 < src <= n && src == Min(n, Start(size, idx) - offset)
  }

  lemma Begun(size: nat, offset: nat, data: Bytes, idx: nat, last: nat, pre: Chunks, post: Chunks)
    requires Start(size, idx) <= offset < Start(size, idx) + size && data != []
    requires Start(size, last) <= offset + |data| < Start(size, last) + size
    requires Stored(pre, post, size, offset, [] + data[..Min(size - (offset - Start(size, idx)), |data|)])
    ensures Progress(size, offset, data, idx + 1, Min(size - (offset - Start(size, idx)), |data|), pre, post)
    ensures idx <= last
  {
    var n := Min(size - (offset - Start(size, idx)), |data|);
    assert [] + data[..n] == data[..n];
    StartsApart(size, last, idx);
  }

  lemma NextCopy(size: nat, offset: nat, n: nat, idx: nat, src: nat)
    requires Copied(size, offset, n, idx, src)
    ensures src < n ==> Start(size, idx) == offset + src
    ensures Copied(size, offset, n, idx + 1, src + Min(size, n - src))
  {
  }

  lemma Finished(size: nat, offset: nat, data: Bytes, last: nat, src: nat, pre: Chunks, post: Chunks)
    requires offset + |data| < Start(size, last) + size && Progress(size, offset, data, last + 1, src, pre, post)
    ensures Stored(pre, post, size, offset, data)
  {
    assert data[..src] == data;
  }

  lemma NothingStored(chunks: Chunks, size: nat, offset: nat)
    ensures Stored(chunks, chunks, size, offset, [])
  {
    forall i: nat, p: nat ensures StoredAt(chunks, chunks, size, offset, [], i, p) {}
    forall i: nat ensures LongAt(chunks, chunks, size, offset, 0, i) {}
  }

  /** Every stored byte lies at quotient and remainder of its offset by the chunk size. */
  lemma StoredByDivMod(pre: Chunks, post: Chunks, size: nat, offset: nat, data: Bytes, k: nat)
    requires Stored(pre, post, size, offset, data) && k < |data| && size > 0
    ensures Has(post, (offset + k) / size, (offset + k) % size)
    ensures post[(offset + k) / size][(offset + k) % size] == data[k]
  {
    var i, p := (offset + k) / size, (offset + k) % size;
    StartOfQuotient(size, offset + k);
    assert Offset(size, i, p) == offset + k;
    assert StoredAt(pre, post, size, offset, data, i, p);
  }

  // Whole blobs ------------------------------------------------------------------

  /** The chunks a blob should end up in. */
  function SplitBlob(blob: Bytes, size: nat): Chunks
    requires size > 0
  {
    if blob == [] then [] else if |blob| <= size then [blob] else [blob[..size]] + SplitBlob(blob[size..], size)
  }

  function Join(chunks: Chunks): Bytes {
    if chunks == [] then [] else chunks[0] + Join(chunks[1..])
  }

  lemma {:induction false} SplitJoin(blob: Bytes, size: nat)
    requires size > 0
    ensures Join(SplitBlob(blob, size)) == blob
    decreases |blob|
  {
    if |blob| > size {
      SplitJoin(blob[size..], size);
      assert SplitBlob(blob, size)[1..] == SplitBlob(blob[size..], size);
      assert blob[..size] + blob[size..] == blob;
    } else if blob != [] {
      assert SplitBlob(blob, size)[1..] == [];
    }
  }

  lemma {:induction false} SplitCount(blob: Bytes, size: nat)
    requires size > 0
    ensures |SplitBlob(blob, size)| == (|blob| + size - 1) / size
    decreases |blob|
  {
    if |blob| > size {
      SplitCount(blob[size..], size);
      OneMore(|blob| - size, size);
    } else {
      FirstQuotient(|blob|, size);
    }
  }

  lemma SplitSizes(blob: Bytes, size: nat, i: nat)
    requires size > 0 && i + 1 < |SplitBlob(blob, size)|
    ensures |SplitBlob(blob, size)[i]| == size
  {
    SplitAt(blob, size, i);
    SplitAt(blob, size, i + 1);
  }

  lemma {:induction false} OneMore(n: nat, size: nat)
    requires size > 0
    ensures (n + size + size - 1) / size == (n + size - 1) / size + 1
  {
    var x := n + size - 1;
    StartOfQuotient(size, x);
    StartOfQuotient(size, x + size);
    StartsApart(size, x / size + 1, (x + size) / size);
    StartsApart(size, (x + size) / size, x / size + 1);
  }

  lemma FirstQuotient(n: nat, size: nat)
    requires size > 0 && n <= size
    ensures (n + size - 1) / size == if n == 0 then 0 else 1
  {
    StartOfQuotient(size, n + size - 1);
    var q := (n + size - 1) / size;
    StartsApart(size, 0, q);
    StartsApart(size, 1, q);
  }

  /** Chunk i of the split blob, and which chunks there are. */
  lemma {:induction false} SplitAt(blob: Bytes, size: nat, i: nat)
    requires size > 0
    ensures i < |SplitBlob(blob, size)| <==> Start(size, i) < |blob|
    ensures i < |SplitBlob(blob, size)| ==>
              SplitBlob(blob, size)[i] == blob[Start(size, i)..Min(Start(size, i + 1), |blob|)]
    decreases i
  {
    if |blob| > size && i > 0 {
      var rest := blob[size..];
      SplitAt(rest, size, i - 1);
      assert i < |SplitBlob(blob, size)| ==> SplitBlob(blob, size)[i] == SplitBlob(rest, size)[i - 1];
      SliceOfRest(blob, size, Start(size, i - 1), Min(Start(size, i), |rest|));
    } else if i > 0 {
      StartsApart(size, 0, i);
    }
  }

  lemma SliceOfRest(blob: Bytes, size: nat, lo: nat, hi: nat)
    requires size <= |blob| && hi <= |blob| - size
    ensures lo <= hi ==> blob[size..][lo..hi] == blob[lo + size..hi + size]
  {
  }

  predicate HoldsAt(chunks: Chunks, size: nat, blob: Bytes, held: set<int>, i: nat, p: nat) {
    p < size && Offset(size, i, p) < |blob| && Offset(size, i, p) in held ==>
      Has(chunks, i, p) && chunks[i][p] == blob[Offset(size, i, p)]
  }

  predicate InsideAt(chunks: Chunks, size: nat, blob: Bytes, i: nat) {
    LenOf(chunks, i) > 0 ==> LenOf(chunks, i) <= size && Start(size, i) + LenOf(chunks, i) <= |blob|
  }

  /** The chunks hold the blob's bytes at all `held` offsets and reach no further than the blob. */
  ghost predicate Sound(chunks: Chunks, size: nat, blob: Bytes, held: set<int>) {
    && (forall i: nat, p: nat :: HoldsAt(chunks, size, blob, held, i, p))
    && (forall i: nat :: InsideAt(chunks, size, blob, i))
    && (chunks != [] ==> LenOf(chunks, |chunks| - 1) > 0)
  }

  ghost predicate Extends(before: set<int>, after: set<int>, offset: nat, n: nat) {
    forall x :: x in after ==> x in before || offset <= x < offset + n
  }

  lemma StoreKeepsSound(pre: Chunks, post: Chunks, size: nat, blob: Bytes, before: set<int>, after: set<int>,
                        offset: nat, data: Bytes)
    requires Sound(pre, size, blob, before) && Stored(pre, post, size, offset, data)
    requires IsPieceOf(blob, offset, data) && Extends(before, after, offset, |data|)
    ensures Sound(post, size, blob, after)
  {
    forall i: nat, p: nat ensures HoldsAt(post, size, blob, after, i, p) {
      assert HoldsAt(pre, size, blob, before, i, p) && StoredAt(pre, post, size, offset, data, i, p);
      var x := Offset(size, i, p);
      assert offset <= x < offset + |data| ==> data[x - offset] == blob[x];
    }
    forall i: nat ensures InsideAt(post, size, blob, i) {
      assert InsideAt(pre, size, blob, i) && LongAt(pre, post, size, offset, |data|, i);
    }
    if post != [] && |post| == |pre| {
      assert LongAt(pre, post, size, offset, |data|, |post| - 1);
    }
  }

  lemma SoundForLess(chunks: Chunks, size: nat, blob: Bytes, more: set<int>, less: set<int>)
    requires Sound(chunks, size, blob, more) && less <= more
    ensures Sound(chunks, size, blob, less)
  {
    forall i: nat, p: nat ensures HoldsAt(chunks, size, blob, less, i, p) {
      assert HoldsAt(chunks, size, blob, more, i, p);
    }
  }

  /** Once every byte is held, the chunks are exactly the split blob. */
  lemma SoundAndCompleteIsSplit(chunks: Chunks, size: nat, blob: Bytes, held: set<int>)
    requires size > 0 && Sound(chunks, size, blob, held) && forall x :: 0 <= x < |blob| ==> x in held
    ensures chunks == SplitBlob(blob, size)
  {
    var split := SplitBlob(blob, size);
    forall i: nat
      ensures LenOf(chunks, i) == LenOf(split, i)
      ensures i < |chunks| && i < |split| ==> chunks[i] == split[i]
    {
      SplitAt(blob, size, i);
      assert InsideAt(chunks, size, blob, i);
      if Start(size, i) < |blob| { ChunkIsFull(chunks, size, blob, held, i); }
    }
    if chunks != [] { assert LenOf(split, |chunks| - 1) == LenOf(chunks, |chunks| - 1) > 0; }
    if split != [] {
      SplitAt(blob, size, |split| - 1);
      assert LenOf(chunks, |split| - 1) == LenOf(split, |split| - 1) > 0;
    }
  }

  lemma ChunkIsFull(chunks: Chunks, size: nat, blob: Bytes, held: set<int>, i: nat)
    requires size > 0 && Sound(chunks, size, blob, held) && forall x :: 0 <= x < |blob| ==> x in held
    requires Start(size, i) < |blob|
    ensures i < |chunks| && chunks[i] == blob[Start(size, i)..Min(Start(size, i + 1), |blob|)]
  {
    var n := Min(size, |blob| - Start(size, i));
    assert InsideAt(chunks, size, blob, i);
    assert HoldsAt(chunks, size, blob, held, i, n - 1) && Offset(size, i, n - 1) in held;
    forall p: nat | p < n ensures Has(chunks, i, p) && chunks[i][p] == blob[Start(size, i) + p] {
      assert HoldsAt(chunks, size, blob, held, i, p) && Offset(size, i, p) in held;
    }
  }

  /** States of the sink along a sequence of calls. */
  ghost predicate SinkRun(states: seq<Chunks>, size: nat, calls: seq<Call>) {
    && |states| == |calls| + 1 && states[0] == []
    && forall i :: 0 <= i < |calls| ==>
         if calls[i].Store? then Stored(states[i], states[i + 1], size, calls[i].offs, calls[i].data)
         else states[i + 1] == states[i]
  }

  ghost function StoredSet(calls: seq<Call>, n: nat, blob: Bytes): set<int>
    requires n <= |calls|
  {
    set x: int | 0 <= x < |blob| && StoresByte(calls[..n], x)
  }

  lemma {:induction false} RunKeepsSound(states: seq<Chunks>, size: nat, calls: seq<Call>, blob: Bytes, n: nat)
    requires SinkRun(states, size, calls) && n <= |calls|
    requires forall i :: 0 <= i < |calls| ==> HonestCall(calls[i], blob)
    ensures Sound(states[n], size, blob, StoredSet(calls, n, blob))
  {
    if n == 0 {
      assert StoredSet(calls, 0, blob) == {};
    } else {
      RunKeepsSound(states, size, calls, blob, n - 1);
      var c := calls[n - 1];
      var before, after := StoredSet(calls, n - 1, blob), StoredSet(calls, n, blob);
      forall x | x in after ensures x in before || (c.Store? && c.offs <= x < c.offs + |c.data|) {
        var i :| 0 <= i < n && calls[..n][i].Store? && InCall(calls[..n][i], x);
        assert i < n - 1 ==> calls[..n - 1][i] == calls[..n][i] && StoresByte(calls[..n - 1], x);
      }
      if c.Store? {
        assert HonestCall(c, blob);
        StoreKeepsSound(states[n - 1], states[n], size, blob, before, after, c.offs, c.data);
      } else {
        SoundForLess(states[n], size, blob, before, after);
      }
    }
  }

  /** The calls carry only bytes of the blob, and store each of them at least once. */
  ghost predicate Delivers(calls: seq<Call>, blob: Bytes) {
    && (forall i :: 0 <= i < |calls| ==> HonestCall(calls[i], blob))
    && (forall x :: 0 <= x < |blob| ==> StoresByte(calls, x))
  }

  /**
   Whatever the order and overlaps of the calls: once every byte was stored, the chunks are
   the blob cut into pieces of the chunk size.
   */
  lemma {:induction false} ChunksAreTheBlob(calls: seq<Call>, blob: Bytes, size: nat, states: seq<Chunks>)
    requires Delivers(calls, blob) && size > 0 && SinkRun(states, size, calls)
    ensures var chunks := states[|states| - 1];
            && chunks == SplitBlob(blob, size) && Join(chunks) == blob
            && |chunks| == (|blob| + size - 1) / size
            && forall i :: 0 <= i < |chunks| - 1 ==> |chunks[i]| == size
  {
    RunKeepsSound(states, size, calls, blob, |calls|);
    assert calls[..|calls|] == calls;
    forall x | 0 <= x < |blob| ensures x in StoredSet(calls, |calls|, blob) {}
    SoundAndCompleteIsSplit(states[|calls|], size, blob, StoredSet(calls, |calls|, blob));
    SplitJoin(blob, size);
    SplitCount(blob, size);
    forall i | 0 <= i < |SplitBlob(blob, size)| - 1 ensures |SplitBlob(blob, size)[i]| == size {
      SplitSizes(blob, size, i);
    }
  }

  /** Pieces of a blob that arrive in any order deliver it as soon as they cover it. */
  lemma ArrivalsDeliver(arrivals: seq<Arrival>, blob: Bytes)
    requires HonestArrivals(arrivals, blob)
    ensures var (done, calls) := Merged([], arrivals);
            CoversAll(done, |blob|) ==> Delivers(calls, blob)
  {
    var (done, calls) := Merged([], arrivals);
    MergedStoresAll([], arrivals, blob);
    if CoversAll(done, |blob|) {
      forall x | 0 <= x < |blob| ensures StoresByte(calls, x) { assert Covers(done, x); }
    }
  }
}
