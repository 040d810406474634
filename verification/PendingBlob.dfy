/**
 The objects behind one transfer: a flat buffer and a pending blob, whose double
 buffer of interval lists serves the receiver as done list and the sender as todo list.
 */
module PendingBlobs {
  import opened Basics
  import opened Intervals
  import opened MergeSpec
  import opened TransferSpec

  class BufferBlobIo {
    const buf: array<Byte>

    /** A zero-filled target of the given size. */
    constructor Target(size: nat)
      ensures fresh(buf) && buf[..] == seq(size, _ => 0)
    {
      buf := new Byte[size](_ => 0);
    }

    /** A source holding a copy of the given bytes. */
    constructor Source(src: Bytes)
      ensures fresh(buf) && buf[..] == src
    {
      buf := new Byte[|src|](i requires 0 <= i < |src| => src[i]);
    }

    method FetchFragment(offs: nat, dstSize: nat) returns (src: Bytes)
      ensures |src| == FetchSize(buf.Length, offs, dstSize)
      ensures |src| <= dstSize && (|src| == dstSize || offs + |src| >= buf.Length)
      ensures |src| > 0 ==> IsPieceOf(buf[..], offs, src)
    {
      var skipped := buf[Min(offs, buf.Length)..];
      src := skipped[..Min(dstSize, |skipped|)];
    }

    method StoreFragment(offs: nat, src: Bytes) returns (ok: bool)
      modifies buf
      ensures (buf[..], ok) == BufferStore(old(buf[..]), offs, src)
      ensures ok <==> src == [] || offs + |src| <= buf.Length
      ensures forall x :: 0 <= x < buf.Length ==>
                buf[x] == if ok && offs <= x < offs + |src| then src[x - offs] else old(buf[x])
    {
      ok := |src| <= buf.Length - Min(offs, buf.Length);
      if ok {
        forall i | 0 <= i < |src| {
          buf[offs + i] := src[i];
        }
      }
      assert buf[..] == BufferStore(old(buf[..]), offs, src).0;
    }

    method CheckStored(offs: nat, blk: Bytes) returns (ok: bool)
      ensures ok == BufferCheck(buf[..], offs, blk)
      ensures ok <==> (blk == [] || offs + |blk| <= buf.Length)
                      && forall k :: 0 <= k < |blk| && offs + k < buf.Length ==> buf[offs + k] == blk[k]
    {
      var skipped := buf[Min(offs, buf.Length)..];
      var head := skipped[..Min(|blk|, |skipped|)];
      assert head == buf[..][Min(offs, buf.Length)..Min(offs + |blk|, buf.Length)];
      assert forall k :: 0 <= k < |head| ==> head[k] == buf[offs + k];
      ok := head == blk;
    }
  }

  class PendingBlob {
    var totalSize: nat
    var current: Parts
    var next: Parts
    const sourceIo: BufferBlobIo?
    const targetIo: BufferBlobIo?

    function DoneParts(): Parts reads this { current }

    function TodoParts(): Parts reads this { next }

    /** An outgoing blob, as `push_outgoing` sets it up for a non-empty source. */
    constructor Outgoing(io: BufferBlobIo)
      requires io.buf.Length > 0
      ensures sourceIo == io && totalSize == io.buf.Length
      ensures TodoParts() == [Part(0, totalSize)] && GoodTodo(TodoParts(), totalSize)
      ensures DoneParts() == []
    {
      totalSize, current, next := io.buf.Length, [], [Part(0, io.buf.Length)];
      sourceIo, targetIo := io, null;
    }

    /** An incoming blob before its first fragment. */
    constructor Incoming(io: BufferBlobIo, total: nat)
      ensures targetIo == io && totalSize == total
      ensures DoneParts() == [] && GoodDone(DoneParts(), totalSize)
    {
      totalSize, current, next := total, [], [];
      sourceIo, targetIo := null, io;
    }

    method SwapParts()
      modifies this`current, this`next
      ensures current == old(next) && next == old(current)
    {
      current, next := next, current;
    }

    /** `result &= store(offs, src)`, with the call recorded. */
    method AndStore(offs: nat, src: Bytes, result: bool, ghost buf0: Bytes, ghost calls: seq<Call>)
      returns (both: bool, ghost calls': seq<Call>)
      requires targetIo != null && (targetIo.buf[..], result) == RunCalls(buf0, calls)
      modifies targetIo.buf
      ensures calls' == calls + [Store(offs, src)]
      ensures (targetIo.buf[..], both) == RunCalls(buf0, calls')
    {
      var ok := targetIo.StoreFragment(offs, src);
      both := result && ok;
      calls' := calls + [Store(offs, src)];
      RunSnoc(buf0, calls, Store(offs, src));
    }

    /** `result &= check(offs, blk)`, with the call recorded. */
    method AndCheck(offs: nat, blk: Bytes, result: bool, ghost buf0: Bytes, ghost calls: seq<Call>)
      returns (both: bool, ghost calls': seq<Call>)
      requires targetIo != null && (targetIo.buf[..], result) == RunCalls(buf0, calls)
      ensures calls' == calls + [Check(offs, blk)]
      ensures (targetIo.buf[..], both) == RunCalls(buf0, calls')
    {
      var ok := targetIo.CheckStored(offs, blk);
      both := result && ok;
      calls' := calls + [Check(offs, blk)];
      RunSnoc(buf0, calls, Check(offs, blk));
    }

    /** One turn of the merge loop, for the received interval [srcBgn, srcEnd). */
    method MergePart(srcBgn: nat, srcEnd: nat, bgn: nat, fragment: Bytes, wasDone: bool, wasOk: bool,
                     ghost buf0: Bytes, ghost calls0: seq<Call>)
      returns (newDone: bool, result: bool, ghost calls: seq<Call>)
      requires targetIo != null && srcBgn <= srcEnd && (wasDone ==> current != [])
      requires (targetIo.buf[..], wasOk) == RunCalls(buf0, calls0)
      modifies this`current, targetIo.buf
      ensures (current, newDone) == ListStep(Part(srcBgn, srcEnd), old(current), wasDone, bgn, bgn + |fragment|)
      ensures calls == calls0 + StepCalls(Part(srcBgn, srcEnd), wasDone, bgn, fragment)
      ensures (targetIo.buf[..], result) == RunCalls(buf0, calls)
    {
      var end := bgn + |fragment|;
      newDone, result, calls := wasDone, wasOk, calls0;
      CutForms(bgn, fragment, srcBgn, srcEnd);
      if bgn < srcBgn {
        if end < srcBgn {
          if !newDone {
            current := current + [Part(bgn, end)];
            result, calls := AndStore(bgn, fragment, result, buf0, calls);
            newDone := true;
          }
          current := current + [Part(srcBgn, srcEnd)];
        } else if end <= srcEnd {
          if newDone {
            current := current[|current| - 1 := Part(current[|current| - 1].bgn, srcEnd)];
          } else {
            current := current + [Part(bgn, srcEnd)];
            result, calls := AndStore(bgn, fragment[..srcBgn - bgn], result, buf0, calls);
            newDone := true;
          }
          result, calls := AndCheck(srcBgn, fragment[srcBgn - bgn..], result, buf0, calls);
        } else {
          if !newDone {
            current := current + [Part(bgn, end)];
            result, calls := AndStore(bgn, fragment[..srcBgn - bgn], result, buf0, calls);
            result, calls := AndStore(srcEnd, fragment[srcEnd - bgn..], result, buf0, calls);
            newDone := true;
          }
          result, calls := AndCheck(srcBgn, fragment[srcBgn - bgn..][..srcEnd - srcBgn], result, buf0, calls);
        }
      } else if bgn <= srcEnd {
        if end <= srcEnd {
          current := current + [Part(srcBgn, srcEnd)];
          newDone := true;
          result, calls := AndCheck(bgn, fragment, result, buf0, calls);
        } else {
          current := current + [Part(srcBgn, end)];
          result, calls := AndStore(srcEnd, fragment[srcEnd - bgn..], result, buf0, calls);
          result, calls := AndCheck(bgn, fragment[..srcEnd - bgn], result, buf0, calls);
          newDone := true;
        }
      } else {
        current := current + [Part(srcBgn, srcEnd)];
      }
    }

    /**
     Merges a received fragment into the done list. The calls on the target are those
     of `MergeCalls`, whatever the target makes of them; here they run on its buffer.
     */
    method MergeFragment(bgn: nat, fragment: Bytes) returns (result: bool, ghost calls: seq<Call>)
      requires targetIo != null && Separated(DoneParts())
      modifies this`current, this`next, targetIo.buf
      ensures DoneParts() == Insert(old(DoneParts()), bgn, bgn + |fragment|)
      ensures Separated(DoneParts())
      ensures calls == MergeCalls(old(DoneParts()), bgn, fragment)
      ensures (targetIo.buf[..], result) == RunCalls(old(targetIo.buf[..]), calls)
    {
      var end := bgn + |fragment|;
      SwapParts();
      var src := TodoParts();
      current := [];
      ghost var buf0 := targetIo.buf[..];
      calls := [];
      result := true;
      var newDone := false;

      for i := 0 to |src|
        invariant next == src == old(DoneParts())
        invariant (current, newDone) == LoopState(src, i, bgn, end)
        invariant newDone == Found(src, i, bgn)
        invariant calls == LoopCalls(src, i, bgn, fragment)
        invariant (targetIo.buf[..], result) == RunCalls(buf0, calls)
      {
        newDone, result, calls := MergePart(src[i].bgn, src[i].end, bgn, fragment, newDone, result, buf0, calls);
      }
      LoopComputesInsert(src, bgn, end);
      LoopIssuesMergeCalls(src, bgn, fragment);
      if !newDone {
        current := current + [Part(bgn, end)];
        result, calls := AndStore(bgn, fragment, result, buf0, calls);
      }
      InsertSeparated(src, bgn, end);
    }

    /** One turn of the loop of `MergeResendRequest`, for the todo interval [srcBgn, srcEnd). */
    method MergeTodoPart(srcBgn: nat, srcEnd: nat, bgn: nat, end: nat, wasDone: bool) returns (newDone: bool)
      requires wasDone ==> next != []
      modifies this`next
      ensures (next, newDone) == ListStep(Part(srcBgn, srcEnd), old(next), wasDone, bgn, end)
    {
      newDone := wasDone;
      if bgn < srcBgn {
        if end < srcBgn {
          if !wasDone {
            next := next + [Part(bgn, end)];
            newDone := true;
          }
          next := next + [Part(srcBgn, srcEnd)];
        } else if end <= srcEnd {
          if wasDone {
            next := next[|next| - 1 := Part(next[|next| - 1].bgn, srcEnd)];
          } else {
            next := next + [Part(bgn, srcEnd)];
            newDone := true;
          }
        } else {
          if !wasDone {
            next := next + [Part(bgn, end)];
            newDone := true;
          }
        }
      } else if bgn <= srcEnd {
        if end <= srcEnd {
          next := next + [Part(srcBgn, srcEnd)];
          newDone := true;
        } else {
          next := next + [Part(srcBgn, end)];
          newDone := true;
        }
      } else {
        next := next + [Part(srcBgn, srcEnd)];
      }
    }

    /** Merges a request to send [bgn, end) again into the todo list. */
    method MergeResendRequest(bgn: nat, reqEnd: nat)
      requires Separated(TodoParts())
      modifies this`current, this`next
      ensures TodoParts() == AfterResend(old(TodoParts()), totalSize, bgn, reqEnd)
      ensures Separated(TodoParts())
    {
      var end := if reqEnd == 0 then totalSize else reqEnd;
      if bgn < end {
        SwapParts();
        var src := DoneParts();
        next := [];
        var newDone := false;

        for i := 0 to |src|
          invariant current == src == old(TodoParts())
          invariant (next, newDone) == LoopState(src, i, bgn, end)
        {
          newDone := MergeTodoPart(src[i].bgn, src[i].end, bgn, end, newDone);
        }
        LoopComputesInsert(src, bgn, end);
        if !newDone {
          next := next + [Part(bgn, end)];
        }
        InsertSeparated(src, bgn, end);
      }
    }

    /** Takes the next fragment off the todo list; an empty one means nothing was sent. */
    method ProcessFinishedOutgoing(free: nat) returns (offset: nat, fragment: Bytes)
      requires sourceIo != null && TodoParts() != []
      modifies this`next
      ensures offset == Last(old(TodoParts())).bgn
      ensures |fragment| == NextSize(old(TodoParts()), sourceIo.buf.Length, free)
      ensures |fragment| > 0 ==> IsPieceOf(sourceIo.buf[..], offset, fragment)
      ensures TodoParts() == AfterSend(old(TodoParts()), sourceIo.buf.Length, free)
    {
      var last := next[|next| - 1];
      offset := last.bgn;
      fragment := sourceIo.FetchFragment(offset, free);
      if |fragment| > 0 {
        next := next[|next| - 1 := Part(last.bgn + |fragment|, last.end)];
        if next[|next| - 1].bgn >= next[|next| - 1].end {
          next := next[..|next| - 1];
        }
      }
    }
  }

  lemma CutForms(b: nat, frag: Bytes, lo: nat, hi: nat)
    requires lo <= hi
    ensures b <= lo <= b + |frag| ==>
              frag[..lo - b] == Cut(b, frag, b, lo) && frag[lo - b..] == Cut(b, frag, lo, b + |frag|)
    ensures b <= hi <= b + |frag| ==>
              frag[..hi - b] == Cut(b, frag, b, hi) && frag[hi - b..] == Cut(b, frag, hi, b + |frag|)
    ensures b <= lo <= hi <= b + |frag| ==> frag[lo - b..][..hi - lo] == Cut(b, frag, lo, hi)
  {
  }

  // The two merge loops, turn by turn ---------------------------------------------

  /** What one turn of either merge loop does to the output list and the flag. */
  ghost function ListStep(p: Part, dst: Parts, newDone: bool, b: nat, e: nat): (Parts, bool)
    requires newDone ==> dst != []
  {
    if b < p.bgn then
      if e < p.bgn then ((if newDone then dst else dst + [Part(b, e)]) + [p], true)
      else if e <= p.end then
        (if newDone then dst[|dst| - 1 := Part(Last(dst).bgn, p.end)] else dst + [Part(b, p.end)], true)
      else (if newDone then dst else dst + [Part(b, e)], true)
    else if b <= p.end then (dst + [Part(p.bgn, Max(e, p.end))], true)
    else (dst + [p], newDone)
  }

  /** The calls of one turn of the merge loop. */
  ghost function StepCalls(p: Part, newDone: bool, b: nat, frag: Bytes): seq<Call>
    requires p.bgn <= p.end
  {
    if !Touches(p, b, b + |frag|) then
      if b < p.bgn && !newDone then [Store(b, frag)] else []
    else if newDone && b < p.bgn then [Check(p.bgn, Cut(b, frag, p.bgn, Min(b + |frag|, p.end)))]
    else TouchCalls(p, b, frag)
  }

  /** Output list and flag after i turns. */
  ghost function LoopState(src: Parts, i: nat, b: nat, e: nat): (r: (Parts, bool))
    requires i <= |src|
    ensures r.1 ==> r.0 != []
  {
    if i == 0 then ([], false)
    else
      var (dst, newDone) := LoopState(src, i - 1, b, e);
      ListStep(src[i - 1], dst, newDone, b, e)
  }

  /** The flag after i turns: the fragment begins at or before the last end seen. */
  predicate Found(src: Parts, i: nat, b: nat)
    requires i <= |src|
  {
    i > 0 && b <= src[i - 1].end
  }

  /** Calls issued in the first i turns. */
  ghost function LoopCalls(src: Parts, i: nat, b: nat, frag: Bytes): seq<Call>
    requires i <= |src| && Separated(src)
  {
    if i == 0 then []
    else LoopCalls(src, i - 1, b, frag)
         + StepCalls(src[i - 1], Found(src, i - 1, b), b, frag)
  }

  /**
   With the flag unset the output is still the source prefix; once set, its last interval
   absorbs what is left to absorb.
   */
  ghost predicate ListProgress(src: Parts, i: nat, dst: Parts, newDone: bool, b: nat, e: nat)
    requires i <= |src|
  {
    if !newDone then
      && dst == src[..i]
      && (i > 0 ==> src[i - 1].end < b)
      && Insert(src, b, e) == dst + Insert(src[i..], b, e)
    else
      && dst != [] && i > 0 && b <= src[i - 1].end
      && Last(dst).end == Max(e, src[i - 1].end)
      && (Last(dst).end == e ==> Last(dst).bgn <= b)
      && Insert(src, b, e) == dst[..|dst| - 1] + Insert(src[i..], Last(dst).bgn, Last(dst).end)
  }

  lemma InsertUncons(src: Parts, i: nat, b: nat, e: nat)
    requires Separated(src) && i < |src|
    ensures var p, rest := src[i], src[i + 1..];
            && src[i..] == [p] + rest
            && Insert(rest, p.bgn, p.end) == [p] + rest
            && Insert(src[i..], b, e) ==
               if e < p.bgn then [Part(b, e), p] + rest
               else if p.end < b then [p] + Insert(rest, b, e)
               else Insert(rest, Min(b, p.bgn), Max(e, p.end))
  {
    var p, rest := src[i], src[i + 1..];
    assert src[i..] == [p] + rest && src[i..][1..] == rest;
    assert rest != [] ==> p.end < rest[0].bgn;
    assert [Part(b, e)] + src[i..] == [Part(b, e), p] + rest;
  }

  lemma FoundPlace(src: Parts, i: nat, b: nat, e: nat)
    requires Separated(src) && i < |src| && b <= e && b <= src[i].end
    requires ListProgress(src, i, src[..i], false, b, e)
    ensures var (dst', done') := ListStep(src[i], src[..i], false, b, e);
            ListProgress(src, i + 1, dst', done', b, e)
  {
    var dst, p, rest := src[..i], src[i], src[i + 1..];
    InsertUncons(src, i, b, e);
    if e < p.bgn {
      var dst' := dst + [Part(b, e), p];
      assert ListStep(p, dst, false, b, e) == (dst', true) by { assert dst' == dst + [Part(b, e)] + [p]; }
      assert dst'[..|dst'| - 1] == dst + [Part(b, e)];
      Regroup(Insert(src, b, e), dst, Insert(src[i..], b, e), [Part(b, e)], [p] + rest);
    } else {
      var q := Part(Min(b, p.bgn), Max(e, p.end));
      assert ListStep(p, dst, false, b, e) == (dst + [q], true);
      assert (dst + [q])[..|dst + [q]| - 1] == dst;
    }
  }

  lemma {:induction false} FoundStep(src: Parts, i: nat, dst: Parts, b: nat, e: nat)
    requires Separated(src) && i < |src| && b <= e && ListProgress(src, i, dst, false, b, e)
    ensures var (dst', done') := ListStep(src[i], dst, false, b, e);
            ListProgress(src, i + 1, dst', done', b, e)
  {
    var p, rest := src[i], src[i + 1..];
    if b <= p.end {
      FoundPlace(src, i, b, e);
    } else {
      InsertUncons(src, i, b, e);
      assert src[..i + 1] == src[..i] + [p];
      Regroup(Insert(src, b, e), dst, Insert(src[i..], b, e), [p], Insert(rest, b, e));
    }
  }

  lemma AbsorbStep(src: Parts, i: nat, dst: Parts, b: nat, e: nat)
    requires Separated(src) && i < |src| && b <= e && ListProgress(src, i, dst, true, b, e)
    ensures var (dst', done') := ListStep(src[i], dst, true, b, e);
            ListProgress(src, i + 1, dst', done', b, e)
  {
    var p, rest := src[i], src[i + 1..];
    InsertUncons(src, i, Last(dst).bgn, Last(dst).end);
    assert src[i - 1].end < p.bgn;
    var front := dst[..|dst| - 1];
    assert dst == front + [Last(dst)];
    var (dst', _) := ListStep(p, dst, true, b, e);
    if e < p.bgn {
      assert dst'[..|dst'| - 1] == dst;
      Regroup(Insert(src, b, e), front, [Last(dst), p] + rest, [Last(dst)], [p] + rest);
    } else {
      assert dst'[..|dst'| - 1] == front;
    }
  }

  lemma {:induction false} LoopProgress(src: Parts, i: nat, b: nat, e: nat)
    requires Separated(src) && i <= |src| && b <= e
    ensures ListProgress(src, i, LoopState(src, i, b, e).0, LoopState(src, i, b, e).1, b, e)
  {
    if i == 0 {
      assert src[0..] == src;
    } else {
      LoopProgress(src, i - 1, b, e);
      var (dst, newDone) := LoopState(src, i - 1, b, e);
      if newDone { AbsorbStep(src, i - 1, dst, b, e); } else { FoundStep(src, i - 1, dst, b, e); }
    }
  }

  /** The loops, with the insertion after them, compute `Insert`. */
  lemma {:induction false} LoopComputesInsert(src: Parts, b: nat, e: nat)
    requires Separated(src) && b <= e
    ensures var (dst, newDone) := LoopState(src, |src|, b, e);
            Insert(src, b, e) == if newDone then dst else dst + [Part(b, e)]
  {
    LoopProgress(src, |src|, b, e);
    var (dst, newDone) := LoopState(src, |src|, b, e);
    assert src[|src|..] == [];
    if newDone { assert dst[..|dst| - 1] + [Last(dst)] == dst; }
  }

  /** The calls still to come after i turns. */
  ghost function CallsToCome(src: Parts, i: nat, newDone: bool, b: nat, frag: Bytes): seq<Call>
    requires Separated(src) && i <= |src| && (newDone && i < |src| ==> b < src[i].bgn)
  {
    if newDone then TailChecks(src[i..], b, frag) else MergeCalls(src[i..], b, frag)
  }

  lemma CallsStep(src: Parts, i: nat, newDone: bool, b: nat, frag: Bytes)
    requires Separated(src) && i < |src| && (newDone ==> b < src[i].bgn)
    ensures Found(src, i + 1, b) && i + 1 < |src| ==> b < src[i + 1].bgn
    ensures CallsToCome(src, i, newDone, b, frag)
            == StepCalls(src[i], newDone, b, frag) + CallsToCome(src, i + 1, Found(src, i + 1, b), b, frag)
  {
    assert src[i..][1..] == src[i + 1..];
    assert i + 1 < |src| ==> src[i].end < src[i + 1].bgn;
  }

  lemma {:induction false} LoopCallsProgress(src: Parts, i: nat, b: nat, frag: Bytes)
    requires Separated(src) && i <= |src|
    ensures Found(src, i, b) && i < |src| ==> b < src[i].bgn
    ensures MergeCalls(src, b, frag) == LoopCalls(src, i, b, frag) + CallsToCome(src, i, Found(src, i, b), b, frag)
  {
    if i == 0 {
      assert src[0..] == src;
    } else {
      LoopCallsProgress(src, i - 1, b, frag);
      var newDone := Found(src, i - 1, b);
      CallsStep(src, i - 1, newDone, b, frag);
      Regroup(MergeCalls(src, b, frag), LoopCalls(src, i - 1, b, frag), CallsToCome(src, i - 1, newDone, b, frag),
                 StepCalls(src[i - 1], newDone, b, frag), CallsToCome(src, i, Found(src, i, b), b, frag));
    }
  }

  lemma {:induction false} LoopIssuesMergeCalls(src: Parts, b: nat, frag: Bytes)
    requires Separated(src)
    ensures MergeCalls(src, b, frag) == LoopCalls(src, |src|, b, frag)
            + if Found(src, |src|, b) then [] else [Store(b, frag)]
  {
    LoopCallsProgress(src, |src|, b, frag);
  }
}
