/**
 One blob sent over an unreliable channel: a sender and a receiver of the transfer
 protocol, joined by a channel that may lose, duplicate and reorder both fragments and
 resend requests. Every run of events is considered.
 */
module Transfer {
  import opened Basics
  import opened Intervals
  import opened MergeSpec
  import opened TransferSpec

  datatype Fragment = Fragment(offs: nat, data: Bytes)

  datatype Request = Request(bgn: nat, end: nat)

  datatype Receiver = Idle | Receiving(done: Parts, buf: Bytes)

  /**
   `alive` holds until the sender erased its blob, after which `todo` is what it never sent;
   `lost` remembers the fragments that never reached a buffer; `handed` the contents given
   to the fetch handler; `checked` whether every merge reported success; `first` holds until
   a reception ended, by completion or by timeout.
   */
  datatype State = State(
    todo: Parts,
    alive: bool,
    flight: multiset<Fragment>,
    lost: multiset<Fragment>,
    requests: multiset<Request>,
    receiver: Receiver,
    handed: seq<Bytes>,
    checked: bool,
    first: bool)

  datatype Event =
    | Send(free: nat)
    | Deliver(f: Fragment)
    | Duplicate(f: Fragment)
    | Lose(f: Fragment)
    | Ask(maxMessageSize: nat)
    | DeliverRequest(r: Request)
    | DuplicateRequest(r: Request)
    | LoseRequest(r: Request)
    | Fetch
    | Timeout
    | Expire

  ghost function Init(blob: Bytes): State {
    State([Part(0, |blob|)], true, multiset{}, multiset{}, multiset{}, Idle, [], true, true)
  }

  /** The receiver after merging a fragment, and the result of the merge. */
  ghost function MergeInto(total: nat, r: Receiver, f: Fragment): (Receiver, bool) {
    var done := if r.Idle? then [] else r.done;
    var buf := if r.Idle? then seq(total, _ => 0) else r.buf;
    if !Separated(done) then (r, false)
    else
      var (buf', ok) := RunCalls(buf, MergeCalls(done, f.offs, f.data));
      (Receiving(Insert(done, f.offs, f.offs + |f.data|), buf'), ok)
  }

  /** A fragment arriving at the receiver. */
  ghost function Receive(total: nat, s: State, f: Fragment): State {
    if !(f.offs < total && f.offs + |f.data| <= total) then s
    else if s.receiver.Idle? && total >= MAX_BLOB_SIZE then s.(lost := s.lost + multiset{f})
    else
      var (r, ok) := MergeInto(total, s.receiver, f);
      s.(receiver := r, checked := s.checked && ok)
  }

  ghost function Step(blob: Bytes, s: State, ev: Event): State {
    match ev
    case Send(free) =>
      if !s.alive || SentEverything(s.todo, |blob|) then s
      else
        var b, w := Last(s.todo).bgn, NextSize(s.todo, |blob|, free);
        if w == 0 then s
        else s.(todo := AfterSend(s.todo, |blob|, free), flight := s.flight + multiset{Fragment(b, blob[b..b + w])})
    case Deliver(f) =>
      if f in s.flight then Receive(|blob|, s.(flight := s.flight - multiset{f}), f) else s
    case Duplicate(f) =>
      if f in s.flight then s.(flight := s.flight + multiset{f}) else s
    case Lose(f) =>
      if f in s.flight then s.(flight := s.flight - multiset{f}, lost := s.lost + multiset{f}) else s
    case Ask(maxMessageSize) =>
      if s.receiver.Idle? || s.receiver.done == [] then s
      else
        var (b, e) := DoneBeginEnd(s.receiver.done, |blob|, maxMessageSize);
        if 0 <= b && 0 <= e then s.(requests := s.requests + multiset{Request(b, e)}) else s
    case DeliverRequest(r) =>
      if r in s.requests then
        s.(requests := s.requests - multiset{r},
           todo := if s.alive then AfterResend(s.todo, |blob|, r.bgn, r.end) else s.todo)
      else s
    case DuplicateRequest(r) =>
      if r in s.requests then s.(requests := s.requests + multiset{r}) else s
    case LoseRequest(r) =>
      if r in s.requests then s.(requests := s.requests - multiset{r}) else s
    case Fetch =>
      if s.receiver.Receiving? && ReceivedEverything(s.receiver.done, |blob|) then
        s.(receiver := Idle, handed := s.handed + [s.receiver.buf], first := false)
      else s
    case Timeout =>
      s.(receiver := Idle, first := false)
    case Expire =>
      s.(alive := false)
  }

  ghost function RunFrom(blob: Bytes, s: State, evs: seq<Event>): State
    decreases |evs|
  {
    if evs == [] then s else RunFrom(blob, Step(blob, s, evs[0]), evs[1..])
  }

  ghost function Run(blob: Bytes, evs: seq<Event>): State { RunFrom(blob, Init(blob), evs) }

  // Invariant --------------------------------------------------------------------

  ghost predicate HonestFragment(blob: Bytes, f: Fragment) {
    f.data != [] && IsPieceOf(blob, f.offs, f.data)
  }

  ghost predicate Carries(f: Fragment, x: int) { f.offs <= x < f.offs + |f.data| }

  ghost predicate SomeCarries(fs: multiset<Fragment>, x: int) { exists f :: f in fs && Carries(f, x) }

  ghost predicate Held(r: Receiver, x: int) { r.Receiving? && Covers(r.done, x) }

  ghost predicate GoodReceiver(blob: Bytes, r: Receiver) {
    r.Receiving? ==>
      && |blob| < MAX_BLOB_SIZE
      && Canonical(r.done) && GoodDone(r.done, |blob|) && r.done != []
      && InSync(r.buf, blob, r.done)
  }

  /** What is still to be sent, and what a sender that is gone never sent. */
  function ToSend(s: State): Parts { if s.alive then s.todo else [] }

  function GivenUp(s: State): Parts { if s.alive then [] else s.todo }

  /** The byte is somewhere: to be sent or given up, under way, lost, or received. */
  ghost predicate Accounted(s: State, x: int) {
    Covers(s.todo, x) || SomeCarries(s.flight, x) || SomeCarries(s.lost, x) || Held(s.receiver, x)
  }

  ghost predicate Inv(blob: Bytes, s: State) {
    && GoodTodo(s.todo, |blob|)
    && (forall f :: f in s.flight || f in s.lost ==> HonestFragment(blob, f))
    && (forall r :: r in s.requests ==> r.end <= |blob|)
    && GoodReceiver(blob, s.receiver)
    && (forall i :: 0 <= i < |s.handed| ==> s.handed[i] == blob)
    && s.checked
    && (s.first ==> s.handed == [] && forall x :: 0 <= x < |blob| ==> Accounted(s, x))
  }

  lemma InitInv(blob: Bytes)
    requires |blob| > 0
    ensures Inv(blob, Init(blob))
  {
    var s := Init(blob);
    forall x | 0 <= x < |blob| ensures Accounted(s, x) { assert Within(s.todo[0], x); }
  }

  /** A byte stays accounted for when nothing that carries it is dropped without trace. */
  lemma StaysAccounted(s: State, t: State, x: int)
    requires Accounted(s, x)
    requires Covers(s.todo, x) ==> Accounted(t, x)
    requires forall f :: f in s.flight && Carries(f, x) ==> f in t.flight || f in t.lost || Held(t.receiver, x)
    requires forall f :: f in s.lost ==> f in t.lost
    requires Held(s.receiver, x) ==> Held(t.receiver, x)
    ensures Accounted(t, x)
  {
    if SomeCarries(s.flight, x) {
      var f :| f in s.flight && Carries(f, x);
      assert f in t.flight || f in t.lost || Held(t.receiver, x);
    }
    if SomeCarries(s.lost, x) {
      var f :| f in s.lost && Carries(f, x);
      assert f in t.lost;
    }
  }

  lemma SendKeepsInv(blob: Bytes, s: State, free: nat)
    requires Inv(blob, s)
    ensures Inv(blob, Step(blob, s, Send(free)))
  {
    var t := Step(blob, s, Send(free));
    if t != s {
      AfterSendGood(s.todo, |blob|, free);
      var f := Fragment(Last(s.todo).bgn, blob[Last(s.todo).bgn..Last(s.todo).bgn + NextSize(s.todo, |blob|, free)]);
      assert f in t.flight;
      forall x | 0 <= x < |blob| && Accounted(s, x) ensures Accounted(t, x) {
        AfterSendCovers(s.todo, |blob|, free, x);
        if Covers(s.todo, x) && !Covers(t.todo, x) { assert Carries(f, x); }
        StaysAccounted(s, t, x);
      }
    }
  }

  /** A fragment moves from the flight to the lost ones. */
  lemma DropKeepsInv(blob: Bytes, s: State, f: Fragment)
    requires Inv(blob, s) && f in s.flight
    ensures Inv(blob, s.(flight := s.flight - multiset{f}, lost := s.lost + multiset{f}))
  {
    var t := s.(flight := s.flight - multiset{f}, lost := s.lost + multiset{f});
    forall x | 0 <= x < |blob| && Accounted(s, x) ensures Accounted(t, x) { StaysAccounted(s, t, x); }
  }

  lemma MergeGood(blob: Bytes, done: Parts, buf: Bytes, f: Fragment)
    requires Canonical(done) && Bounded(done, |blob|) && InSync(buf, blob, done) && HonestFragment(blob, f)
    ensures var done' := Insert(done, f.offs, f.offs + |f.data|);
            && RunCalls(buf, MergeCalls(done, f.offs, f.data)).1
            && InSync(RunCalls(buf, MergeCalls(done, f.offs, f.data)).0, blob, done')
            && Canonical(done') && Bounded(done', |blob|) && done' != []
            && forall x: int :: Covers(done', x) <==> Covers(done, x) || Carries(f, x)
  {
    var e := f.offs + |f.data|;
    MergeKeepsSync(done, f.offs, f.data, buf, blob);
    InsertCanonicalIff(done, f.offs, e);
    InsertSeparated(done, f.offs, e);
    InsertBounded(done, f.offs, e, |blob|);
    forall x: int ensures Covers(Insert(done, f.offs, e), x) <==> Covers(done, x) || Carries(f, x) {
      InsertCovers(done, f.offs, e, x);
    }
  }

  lemma MergeKeepsReceiver(blob: Bytes, r: Receiver, f: Fragment)
    requires GoodReceiver(blob, r) && HonestFragment(blob, f) && |blob| < MAX_BLOB_SIZE
    ensures var (r', ok) := MergeInto(|blob|, r, f);
            && ok && r'.Receiving? && GoodReceiver(blob, r')
            && forall x :: Held(r', x) <==> Held(r, x) || Carries(f, x)
  {
    if r.Idle? {
      MergeGood(blob, [], seq(|blob|, _ => 0), f);
    } else {
      MergeGood(blob, r.done, r.buf, f);
    }
  }

  lemma {:induction false} ReceiveKeepsInv(blob: Bytes, s: State, f: Fragment)
    requires Inv(blob, s) && f in s.flight
    ensures Inv(blob, Step(blob, s, Deliver(f)))
  {
    if s.receiver.Idle? && |blob| >= MAX_BLOB_SIZE {
      DropKeepsInv(blob, s, f);
    } else {
      assert HonestFragment(blob, f);
      MergeKeepsReceiver(blob, s.receiver, f);
      var t := Step(blob, s, Deliver(f));
      assert t.flight == s.flight - multiset{f};
      forall x | 0 <= x < |blob| && Accounted(s, x) ensures Accounted(t, x) { StaysAccounted(s, t, x); }
    }
  }

  lemma {:induction false} DuplicateKeepsInv(blob: Bytes, s: State, f: Fragment)
    requires Inv(blob, s)
    ensures Inv(blob, Step(blob, s, Duplicate(f)))
  {
    var t := Step(blob, s, Duplicate(f));
    forall x | 0 <= x < |blob| && Accounted(s, x) ensures Accounted(t, x) { StaysAccounted(s, t, x); }
  }

  /** Events that touch neither the fragments nor what either side holds. */
  lemma {:induction false} OthersKeepInv(blob: Bytes, s: State, ev: Event)
    requires Inv(blob, s) && (ev.DuplicateRequest? || ev.LoseRequest? || ev.Expire?)
    ensures Inv(blob, Step(blob, s, ev))
  {
    var t := Step(blob, s, ev);
    assert forall x :: Accounted(s, x) ==> Accounted(t, x);
  }

  lemma AskKeepsInv(blob: Bytes, s: State, maxMessageSize: nat)
    requires Inv(blob, s)
    ensures Inv(blob, Step(blob, s, Ask(maxMessageSize)))
    ensures s.receiver.Receiving? ==>
              var (b, e) := DoneBeginEnd(s.receiver.done, |blob|, maxMessageSize);
              && b >= 0 && e >= 0
              && Step(blob, s, Ask(maxMessageSize)) == s.(requests := s.requests + multiset{Request(b, e)})
  {
    var t := Step(blob, s, Ask(maxMessageSize));
    if s.receiver.Receiving? {
      var done := s.receiver.done;
      assert |done| > 1 ==> done[0].end < done[1].bgn <= done[1].end <= |blob|;
      assert done[0].bgn <= done[0].end <= |blob|;
    }
    assert forall x :: Accounted(s, x) ==> Accounted(t, x);
  }

  lemma RequestKeepsInv(blob: Bytes, s: State, r: Request)
    requires Inv(blob, s)
    ensures Inv(blob, Step(blob, s, DeliverRequest(r)))
  {
    var t := Step(blob, s, DeliverRequest(r));
    if r in s.requests {
      AfterResendGoodIff(s.todo, |blob|, r.bgn, r.end);
      var end := if r.end == 0 then |blob| else r.end;
      forall x | 0 <= x < |blob| && Accounted(s, x) ensures Accounted(t, x) {
        if r.bgn < end { InsertCovers(s.todo, r.bgn, end, x); }
      }
    }
  }

  lemma FetchKeepsInv(blob: Bytes, s: State)
    requires Inv(blob, s)
    ensures Inv(blob, Step(blob, s, Fetch))
  {
    var t := Step(blob, s, Fetch);
    if t != s {
      assert |blob| > 0;
      ReceivedEverythingIff(s.receiver.done, |blob|);
      assert s.receiver.buf == blob;
    }
  }

  lemma StepKeepsInv(blob: Bytes, s: State, ev: Event)
    requires Inv(blob, s)
    ensures Inv(blob, Step(blob, s, ev))
  {
    match ev
    case Send(free) => SendKeepsInv(blob, s, free);
    case Deliver(f) => if f in s.flight { ReceiveKeepsInv(blob, s, f); }
    case Duplicate(f) => DuplicateKeepsInv(blob, s, f);
    case Lose(f) => if f in s.flight { DropKeepsInv(blob, s, f); }
    case Ask(m) => AskKeepsInv(blob, s, m);
    case DeliverRequest(r) => RequestKeepsInv(blob, s, r);
    case DuplicateRequest(_) => OthersKeepInv(blob, s, ev);
    case LoseRequest(_) => OthersKeepInv(blob, s, ev);
    case Fetch => FetchKeepsInv(blob, s);
    case Timeout =>
    case Expire => OthersKeepInv(blob, s, ev);
  }

  lemma {:induction false} RunFromKeepsInv(blob: Bytes, s: State, evs: seq<Event>)
    requires Inv(blob, s)
    ensures Inv(blob, RunFrom(blob, s, evs))
    decreases |evs|
  {
    if evs != [] {
      StepKeepsInv(blob, s, evs[0]);
      RunFromKeepsInv(blob, Step(blob, s, evs[0]), evs[1..]);
    }
  }

  lemma RunKeepsInv(blob: Bytes, evs: seq<Event>)
    requires |blob| > 0
    ensures Inv(blob, Run(blob, evs))
  {
    InitInv(blob);
    RunFromKeepsInv(blob, Init(blob), evs);
  }

  // Main results -----------------------------------------------------------------

  /**
   Over every run, the receiver's buffer holds the blob's bytes on all its done intervals,
   every check succeeds, and whatever is handed over is exactly the blob.
   */
  lemma TransferIsSafe(blob: Bytes, evs: seq<Event>)
    requires |blob| > 0
    ensures var s := Run(blob, evs);
            && (forall i :: 0 <= i < |s.handed| ==> s.handed[i] == blob)
            && s.checked
            && (s.receiver.Receiving? ==>
                  && |s.receiver.buf| == |blob|
                  && forall x :: 0 <= x < |blob| && Covers(s.receiver.done, x) ==> s.receiver.buf[x] == blob[x])
  {
    RunKeepsInv(blob, evs);
  }

  /** The sender's list stays sorted, separated, non-empty-interval and inside the blob. */
  lemma SenderListIsGood(blob: Bytes, evs: seq<Event>)
    requires |blob| > 0
    ensures GoodTodo(Run(blob, evs).todo, |blob|)
    ensures SentEverything(Run(blob, evs).todo, |blob|) <==> Run(blob, evs).todo == []
  {
    RunKeepsInv(blob, evs);
    SentEverythingIffEmpty(Run(blob, evs).todo, |blob|);
  }

  /**
   Until the first reception ends, every byte is to be sent, under way, lost or received, or
   the sender is gone and never sent it.
   */
  lemma BytesAreConserved(blob: Bytes, evs: seq<Event>, x: nat)
    requires x < |blob| && Run(blob, evs).first
    ensures var s := Run(blob, evs);
            || Covers(ToSend(s), x) || Covers(GivenUp(s), x)
            || SomeCarries(s.flight, x) || SomeCarries(s.lost, x) || Held(s.receiver, x)
  {
    RunKeepsInv(blob, evs);
    assert Accounted(Run(blob, evs), x);
  }

  ghost predicate Complete(blob: Bytes, s: State) {
    s.receiver.Receiving? && ReceivedEverything(s.receiver.done, |blob|)
  }

  lemma CompleteIffHeld(blob: Bytes, s: State)
    requires Inv(blob, s) && |blob| > 0
    ensures Complete(blob, s) <==> forall x :: 0 <= x < |blob| ==> Held(s.receiver, x)
    ensures Complete(blob, s) ==> s.receiver.buf == blob
  {
    if s.receiver.Receiving? {
      ReceivedEverythingIff(s.receiver.done, |blob|);
      assert forall x :: Held(s.receiver, x) <==> Covers(s.receiver.done, x);
      if forall x :: 0 <= x < |blob| ==> Held(s.receiver, x) {
        forall x | 0 <= x < |blob| ensures Covers(s.receiver.done, x) { assert Held(s.receiver, x); }
      }
    } else {
      assert !Held(s.receiver, 0);
    }
  }

  /**
   When nothing was lost and nothing is under way, everything arrived exactly when all that
   is left unsent was received anyway; so always when the sender has sent everything, and
   never when it is gone without having sent some byte that did not arrive.
   */
  lemma LosslessRunCompletes(blob: Bytes, evs: seq<Event>)
    requires |blob| > 0
    requires var s := Run(blob, evs); s.first && s.lost == multiset{} && s.flight == multiset{}
    ensures var s := Run(blob, evs);
            && (Complete(blob, s) <==> forall x :: 0 <= x < |blob| && Covers(s.todo, x) ==> Held(s.receiver, x))
            && (SentEverything(s.todo, |blob|) ==> Complete(blob, s))
            && (Complete(blob, s) ==> s.receiver.buf == blob)
  {
    RunKeepsInv(blob, evs);
    var s := Run(blob, evs);
    SentEverythingIffEmpty(s.todo, |blob|);
    CompleteIffHeld(blob, s);
    forall x | 0 <= x < |blob| ensures Covers(s.todo, x) || Held(s.receiver, x) { assert Accounted(s, x); }
  }

  // Recovery ---------------------------------------------------------------------

  /** A byte the receiver misses and no fragment under way carries. */
  ghost predicate OutOfReach(blob: Bytes, s: State, x: int) {
    0 <= x < |blob| && !Held(s.receiver, x) && !SomeCarries(s.flight, x)
  }

  /**
   Nothing can be handed over any more. The blob is too big to be received; or the receiver
   waits for a first fragment, and there is none to send, none under way and no request that
   would make the sender send one; or the sender is gone, and some byte is out of reach.
   */
  ghost predicate Stuck(blob: Bytes, s: State) {
    || (s.receiver.Idle? && |blob| >= MAX_BLOB_SIZE)
    || (s.alive && s.receiver.Idle? && s.flight == multiset{} && s.todo == []
        && forall r :: r in s.requests ==> AfterResend([], |blob|, r.bgn, r.end) == [])
    || (!s.alive && exists x :: OutOfReach(blob, s, x))
  }

  lemma {:induction false} GoneDelivered(blob: Bytes, s: State, f: Fragment, x: int)
    requires Inv(blob, s) && !s.alive && OutOfReach(blob, s, x) && f in s.flight
    ensures var t := Step(blob, s, Deliver(f)); !t.alive && OutOfReach(blob, t, x) && t.handed == s.handed
  {
    var t := Step(blob, s, Deliver(f));
    assert t.flight <= s.flight;
    if !(s.receiver.Idle? && |blob| >= MAX_BLOB_SIZE) {
      assert HonestFragment(blob, f) && !Carries(f, x);
      MergeKeepsReceiver(blob, s.receiver, f);
      assert !Held(t.receiver, x);
    }
  }

  lemma {:induction false} GoneFetched(blob: Bytes, s: State, x: int)
    requires Inv(blob, s) && OutOfReach(blob, s, x)
    ensures Step(blob, s, Fetch) == s
  {
    if s.receiver.Receiving? { ReceivedEverythingIff(s.receiver.done, |blob|); }
  }

  lemma GoneOtherwise(blob: Bytes, s: State, ev: Event, x: int)
    requires !s.alive && OutOfReach(blob, s, x) && !ev.Fetch? && (ev.Deliver? ==> ev.f !in s.flight)
    ensures var t := Step(blob, s, ev); !t.alive && OutOfReach(blob, t, x) && t.handed == s.handed
  {
    var t := Step(blob, s, ev);
    assert forall f :: f in t.flight ==> f in s.flight;
  }

  /** Without the sender a byte out of reach stays so, and the blob incomplete. */
  lemma {:induction false} GoneStays(blob: Bytes, s: State, ev: Event, x: int)
    requires Inv(blob, s) && !s.alive && OutOfReach(blob, s, x)
    ensures var t := Step(blob, s, ev); !t.alive && OutOfReach(blob, t, x) && t.handed == s.handed
  {
    if ev.Deliver? && ev.f in s.flight {
      GoneDelivered(blob, s, ev.f, x);
    } else if ev.Fetch? {
      GoneFetched(blob, s, x);
    } else {
      GoneOtherwise(blob, s, ev, x);
    }
  }

  lemma {:induction false} QuietStays(blob: Bytes, s: State, ev: Event)
    requires s.alive && s.receiver.Idle? && s.flight == multiset{} && s.todo == [] && |blob| > 0
    requires forall r :: r in s.requests ==> AfterResend([], |blob|, r.bgn, r.end) == []
    ensures Stuck(blob, Step(blob, s, ev)) && Step(blob, s, ev).handed == s.handed
  {
    var t := Step(blob, s, ev);
    if ev.DeliverRequest? && ev.r in s.requests {
      assert AfterResend(s.todo, |blob|, ev.r.bgn, ev.r.end) == [];
    } else {
      assert t.todo == [] && t.flight == multiset{};
    }
    if ev.Expire? { assert OutOfReach(blob, t, 0); }
  }

  lemma {:induction false} StuckStays(blob: Bytes, s: State, ev: Event)
    requires Inv(blob, s) && |blob| > 0 && Stuck(blob, s)
    ensures Stuck(blob, Step(blob, s, ev)) && Step(blob, s, ev).handed == s.handed
  {
    if s.receiver.Idle? && |blob| >= MAX_BLOB_SIZE {
      assert Step(blob, s, ev).receiver.Idle?;
    } else if s.alive {
      QuietStays(blob, s, ev);
    } else {
      var x :| OutOfReach(blob, s, x);
      GoneStays(blob, s, ev, x);
    }
  }

  lemma {:induction false} StuckForever(blob: Bytes, s: State, evs: seq<Event>)
    requires Inv(blob, s) && |blob| > 0 && Stuck(blob, s)
    ensures RunFrom(blob, s, evs).handed == s.handed
    decreases |evs|
  {
    if evs != [] {
      StuckStays(blob, s, evs[0]);
      StepKeepsInv(blob, s, evs[0]);
      StuckForever(blob, Step(blob, s, evs[0]), evs[1..]);
    }
  }

  lemma {:induction false} RunFromConcat(blob: Bytes, s: State, xs: seq<Event>, ys: seq<Event>)
    ensures RunFrom(blob, s, xs + ys) == RunFrom(blob, RunFrom(blob, s, xs), ys)
    decreases |xs|
  {
    if xs == [] {
      assert xs + ys == ys;
    } else {
      assert (xs + ys)[0] == xs[0] && (xs + ys)[1..] == xs[1..] + ys;
      RunFromConcat(blob, Step(blob, s, xs[0]), xs[1..], ys);
    }
  }

  lemma RunTwo(blob: Bytes, s: State, x: Event, y: Event)
    ensures RunFrom(blob, s, [x, y]) == Step(blob, Step(blob, s, x), y)
  {
    assert [x, y][1..] == [y] && [y][1..] == [];
    assert RunFrom(blob, Step(blob, s, x), [y]) == Step(blob, Step(blob, s, x), y);
  }

  /** t is what s may become while fragments are sent and delivered: nothing held is given up. */
  ghost predicate Advanced(s: State, t: State) {
    && t.handed == s.handed && t.alive == s.alive
    && (s.receiver.Receiving? ==> t.receiver.Receiving?)
    && forall x :: Held(s.receiver, x) ==> Held(t.receiver, x)
  }

  /** Delivering a fragment adds its bytes to the done list. */
  lemma DeliverAdvances(blob: Bytes, s: State, f: Fragment)
    requires Inv(blob, s) && f in s.flight && |blob| < MAX_BLOB_SIZE
    ensures var t := Step(blob, s, Deliver(f));
            && Advanced(s, t) && t.receiver.Receiving? && t.todo == s.todo
            && forall x :: Carries(f, x) ==> Held(t.receiver, x)
  {
    assert HonestFragment(blob, f);
    MergeKeepsReceiver(blob, s.receiver, f);
  }

  /** One fragment sent and delivered: its bytes move from the todo list to the done list. */
  lemma {:induction false} OneAcross(blob: Bytes, s: State) returns (t: State, ext: seq<Event>)
    requires Inv(blob, s) && |blob| < MAX_BLOB_SIZE && s.alive && s.todo != []
    ensures t == RunFrom(blob, s, ext) && Inv(blob, t) && Advanced(s, t) && t.receiver.Receiving?
    ensures 0 <= Size(t.todo) < Size(s.todo)
    ensures forall x :: Covers(s.todo, x) ==> Covers(t.todo, x) || Held(t.receiver, x)
  {
    var b, w := Last(s.todo).bgn, NextSize(s.todo, |blob|, 1);
    assert Last(s.todo).bgn < Last(s.todo).end <= |blob|;
    SentEverythingIffEmpty(s.todo, |blob|);
    var f := Fragment(b, blob[b..b + w]);
    var s1 := Step(blob, s, Send(1));
    SendKeepsInv(blob, s, 1);
    AfterSendShrinks(s.todo, |blob|, 1);
    t := Step(blob, s1, Deliver(f));
    StepKeepsInv(blob, s1, Deliver(f));
    DeliverAdvances(blob, s1, f);
    ext := [Send(1), Deliver(f)];
    RunTwo(blob, s, Send(1), Deliver(f));
    forall x | Covers(s.todo, x) ensures Covers(t.todo, x) || Held(t.receiver, x) {
      AfterSendCovers(s.todo, |blob|, 1, x);
      assert Carries(f, x) ==> Held(t.receiver, x);
    }
  }

  /** Sending and delivering until the sender is idle gets all its bytes across. */
  lemma {:induction false} Drain(blob: Bytes, s: State) returns (t: State, ext: seq<Event>)
    requires Inv(blob, s) && |blob| < MAX_BLOB_SIZE && s.alive
    ensures t == RunFrom(blob, s, ext) && Inv(blob, t) && Advanced(s, t) && t.todo == []
    ensures s.todo != [] ==> t.receiver.Receiving?
    ensures forall x :: Covers(s.todo, x) ==> Held(t.receiver, x)
    decreases Size(s.todo)
  {
    if s.todo == [] {
      t, ext := s, [];
    } else {
      var mid, one := OneAcross(blob, s);
      var rest;
      t, rest := Drain(blob, mid);
      ext := one + rest;
      RunFromConcat(blob, s, one, rest);
    }
  }

  /** Asking gets the first missing byte onto the sender's list. */
  lemma {:induction false} AskTrip(blob: Bytes, s: State) returns (t: State, ext: seq<Event>, x: nat)
    requires Inv(blob, s) && |blob| > 0 && s.alive && s.receiver.Receiving? && !CoversAll(s.receiver.done, |blob|)
    ensures t == RunFrom(blob, s, ext) && Inv(blob, t) && t.alive
    ensures t.receiver == s.receiver && t.handed == s.handed
    ensures x < |blob| && !Covers(s.receiver.done, x) && Covers(t.todo, x)
  {
    var (b, e) := DoneBeginEnd(s.receiver.done, |blob|, 2);
    ResendAsksForFirstGap(s.receiver.done, |blob|, 2);
    x := b;
    var s1 := s.(requests := s.requests + multiset{Request(b, e)});
    AskKeepsInv(blob, s, 2);
    t := Step(blob, s1, DeliverRequest(Request(b, e)));
    RequestKeepsInv(blob, s1, Request(b, e));
    assert Request(b, e) in s1.requests;
    assert t.todo == Insert(s.todo, b, e);
    InsertCovers(s.todo, b, e, b);
    ext := [Ask(2), DeliverRequest(Request(b, e))];
    RunTwo(blob, s, Ask(2), DeliverRequest(Request(b, e)));
  }

  /** Asking, and draining the sender that got the request, fills the first missing byte. */
  lemma {:induction false} RepairTrip(blob: Bytes, s: State) returns (ext: seq<Event>)
    requires Inv(blob, s) && |blob| > 0 && s.alive && s.receiver.Receiving? && !CoversAll(s.receiver.done, |blob|)
    ensures var t := RunFrom(blob, s, ext);
            && Inv(blob, t) && t.alive && t.handed == s.handed && t.receiver.Receiving?
            && Missing(t.receiver.done, |blob|) < Missing(s.receiver.done, |blob|)
  {
    var t, ask, x := AskTrip(blob, s);
    var u, more := Drain(blob, t);
    ext := ask + more;
    RunFromConcat(blob, s, ask, more);
    assert Held(u.receiver, x);
    forall y | Covers(s.receiver.done, y) ensures Covers(u.receiver.done, y) {
      assert Held(t.receiver, y);
    }
    FewerMissing(s.receiver.done, u.receiver.done, |blob|, x);
  }

  lemma {:induction false} FetchFinishes(blob: Bytes, s: State) returns (ext: seq<Event>)
    requires Inv(blob, s) && |blob| > 0 && Complete(blob, s)
    ensures RunFrom(blob, s, ext).handed == s.handed + [blob]
  {
    ext := [Fetch];
    assert [Fetch][1..] == [];
    CompleteIffHeld(blob, s);
  }

  /** While there is a sender, a receiver that has started can be brought to completion. */
  lemma {:induction false} Finish(blob: Bytes, s: State) returns (ext: seq<Event>)
    requires Inv(blob, s) && |blob| > 0 && s.alive && s.receiver.Receiving?
    ensures RunFrom(blob, s, ext).handed == s.handed + [blob]
    decreases Missing(s.receiver.done, |blob|)
  {
    ReceivedEverythingIff(s.receiver.done, |blob|);
    if Complete(blob, s) {
      ext := FetchFinishes(blob, s);
    } else {
      var trip := RepairTrip(blob, s);
      var rest := Finish(blob, RunFrom(blob, s, trip));
      ext := trip + rest;
      RunFromConcat(blob, s, trip, rest);
    }
  }

  /** Bytes the receiver has not got. */
  ghost function NotHeld(blob: Bytes, s: State): nat {
    Missing(if s.receiver.Receiving? then s.receiver.done else [], |blob|)
  }

  /** Delivering a fragment leaves in reach what was in reach, and lowers what is missing. */
  lemma {:induction false} ReachStays(blob: Bytes, s: State, f: Fragment, x: int)
    requires Inv(blob, s) && |blob| < MAX_BLOB_SIZE && f in s.flight
    requires 0 <= x < |blob| && !Held(s.receiver, x) && Carries(f, x)
    requires forall y :: !OutOfReach(blob, s, y)
    ensures var t := Step(blob, s, Deliver(f));
            && Inv(blob, t) && t.handed == s.handed && t.alive == s.alive
            && NotHeld(blob, t) < NotHeld(blob, s)
            && forall y :: !OutOfReach(blob, t, y)
  {
    var t := Step(blob, s, Deliver(f));
    StepKeepsInv(blob, s, Deliver(f));
    DeliverAdvances(blob, s, f);
    forall y ensures !OutOfReach(blob, t, y) {
      if 0 <= y < |blob| && !Held(t.receiver, y) {
        assert !Held(s.receiver, y) && !OutOfReach(blob, s, y);
        var g :| g in s.flight && Carries(g, y);
        assert g != f && g in t.flight;
      }
    }
    var before := if s.receiver.Receiving? then s.receiver.done else [];
    forall y | Covers(before, y) ensures Covers(t.receiver.done, y) { assert Held(s.receiver, y); }
    assert Held(t.receiver, x);
    FewerMissing(before, t.receiver.done, |blob|, x);
  }

  /** With every missing byte under way, delivering what carries them completes the blob. */
  lemma {:induction false} FinishFromFlight(blob: Bytes, s: State) returns (ext: seq<Event>)
    requires Inv(blob, s) && 0 < |blob| < MAX_BLOB_SIZE && forall y :: !OutOfReach(blob, s, y)
    ensures RunFrom(blob, s, ext).handed == s.handed + [blob]
    decreases NotHeld(blob, s)
  {
    CompleteIffHeld(blob, s);
    if Complete(blob, s) {
      ext := FetchFinishes(blob, s);
    } else {
      var x :| 0 <= x < |blob| && !Held(s.receiver, x);
      assert !OutOfReach(blob, s, x);
      var f :| f in s.flight && Carries(f, x);
      ReachStays(blob, s, f, x);
      var rest := FinishFromFlight(blob, Step(blob, s, Deliver(f)));
      ext := [Deliver(f)] + rest;
      assert ext[0] == Deliver(f) && ext[1..] == rest;
    }
  }

  /** From a state that is not stuck, the receiver can be started. */
  lemma {:induction false} Start(blob: Bytes, s: State) returns (t: State, ext: seq<Event>)
    requires Inv(blob, s) && 0 < |blob| && s.alive && !Stuck(blob, s)
    ensures t == RunFrom(blob, s, ext) && Inv(blob, t) && t.alive && t.handed == s.handed && t.receiver.Receiving?
  {
    if s.receiver.Receiving? {
      t, ext := s, [];
    } else if f :| f in s.flight {
      ext := [Deliver(f)];
      assert [Deliver(f)][1..] == [];
      DeliverAdvances(blob, s, f);
      StepKeepsInv(blob, s, Deliver(f));
      t := Step(blob, s, Deliver(f));
    } else if s.todo != [] {
      t, ext := Drain(blob, s);
    } else {
      assert s.flight == multiset{};
      var r :| r in s.requests && AfterResend([], |blob|, r.bgn, r.end) != [];
      RequestKeepsInv(blob, s, r);
      var more;
      t, more := Drain(blob, Step(blob, s, DeliverRequest(r)));
      ext := [DeliverRequest(r)] + more;
      assert ext[0] == DeliverRequest(r) && ext[1..] == more;
    }
  }

  /** From a state that is not stuck some continuation hands over the blob. */
  lemma {:induction false} Recover(blob: Bytes, s: State) returns (ext: seq<Event>)
    requires Inv(blob, s) && |blob| > 0 && !Stuck(blob, s)
    ensures RunFrom(blob, s, ext).handed == s.handed + [blob]
  {
    if s.alive {
      var t, start := Start(blob, s);
      var finish := Finish(blob, t);
      ext := start + finish;
      RunFromConcat(blob, s, start, finish);
    } else {
      ext := FinishFromFlight(blob, s);
    }
  }

  /**
   The blob can still be handed over (once more) in some continuation of a run exactly
   when the run is not stuck: while there is a sender, lost or duplicated messages never spoil
   a transfer whose receiver has seen a fragment; without one, what is under way decides.
   */
  lemma RecoverableIff(blob: Bytes, evs: seq<Event>)
    requires |blob| > 0
    ensures !Stuck(blob, Run(blob, evs)) <==>
            exists ext :: RunFrom(blob, Run(blob, evs), ext).handed == Run(blob, evs).handed + [blob]
  {
    RunKeepsInv(blob, evs);
    var s := Run(blob, evs);
    if Stuck(blob, s) {
      forall ext ensures RunFrom(blob, s, ext).handed != s.handed + [blob] {
        StuckForever(blob, s, ext);
      }
    } else {
      var ext := Recover(blob, s);
    }
  }
}
