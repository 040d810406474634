/**
 The outbox of a connection: serialized messages are packed into a block, and those packed
 are removed only later, when the block was sent and more messages may have been queued.
 */
module Outbox {
  import opened Basics
  import opened Bits

  /** Message priorities, idle (0) to critical (4). */
  type Priority = p: nat | p <= 4

  const IDLE: Priority := 0

  const CRITICAL: Priority := 4

  datatype Entry = Entry(data: Bytes, priority: Priority)

  /** The size-prefixing that puts a message into a block, and the way back. */
  datatype Framing = Framing(encode: Bytes -> Bytes, decode: Bytes -> Option<(Bytes, Bytes)>)

  /** Frames are non-empty and can be read back in front of anything; zeros hold no frame. */
  ghost predicate GoodFraming(f: Framing) {
    && (forall d :: f.encode(d) != [])
    && (forall d, rest :: d != [] ==> f.decode(f.encode(d) + rest) == Some((d, rest)))
    && (forall n: nat :: f.decode(Zeros(n)) == None)
  }

  function Zeros(n: nat): Bytes { seq(n, _ => 0) }

  function MaxPriority(a: Priority, b: Priority): Priority { if a < b then b else a }

  // What packing decides ------------------------------------------------------------

  /** Greedy packing: each message goes in when its frame still fits. */
  function Choices(f: Framing, ms: seq<Entry>, room: nat): (c: seq<bool>)
    ensures |c| == |ms|
  {
    if ms == [] then []
    else if |f.encode(ms[0].data)| <= room then
      [true] + Choices(f, ms[1..], room - |f.encode(ms[0].data)|)
    else [false] + Choices(f, ms[1..], room)
  }

  /** Only the first 64 messages are looked at. */
  function Considered(ms: seq<Entry>): seq<Entry> { ms[..Min(64, |ms|)] }

  function PackChoices(f: Framing, ms: seq<Entry>, room: nat): (c: seq<bool>)
    ensures |c| == Min(64, |ms|)
  {
    Choices(f, Considered(ms), room)
  }

  /** The messages chosen, and those left. */
  function Chosen(ms: seq<Entry>, c: seq<bool>): seq<Entry> {
    if ms == [] || c == [] then [] else (if c[0] then [ms[0]] else []) + Chosen(ms[1..], c[1..])
  }

  function Left(ms: seq<Entry>, c: seq<bool>): seq<Entry> {
    if ms == [] || c == [] then ms else (if c[0] then [] else [ms[0]]) + Left(ms[1..], c[1..])
  }

  function Frames(f: Framing, ms: seq<Entry>): Bytes {
    if ms == [] then [] else f.encode(ms[0].data) + Frames(f, ms[1..])
  }

  function TopPriority(ms: seq<Entry>): Priority {
    if ms == [] then IDLE else MaxPriority(ms[0].priority, TopPriority(ms[1..]))
  }

  /** The block: the frames of the chosen messages, in order, filled up with zeros. */
  function Block(f: Framing, ms: seq<Entry>, room: nat): Bytes
    requires |Frames(f, Chosen(ms, PackChoices(f, ms, room)))| <= room
  {
    var frames := Frames(f, Chosen(ms, PackChoices(f, ms, room)));
    frames + Zeros(room - |frames|)
  }

  lemma {:induction false} FramesFit(f: Framing, ms: seq<Entry>, room: nat)
    ensures |Frames(f, Chosen(ms, Choices(f, ms, room)))| <= room
    decreases |ms|
  {
    if ms != [] {
      var n := |f.encode(ms[0].data)|;
      var c := Choices(f, ms, room);
      FramesFit(f, ms[1..], if n <= room then room - n else room);
      assert c[1..] == Choices(f, ms[1..], if n <= room then room - n else room);
      if n <= room { assert Chosen(ms, c)[1..] == Chosen(ms[1..], c[1..]); }
      else { assert Chosen(ms, c) == Chosen(ms[1..], c[1..]); }
    }
  }

  lemma {:induction false} ChosenOfPrefix(ms: seq<Entry>, c: seq<bool>)
    requires |c| <= |ms|
    ensures Chosen(ms, c) == Chosen(ms[..|c|], c)
    decreases |c|
  {
    if c != [] {
      ChosenOfPrefix(ms[1..], c[1..]);
      assert ms[1..][..|c| - 1] == ms[..|c|][1..];
    }
  }

  lemma BlockFits(f: Framing, ms: seq<Entry>, room: nat)
    ensures |Frames(f, Chosen(ms, PackChoices(f, ms, room)))| <= room
    ensures |Block(f, ms, room)| == room
  {
    FramesFit(f, Considered(ms), room);
    ChosenOfPrefix(ms, PackChoices(f, ms, room));
  }

  /**
   What packing chooses: a message goes in exactly when it is among the first 64 and its
   frame fits behind the frames of those chosen before it.
   */
  lemma {:induction false} ChoiceIff(f: Framing, ms: seq<Entry>, room: nat, i: nat)
    requires i < |ms|
    ensures i < 64 <==> i < |PackChoices(f, ms, room)|
    ensures i < 64 ==>
              var c := PackChoices(f, ms, room);
              c[i] <==> |f.encode(ms[i].data)| <= room - |Frames(f, Chosen(ms[..i], c[..i]))|
  {
    if i < 64 {
      ChoiceAt(f, Considered(ms), room, i);
      assert Considered(ms)[..i] == ms[..i];
    }
  }

  lemma {:induction false} ChoiceAt(f: Framing, ms: seq<Entry>, room: nat, i: nat)
    requires i < |ms|
    ensures var c := Choices(f, ms, room);
            c[i] <==> |f.encode(ms[i].data)| <= room - |Frames(f, Chosen(ms[..i], c[..i]))|
    decreases i
  {
    if i > 0 {
      var c, n := Choices(f, ms, room), |f.encode(ms[0].data)|;
      var rest := if n <= room then room - n else room;
      ChoiceAt(f, ms[1..], rest, i - 1);
      assert c[1..] == Choices(f, ms[1..], rest);
      assert ms[..i][1..] == ms[1..][..i - 1] && c[..i][1..] == c[1..][..i - 1];
      var tail := Chosen(ms[1..][..i - 1], c[1..][..i - 1]);
      assert Chosen(ms[..i], c[..i]) == (if c[0] then [ms[0]] else []) + tail;
      FramesCons(f, ms[0], tail);
    }
  }

  lemma FramesCons(f: Framing, m: Entry, ms: seq<Entry>)
    ensures Frames(f, [m] + ms) == f.encode(m.data) + Frames(f, ms)
    ensures [] + ms == ms
  {
    assert ([m] + ms)[1..] == ms;
  }

  /** The info's priority is the highest of those packed, idle when there are none. */
  lemma {:induction false} TopPriorityIsMax(ms: seq<Entry>)
    ensures forall i :: 0 <= i < |ms| ==> ms[i].priority <= TopPriority(ms)
    ensures TopPriority(ms) == IDLE || exists i :: 0 <= i < |ms| && ms[i].priority == TopPriority(ms)
    decreases |ms|
  {
    if ms != [] {
      TopPriorityIsMax(ms[1..]);
      assert forall i :: 0 < i < |ms| ==> ms[i] == ms[1..][i - 1];
      if TopPriority(ms) != IDLE && TopPriority(ms) != ms[0].priority {
        var i :| 0 <= i < |ms[1..]| && ms[1..][i].priority == TopPriority(ms[1..]);
        assert ms[i + 1].priority == TopPriority(ms);
      }
    }
  }

  // The imperative storage ----------------------------------------------------------

  /** What `message_pack_info` tells about a block. */
  datatype PackInfo = PackInfo(bits: BitSet, maxPriority: Priority)

  /** The info describes the choices c on the queue ms. */
  ghost predicate Describes(info: PackInfo, ms: seq<Entry>, c: seq<bool>) {
    Represents(info.bits, c) && info.maxPriority == TopPriority(Chosen(ms, c))
  }

  ghost predicate NonEmpty(ms: seq<Entry>) { forall i :: 0 <= i < |ms| ==> ms[i].data != [] }

  /** What `cleanup` leaves: the entries whose bit is not set. */
  function Cleaned(ms: seq<Entry>, bits: BitSet): seq<Entry> {
    if ms == [] then [] else (if Odd(bits) then [] else [ms[0]]) + Cleaned(ms[1..], Shr(bits))
  }

  function WithoutEmpty(ms: seq<Entry>): seq<Entry> {
    if ms == [] then [] else (if ms[0].data == [] then [] else [ms[0]]) + WithoutEmpty(ms[1..])
  }

  class SerializedMessageStorage {
    var messages: seq<Entry>

    ghost predicate Valid() reads this { NonEmpty(messages) }

    constructor ()
      ensures messages == [] && Valid()
    {
      messages := [];
    }

    /** Empty messages are not queued. */
    method Push(message: Bytes, priority: Priority)
      requires Valid()
      modifies this
      ensures Valid()
      ensures messages == old(messages) + if message != [] then [Entry(message, priority)] else []
    {
      if message != [] {
        messages := messages + [Entry(message, priority)];
      }
    }

    method PackInto(f: Framing, room: nat) returns (info: PackInfo, block: Bytes)
      requires Valid()
      ensures Describes(info, messages, PackChoices(f, messages, room))
      ensures |Frames(f, Chosen(messages, PackChoices(f, messages, room)))| <= room
      ensures block == Block(f, messages, room)
    {
      var currentBit: BitSet := 1;
      var bits: BitSet := 0;
      var maxPriority: Priority := IDLE;
      var written: Bytes := [];
      ghost var c := [];
      var i := 0;
      PackStart(f, messages, room);
      while i < |messages| && currentBit != 0
        invariant 0 <= i <= |messages| && currentBit == Shifted(i)
        invariant Packing(f, messages, room, i, c, bits, written, maxPriority)
      {
        ShiftedZeroIff(i);
        var packed := f.encode(messages[i].data);
        if |packed| <= room - |written| {
          PackOne(f, messages, room, i, c, bits, written, maxPriority);
          written := written + packed;
          bits := bits | currentBit;
          maxPriority := MaxPriority(maxPriority, messages[i].priority);
          c := c + [true];
        } else {
          PackNone(f, messages, room, i, c, bits, written, maxPriority);
          c := c + [false];
        }
        currentBit := Shl(currentBit);
        i := i + 1;
      }
      PackEnd(f, messages, room, i, c, bits, written, maxPriority);
      info := PackInfo(bits, maxPriority);
      block := written + Zeros(room - |written|);
    }

    /** The bits must belong to queued messages, as they do after packing and pushing. */
    method Cleanup(info: PackInfo)
      requires Valid()
      requires forall i: nat :: BitAt(info.bits, i) ==> i < |messages|
      modifies this
      ensures Valid()
      ensures messages == Cleaned(old(messages), info.bits)
    {
      var toBeRemoved := info.bits;
      CleanStart(messages, info.bits);
      if toBeRemoved != 0 {
        var i := 0;
        while toBeRemoved != 0
          invariant i >= 0 && Cleaning(old(messages), messages, info.bits, toBeRemoved, i)
          decreases toBeRemoved
        {
          HalfOfEven(toBeRemoved);
          CleanTurn(old(messages), messages, info.bits, toBeRemoved, i);
          if Odd(toBeRemoved) {
            messages := messages[i := Entry([], messages[i].priority)];
          }
          i := i + 1;
          toBeRemoved := Shr(toBeRemoved);
        }
        CleanEnd(old(messages), messages, info.bits, i);
        messages := WithoutEmpty(messages);
      } else {
        CleanEnd(old(messages), messages, info.bits, 0);
        NothingEmpty(messages);
      }
      CleanedNonEmpty(old(messages), info.bits);
    }
  }

  /** After i messages of packing: choices so far, and the bits, frames and priority they give. */
  ghost predicate Packing(f: Framing, ms: seq<Entry>, room: nat, i: nat, c: seq<bool>, bits: BitSet, written: Bytes,
                          maxPriority: Priority)
  {
    && i <= |ms| && i <= 64 && |c| == i && |written| <= room
    && PackChoices(f, ms, room) == c + Choices(f, Considered(ms)[i..], room - |written|)
    && Represents(bits, c)
    && written == Frames(f, Chosen(ms, c)) && maxPriority == TopPriority(Chosen(ms, c))
  }

  lemma PackStart(f: Framing, ms: seq<Entry>, room: nat)
    ensures Shifted(0) == 1 && Packing(f, ms, room, 0, [], 0, [], IDLE)
  {
    forall i: nat ensures !BitAt(0, i) { BitOfZero(i); }
    assert Considered(ms)[0..] == Considered(ms);
  }

  /** A message whose frame fits. */
  lemma PackOne(f: Framing, ms: seq<Entry>, room: nat, i: nat, c: seq<bool>, bits: BitSet, written: Bytes,
                maxPriority: Priority)
    requires i < |ms| && i < 64 && Packing(f, ms, room, i, c, bits, written, maxPriority)
    requires |f.encode(ms[i].data)| <= room - |written|
    ensures Packing(f, ms, room, i + 1, c + [true], bits | Shifted(i), written + f.encode(ms[i].data),
                    MaxPriority(maxPriority, ms[i].priority))
  {
    ChoicesStep(f, ms, i, room - |written|, c);
    ChosenSnoc(ms, c, true);
    RepresentsSnoc(bits, c, true);
    FramesSnoc(f, Chosen(ms, c), ms[i]);
  }

  lemma PackNone(f: Framing, ms: seq<Entry>, room: nat, i: nat, c: seq<bool>, bits: BitSet, written: Bytes,
                 maxPriority: Priority)
    requires i < |ms| && i < 64 && Packing(f, ms, room, i, c, bits, written, maxPriority)
    requires |f.encode(ms[i].data)| > room - |written|
    ensures Packing(f, ms, room, i + 1, c + [false], bits, written, maxPriority)
  {
    ChoicesStep(f, ms, i, room - |written|, c);
    ChosenSnoc(ms, c, false);
    RepresentsSnoc(bits, c, false);
    assert Chosen(ms, c) + [] == Chosen(ms, c);
  }

  lemma PackEnd(f: Framing, ms: seq<Entry>, room: nat, i: nat, c: seq<bool>, bits: BitSet, written: Bytes,
                maxPriority: Priority)
    requires Packing(f, ms, room, i, c, bits, written, maxPriority) && (i == |ms| || Shifted(i) == 0)
    ensures c == PackChoices(f, ms, room)
    ensures |Frames(f, Chosen(ms, c))| <= room && written + Zeros(room - |written|) == Block(f, ms, room)
  {
    ShiftedZeroIff(i);
    assert Considered(ms)[i..] == [];
    assert c + [] == c;
  }

  lemma ChoicesStep(f: Framing, ms: seq<Entry>, i: nat, room: nat, c: seq<bool>)
    requires i < |ms| && i < 64
    ensures var fits := |f.encode(ms[i].data)| <= room;
            var rest := if fits then room - |f.encode(ms[i].data)| else room;
            c + Choices(f, Considered(ms)[i..], room) == (c + [fits]) + Choices(f, Considered(ms)[i + 1..], rest)
  {
    var fits := |f.encode(ms[i].data)| <= room;
    var rest := if fits then room - |f.encode(ms[i].data)| else room;
    var todo, after := Choices(f, Considered(ms)[i..], room), Choices(f, Considered(ms)[i + 1..], rest);
    assert Considered(ms)[i..][1..] == Considered(ms)[i + 1..];
    assert todo == [fits] + after;
    Regroup(c + todo, c, todo, [fits], after);
  }

  lemma {:induction false} ChosenSnoc(ms: seq<Entry>, c: seq<bool>, b: bool)
    requires |c| < |ms|
    ensures Chosen(ms, c + [b]) == Chosen(ms, c) + if b then [ms[|c|]] else []
    decreases |c|
  {
    if c != [] {
      ChosenSnoc(ms[1..], c[1..], b);
      assert (c + [b])[1..] == c[1..] + [b];
    } else {
      assert (c + [b])[1..] == [];
    }
  }

  lemma {:induction false} FramesSnoc(f: Framing, ms: seq<Entry>, m: Entry)
    ensures Frames(f, ms + [m]) == Frames(f, ms) + f.encode(m.data)
    ensures TopPriority(ms + [m]) == MaxPriority(TopPriority(ms), m.priority)
    decreases |ms|
  {
    if ms != [] {
      FramesSnoc(f, ms[1..], m);
      assert (ms + [m])[1..] == ms[1..] + [m];
    } else {
      assert (ms + [m])[1..] == [];
    }
  }

  lemma RepresentsSnoc(bits: BitSet, c: seq<bool>, b: bool)
    requires Represents(bits, c) && |c| < 64
    ensures Represents(if b then bits | Shifted(|c|) else bits, c + [b])
  {
    forall i: nat ensures BitAt(if b then bits | Shifted(|c|) else bits, i) <==> i < |c + [b]| && (c + [b])[i] {
      BitOfUnion(bits, Shifted(|c|), i);
      BitOfShifted(|c|, i);
    }
  }

  lemma {:induction false} WithoutEmptyConcat(xs: seq<Entry>, ys: seq<Entry>)
    ensures WithoutEmpty(xs + ys) == WithoutEmpty(xs) + WithoutEmpty(ys)
    decreases |xs|
  {
    if xs == [] {
      assert xs + ys == ys;
    } else {
      assert (xs + ys)[0] == xs[0] && (xs + ys)[1..] == xs[1..] + ys;
      WithoutEmptyConcat(xs[1..], ys);
    }
  }

  lemma {:induction false} NothingEmpty(ms: seq<Entry>)
    requires NonEmpty(ms)
    ensures WithoutEmpty(ms) == ms
    decreases |ms|
  {
    if ms != [] { NothingEmpty(ms[1..]); }
  }

  lemma {:induction false} NothingCleaned(ms: seq<Entry>)
    ensures Cleaned(ms, 0) == ms
    decreases |ms|
  {
    assert Shr(0) == 0 && !Odd(0);
    if ms != [] { NothingCleaned(ms[1..]); }
  }

  lemma {:induction false} CleanedNonEmpty(ms: seq<Entry>, bits: BitSet)
    requires NonEmpty(ms)
    ensures NonEmpty(Cleaned(ms, bits))
    decreases |ms|
  {
    if ms != [] { CleanedNonEmpty(ms[1..], Shr(bits)); }
  }

  /** After i entries of cleaning: those marked are empty, the rest is as it was. */
  ghost predicate Cleaning(ms0: seq<Entry>, ms: seq<Entry>, all: BitSet, bits: BitSet, i: nat) {
    && i <= |ms| == |ms0|
    && (forall j :: i <= j < |ms| ==> ms[j] == ms0[j])
    && (forall j: nat :: BitAt(bits, j) ==> i + j < |ms|)
    && Cleaned(ms0, all) == WithoutEmpty(ms[..i]) + Cleaned(ms[i..], bits)
  }

  lemma CleanStart(ms: seq<Entry>, bits: BitSet)
    requires forall j: nat :: BitAt(bits, j) ==> j < |ms|
    ensures Cleaning(ms, ms, bits, bits, 0)
  {
    assert ms[0..] == ms;
  }

  lemma CleanTurn(ms0: seq<Entry>, ms: seq<Entry>, all: BitSet, bits: BitSet, i: nat)
    requires NonEmpty(ms0) && Cleaning(ms0, ms, all, bits, i) && bits != 0
    ensures i < |ms|
    ensures Cleaning(ms0, if Odd(bits) then ms[i := Entry([], ms[i].priority)] else ms, all, Shr(bits), i + 1)
  {
    var some := SomeBitSet(bits);
    var ms' := if Odd(bits) then ms[i := Entry([], ms[i].priority)] else ms;
    forall j: nat | BitAt(Shr(bits), j) ensures i + 1 + j < |ms'| {
      var k: nat := j + 1;
      assert BitAt(bits, k);
    }
    CleanupStep(Cleaned(ms0, all), ms, bits, i);
  }

  lemma CleanupStep(goal: seq<Entry>, ms: seq<Entry>, bits: BitSet, i: nat)
    requires i < |ms| && ms[i].data != [] && goal == WithoutEmpty(ms[..i]) + Cleaned(ms[i..], bits)
    ensures var ms' := if Odd(bits) then ms[i := Entry([], ms[i].priority)] else ms;
            goal == WithoutEmpty(ms'[..i + 1]) + Cleaned(ms'[i + 1..], Shr(bits))
  {
    var ms' := if Odd(bits) then ms[i := Entry([], ms[i].priority)] else ms;
    var one := if Odd(bits) then [] else [ms[i]];
    assert ms[i..][1..] == ms[i + 1..] == ms'[i + 1..];
    assert ms'[..i + 1] == ms[..i] + [ms'[i]];
    WithoutEmptyConcat(ms[..i], [ms'[i]]);
    assert [ms'[i]][1..] == [] && WithoutEmpty([ms'[i]]) == one;
    Regroup(goal, WithoutEmpty(ms[..i]), Cleaned(ms[i..], bits), one, Cleaned(ms[i + 1..], Shr(bits)));
  }

  lemma CleanEnd(ms0: seq<Entry>, ms: seq<Entry>, all: BitSet, i: nat)
    requires NonEmpty(ms0) && Cleaning(ms0, ms, all, 0, i)
    ensures WithoutEmpty(ms) == Cleaned(ms0, all)
  {
    NothingCleaned(ms[i..]);
    assert ms[i..] == ms0[i..];
    NothingEmpty(ms[i..]);
    WithoutEmptyParts(ms, i);
  }

  lemma {:induction false} WithoutEmptyParts(ms: seq<Entry>, i: nat)
    requires i <= |ms|
    ensures WithoutEmpty(ms) == WithoutEmpty(ms[..i]) + WithoutEmpty(ms[i..])
  {
    assert ms == ms[..i] + ms[i..];
    WithoutEmptyConcat(ms[..i], ms[i..]);
  }

  // Packing, then pushing, then cleaning ------------------------------------------------

  lemma {:induction false} CleanedIsLeft(ms: seq<Entry>, bits: BitSet, c: seq<bool>)
    requires Represents(bits, c) && |c| <= |ms|
    ensures Cleaned(ms, bits) == Left(ms, c)
    decreases |ms|
  {
    RepresentsTail(bits, c);
    if c == [] {
      PopCountCounts(bits, c);
      NothingCleaned(ms);
    } else {
      CleanedIsLeft(ms[1..], Shr(bits), c[1..]);
    }
  }

  lemma {:induction false} LeftAndChosenOfAppend(ms: seq<Entry>, news: seq<Entry>, c: seq<bool>)
    requires |c| <= |ms|
    ensures Left(ms + news, c) == Left(ms, c) + news
    ensures Chosen(ms + news, c) == Chosen(ms, c)
    decreases |c|
  {
    if c != [] {
      assert (ms + news)[1..] == ms[1..] + news && (ms + news)[0] == ms[0];
      LeftAndChosenOfAppend(ms[1..], news, c[1..]);
      var rest := Left(ms[1..], c[1..]);
      Regroup(Left(ms + news, c), if c[0] then [] else [ms[0]], rest + news, rest, news);
    }
  }

  lemma {:induction false} ChosenCounts(ms: seq<Entry>, c: seq<bool>)
    requires |c| <= |ms|
    ensures |Chosen(ms, c)| == CountTrue(c) && |Left(ms, c)| == |ms| - CountTrue(c)
    ensures multiset(ms) == multiset(Chosen(ms, c)) + multiset(Left(ms, c))
    decreases |c|
  {
    if c != [] {
      ChosenCounts(ms[1..], c[1..]);
      assert ms == [ms[0]] + ms[1..];
    }
  }

  /**
   Packing, any pushes, then cleaning with the info from packing: the bits are in bounds,
   exactly the packed messages go, the others and all pushed ones stay in order, and
   `count()` is the number of messages removed.
   */
  lemma PackPushCleanup(f: Framing, ms: seq<Entry>, news: seq<Entry>, room: nat, info: PackInfo)
    requires var c := PackChoices(f, ms, room); Describes(info, ms, c)
    ensures var c := PackChoices(f, ms, room);
            && (forall i: nat :: BitAt(info.bits, i) ==> i < |ms + news|)
            && Cleaned(ms + news, info.bits) == Left(ms, c) + news
            && PopCount(info.bits) == |Chosen(ms, c)| == |ms + news| - |Cleaned(ms + news, info.bits)|
            && multiset(ms) == multiset(Chosen(ms, c)) + multiset(Left(ms, c))
  {
    var c := PackChoices(f, ms, room);
    CleanedIsLeft(ms + news, info.bits, c);
    LeftAndChosenOfAppend(ms, news, c);
    ChosenCounts(ms, c);
    PopCountCounts(info.bits, c);
  }

  /** Reading frames off a block until there is none. */
  ghost function Unpack(f: Framing, block: Bytes): seq<Bytes>
    decreases |block|
  {
    match f.decode(block)
    case None => []
    case Some((d, rest)) => [d] + if |rest| < |block| then Unpack(f, rest) else []
  }

  function Contents(ms: seq<Entry>): seq<Bytes> {
    if ms == [] then [] else [ms[0].data] + Contents(ms[1..])
  }

  lemma {:induction false} UnpackFrames(f: Framing, ms: seq<Entry>, n: nat)
    requires GoodFraming(f) && NonEmpty(ms)
    ensures Unpack(f, Frames(f, ms) + Zeros(n)) == Contents(ms)
    decreases |ms|
  {
    if ms == [] {
      assert Frames(f, ms) + Zeros(n) == Zeros(n);
    } else {
      var d, rest := ms[0].data, Frames(f, ms[1..]) + Zeros(n);
      assert Frames(f, ms) + Zeros(n) == f.encode(d) + rest;
      assert f.decode(f.encode(d) + rest) == Some((d, rest));
      UnpackFrames(f, ms[1..], n);
    }
  }

  lemma {:induction false} ChosenNonEmpty(ms: seq<Entry>, c: seq<bool>)
    requires NonEmpty(ms)
    ensures NonEmpty(Chosen(ms, c)) && NonEmpty(Left(ms, c))
    decreases |ms|
  {
    if ms != [] && c != [] { ChosenNonEmpty(ms[1..], c[1..]); }
  }

  /** The receiver of a block reads exactly the messages packed into it, in order. */
  lemma UnpackBlock(f: Framing, ms: seq<Entry>, room: nat)
    requires GoodFraming(f) && NonEmpty(ms)
    ensures |Frames(f, Chosen(ms, PackChoices(f, ms, room)))| <= room
    ensures Unpack(f, Block(f, ms, room)) == Contents(Chosen(ms, PackChoices(f, ms, room)))
  {
    BlockFits(f, ms, room);
    var chosen := Chosen(ms, PackChoices(f, ms, room));
    ChosenNonEmpty(ms, PackChoices(f, ms, room));
    UnpackFrames(f, chosen, room - |Frames(f, chosen)|);
  }

  // Pushing never undoes packing ---------------------------------------------------------

  lemma {:induction false} ChoicesOfAppend(f: Framing, ms: seq<Entry>, news: seq<Entry>, room: nat)
    returns (more: seq<bool>)
    ensures Choices(f, ms + news, room) == Choices(f, ms, room) + more
    decreases |ms|
  {
    if ms == [] {
      assert ms + news == news;
      more := Choices(f, news, room);
    } else {
      assert (ms + news)[0] == ms[0] && (ms + news)[1..] == ms[1..] + news;
      var n := |f.encode(ms[0].data)|;
      more := ChoicesOfAppend(f, ms[1..], news, if n <= room then room - n else room);
    }
  }

  lemma {:induction false} CountConcat(c: seq<bool>, d: seq<bool>)
    ensures CountTrue(c + d) == CountTrue(c) + CountTrue(d)
    decreases |c|
  {
    if c == [] {
      assert c + d == d;
    } else {
      assert (c + d)[1..] == c[1..] + d;
      CountConcat(c[1..], d);
    }
  }

  lemma {:induction false} CountAtMost(c: seq<bool>)
    ensures CountTrue(c) <= |c|
    decreases |c|
  {
    if c != [] { CountAtMost(c[1..]); }
  }

  /** The number of messages that would be packed. */
  function PackCount(f: Framing, ms: seq<Entry>, room: nat): nat { CountTrue(PackChoices(f, ms, room)) }

  /** With messages only appended the packed count never falls; it is 64 at most. */
  lemma PackCountGrows(f: Framing, ms: seq<Entry>, news: seq<Entry>, room: nat)
    ensures PackCount(f, ms, room) <= PackCount(f, ms + news, room) <= 64
  {
    var a := Considered(ms);
    var b := Considered(ms + news)[|a|..];
    assert Considered(ms + news) == a + b;
    var more := ChoicesOfAppend(f, a, b, room);
    CountConcat(PackChoices(f, ms, room), more);
    CountAtMost(PackChoices(f, ms + news, room));
  }

  // The framing laws can be met: a marker byte before every data byte, another at the end.

  function Mark(d: Bytes): Bytes { if d == [] then [2] else [1, d[0]] + Mark(d[1..]) }

  function Unmark(b: Bytes): Option<(Bytes, Bytes)>
    decreases |b|
  {
    if b != [] && b[0] == 2 then Some(([], b[1..]))
    else if |b| >= 2 && b[0] == 1 then
      match Unmark(b[2..])
      case None => None
      case Some((d, rest)) => Some(([b[1]] + d, rest))
    else None
  }

  lemma {:induction false} UnmarkMark(d: Bytes, rest: Bytes)
    ensures Unmark(Mark(d) + rest) == Some((d, rest))
    decreases |d|
  {
    var b := Mark(d) + rest;
    if d == [] {
      assert b[1..] == rest;
    } else {
      assert b[2..] == Mark(d[1..]) + rest;
      UnmarkMark(d[1..], rest);
      assert [b[1]] + d[1..] == d;
    }
  }

  lemma FramingExists() returns (f: Framing)
    ensures GoodFraming(f)
  {
    f := Framing(d => Mark(d), b => Unmark(b));
    forall d, rest | d != [] ensures f.decode(f.encode(d) + rest) == Some((d, rest)) { UnmarkMark(d, rest); }
  }
}
