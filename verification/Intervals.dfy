/**
 Lists of half-open byte intervals, as `pending_blob` keeps them for the bytes
 already received (the done list) and the bytes still to be sent (the todo list).

 `Insert` is the reference definition of adding one interval to such a list; the
 loops of `merge_fragment` and `merge_resend_request` are proved to compute it.
 */
module Intervals {
  import opened Basics

  datatype Part = Part(bgn: nat, end: nat)

  type Parts = seq<Part>

  ghost predicate Within(p: Part, x: int) { p.bgn <= x < p.end }

  ghost predicate Covers(ps: Parts, x: int) {
    exists i :: 0 <= i < |ps| && Within(ps[i], x)
  }

  /** Sorted, with at least one uncovered byte between any two intervals. */
  ghost predicate Separated(ps: Parts) {
    && (forall i :: 0 <= i < |ps| ==> ps[i].bgn <= ps[i].end)
    && (forall i, j :: 0 <= i < j < |ps| ==> ps[i].end < ps[j].bgn)
  }

  ghost predicate NoneEmpty(ps: Parts) {
    forall i :: 0 <= i < |ps| ==> ps[i].bgn < ps[i].end
  }

  ghost predicate Canonical(ps: Parts) { Separated(ps) && NoneEmpty(ps) }

  /** All intervals lie inside [0, total]. */
  ghost predicate Bounded(ps: Parts, total: nat) {
    forall i :: 0 <= i < |ps| ==> ps[i].end <= total
  }

  /** The interval [b, e) overlaps or is adjacent to p. */
  predicate Touches(p: Part, b: nat, e: nat) { p.bgn <= e && b <= p.end }

  ghost predicate TouchesAny(ps: Parts, b: nat, e: nat) {
    exists i :: 0 <= i < |ps| && Touches(ps[i], b, e)
  }

  /** Every byte of [0, total) is covered. */
  ghost predicate CoversAll(ps: Parts, total: nat) {
    forall x :: 0 <= x < total ==> Covers(ps, x)
  }

  /** Adds [b, e) to a separated list, fusing every interval it touches. */
  function Insert(ps: Parts, b: nat, e: nat): Parts
  {
    if ps == [] then [Part(b, e)]
    else if e < ps[0].bgn then [Part(b, e)] + ps
    else if ps[0].end < b then [ps[0]] + Insert(ps[1..], b, e)
    else Insert(ps[1..], Min(b, ps[0].bgn), Max(e, ps[0].end))
  }

  lemma CoversUncons(ps: Parts, x: int)
    requires ps != []
    ensures Covers(ps, x) <==> Within(ps[0], x) || Covers(ps[1..], x)
  {
    if Covers(ps, x) && !Within(ps[0], x) {
      var i :| 0 <= i < |ps| && Within(ps[i], x);
      assert Within(ps[1..][i - 1], x);
    }
    if Covers(ps[1..], x) {
      var i :| 0 <= i < |ps[1..]| && Within(ps[1..][i], x);
      assert Within(ps[i + 1], x);
    }
  }

  lemma CoversConcat(ps: Parts, qs: Parts, x: int)
    ensures Covers(ps + qs, x) <==> Covers(ps, x) || Covers(qs, x)
  {
    if Covers(ps + qs, x) {
      var i :| 0 <= i < |ps + qs| && Within((ps + qs)[i], x);
      if i >= |ps| { assert Within(qs[i - |ps|], x); }
    }
    if Covers(ps, x) {
      var i :| 0 <= i < |ps| && Within(ps[i], x);
      assert Within((ps + qs)[i], x);
    }
    if Covers(qs, x) {
      var i :| 0 <= i < |qs| && Within(qs[i], x);
      assert Within((ps + qs)[|ps| + i], x);
    }
  }

  /** Insertion is set union on covered bytes. */
  lemma {:induction false} InsertCovers(ps: Parts, b: nat, e: nat, x: int)
    requires Separated(ps) && b <= e
    ensures Covers(Insert(ps, b, e), x) <==> Covers(ps, x) || b <= x < e
    decreases |ps|
  {
    if ps == [] {
      assert Within(Part(b, e), x) <==> b <= x < e;
      CoversUncons([Part(b, e)], x);
    } else if e < ps[0].bgn {
      CoversUncons([Part(b, e)] + ps, x);
      assert ([Part(b, e)] + ps)[1..] == ps;
    } else {
      CoversUncons(ps, x);
      if ps[0].end < b {
        InsertCovers(ps[1..], b, e, x);
        CoversUncons([ps[0]] + Insert(ps[1..], b, e), x);
        assert ([ps[0]] + Insert(ps[1..], b, e))[1..] == Insert(ps[1..], b, e);
      } else {
        InsertCovers(ps[1..], Min(b, ps[0].bgn), Max(e, ps[0].end), x);
      }
    }
  }

  lemma SeparatedCons(p: Part, ps: Parts)
    requires Separated(ps) && p.bgn <= p.end && (ps != [] ==> p.end < ps[0].bgn)
    ensures Separated([p] + ps)
  {
    assert forall i :: 0 < i < |ps| ==> ps[0].end < ps[i].bgn;
  }

  lemma NoneEmptyCons(p: Part, ps: Parts)
    ensures NoneEmpty([p] + ps) <==> p.bgn < p.end && NoneEmpty(ps)
  {
    var qs := [p] + ps;
    assert qs[0] == p && forall i :: 0 <= i < |ps| ==> qs[i + 1] == ps[i];
  }

  /** Insertion keeps the list separated; its first interval starts where expected. */
  lemma {:induction false} InsertSeparated(ps: Parts, b: nat, e: nat)
    requires Separated(ps) && b <= e
    ensures Separated(Insert(ps, b, e))
    ensures |Insert(ps, b, e)| > 0
    ensures Insert(ps, b, e)[0].bgn == if ps == [] then b else Min(b, ps[0].bgn)
    decreases |ps|
  {
    if ps != [] {
      if e < ps[0].bgn {
        SeparatedCons(Part(b, e), ps);
      } else if ps[0].end < b {
        InsertSeparated(ps[1..], b, e);
        SeparatedCons(ps[0], Insert(ps[1..], b, e));
      } else {
        InsertSeparated(ps[1..], Min(b, ps[0].bgn), Max(e, ps[0].end));
      }
    }
  }

  lemma {:induction false} InsertBounded(ps: Parts, b: nat, e: nat, total: nat)
    requires Bounded(ps, total) && e <= total
    ensures Bounded(Insert(ps, b, e), total)
    decreases |ps|
  {
    if ps != [] && e >= ps[0].bgn {
      if ps[0].end < b {
        InsertBounded(ps[1..], b, e, total);
      } else {
        InsertBounded(ps[1..], Min(b, ps[0].bgn), Max(e, ps[0].end), total);
      }
    }
  }

  /** Inserting behind the last interval, not adjacent to it, appends. */
  lemma {:induction false} InsertAppends(ps: Parts, b: nat, e: nat)
    requires Separated(ps) && b <= e && (ps != [] ==> ps[|ps| - 1].end < b)
    ensures Insert(ps, b, e) == ps + [Part(b, e)]
    decreases |ps|
  {
    if ps != [] {
      assert |ps| > 1 ==> ps[0].end < ps[|ps| - 1].bgn;
      InsertAppends(ps[1..], b, e);
      Assoc([ps[0]], ps[1..], [Part(b, e)]);
      assert [ps[0]] + ps[1..] == ps;
    }
  }

  lemma TouchesNone(ps: Parts, b: nat, e: nat)
    requires Separated(ps) && (ps != [] ==> e < ps[0].bgn)
    ensures !TouchesAny(ps, b, e)
  {
    assert forall i :: 0 < i < |ps| ==> ps[0].end < ps[i].bgn;
  }

  /**
   A canonical list stays canonical exactly when the inserted interval is non-empty
   or touches an interval already there: an empty fragment away from all of them
   would leave an empty interval behind.
   */
  lemma {:induction false} InsertCanonicalIff(ps: Parts, b: nat, e: nat)
    requires Canonical(ps) && b <= e
    ensures Canonical(Insert(ps, b, e)) <==> b < e || TouchesAny(ps, b, e)
    decreases |ps|
  {
    InsertSeparated(ps, b, e);
    if ps == [] || e < ps[0].bgn {
      assert Insert(ps, b, e) == [Part(b, e)] + ps;
      NoneEmptyCons(Part(b, e), ps);
      TouchesNone(ps, b, e);
    } else {
      TouchesUncons(ps, b, e);
      if ps[0].end < b {
        InsertCanonicalIff(ps[1..], b, e);
        InsertSeparated(ps[1..], b, e);
        NoneEmptyCons(ps[0], Insert(ps[1..], b, e));
      } else {
        InsertCanonicalIff(ps[1..], Min(b, ps[0].bgn), Max(e, ps[0].end));
      }
    }
  }

  lemma TouchesUncons(ps: Parts, b: nat, e: nat)
    requires ps != []
    ensures TouchesAny(ps, b, e) <==> Touches(ps[0], b, e) || TouchesAny(ps[1..], b, e)
  {
    if TouchesAny(ps, b, e) && !Touches(ps[0], b, e) {
      var i :| 0 <= i < |ps| && Touches(ps[i], b, e);
      assert Touches(ps[1..][i - 1], b, e);
    }
    if TouchesAny(ps[1..], b, e) {
      var i :| 0 <= i < |ps[1..]| && Touches(ps[1..][i], b, e);
      assert Touches(ps[i + 1], b, e);
    }
  }

  /** Canonical lists are normal forms: equal coverage means equal lists. */
  lemma {:induction false} CanonicalUnique(ps: Parts, qs: Parts)
    requires Canonical(ps) && Canonical(qs)
    requires forall x: int :: Covers(ps, x) <==> Covers(qs, x)
    ensures ps == qs
    decreases |ps|
  {
    if ps == [] || qs == [] {
      if ps != [] { assert Within(ps[0], ps[0].bgn); assert Covers(ps, ps[0].bgn); }
      if qs != [] { assert Within(qs[0], qs[0].bgn); assert Covers(qs, qs[0].bgn); }
    } else {
      FirstInterval(ps, qs);
      FirstInterval(qs, ps);
      assert ps[0] == qs[0];
      forall x: int ensures Covers(ps[1..], x) <==> Covers(qs[1..], x) {
        CoversUncons(ps, x);
        CoversUncons(qs, x);
        if Within(ps[0], x) {
          assert !Covers(ps[1..], x) && !Covers(qs[1..], x);
        }
      }
      CanonicalUnique(ps[1..], qs[1..]);
    }
  }

  lemma FirstInterval(ps: Parts, qs: Parts)
    requires Canonical(ps) && Canonical(qs) && ps != [] && qs != []
    requires forall x: int :: Covers(ps, x) <==> Covers(qs, x)
    ensures qs[0].bgn <= ps[0].bgn
    ensures qs[0].bgn == ps[0].bgn ==> ps[0].end <= qs[0].end
  {
    assert Within(ps[0], ps[0].bgn);
    assert Covers(qs, ps[0].bgn);
    if qs[0].bgn == ps[0].bgn && qs[0].end < ps[0].end {
      assert Within(ps[0], qs[0].end);
      assert Covers(ps, qs[0].end);
      EndNotCovered(qs, 0);
    }
  }

  lemma EndNotCovered(ps: Parts, k: nat)
    requires Separated(ps) && k < |ps|
    ensures !Covers(ps, ps[k].end)
  {
    forall i | 0 <= i < |ps| ensures !Within(ps[i], ps[k].end) {
      assert i < k ==> ps[i].end < ps[k].bgn <= ps[k].end;
      assert k < i ==> ps[k].end < ps[i].bgn;
    }
  }

  /** Number of bytes in the intervals (`received_size`, and total minus `sent_size`). */
  function Size(ps: Parts): int {
    if ps == [] then 0 else ps[0].end - ps[0].bgn + Size(ps[1..])
  }

  ghost function CoveredSet(ps: Parts, total: nat): set<int> {
    set x: int | 0 <= x < total && Covers(ps, x)
  }

  ghost function MissingSet(ps: Parts, total: nat): set<int> {
    set x: int | 0 <= x < total && !Covers(ps, x)
  }

  ghost function Missing(ps: Parts, total: nat): nat { |MissingSet(ps, total)| }

  lemma MissingZero(ps: Parts, total: nat)
    ensures Missing(ps, total) == 0 <==> CoversAll(ps, total)
  {
    if Missing(ps, total) == 0 {
      forall x | 0 <= x < total ensures Covers(ps, x) {
        assert x !in MissingSet(ps, total);
      }
    }
    if CoversAll(ps, total) {
      assert MissingSet(ps, total) == {};
    }
  }

  ghost function Range(p: Part): set<int> {
    set x: int | p.bgn <= x < p.end && Within(p, x)
  }

  lemma UnionSize<T>(a: set<T>, b: set<T>, c: set<T>)
    requires a !! b && forall x :: x in c <==> x in a || x in b
    ensures |c| == |a| + |b|
  {
    assert c == a + b;
  }

  lemma {:induction false} RangeSize(p: Part)
    requires p.bgn <= p.end
    ensures |Range(p)| == p.end - p.bgn
    decreases p.end - p.bgn
  {
    if p.bgn < p.end {
      var q, last := Part(p.bgn, p.end - 1), p.end - 1;
      RangeSize(q);
      forall x: int ensures x in Range(p) <==> x in Range(q) || x in {last} { RangeStep(p, q, x); }
      RangeStep(p, q, last);
      UnionSize(Range(q), {last}, Range(p));
    } else {
      assert Range(p) == {};
    }
  }

  lemma RangeStep(p: Part, q: Part, x: int)
    requires p.bgn < p.end && q == Part(p.bgn, p.end - 1)
    ensures x in Range(p) <==> x in Range(q) || x == p.end - 1
    ensures p.end - 1 !in Range(q)
  {
    assert Within(p, x) <==> Within(q, x) || x == p.end - 1;
  }

  lemma MissingAtMost(ps: Parts, total: nat)
    ensures Missing(ps, total) <= total
  {
    RangeSize(Part(0, total));
    forall x | x in MissingSet(ps, total) ensures x in Range(Part(0, total)) {
      assert Within(Part(0, total), x);
    }
    SubsetSize(MissingSet(ps, total), Range(Part(0, total)));
  }

  lemma {:induction false} SubsetSize<T>(a: set<T>, b: set<T>)
    requires a <= b
    ensures |a| <= |b|
    ensures a != b ==> |a| < |b|
  {
    assert b == a + (b - a);
    assert |b| == |a| + |b - a|;
    if a != b {
      var x :| x in b && x !in a;
      assert x in b - a;
    }
  }

  /** The interval lengths add up to the number of covered bytes. */
  lemma {:induction false} SizeIsCoverage(ps: Parts, total: nat)
    requires Separated(ps) && Bounded(ps, total)
    ensures Size(ps) == |CoveredSet(ps, total)|
    decreases |ps|
  {
    if ps == [] {
      assert CoveredSet(ps, total) == {};
    } else {
      SizeIsCoverage(ps[1..], total);
      RangeSize(ps[0]);
      forall x: int ensures HeadOrRest(ps, total, x) { HeadOrRestHolds(ps, total, x); }
      forall x: int ensures x in CoveredSet(ps, total) <==> x in Range(ps[0]) || x in CoveredSet(ps[1..], total) {
        assert HeadOrRest(ps, total, x);
      }
      forall x | x in Range(ps[0]) ensures x !in CoveredSet(ps[1..], total) { assert HeadOrRest(ps, total, x); }
      UnionSize(Range(ps[0]), CoveredSet(ps[1..], total), CoveredSet(ps, total));
    }
  }

  ghost predicate HeadOrRest(ps: Parts, total: nat, x: int)
    requires ps != []
  {
    && (x in CoveredSet(ps, total) <==> x in Range(ps[0]) || x in CoveredSet(ps[1..], total))
    && !(x in Range(ps[0]) && x in CoveredSet(ps[1..], total))
  }

  lemma HeadOrRestHolds(ps: Parts, total: nat, x: int)
    requires Separated(ps) && Bounded(ps, total) && ps != []
    ensures HeadOrRest(ps, total, x)
  {
    CoversUncons(ps, x);
    if Covers(ps[1..], x) {
      var i :| 0 <= i < |ps[1..]| && Within(ps[1..][i], x);
      assert ps[1..][i] == ps[i + 1];
    }
  }

  /** What `received_everything` looks at: a single interval from 0 past the end. */
  lemma SinglePartIffCoversAll(ps: Parts, total: nat)
    requires Separated(ps) && Bounded(ps, total) && total > 0
    ensures CoversAll(ps, total) <==> |ps| == 1 && ps[0].bgn == 0 && ps[0].end >= total
  {
    assert |ps| > 1 ==> ps[0].end < ps[1].bgn <= ps[1].end <= total;
    if CoversAll(ps, total) {
      assert Covers(ps, 0);
      var i :| 0 <= i < |ps| && Within(ps[i], 0);
      EndNotCovered(ps, i);
      assert ps[i].end >= total;
      assert i == 0;
    } else if |ps| == 1 && ps[0].bgn == 0 && ps[0].end >= total {
      forall x | 0 <= x < total ensures Covers(ps, x) { assert Within(ps[0], x); }
    }
  }
}
