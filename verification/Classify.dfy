/** Grouping tool calls: runs of reading calls go together, a writing call goes alone, in order. */
module Classify {
  import opened Prelude

  /** The pending calls of a turn, by index, and which tools only read. */
  datatype Calls = Calls(names: seq<string>, isRead: string -> bool) {
    predicate Read(i: nat) {
      i < |names| && isRead(names[i])
    }

    predicate AllRead(segment: seq<nat>) {
      segment == [] || (AllRead(segment[..|segment| - 1]) && Read(segment[|segment| - 1]))
    }

    /** A segment holds reads only, or one write. */
    predicate Segment(segment: seq<nat>) {
      segment != [] && (AllRead(segment) || (|segment| == 1 && !Read(segment[0])))
    }

    /** Good segments, no two neighbours of which both read. */
    predicate Grouped(segments: seq<seq<nat>>) {
      segments == []
      || (var front, last := segments[..|segments| - 1], segments[|segments| - 1];
          Grouped(front) && Segment(last) && (front != [] ==> !AllRead(front[|front| - 1]) || !AllRead(last)))
    }
  }

  function Flat(segments: seq<seq<nat>>): seq<nat> {
    if segments == [] then [] else Flat(segments[..|segments| - 1]) + segments[|segments| - 1]
  }

  function WithReads(segments: seq<seq<nat>>, batch: seq<nat>): seq<seq<nat>> {
    if batch == [] then segments else segments + [batch]
  }

  lemma {:induction false} GroupedSnoc(calls: Calls, segments: seq<seq<nat>>, segment: seq<nat>)
    requires calls.Grouped(segments) && calls.Segment(segment)
    requires segments != [] ==> !calls.AllRead(segments[|segments| - 1]) || !calls.AllRead(segment)
    ensures calls.Grouped(segments + [segment]) && Flat(segments + [segment]) == Flat(segments) + segment
  {
    assert (segments + [segment])[..|segments|] == segments;
  }

  /** The calls done so far: closed segments, the last of them not of reads, and the reads of an open one. */
  ghost predicate Sorted(calls: Calls, segments: seq<seq<nat>>, batch: seq<nat>, done: seq<nat>) {
    && calls.Grouped(segments) && calls.AllRead(batch)
    && (segments != [] ==> !calls.AllRead(segments[|segments| - 1]))
    && Flat(segments) + batch == done
  }

  /** Group the allowed calls: reads in a row share a segment, every write has its own. */
  method GroupCallIndices(calls: Calls, allowed: seq<nat>) returns (segments: seq<seq<nat>>)
    requires forall i | i in allowed :: i < |calls.names|
    ensures calls.Grouped(segments) && Flat(segments) == allowed
  {
    segments := [];
    var batch: seq<nat> := [];
    for k := 0 to |allowed|
      invariant Sorted(calls, segments, batch, allowed[..k])
    {
      var i := allowed[k];
      assert i in allowed;
      assert allowed[..k + 1] == allowed[..k] + [i];
      if calls.isRead(calls.names[i]) {
        ReadJoins(calls, segments, batch, allowed[..k], i);
        batch := batch + [i];
      } else {
        WriteCloses(calls, segments, batch, allowed[..k], i);
        if batch != [] {
          segments := segments + [batch];
          batch := [];
        }
        segments := segments + [[i]];
      }
    }
    assert allowed[..|allowed|] == allowed;
    LastBatch(calls, segments, batch, allowed);
    if batch != [] {
      segments := segments + [batch];
    }
  }

  lemma {:induction false} ReadJoins(calls: Calls, segments: seq<seq<nat>>, batch: seq<nat>, done: seq<nat>, i: nat)
    requires Sorted(calls, segments, batch, done) && calls.Read(i)
    ensures Sorted(calls, segments, batch + [i], done + [i])
  {
    assert (batch + [i])[..|batch|] == batch;
    Assoc(Flat(segments), batch, [i]);
  }

  lemma {:induction false} LastBatch(calls: Calls, segments: seq<seq<nat>>, batch: seq<nat>, done: seq<nat>)
    requires Sorted(calls, segments, batch, done)
    ensures calls.Grouped(WithReads(segments, batch)) && Flat(WithReads(segments, batch)) == done
  {
    if batch == [] {
      assert Flat(segments) + [] == Flat(segments);
    } else {
      GroupedSnoc(calls, segments, batch);
    }
  }

  lemma {:induction false} WriteCloses(calls: Calls, segments: seq<seq<nat>>, batch: seq<nat>, done: seq<nat>, i: nat)
    requires Sorted(calls, segments, batch, done) && !calls.Read(i)
    ensures Sorted(calls, WithReads(segments, batch) + [[i]], [], done + [i])
  {
    LastBatch(calls, segments, batch, done);
    GroupedSnoc(calls, WithReads(segments, batch), [i]);
    assert done + [i] + [] == done + [i];
  }

  // ----- There is only one such grouping -----

  /** The last segment of a good grouping is the longest reading end, or one write. */
  lemma {:induction false} LastSegment(calls: Calls, segments: seq<seq<nat>>)
    requires calls.Grouped(segments) && segments != []
    ensures var last := segments[|segments| - 1];
            |last| == if calls.Read(Flat(segments)[|Flat(segments)| - 1]) then ReadEnd(calls, Flat(segments)) else 1
  {
    var front, last := segments[..|segments| - 1], segments[|segments| - 1];
    if calls.AllRead(last) {
      if front != [] {
        var before := front[|front| - 1];
        assert !calls.Read(before[0]);
        assert Flat(front)[|Flat(front)| - 1] == before[0];
      } else {
        assert Flat(front) == [];
      }
      ReadEndIs(calls, Flat(front), last);
    }
  }

  /** How many reads a list of calls ends with. */
  function ReadEnd(calls: Calls, list: seq<nat>): nat {
    if list == [] || !calls.Read(list[|list| - 1]) then 0 else ReadEnd(calls, list[..|list| - 1]) + 1
  }

  lemma {:induction false} ReadEndIs(calls: Calls, before: seq<nat>, batch: seq<nat>)
    requires calls.AllRead(batch) && (before == [] || !calls.Read(before[|before| - 1]))
    ensures ReadEnd(calls, before + batch) == |batch|
  {
    if batch == [] {
      assert before + batch == before;
    } else {
      assert (before + batch)[..|before + batch| - 1] == before + batch[..|batch| - 1];
      ReadEndIs(calls, before, batch[..|batch| - 1]);
    }
  }

  /** Two good groupings of the same calls are the same grouping. */
  lemma {:induction false} GroupingIsUnique(calls: Calls, a: seq<seq<nat>>, b: seq<seq<nat>>)
    requires calls.Grouped(a) && calls.Grouped(b) && Flat(a) == Flat(b)
    ensures a == b
  {
    if a == [] || b == [] {
      NonEmptyFlat(calls, a);
      NonEmptyFlat(calls, b);
    } else {
      var lastA, lastB := a[|a| - 1], b[|b| - 1];
      LastSegment(calls, a);
      LastSegment(calls, b);
      assert |lastA| == |lastB|;
      SameEnds(Flat(a[..|a| - 1]), lastA, Flat(b[..|b| - 1]), lastB);
      GroupingIsUnique(calls, a[..|a| - 1], b[..|b| - 1]);
      assert a == a[..|a| - 1] + [lastA] && b == b[..|b| - 1] + [lastB];
    }
  }

  lemma {:induction false} NonEmptyFlat(calls: Calls, segments: seq<seq<nat>>)
    requires calls.Grouped(segments)
    ensures Flat(segments) == [] <==> segments == []
  {
  }

  lemma {:induction false} SameEnds(a: seq<nat>, x: seq<nat>, b: seq<nat>, y: seq<nat>)
    requires a + x == b + y && |x| == |y|
    ensures a == b && x == y
  {
    assert a == (a + x)[..|a|] && b == (b + y)[..|b|];
    assert x == (a + x)[|a|..] && y == (b + y)[|b|..];
  }

  // ----- Running the segments -----

  /** The state after running calls in order. */
  function Final<S, R>(exec: (S, nat) -> (S, R), s: S, order: seq<nat>): S {
    if order == [] then s else exec(Final(exec, s, order[..|order| - 1]), order[|order| - 1]).0
  }

  /** Every call with its result, in order. */
  function Log<S, R>(exec: (S, nat) -> (S, R), s: S, order: seq<nat>): seq<(nat, R)> {
    if order == [] then []
    else
      var front, last := order[..|order| - 1], order[|order| - 1];
      Log(exec, s, front) + [(last, exec(Final(exec, s, front), last).1)]
  }

  lemma {:induction false} RunJoin<S, R>(exec: (S, nat) -> (S, R), s: S, a: seq<nat>, b: seq<nat>)
    ensures Final(exec, s, a + b) == Final(exec, Final(exec, s, a), b)
    ensures Log(exec, s, a + b) == Log(exec, s, a) + Log(exec, Final(exec, s, a), b)
  {
    if b == [] {
      assert a + b == a;
    } else {
      assert (a + b)[..|a + b| - 1] == a + b[..|b| - 1];
      RunJoin(exec, s, a, b[..|b| - 1]);
    }
  }

  /** Reading calls leave the state as it is. */
  ghost predicate ReadsKeepState<S(!new), R(!new)>(calls: Calls, exec: (S, nat) -> (S, R)) {
    forall s: S, i: nat | calls.Read(i) :: exec(s, i).0 == s
  }

  lemma {:induction false} ReadsKeep<S(!new), R(!new)>(calls: Calls, exec: (S, nat) -> (S, R), s: S, batch: seq<nat>)
    requires ReadsKeepState(calls, exec) && calls.AllRead(batch)
    ensures Final(exec, s, batch) == s
  {
    if batch != [] {
      ReadsKeep(calls, exec, s, batch[..|batch| - 1]);
    }
  }

  lemma {:induction false} SameCounts<T(!new)>(a: multiset<T>, b: multiset<T>)
    requires forall t: T :: a[t] == b[t]
    ensures a == b
  {
  }

  /** A segment of reads: a call is logged as often as it is made, with its result in that state. */
  lemma {:induction false} ReadsLog<S(!new), R(!new)>(calls: Calls, exec: (S, nat) -> (S, R), s: S, batch: seq<nat>, entry: (nat, R))
    requires ReadsKeepState(calls, exec) && calls.AllRead(batch)
    ensures multiset(Log(exec, s, batch))[entry] == if entry.1 == exec(s, entry.0).1 then multiset(batch)[entry.0] else 0
  {
    if batch != [] {
      var front, last := batch[..|batch| - 1], batch[|batch| - 1];
      ReadsLog(calls, exec, s, front, entry);
      ReadsKeep(calls, exec, s, front);
      assert batch == front + [last];
    }
  }

  lemma {:induction false} AllReadPermuted(calls: Calls, a: seq<nat>, b: seq<nat>)
    requires calls.AllRead(a) && multiset(a) == multiset(b)
    ensures calls.AllRead(b)
  {
    forall i | i in b ensures calls.Read(i) {
      assert i in multiset(b);
      ReadIn(calls, a, i);
    }
    AllReadFrom(calls, b);
  }

  lemma {:induction false} ReadIn(calls: Calls, a: seq<nat>, i: nat)
    requires calls.AllRead(a) && i in a
    ensures calls.Read(i)
  {
    if i != a[|a| - 1] {
      ReadIn(calls, a[..|a| - 1], i);
    }
  }

  lemma {:induction false} AllReadFrom(calls: Calls, b: seq<nat>)
    requires forall i | i in b :: calls.Read(i)
    ensures calls.AllRead(b)
  {
    if b != [] {
      AllReadFrom(calls, b[..|b| - 1]);
    }
  }

  /** One segment, in any order: the same state afterwards, and the same result for every call. */
  lemma {:induction false} SegmentInAnyOrder<S(!new), R(!new)>(calls: Calls, exec: (S, nat) -> (S, R), s: S, segment: seq<nat>, order: seq<nat>)
    requires ReadsKeepState(calls, exec) && calls.Segment(segment) && multiset(order) == multiset(segment)
    ensures Final(exec, s, order) == Final(exec, s, segment)
    ensures multiset(Log(exec, s, order)) == multiset(Log(exec, s, segment))
  {
    if calls.AllRead(segment) {
      AllReadPermuted(calls, segment, order);
      forall entry: (nat, R) ensures multiset(Log(exec, s, order))[entry] == multiset(Log(exec, s, segment))[entry] {
        ReadsLog(calls, exec, s, segment, entry);
        ReadsLog(calls, exec, s, order, entry);
      }
      SameCounts(multiset(Log(exec, s, order)), multiset(Log(exec, s, segment)));
      ReadsKeep(calls, exec, s, segment);
      ReadsKeep(calls, exec, s, order);
    } else {
      SingleOrder(segment, order);
    }
  }

  lemma {:induction false} SingleOrder(segment: seq<nat>, order: seq<nat>)
    requires |segment| == 1 && multiset(order) == multiset(segment)
    ensures order == segment
  {
    assert |order| == |multiset(order)| == 1;
    assert order[0] in multiset(segment);
  }

  /** `orders` runs every segment in some order of its own. */
  predicate Reordered(segments: seq<seq<nat>>, orders: seq<seq<nat>>) {
    |segments| == |orders|
    && (segments == []
        || (multiset(orders[|orders| - 1]) == multiset(segments[|segments| - 1])
            && Reordered(segments[..|segments| - 1], orders[..|orders| - 1])))
  }

  /** Running the segments in turn, each in any order, is running the calls one by one. */
  lemma {:induction false} SegmentsRunAsListed<S(!new), R(!new)>(
    calls: Calls, exec: (S, nat) -> (S, R), s: S, segments: seq<seq<nat>>, orders: seq<seq<nat>>)
    requires ReadsKeepState(calls, exec) && calls.Grouped(segments) && Reordered(segments, orders)
    ensures Final(exec, s, Flat(orders)) == Final(exec, s, Flat(segments))
    ensures multiset(Log(exec, s, Flat(orders))) == multiset(Log(exec, s, Flat(segments)))
  {
    if segments != [] {
      var front, last := segments[..|segments| - 1], segments[|segments| - 1];
      var frontOrders, lastOrder := orders[..|orders| - 1], orders[|orders| - 1];
      SegmentsRunAsListed(calls, exec, s, front, frontOrders);
      SegmentInAnyOrder(calls, exec, Final(exec, s, Flat(front)), last, lastOrder);
      RunJoin(exec, s, Flat(front), last);
      RunJoin(exec, s, Flat(frontOrders), lastOrder);
    }
  }
}
