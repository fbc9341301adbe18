/** The stable merge of several time-ordered streams: the specification that
    the paged replay and the unpaged replay are both proved against. */
module StableMerge {
  /** One stored bar; `bar` stands for everything but the open time. */
  datatype Row = Row(openTime: int, bar: int)

  /** A row together with the position of its stream in the declaration. */
  datatype Tagged = Tagged(stream: nat, row: Row)

  ghost predicate Increasing(rows: seq<Row>) {
    forall i, j :: 0 <= i < j < |rows| ==> rows[i].openTime < rows[j].openTime
  }

  ghost predicate AllIncreasing(rests: seq<seq<Row>>) {
    forall i :: 0 <= i < |rests| ==> Increasing(rests[i])
  }

  /** Replay order: by open time, equal times by declaration order. */
  ghost predicate Before(a: Tagged, b: Tagged) {
    a.row.openTime < b.row.openTime || (a.row.openTime == b.row.openTime && a.stream < b.stream)
  }

  ghost predicate Sorted(out: seq<Tagged>) {
    forall i, j :: 0 <= i < j < |out| ==> Before(out[i], out[j])
  }

  /** The rows that stream `i` contributed, in the order they came out. */
  ghost function Projection(out: seq<Tagged>, i: nat): seq<Row> {
    if out == [] then []
    else (if out[0].stream == i then [out[0].row] else []) + Projection(out[1..], i)
  }

  /** What a stable merge is, without saying how one is computed. */
  ghost predicate IsStableMerge(rests: seq<seq<Row>>, out: seq<Tagged>) {
    && Sorted(out)
    && (forall k :: 0 <= k < |out| ==> out[k].stream < |rests|)
    && (forall i :: 0 <= i < |rests| ==> Projection(out, i) == rests[i])
  }

  ghost function Total(rests: seq<seq<Row>>): nat {
    if rests == [] then 0 else |rests[0]| + Total(rests[1..])
  }

  /** Stream `i` holds the earliest head. */
  ghost predicate IsLeast(rests: seq<seq<Row>>, i: nat) {
    && i < |rests|
    && rests[i] != []
    && forall j :: 0 <= j < |rests| && rests[j] != [] && j != i ==>
         Before(Tagged(i, rests[i][0]), Tagged(j, rests[j][0]))
  }

  ghost predicate AllEmpty(rests: seq<seq<Row>>) {
    forall i :: 0 <= i < |rests| ==> rests[i] == []
  }

  ghost function Tail(rests: seq<seq<Row>>, i: nat): seq<seq<Row>>
    requires i < |rests| && rests[i] != []
  {
    rests[i := rests[i][1..]]
  }

  lemma {:induction false} TotalTail(rests: seq<seq<Row>>, i: nat)
    requires i < |rests| && rests[i] != []
    ensures Total(Tail(rests, i)) == Total(rests) - 1
  {
    var t := Tail(rests, i);
    if i == 0 {
      assert t[1..] == rests[1..];
    } else {
      TotalTail(rests[1..], i - 1);
      assert t[1..] == Tail(rests[1..], i - 1);
    }
  }

  /** Repeatedly takes the earliest head. */
  ghost function Merged(rests: seq<seq<Row>>): seq<Tagged>
    decreases Total(rests)
  {
    if exists i: nat :: IsLeast(rests, i) then
      var i: nat :| IsLeast(rests, i);
      TotalTail(rests, i);
      [Tagged(i, rests[i][0])] + Merged(Tail(rests, i))
    else
      []
  }

  lemma MergedStep(rests: seq<seq<Row>>, i: nat)
    requires IsLeast(rests, i)
    ensures Merged(rests) == [Tagged(i, rests[i][0])] + Merged(Tail(rests, i))
  {
    assert forall j: nat :: IsLeast(rests, j) ==> j == i;
  }

  lemma MergedEmpty(rests: seq<seq<Row>>)
    requires AllEmpty(rests)
    ensures Merged(rests) == []
  {
  }

  /** `out` takes the earliest head again and again until nothing is left. */
  ghost predicate IsMergeOf(rests: seq<seq<Row>>, out: seq<Tagged>)
    decreases |out|
  {
    if out == [] then AllEmpty(rests)
    else
      && IsLeast(rests, out[0].stream)
      && out[0].row == rests[out[0].stream][0]
      && IsMergeOf(Tail(rests, out[0].stream), out[1..])
  }

  lemma {:induction false} MergedIsMergeOf(rests: seq<seq<Row>>)
    ensures IsMergeOf(rests, Merged(rests))
    decreases Total(rests)
  {
    if AllEmpty(rests) {
      MergedEmpty(rests);
    } else {
      var i := SomeLeast(rests);
      MergedStep(rests, i);
      TotalTail(rests, i);
      MergedIsMergeOf(Tail(rests, i));
      assert Merged(rests)[1..] == Merged(Tail(rests, i));
    }
  }

  lemma MergeOfStep(rests: seq<seq<Row>>, out: seq<Tagged>, i: nat)
    requires IsMergeOf(rests, out) && IsLeast(rests, i)
    ensures out != [] && out[0] == Tagged(i, rests[i][0]) && IsMergeOf(Tail(rests, i), out[1..])
  {
    LeastUnique(rests, i, out[0].stream);
  }

  lemma LeastUnique(rests: seq<seq<Row>>, i: nat, j: nat)
    requires IsLeast(rests, i) && IsLeast(rests, j)
    ensures i == j
  {
  }

  /** Some stream is the earliest as soon as one has a row left. */
  lemma {:induction false} LeastOf(rests: seq<seq<Row>>, n: nat) returns (i: nat)
    requires n <= |rests|
    requires exists j :: 0 <= j < n && rests[j] != []
    ensures i < n && rests[i] != []
    ensures forall j :: 0 <= j < n && rests[j] != [] && j != i ==>
              Before(Tagged(i, rests[i][0]), Tagged(j, rests[j][0]))
    decreases n
  {
    if exists j :: 0 <= j < n - 1 && rests[j] != [] {
      i := LeastOf(rests, n - 1);
      if rests[n - 1] != [] && !Before(Tagged(i, rests[i][0]), Tagged(n - 1, rests[n - 1][0])) {
        i := n - 1;
      }
    } else {
      i := n - 1;
    }
  }

  lemma SomeLeast(rests: seq<seq<Row>>) returns (i: nat)
    requires !AllEmpty(rests)
    ensures IsLeast(rests, i)
  {
    i := LeastOf(rests, |rests|);
  }

  lemma {:induction false} MergedLength(rests: seq<seq<Row>>)
    ensures |Merged(rests)| == Total(rests)
    decreases Total(rests)
  {
    if AllEmpty(rests) {
      TotalOfEmpty(rests);
    } else {
      var i := SomeLeast(rests);
      MergedStep(rests, i);
      TotalTail(rests, i);
      MergedLength(Tail(rests, i));
    }
  }

  lemma {:induction false} TotalOfEmpty(rests: seq<seq<Row>>)
    requires AllEmpty(rests)
    ensures Total(rests) == 0
  {
    if rests != [] {
      TotalOfEmpty(rests[1..]);
    }
  }

  /** Every row that comes out is one of its stream's rows. */
  lemma {:induction false} MergedMembers(rests: seq<seq<Row>>, k: nat)
    requires k < |Merged(rests)|
    ensures var t := Merged(rests)[k]; t.stream < |rests| && t.row in rests[t.stream]
    decreases Total(rests)
  {
    if AllEmpty(rests) {
      MergedEmpty(rests);
    } else {
      var i := SomeLeast(rests);
      MergedStep(rests, i);
      TotalTail(rests, i);
      if k > 0 {
        MergedMembers(Tail(rests, i), k - 1);
      }
    }
  }

  lemma {:induction false} MergedSorted(rests: seq<seq<Row>>)
    requires AllIncreasing(rests)
    ensures Sorted(Merged(rests))
    decreases Total(rests)
  {
    hide AllIncreasing, Tail, Merged, Sorted, IsLeast;
    if AllEmpty(rests) {
      MergedEmpty(rests);
      SortedCons(Tagged(0, Row(0, 0)), []);
    } else {
      var i := SomeLeast(rests);
      MergedStep(rests, i);
      TotalTail(rests, i);
      TailIncreasing(rests, i);
      var out := Merged(Tail(rests, i));
      MergedSorted(Tail(rests, i));
      forall k | 0 <= k < |out| ensures Before(Tagged(i, rests[i][0]), out[k]) {
        MergedMembers(Tail(rests, i), k);
        LeastComesBefore(rests, i, out[k]);
      }
      SortedCons(Tagged(i, rests[i][0]), out);
    }
  }

  lemma TailIncreasing(rests: seq<seq<Row>>, i: nat)
    requires AllIncreasing(rests) && IsLeast(rests, i)
    ensures i < |rests| && rests[i] != [] && AllIncreasing(Tail(rests, i))
  {
  }

  /** The earliest head comes before every row that is left after it. */
  lemma LeastComesBefore(rests: seq<seq<Row>>, i: nat, t: Tagged)
    requires AllIncreasing(rests) && IsLeast(rests, i)
    requires t.stream < |Tail(rests, i)| && t.row in Tail(rests, i)[t.stream]
    ensures Before(Tagged(i, rests[i][0]), t)
  {
    var j := t.stream;
    var p :| 0 <= p < |Tail(rests, i)[j]| && Tail(rests, i)[j][p] == t.row;
    if j != i {
      assert Before(Tagged(i, rests[i][0]), Tagged(j, rests[j][0]));
      assert rests[j][0].openTime <= rests[j][p].openTime;
    } else {
      assert rests[i][p + 1] == t.row;
    }
  }

  lemma SortedCons(head: Tagged, out: seq<Tagged>)
    ensures Sorted([])
    ensures Sorted(out) && (forall k :: 0 <= k < |out| ==> Before(head, out[k])) ==> Sorted([head] + out)
  {
    hide Before;
  }

  lemma {:induction false} MergedProjection(rests: seq<seq<Row>>, s: nat)
    requires s < |rests|
    ensures Projection(Merged(rests), s) == rests[s]
    decreases Total(rests)
  {
    if AllEmpty(rests) {
      MergedEmpty(rests);
    } else {
      var i := SomeLeast(rests);
      MergedStep(rests, i);
      TotalTail(rests, i);
      MergedProjection(Tail(rests, i), s);
      assert Merged(rests)[1..] == Merged(Tail(rests, i));
    }
  }

  /** Sorted, nothing lost, nothing twice, every stream's own order kept. */
  lemma MergedIsStableMerge(rests: seq<seq<Row>>)
    requires AllIncreasing(rests)
    ensures IsStableMerge(rests, Merged(rests))
    ensures var out := Merged(rests);
            && (forall i, j :: 0 <= i < j < |out| ==>
                  || out[i].row.openTime < out[j].row.openTime
                  || (out[i].row.openTime == out[j].row.openTime && out[i].stream < out[j].stream))
            && (forall k :: 0 <= k < |out| ==> out[k].stream < |rests|)
            && (forall i :: 0 <= i < |rests| ==> Projection(out, i) == rests[i])
  {
    MergedSorted(rests);
    forall k | 0 <= k < |Merged(rests)| ensures Merged(rests)[k].stream < |rests| {
      MergedMembers(rests, k);
    }
    forall i | 0 <= i < |rests| ensures Projection(Merged(rests), i) == rests[i] {
      MergedProjection(rests, i);
    }
  }

  lemma {:induction false} FirstOfProjection(out: seq<Tagged>, i: nat) returns (k: nat)
    requires Projection(out, i) != []
    ensures k < |out| && out[k] == Tagged(i, Projection(out, i)[0])
  {
    if out[0].stream == i {
      k := 0;
    } else {
      k := FirstOfProjection(out[1..], i);
      k := k + 1;
    }
  }

  /** There is only one stable merge, so the description determines the order. */
  lemma {:induction false} StableMergeUnique(rests: seq<seq<Row>>, out: seq<Tagged>)
    requires IsStableMerge(rests, out)
    ensures out == Merged(rests)
    decreases |out|
  {
    if out == [] {
      assert AllEmpty(rests);
      MergedEmpty(rests);
    } else {
      var i := out[0].stream;
      assert Projection(out, i) == rests[i];
      assert rests[i][0] == out[0].row;
      forall j | 0 <= j < |rests| && rests[j] != [] && j != i
        ensures Before(out[0], Tagged(j, rests[j][0]))
      {
        var k := FirstOfProjection(out, j);
      }
      assert IsLeast(rests, i);
      MergedStep(rests, i);
      var rest := Tail(rests, i);
      forall j | 0 <= j < |rest| ensures Projection(out[1..], j) == rest[j] {
        assert Projection(out, j) == rests[j];
      }
      StableMergeUnique(rest, out[1..]);
      assert out == [out[0]] + out[1..];
    }
  }
}
