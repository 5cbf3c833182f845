/** `optimal_stream_sequence`: the greedy search for a chain of streams that starts with a full one. */
module StreamChain {
  import opened Zvol

  // ----- sorting: newest end first, and for equal ends the earliest start first -----

  predicate Before(a: Stream, b: Stream) {
    a.end > b.end || (a.end == b.end && a.start < b.start)
  }

  ghost predicate Sorted(v: seq<Stream>) {
    forall i, j :: 0 <= i < j < |v| ==> Before(v[i], v[j])
  }

  ghost predicate Distinct(v: seq<Stream>) {
    forall i, j :: 0 <= i < j < |v| ==> v[i] != v[j]
  }

  ghost predicate SameElements(v: seq<Stream>, w: seq<Stream>) {
    forall x :: x in v <==> x in w
  }

  ghost predicate Forward(v: seq<Stream>) {
    forall x :: x in v ==> x.start <= x.end
  }

  function Insert(x: Stream, v: seq<Stream>): (r: seq<Stream>)
    requires Sorted(v) && x !in v
    ensures Sorted(r)
    ensures forall y :: y in r <==> y == x || y in v
  {
    if v == [] || Before(x, v[0]) then
      [x] + v
    else
      var r := [v[0]] + Insert(x, v[1..]);
      assert forall y :: y in v <==> y == v[0] || y in v[1..];
      assert forall i :: 0 < i < |r| ==> r[i] in Insert(x, v[1..]);
      r
  }

  /** The sort by the comparison function of the source, on a listing without repeated names. */
  function SortByEnd(v: seq<Stream>): (r: seq<Stream>)
    requires Distinct(v)
    ensures Sorted(r) && SameElements(r, v)
  {
    if v == [] then [] else
      assert v[0] !in v[1..];
      assert forall y :: y in v <==> y == v[0] || y in v[1..];
      Insert(v[0], SortByEnd(v[1..]))
  }

  /** Sorting leaves no trace of the order in which the directory was listed. */
  lemma {:induction false} SortedIsUnique(v: seq<Stream>, w: seq<Stream>)
    requires Sorted(v) && Sorted(w) && SameElements(v, w)
    ensures v == w
  {
    assert v != [] ==> v[0] in w;
    assert w != [] ==> w[0] in v;
    if v != [] {
      assert v[0] == w[0];
      forall x ensures x in v[1..] <==> x in w[1..] {
        assert x in v <==> x == v[0] || x in v[1..];
        assert x in w <==> x == w[0] || x in w[1..];
        assert v[0] !in v[1..] && w[0] !in w[1..];
      }
      SortedIsUnique(v[1..], w[1..]);
    }
  }

  // ----- the greedy search -----

  /** The first index from i on whose stream ends at t, or |v|. */
  function FindEnd(v: seq<Stream>, i: nat, t: Time): (j: nat)
    requires i <= |v|
    ensures i <= j <= |v|
    ensures forall k :: i <= k < j ==> v[k].end != t
    ensures j < |v| ==> v[j].end == t
    decreases |v| - i
  {
    if i == |v| || v[i].end == t then i else FindEnd(v, i + 1, t)
  }

  /** The greedy walk from v[i] back in time. */
  function Walk(v: seq<Stream>, i: nat): (w: seq<Stream>)
    requires i < |v|
    ensures w != [] && w[0] == v[i]
    ensures forall x :: x in w ==> x in v
    decreases |v| - i
  {
    var j := FindEnd(v, i + 1, v[i].start);
    [v[i]] + if j < |v| then Walk(v, j) else []
  }

  function Reversed(w: seq<Stream>): (r: seq<Stream>)
    ensures |r| == |w|
    ensures forall i :: 0 <= i < |w| ==> r[i] == w[|w| - 1 - i]
    ensures forall x :: x in r ==> x in w
  {
    seq(|w|, i requires 0 <= i < |w| => w[|w| - 1 - i])
  }

  /** The walk of the first head that reaches a full stream, oldest stream first. */
  function Best(v: seq<Stream>): (r: seq<Stream>)
    ensures forall x :: x in r ==> x in v
  {
    if v == [] then []
    else
      var w := Walk(v, 0);
      if w[|w| - 1].Full() then Reversed(w) else Best(v[1..])
  }

  function WalkFrom(v: seq<Stream>, i: nat): seq<Stream> {
    if i < |v| then Walk(v, i) else []
  }

  lemma WalkStep(v: seq<Stream>, i: nat, w: seq<Stream>, j: nat)
    requires i < |v| && j == FindEnd(v, i + 1, v[i].start)
    ensures w + WalkFrom(v, i) == w + [v[i]] + WalkFrom(v, j)
  {
  }

  /** The innermost loop: from i on, the first stream that ends at t. */
  method NextEnd(v: seq<Stream>, i: nat, t: Time) returns (j: nat)
    requires i <= |v|
    ensures j == FindEnd(v, i, t)
  {
    j := i;
    while j < |v| && v[j].end != t
      invariant i <= j <= |v|
      invariant FindEnd(v, i, t) == FindEnd(v, j, t)
    {
      j := j + 1;
    }
  }

  /** The inner loops: follow the streams back in time from v[0] as far as they go. */
  method FollowBack(v: seq<Stream>) returns (w: seq<Stream>)
    requires v != []
    ensures w == Walk(v, 0)
  {
    w := [];
    var i := 0;
    while i < |v|
      invariant 0 <= i <= |v|
      invariant Walk(v, 0) == w + WalkFrom(v, i)
    {
      var j := NextEnd(v, i + 1, v[i].start);
      WalkStep(v, i, w, j);
      w, i := w + [v[i]], j;
    }
  }

  method OptimalStreamSequence(v0: seq<Stream>) returns (r: seq<Stream>)
    requires Distinct(v0)
    ensures r == Best(SortByEnd(v0))
  {
    if |v0| == 0 { return v0; }
    var v := SortByEnd(v0);
    while |v| > 0
      invariant Best(v) == Best(SortByEnd(v0))
      decreases |v|
    {
      var w := FollowBack(v);
      var x := w[|w| - 1];
      if x.start == x.end {
        return Reversed(w);
      }
      v := v[1..];
    }
    return [];
  }

  // ----- what a chain is -----

  /** One full stream, then incremental ones, each starting where the one before it ends. */
  ghost predicate IsChain(c: seq<Stream>) {
    && c != []
    && c[0].Full()
    && (forall i, j :: 0 <= i && j == i + 1 && j < |c| ==> Follows(c[j], c[i]))
  }

  /** x is an incremental stream that starts where y ends. */
  predicate Follows(x: Stream, y: Stream) {
    x.start == y.end && x.start < x.end
  }

  ghost predicate Boundary(c: seq<Stream>, t: Time) {
    exists i :: 0 <= i < |c| && c[i].end == t
  }

  /** Every incremental stream starts where another stream ends. */
  ghost predicate Anchored(s: set<Stream>) {
    forall x {:trigger HasAnchor(x, s)} :: x in s ==> HasAnchor(x, s)
  }

  ghost predicate HasAnchor(x: Stream, s: set<Stream>) {
    x.Full() || exists y :: y in s && y.end == x.start
  }

  lemma {:induction false} ChainEndsIncrease(c: seq<Stream>, i: nat, j: nat)
    requires IsChain(c) && i < j < |c|
    ensures c[i].end <= c[j].start < c[j].end
  {
    if i < j - 1 { ChainEndsIncrease(c, i, j - 1); }
  }

  /** A walk never meets a full stream before its last element, and its streams link up. */
  lemma {:induction false} WalkLinks(v: seq<Stream>, i: nat, w: seq<Stream>)
    requires Sorted(v) && Forward(v) && i < |v| && w == Walk(v, i)
    ensures forall k, l :: 0 <= k && l == k + 1 && l < |w| ==> Follows(w[k], w[l])
    decreases |v| - i
  {
    var j := FindEnd(v, i + 1, v[i].start);
    if j < |v| {
      WalkLinks(v, j, Walk(v, j));
      assert Before(v[i], v[j]);
      assert w == [v[i]] + Walk(v, j);
    }
  }

  lemma ReversedWalkIsChain(v: seq<Stream>)
    requires Sorted(v) && Forward(v) && v != [] && Walk(v, 0)[|Walk(v, 0)| - 1].Full()
    ensures IsChain(Reversed(Walk(v, 0)))
  {
    var w := Walk(v, 0);
    WalkLinks(v, 0, w);
    var r := Reversed(w);
    forall i, j | 0 <= i && j == i + 1 && j < |r| ensures Follows(r[j], r[i]) {
      assert Follows(w[|w| - 1 - j], w[|w| - 1 - i]);
    }
  }

  /** The result is a chain of input streams, or empty; it is empty exactly when no stream is full. */
  lemma {:induction false} BestIsChain(v: seq<Stream>)
    requires Sorted(v) && Forward(v)
    ensures Best(v) == [] <==> forall x :: x in v ==> !x.Full()
    ensures Best(v) != [] ==> IsChain(Best(v))
  {
    if v != [] {
      var w := Walk(v, 0);
      if w[|w| - 1].Full() {
        ReversedWalkIsChain(v);
        assert Reversed(w)[0] in Reversed(w);
      } else {
        BestIsChain(v[1..]);
        if v[0].Full() { FullHeadStandsAlone(v); assert false; }
        assert forall x :: x in v <==> x == v[0] || x in v[1..];
      }
    }
  }

  lemma FullHeadStandsAlone(v: seq<Stream>)
    requires Sorted(v) && Forward(v) && v != [] && v[0].Full()
    ensures Walk(v, 0) == [v[0]]
  {
    WalkLinks(v, 0, Walk(v, 0));
    assert |Walk(v, 0)| > 1 ==> Follows(Walk(v, 0)[0], Walk(v, 0)[1]);
  }

  /** In sort order, the anchor of an incremental stream comes after it, where the walk looks. */
  lemma AnchorComesLater(v: seq<Stream>, i: nat, y: Stream)
    requires Sorted(v) && Forward(v) && i < |v| && !v[i].Full()
    requires y in v && y.end == v[i].start
    ensures FindEnd(v, i + 1, v[i].start) < |v|
  {
    assert v[i] in v;
    var k :| 0 <= k < |v| && v[k] == y;
    assert !Before(v[k], v[i]) && k != i;
    assert i < k;
  }

  /** If no incremental stream lacks an anchor, the walk reaches a full stream. */
  lemma {:induction false} AnchoredWalkIsFull(v: seq<Stream>, i: nat, w: seq<Stream>, s: set<Stream>)
    requires Sorted(v) && Forward(v) && i < |v| && w == Walk(v, i)
    requires Anchored(s) && forall x :: x in v <==> x in s
    ensures w[|w| - 1].Full()
    decreases |v| - i
  {
    if !v[i].Full() {
      assert v[i] in v && HasAnchor(v[i], s);
      var y :| y in s && y.end == v[i].start;
      AnchorComesLater(v, i, y);
    }
    var j := FindEnd(v, i + 1, v[i].start);
    if j < |v| {
      AnchoredWalkIsFull(v, j, Walk(v, j), s);
    }
  }

  /** Greedy completeness: no head is dropped, so the chain ends at the newest end of all. */
  lemma GreedyIsComplete(v: seq<Stream>, s: set<Stream>)
    requires Sorted(v) && Forward(v) && v != []
    requires Anchored(s) && forall x :: x in v <==> x in s
    ensures IsChain(Best(v)) && Best(v)[|Best(v)| - 1] == v[0]
    ensures forall x :: x in v ==> x.end <= v[0].end
  {
    AnchoredWalkIsFull(v, 0, Walk(v, 0), s);
    ReversedWalkIsChain(v);
  }

  // ----- what the greedy search finds when some streams lack an anchor -----

  ghost predicate DistinctEnds(v: seq<Stream>) {
    forall a, b :: a in v && b in v && a.end == b.end ==> a == b
  }

  /** The walk along streams with distinct ends is the only way back: if there is a chain, it is that chain. */
  lemma {:induction false} OnlyWayBack(v: seq<Stream>, i: nat, c: seq<Stream>)
    requires Sorted(v) && Forward(v) && i < |v| && DistinctEnds(v)
    requires IsChain(c) && c[|c| - 1] == v[i] && forall x :: x in c ==> x in v
    ensures Walk(v, i)[|Walk(v, i)| - 1].Full()
    decreases |c|
  {
    var n, w := |c| - 1, Walk(v, i);
    if n == 0 {
      WalkLinks(v, i, w);
      assert |w| > 1 ==> Follows(w[0], w[1]);
    } else {
      assert Follows(c[n], c[n - 1]) && c[n - 1] in v;
      AnchorComesLater(v, i, c[n - 1]);
      var j := FindEnd(v, i + 1, v[i].start);
      assert v[j] in v;
      PrefixIsChain(c, n);
      OnlyWayBack(v, j, c[..n]);
    }
  }

  lemma PrefixIsChain(c: seq<Stream>, m: nat)
    requires IsChain(c) && 0 < m <= |c|
    ensures IsChain(c[..m]) && forall x :: x in c[..m] ==> x in c
  {
    forall i, j | 0 <= i && j == i + 1 && j < m ensures Follows(c[..m][j], c[..m][i]) {
      assert Follows(c[j], c[i]);
    }
  }

  lemma TailStays(v: seq<Stream>)
    requires Sorted(v) && Forward(v) && DistinctEnds(v) && v != []
    ensures Sorted(v[1..]) && Forward(v[1..]) && DistinctEnds(v[1..])
  {
    assert forall x :: x in v[1..] ==> x in v;
  }

  lemma ChainIsInTail(v: seq<Stream>, c: seq<Stream>)
    requires Sorted(v) && v != [] && IsChain(c) && (forall x :: x in c ==> x in v) && c[|c| - 1] != v[0]
    ensures forall x :: x in c ==> x in v[1..]
  {
    assert c[|c| - 1] in v;
    forall x | x in c ensures x in v[1..] {
      var k :| 0 <= k < |c| && c[k] == x;
      if k < |c| - 1 { ChainEndsIncrease(c, k, |c| - 1); }
      assert v == [v[0]] + v[1..];
    }
  }

  lemma HeadEndsLast(v: seq<Stream>, x: Stream)
    requires Sorted(v) && x in v
    ensures x.end <= v[0].end
  {
  }

  /** If no two streams have the same end, no chain whatever of the streams ends later than the one that is found. */
  lemma {:induction false} NothingNewerIsReachable(v: seq<Stream>, c: seq<Stream>)
    requires Sorted(v) && Forward(v) && DistinctEnds(v)
    requires IsChain(c) && forall x :: x in c ==> x in v
    ensures Best(v) != [] && c[|c| - 1].end <= Best(v)[|Best(v)| - 1].end
  {
    hide Sorted, Forward, DistinctEnds, Walk, Reversed;
    var last := c[|c| - 1];
    assert last in v;
    var w := Walk(v, 0);
    if w[|w| - 1].Full() {
      HeadEndsLast(v, last);
    } else {
      if last == v[0] { OnlyWayBack(v, 0, c); }
      ChainIsInTail(v, c);
      TailStays(v);
      NothingNewerIsReachable(v[1..], c);
    }
  }

  /** With equal ends the greedy search can miss a chain: of the two streams that end at 2 it follows the longer one, which
      leads nowhere, and gives up the newest stream. */
  lemma GreedyCanMiss()
    ensures var v := [Stream(2, 3), Stream(0, 2), Stream(1, 2), Stream(1, 1)];
            && Sorted(v) && Forward(v) && Best(v) == [Stream(1, 1), Stream(1, 2)]
            && IsChain([Stream(1, 1), Stream(1, 2), Stream(2, 3)])
  {
    var v := [Stream(2, 3), Stream(0, 2), Stream(1, 2), Stream(1, 1)];
    var v1 := [Stream(0, 2), Stream(1, 2), Stream(1, 1)];
    var v2 := [Stream(1, 2), Stream(1, 1)];
    assert FindEnd(v, 4, 0) == 4 && Walk(v, 1) == [Stream(0, 2)] by {
      assert FindEnd(v, 2, 0) == FindEnd(v, 3, 0) == FindEnd(v, 4, 0);
    }
    assert FindEnd(v, 1, 2) == 1 && Walk(v, 0) == [Stream(2, 3), Stream(0, 2)];
    assert v[1..] == v1 && v1[1..] == v2;
    assert FindEnd(v1, 1, 0) == FindEnd(v1, 2, 0) == FindEnd(v1, 3, 0) == 3;
    assert Walk(v1, 0) == [Stream(0, 2)];
    assert FindEnd(v2, 2, 1) == 2 && FindEnd(v2, 1, 1) == 1;
    assert Walk(v2, 1) == [Stream(1, 1)] && Walk(v2, 0) == [Stream(1, 2), Stream(1, 1)];
    assert Reversed(Walk(v2, 0)) == [Stream(1, 1), Stream(1, 2)];
    assert Best(v) == Best(v1) == Best(v2);
  }

  // ----- the same, for a directory -----

  ghost function Listing(s: set<Stream>): (v: seq<Stream>)
    ensures Distinct(v)
    ensures forall x :: x in v <==> x in s
  {
    if s == {} then [] else
      var x :| x in s;
      var v := Listing(s - {x});
      assert forall y :: y in s <==> y == x || y in s - {x};
      [x] + v
  }

  ghost predicate Lists(v: seq<Stream>, s: set<Stream>) {
    Distinct(v) && forall x :: x in v <==> x in s
  }

  /** The chain that `optimal_stream_sequence` finds in a directory holding the streams s. */
  ghost function ChainOf(s: set<Stream>): (c: seq<Stream>)
    ensures forall x :: x in c ==> x in s
  {
    Best(SortByEnd(Listing(s)))
  }

  /** Any listing order gives the same chain. */
  lemma ChainIgnoresOrder(v: seq<Stream>, s: set<Stream>)
    requires Lists(v, s)
    ensures Best(SortByEnd(v)) == ChainOf(s)
  {
    SortedIsUnique(SortByEnd(v), SortByEnd(Listing(s)));
  }

  lemma ChainOfIsChain(s: set<Stream>)
    requires forall x :: x in s ==> x.start <= x.end
    ensures ChainOf(s) == [] <==> forall x :: x in s ==> !x.Full()
    ensures ChainOf(s) != [] ==> IsChain(ChainOf(s))
  {
    BestIsChain(SortByEnd(Listing(s)));
  }

  /** In an anchored directory no stream is newer than the chain that is found. */
  lemma AnchoredChainReachesNewest(s: set<Stream>)
    requires forall x :: x in s ==> x.start <= x.end
    requires Anchored(s) && s != {}
    ensures IsChain(ChainOf(s))
    ensures forall x :: x in s ==> x.end <= ChainOf(s)[|ChainOf(s)| - 1].end
  {
    var v := SortByEnd(Listing(s));
    var x :| x in s;
    assert x in v;
    GreedyIsComplete(v, s);
    ChainOfIsChain(s);
  }
}
