/** `recv_streams`: which snapshots to keep, which suffix of the chain to apply, and applying it. */
module Receive {
  import opened Options
  import opened Zvol
  import opened StreamChain

  // ----- the decision -----

  /** Keep the first `keep` snapshots, then apply the chain from index `from` on. */
  datatype Plan = Plan(keep: nat, from: nat)

  /** The number of streams of c that end at or before t. */
  function EndedBy(c: seq<Stream>, t: Time): (n: nat)
    ensures n <= |c|
  {
    if c == [] then 0
    else if c[|c| - 1].end <= t then |c|
    else EndedBy(c[..|c| - 1], t)
  }

  /** Of the first r snapshots, how many survive when the later ones that are strictly inside
      an interval of the chain are dropped, newest first. */
  ghost function Kept(ts: seq<Time>, r: nat, c: seq<Stream>): (k: nat)
    requires r <= |ts| && c != []
    ensures k <= r
    ensures k > 0 ==> Boundary(c, ts[k - 1]) || ts[k - 1] < c[0].end
    ensures forall i :: k <= i < r ==> !Boundary(c, ts[i]) && ts[i] >= c[0].end
  {
    if r == 0 then 0
    else if Boundary(c, ts[r - 1]) || ts[r - 1] < c[0].end then r
    else Kept(ts, r - 1, c)
  }

  /** No common snapshot can be found from the newest one down. */
  ghost predicate Astray(ts: seq<Time>, c: seq<Stream>)
    requires ts != [] && c != []
  {
    || ts[|ts| - 1] > c[|c| - 1].end
    || var k := Kept(ts, |ts|, c); k > 0 && ts[k - 1] < c[0].end
  }

  /** What the source decides; None is its IndexError on an empty chain. */
  ghost function PlanFor(ts: seq<Time>, c: seq<Stream>): (plan: Option<Plan>)
    ensures plan.Some? ==> plan.value.keep <= |ts| && plan.value.from <= |c|
  {
    if |ts| == 0 then
      Some(Plan(0, 0))
    else if |ts| == 1 then
      if c == [] then None
      else if ts[0] == c[0].start then Some(Plan(1, 1))
      else Some(Plan(0, 0))
    else if |c| == 0 then
      Some(Plan(|ts|, 0))
    else if |c| == 1 then
      Some(Plan(0, 0))
    else
      var k := if ts[|ts| - 1] > c[|c| - 1].end then |ts| else Kept(ts, |ts|, c);
      if Astray(ts, c) then Some(Plan(k, |c| - 1))  // a slice from index -1
      else Some(Plan(k, EndedBy(c, ts[if k == 0 then 0 else k - 1])))
  }

  /** At a time from the start of c[a] until before its end, a streams have ended. */
  lemma EndedByInside(c: seq<Stream>, a: nat, t: Time)
    requires IsChain(c) && a < |c| && c[a].start <= t < c[a].end
    ensures EndedBy(c, t) == a
    decreases |c|
  {
    var n := |c| - 1;
    if a < n {
      ChainEndsIncrease(c, a, n);
      EndedByInside(c[..n], a, t);
    } else if a > 0 {
      assert Follows(c[a], c[a - 1]);
      assert c[..n][n - 1].end <= t;
    }
  }

  lemma NotBoundaryInside(c: seq<Stream>, a: nat, t: Time)
    requires IsChain(c) && a < |c| && c[a].start < t < c[a].end
    ensures !Boundary(c, t) && t >= c[0].end && a > 0
  {
    if a > 0 {
      assert Follows(c[a], c[a - 1]);
      if a > 1 { ChainEndsIncrease(c, 0, a - 1); }
    }
    forall i | 0 <= i < |c| ensures c[i].end != t {
      if i < a { ChainEndsIncrease(c, i, a); }
      if a < i { ChainEndsIncrease(c, a, i); }
    }
  }

  lemma ChainAround(c: seq<Stream>, a: nat)
    requires IsChain(c) && a < |c|
    ensures a < |c| - 1 ==> c[a + 1].start == c[a].end < c[|c| - 1].end
    ensures if a == 0 then c[a].Full() else c[0].end <= c[a - 1].end == c[a].start < c[a].end
  {
    if a < |c| - 1 {
      ChainEndsIncrease(c, a, |c| - 1);
      assert Follows(c[a + 1], c[a]);
    }
    if a > 0 { assert Follows(c[a], c[a - 1]); }
    if a > 1 { ChainEndsIncrease(c, 0, a - 1); }
  }

  /** The snapshots from r on have been dropped rightly. */
  ghost predicate DroppedTo(ts: seq<Time>, r: nat, c: seq<Stream>)
    requires r <= |ts| && c != []
  {
    Kept(ts, |ts|, c) == Kept(ts, r, c)
  }

  /** The newest snapshot that has not been dropped is where stream a starts: go on from there. */
  lemma PlanFromStart(ts: seq<Time>, r: nat, c: seq<Stream>, a: nat)
    requires IsChain(c) && |ts| >= 2 && |c| >= 2 && a < |c| && 0 < r <= |ts| && c[a].start == ts[r - 1] < c[a].end
    requires ts[|ts| - 1] <= c[|c| - 1].end && DroppedTo(ts, r, c)
    ensures PlanFor(ts, c) == Some(Plan(r, a))
  {
    ChainAround(c, a);
    EndedByInside(c, a, ts[r - 1]);
    assert c[a - 1].end == ts[r - 1];
  }

  /** The newest snapshot is the end of the chain: nothing is dropped and nothing applied. */
  lemma PlanAtEnd(ts: seq<Time>, c: seq<Stream>)
    requires IsChain(c) && |ts| >= 2 && |c| >= 2 && ts[|ts| - 1] == c[|c| - 1].end
    ensures PlanFor(ts, c) == Some(Plan(|ts|, |c|))
  {
    assert Boundary(c, ts[|ts| - 1]);
    ChainEndsIncrease(c, 0, |c| - 1);
  }

  /** The chain is used up: the newest snapshot left is newer or older than all of it. */
  lemma PlanAstray(ts: seq<Time>, r: nat, c: seq<Stream>)
    requires IsChain(c) && |ts| >= 2 && |c| >= 2 && 0 < r <= |ts|
    requires if ts[|ts| - 1] > c[|c| - 1].end then r == |ts| else ts[r - 1] < c[0].start && DroppedTo(ts, r, c)
    ensures PlanFor(ts, c) == Some(Plan(r, |c| - 1))
  {
  }

  /** Every snapshot has been dropped: everything that has not ended at the first is applied, to nothing. */
  lemma PlanFromNothing(ts: seq<Time>, c: seq<Stream>)
    requires |ts| >= 2 && |c| >= 2 && ts[|ts| - 1] <= c[|c| - 1].end && DroppedTo(ts, 0, c)
    ensures PlanFor(ts, c) == Some(Plan(0, EndedBy(c, ts[0])))
  {
  }

  /** A snapshot strictly inside a stream of the chain is dropped. */
  lemma InsideIsDropped(ts: seq<Time>, r: nat, c: seq<Stream>, a: nat)
    requires IsChain(c) && a < |c| && 0 < r <= |ts| && c[a].start < ts[r - 1] < c[a].end
    ensures (DroppedTo(ts, r, c) ==> DroppedTo(ts, r - 1, c)) && EndedBy(c, ts[r - 1]) == a
  {
    NotBoundaryInside(c, a, ts[r - 1]);
    EndedByInside(c, a, ts[r - 1]);
  }

  /** The walk over chain and snapshots from the right, as two counters that only go down. */
  method SearchBack(ts: seq<Time>, c: seq<Stream>) returns (plan: Plan)
    requires Increasing(ts) && IsChain(c) && |ts| >= 2 && |c| >= 2
    ensures PlanFor(ts, c) == Some(plan)
  {
    hide PlanFor, Boundary, EndedBy, Astray, IsChain;
    assert DroppedTo(ts, |ts|, c);
    hide DroppedTo;
    var rollbackTo := |ts|;
    var newest := ts[|ts| - 1];
    var applyFrom: int := |c| - 1;
    while applyFrom >= 0 && rollbackTo >= 1
      invariant -1 <= applyFrom < |c| && 0 <= rollbackTo <= |ts|
      invariant rollbackTo >= 1 ==> newest == ts[rollbackTo - 1]
      invariant ts[|ts| - 1] > c[|c| - 1].end ==> rollbackTo == |ts|
      invariant DroppedTo(ts, rollbackTo, c)
      invariant rollbackTo >= 1 && ts[|ts| - 1] <= c[|c| - 1].end ==>
                  newest <= c[|c| - 1].end && (applyFrom < |c| - 1 ==> newest < c[applyFrom + 1].start)
      invariant rollbackTo == 0 ==> applyFrom >= 0 && EndedBy(c, ts[0]) == applyFrom
      decreases applyFrom + rollbackTo
    {
      ChainAround(c, applyFrom);
      if c[applyFrom].start == newest {
        PlanFromStart(ts, rollbackTo, c, applyFrom);
        break;
      } else if c[applyFrom].end == newest {
        PlanAtEnd(ts, c);
        return Plan(|ts|, |c|);
      } else if c[applyFrom].start < newest && c[applyFrom].end > newest {
        InsideIsDropped(ts, rollbackTo, c, applyFrom);
        rollbackTo := rollbackTo - 1;
        newest := ts[if rollbackTo == 0 then |ts| - 1 else rollbackTo - 1];
      } else {
        applyFrom := applyFrom - 1;
      }
    }
    if applyFrom < 0 { PlanAstray(ts, rollbackTo, c); }
    if rollbackTo == 0 { PlanFromNothing(ts, c); }
    return Plan(rollbackTo, if applyFrom >= 0 then applyFrom else |c| - 1);
  }

  /** The special cases for few snapshots or streams, and the search. Without a chain the search would not be
      entered, and the slice from index -1 of no streams is empty. */
  method PlanReceive(ts: seq<Time>, c: seq<Stream>) returns (plan: Option<Plan>)
    requires Increasing(ts)
    requires c == [] || IsChain(c)
    ensures plan == PlanFor(ts, c)
  {
    if |ts| == 0 {
      return Some(Plan(0, 0));
    } else if |ts| == 1 {
      if |c| == 0 { return None; }
      return Some(if ts[0] == c[0].start then Plan(1, 1) else Plan(0, 0));
    } else if |c| == 1 {
      return Some(Plan(0, 0));
    } else if |c| == 0 {
      return Some(Plan(|ts|, 0));
    } else {
      var found := SearchBack(ts, c);
      return Some(found);
    }
  }

  // ----- carrying the plan out -----

  /** `zfs rollback -r` to the last kept snapshot, or `zfs destroy -r` when none is kept. */
  function Rollback(z: Option<Volume>, keep: nat): Option<Volume>
    requires keep <= |SnapsOf(z)|
  {
    if keep == 0 then None
    else if keep < |z.value.snaps| then Some(Volume(z.value.snaps[..keep], z.value.snaps[keep - 1].image))
    else z
  }

  /** `zfs recv`: a full stream needs a volume without snapshots, an incremental one a volume
      whose newest snapshot is the stream's start; anything else is refused. */
  function Receive1(z: Option<Volume>, s: Stream, f: File): Option<Volume> {
    var snaps := SnapsOf(z);
    if s.Full() then
      if snaps == [] then
        var image := f.ApplyTo(map[]);
        Some(Volume([Snap(s.end, image)], image))
      else None
    else if snaps != [] && snaps[|snaps| - 1].time == s.start then
      var image := f.ApplyTo(snaps[|snaps| - 1].image);
      Some(Volume(snaps + [Snap(s.end, image)], image))
    else None
  }

  /** Apply one stream after the other; stop at the first that is refused. */
  function ApplyAll(z: Option<Volume>, files: map<Stream, File>, c: seq<Stream>): (Option<Volume>, Outcome)
    requires forall x :: x in c ==> x in files
    decreases |c|
  {
    if c == [] then (z, Done)
    else
      var z' := Receive1(z, c[0], files[c[0]]);
      if z' == None then (z, Failed(Refused))
      else ApplyAll(z', files, c[1..])
  }

  /** `recv_streams`, as a function of the node. */
  ghost function RecvNode(n: Node): (Node, Outcome) {
    if n.files == map[] then (n, Done)
    else if n.imported then (n, Failed(PoolImported))
    else RecvChain(n, ChainOf(n.files.Keys))
  }

  /** The same for a directory that may also hold the `.partial` file of a send that was killed: it is not empty then,
      even if it holds no stream. */
  ghost function RecvListed(n: Node, leftovers: bool): (Node, Outcome) {
    if n.files != map[] || !leftovers then RecvNode(n)
    else if n.imported then (n, Failed(PoolImported))
    else RecvChain(n, [])
  }

  /** Such a file makes a difference exactly if there is no stream and the pool is imported or there is just one snapshot;
      then the receive fails instead of doing nothing. */
  lemma LeftoversMatterIff(n: Node)
    ensures RecvListed(n, true) != RecvNode(n) <==> n.files == map[] && (n.imported || |SnapsOf(n.zvol)| == 1)
    ensures RecvListed(n, true) != RecvNode(n) ==>
              RecvNode(n) == (n, Done) && RecvListed(n, true) == (n, Failed(if n.imported then PoolImported else NoChain))
  {
    var none: seq<Stream> := [];
    assert none[0..] == [];
  }

  /** The same once the chain is found. */
  ghost function RecvChain(n: Node, c: seq<Stream>): (Node, Outcome)
    requires forall x :: x in c ==> x in n.files
  {
    var plan := PlanFor(Times(SnapsOf(n.zvol)), c);
    if plan == None then (n, Failed(NoChain)) else RunPlan(n, c, plan.value)
  }

  ghost function RunPlan(n: Node, c: seq<Stream>, plan: Plan): (Node, Outcome)
    requires plan.keep <= |SnapsOf(n.zvol)| && plan.from <= |c|
    requires forall x :: x in c ==> x in n.files
  {
    var todo := c[plan.from..];
    if todo == [] then (n, Done)
    else
      var (z, outcome) := ApplyAll(Rollback(n.zvol, plan.keep), n.files, todo);
      (n.(zvol := z), outcome)
  }

  // ----- what receiving achieves -----

  /** Snapshots and files tell the truth about the images that were snapshotted. */
  ghost predicate TrueSnaps(snaps: seq<Snap>, hist: map<Time, Image>) {
    forall i :: 0 <= i < |snaps| ==> snaps[i].time in hist && snaps[i].image == hist[snaps[i].time]
  }

  ghost function Recorded(hist: map<Time, Image>, t: Time): Image {
    if t in hist then hist[t] else map[]
  }

  ghost predicate TrueFile(s: Stream, f: File, hist: map<Time, Image>) {
    && s.start <= s.end && s.start in hist && s.end in hist
    && f.ApplyTo(if s.Full() then map[] else hist[s.start]) == hist[s.end]
  }

  ghost predicate TrueFiles(files: map<Stream, File>, hist: map<Time, Image>) {
    forall s :: s in files ==> TrueFile(s, files[s], hist)
  }

  /** The snapshots that a chain carries. */
  ghost function SnapsCarried(c: seq<Stream>, hist: map<Time, Image>): seq<Snap> {
    seq(|c|, i requires 0 <= i < |c| => Snap(c[i].end, Recorded(hist, c[i].end)))
  }

  /** The condition under which the decision is sound, in terms a caller can check. */
  ghost predicate Recoverable(ts: seq<Time>, c: seq<Stream>)
    requires c != []
  {
    || |ts| <= 1
    || |c| == 1
    || (ts[|ts| - 1] <= c[|c| - 1].end && exists i :: 0 <= i < |ts| && Boundary(c, ts[i]))
  }

  /** A stream that starts where the volume stands is accepted and brings the recorded image. */
  lemma TrueStreamIsAccepted(z: Option<Volume>, s: Stream, f: File, hist: map<Time, Image>)
    requires TrueFile(s, f, hist) && TrueSnaps(SnapsOf(z), hist)
    requires if s.Full() then SnapsOf(z) == [] else SnapsOf(z) != [] && SnapsOf(z)[|SnapsOf(z)| - 1].time == s.start
    ensures Receive1(z, s, f) == Some(Volume(SnapsOf(z) + [Snap(s.end, hist[s.end])], hist[s.end]))
  {
    var snaps := SnapsOf(z);
    assert s.Full() ==> snaps + [Snap(s.end, hist[s.end])] == [Snap(s.end, hist[s.end])];
    assert !s.Full() ==> snaps[|snaps| - 1].image == hist[s.start];
  }

  /** One stream of the suffix, then the others. */
  lemma ApplyFirst(z: Option<Volume>, files: map<Stream, File>, c: seq<Stream>, i: nat)
    requires i < |c| && (forall x :: x in c ==> x in files) && Receive1(z, c[i], files[c[i]]).Some?
    ensures ApplyAll(z, files, c[i..]) == ApplyAll(Receive1(z, c[i], files[c[i]]), files, c[i + 1..])
  {
    assert c[i..][0] == c[i] && c[i..][1..] == c[i + 1..];
  }

  lemma CarryFirst(snaps: seq<Snap>, c: seq<Stream>, i: nat, hist: map<Time, Image>)
    requires i < |c|
    ensures snaps + SnapsCarried(c[i..], hist) ==
            snaps + [Snap(c[i].end, Recorded(hist, c[i].end))] + SnapsCarried(c[i + 1..], hist)
  {
    assert SnapsCarried(c[i..], hist) == [Snap(c[i].end, Recorded(hist, c[i].end))] + SnapsCarried(c[i + 1..], hist);
  }

  /** Each stream of a suffix is accepted in turn if the volume stands at the suffix's start. */
  lemma {:induction false} SuffixIsAccepted(z: Option<Volume>, files: map<Stream, File>, c: seq<Stream>, i: nat, hist: map<Time, Image>)
    requires IsChain(c) && i < |c| && TrueFiles(files, hist) && forall x :: x in c ==> x in files
    requires TrueSnaps(SnapsOf(z), hist)
    requires if i == 0 then SnapsOf(z) == []
             else SnapsOf(z) != [] && SnapsOf(z)[|SnapsOf(z)| - 1].time == c[i - 1].end
    ensures var newest := Recorded(hist, c[|c| - 1].end);
            ApplyAll(z, files, c[i..]) == (Some(Volume(SnapsOf(z) + SnapsCarried(c[i..], hist), newest)), Done)
    decreases |c| - i
  {
    var s := c[i];
    assert i > 0 ==> Follows(c[i], c[i - 1]);
    TrueStreamIsAccepted(z, s, files[s], hist);
    var z' := Receive1(z, s, files[s]);
    ApplyFirst(z, files, c, i);
    CarryFirst(SnapsOf(z), c, i, hist);
    if i + 1 < |c| {
      SuffixIsAccepted(z', files, c, i + 1, hist);
    } else {
      assert c[i + 1..] == [];
      assert SnapsOf(z') + SnapsCarried([], hist) == SnapsOf(z');
    }
  }

  lemma {:induction false} EndedByBounds(c: seq<Stream>, t: Time)
    requires IsChain(c) && c[0].end <= t < c[|c| - 1].end
    ensures 0 < EndedBy(c, t) < |c|
    decreases |c|
  {
    var n := |c| - 1;
    assert IsChain(c[..n]);
    if c[n - 1].end > t { EndedByBounds(c[..n], t); }
  }

  lemma EndedByBoundary(c: seq<Stream>, t: Time)
    requires IsChain(c) && Boundary(c, t)
    ensures 0 < EndedBy(c, t) && c[EndedBy(c, t) - 1].end == t
  {
    var i :| 0 <= i < |c| && c[i].end == t;
    if i + 1 < |c| {
      assert Follows(c[i + 1], c[i]);
      EndedByInside(c, i + 1, t);
    }
  }

  /** Where the volume stands after a plan: the snapshots kept, followed by those the applied streams carry. */
  ghost function Resumed(n: Node, c: seq<Stream>, plan: Plan, hist: map<Time, Image>): seq<Snap>
    requires plan.keep <= |SnapsOf(n.zvol)| && plan.from <= |c|
  {
    SnapsOf(n.zvol)[..plan.keep] + SnapsCarried(c[plan.from..], hist)
  }

  /** The newest snapshot was taken at t and holds the image recorded then. */
  ghost predicate NewestIs(snaps: seq<Snap>, t: Time, hist: map<Time, Image>) {
    snaps != [] && snaps[|snaps| - 1] == Snap(t, Recorded(hist, t))
  }

  /** A plan that joins a kept snapshot to the chain (or starts from nothing) goes through. */
  lemma JoinedPlanSucceeds(n: Node, c: seq<Stream>, plan: Plan, hist: map<Time, Image>)
    requires IsChain(c) && TrueFiles(n.files, hist) && TrueSnaps(SnapsOf(n.zvol), hist)
    requires forall x :: x in c ==> x in n.files
    requires plan.keep <= |SnapsOf(n.zvol)| && plan.from <= |c|
    requires if plan.from == 0 then plan.keep == 0
             else plan.keep > 0 && SnapsOf(n.zvol)[plan.keep - 1].time == c[plan.from - 1].end
    requires plan.from == |c| ==> plan.keep == |SnapsOf(n.zvol)|
    ensures NewestIs(Resumed(n, c, plan, hist), c[|c| - 1].end, hist)
    ensures var (n', outcome) := RunPlan(n, c, plan);
            outcome == Done && SnapsOf(n'.zvol) == Resumed(n, c, plan, hist)
            && n'.files == n.files && n'.imported == n.imported
            && (plan.from == |c| ==> n' == n)
            && (plan.from < |c| ==> n'.zvol.Some? && n'.zvol.value.live == Recorded(hist, c[|c| - 1].end))
  {
    var snaps := SnapsOf(n.zvol);
    if plan.from < |c| {
      var z := Rollback(n.zvol, plan.keep);
      assert SnapsOf(z) == snaps[..plan.keep];
      assert plan.keep > 0 ==> snaps[..plan.keep][plan.keep - 1] == snaps[plan.keep - 1];
      SuffixIsAccepted(z, n.files, c, plan.from, hist);
    } else {
      assert snaps[..plan.keep] + SnapsCarried(c[plan.from..], hist) == snaps;
    }
  }

  /** A plan that does not join up is refused at its first stream; only the rollback remains. */
  lemma UnjoinedPlanIsRefused(n: Node, c: seq<Stream>, plan: Plan)
    requires IsChain(c) && forall x :: x in c ==> x in n.files
    requires plan.keep <= |SnapsOf(n.zvol)| && 0 < plan.from < |c|
    requires plan.keep > 0 ==> SnapsOf(n.zvol)[plan.keep - 1].time != c[plan.from].start
    ensures RunPlan(n, c, plan) == (n.(zvol := Rollback(n.zvol, plan.keep)), Failed(Refused))
  {
    assert Follows(c[plan.from], c[plan.from - 1]);
    assert c[plan.from..][0] == c[plan.from];
    var z := Rollback(n.zvol, plan.keep);
    assert SnapsOf(z) == SnapsOf(n.zvol)[..plan.keep];
  }

  /** The main decision theorem: the plan joins up exactly when the state is recoverable, and then it
      joins at the greatest snapshot that is a chain boundary. */
  lemma PlanJoinsIff(ts: seq<Time>, c: seq<Stream>)
    requires Increasing(ts) && IsChain(c)
    ensures var plan := PlanFor(ts, c);
            && plan.Some?
            && (plan.value.from == |c| ==> plan.value.keep == |ts| > 0 && ts[|ts| - 1] == c[|c| - 1].end)
            && (Recoverable(ts, c) ==> if plan.value.from == 0 then plan.value.keep == 0
                                       else plan.value.keep > 0 && ts[plan.value.keep - 1] == c[plan.value.from - 1].end)
            && (Recoverable(ts, c) && |ts| >= 2 && |c| >= 2 ==>
                  plan.value.from > 0 && forall i :: plan.value.keep <= i < |ts| ==> !Boundary(c, ts[i]))
            && (|ts| == 1 ==> plan.value.keep == if ts[0] == c[0].start then 1 else 0)
            && (!Recoverable(ts, c) ==>
                  0 < plan.value.from < |c| && (plan.value.keep > 0 ==> ts[plan.value.keep - 1] != c[plan.value.from].start))
  {
    if |ts| >= 2 && |c| >= 2 {
      ChainEndsIncrease(c, 0, |c| - 1);
      assert Follows(c[|c| - 1], c[|c| - 2]);
      if |c| > 2 { ChainEndsIncrease(c, 0, |c| - 2); }
      var k := Kept(ts, |ts|, c);
      forall i | 0 <= i < |ts| && ts[i] < c[0].end ensures !Boundary(c, ts[i]) {
        BoundaryIsNotEarly(c, ts[i]);
      }
      if ts[|ts| - 1] > c[|c| - 1].end {
      } else if k == 0 {
        assert !Boundary(c, ts[|ts| - 1]) && c[|c| - 1].end != ts[|ts| - 1];
        EndedByBounds(c, ts[0]);
      } else if ts[k - 1] < c[0].end {
      } else {
        EndedByBoundary(c, ts[k - 1]);
      }
    }
  }

  lemma BoundaryIsNotEarly(c: seq<Stream>, t: Time)
    requires IsChain(c) && t < c[0].end
    ensures !Boundary(c, t)
  {
    forall i | 0 <= i < |c| ensures c[i].end != t {
      if i > 0 { ChainEndsIncrease(c, 0, i); }
    }
  }

  /** A node whose files and snapshots are true and which holds the chain c. */
  ghost predicate Receivable(n: Node, c: seq<Stream>, hist: map<Time, Image>) {
    && !n.imported
    && IsChain(c) && (forall x :: x in c ==> x in n.files)
    && TrueFiles(n.files, hist) && TrueSnaps(SnapsOf(n.zvol), hist)
    && Increasing(Times(SnapsOf(n.zvol)))
  }

  lemma ChainRestoresIff(n: Node, c: seq<Stream>, hist: map<Time, Image>)
    requires Receivable(n, c, hist)
    ensures var (n', outcome) := RecvChain(n, c);
            var snaps, snaps' := SnapsOf(n.zvol), SnapsOf(n'.zvol);
            && n'.files == n.files && n'.imported == n.imported
            && (outcome == Done <==> Recoverable(Times(snaps), c))
            && (outcome == Done ==> NewestIs(snaps', c[|c| - 1].end, hist) && (|snaps'| == 1 <==> |c| == 1))
            && (outcome != Done ==> outcome == Failed(Refused) && snaps' <= snaps)
  {
    hide TrueFiles, TrueSnaps, RunPlan;
    var ts := Times(SnapsOf(n.zvol));
    PlanJoinsIff(ts, c);
    var plan := PlanFor(ts, c).value;
    if Recoverable(ts, c) {
      JoinedPlanSucceeds(n, c, plan, hist);
    } else {
      UnjoinedPlanIsRefused(n, c, plan);
    }
  }

  /** `recv_streams` succeeds exactly when the state is recoverable. Then the newest snapshot is the end of the
      chain, with the image that was snapshotted then; otherwise a prefix of the old snapshots is left. */
  lemma ReceiveRestoresIff(n: Node, hist: map<Time, Image>)
    requires Receivable(n, ChainOf(n.files.Keys), hist)
    ensures var c := ChainOf(n.files.Keys);
            var (n', outcome) := RecvNode(n);
            var snaps, snaps' := SnapsOf(n.zvol), SnapsOf(n'.zvol);
            && n'.files == n.files && n'.imported == n.imported
            && (outcome == Done <==> Recoverable(Times(snaps), c))
            && (outcome == Done ==> NewestIs(snaps', c[|c| - 1].end, hist))
            && (outcome != Done ==> outcome == Failed(Refused) && snaps' <= snaps)
  {
    var c := ChainOf(n.files.Keys);
    ChainRestoresIff(n, c, hist);
    assert c[0] in n.files;
  }

  /** A mounted pool is not received over: nothing changes, and it is an error unless there is nothing to receive. */
  lemma MountedIsUntouched(n: Node)
    requires n.imported
    ensures RecvNode(n).0 == n && (RecvNode(n).1 == Done <==> n.files == map[])
  {
  }

  /** The chain's end is the newest snapshot, of several or of one like the chain. */
  predicate AtEnd(ts: seq<Time>, c: seq<Stream>)
    requires c != []
  {
    ts != [] && ts[|ts| - 1] == c[|c| - 1].end && (|ts| == 1 <==> |c| == 1)
  }

  /** Exactly then nothing is applied. */
  lemma NothingIsAppliedIff(ts: seq<Time>, c: seq<Stream>)
    requires Increasing(ts) && IsChain(c)
    ensures PlanFor(ts, c).Some? && (PlanFor(ts, c).value.from == |c| <==> AtEnd(ts, c))
  {
    PlanJoinsIff(ts, c);
    if AtEnd(ts, c) { NothingToDoAtEnd(ts, c); }
  }

  /** Snapshot i is at a boundary of the chain, or, with several snapshots and streams, there is a later one that is. */
  ghost predicate Survives(ts: seq<Time>, c: seq<Stream>, i: nat)
    requires i < |ts|
  {
    Boundary(c, ts[i]) || (|ts| >= 2 && |c| >= 2 && exists k :: i <= k < |ts| && Boundary(c, ts[k]))
  }

  lemma KeptIff(ts: seq<Time>, c: seq<Stream>, i: nat)
    requires Increasing(ts) && IsChain(c) && Recoverable(ts, c) && i < |ts|
    ensures var plan := PlanFor(ts, c);
            && plan.Some?
            && (Survives(ts, c, i) <==> i < plan.value.keep || exists b :: plan.value.from <= b < |c| && c[b].end == ts[i])
  {
    PlanJoinsIff(ts, c);
    var plan := PlanFor(ts, c).value;
    if i < plan.keep {
      assert Boundary(c, ts[plan.keep - 1]);
    }
  }

  lemma EarlierDiffers(snaps: seq<Snap>, l: nat, i: nat)
    requires Increasing(Times(snaps)) && l < i < |snaps|
    ensures snaps[l] != snaps[i]
  {
    assert Times(snaps)[l] < Times(snaps)[i];
  }

  lemma InResumed(n: Node, c: seq<Stream>, hist: map<Time, Image>, plan: Plan, i: nat)
    requires Receivable(n, c, hist) && i < |SnapsOf(n.zvol)| && plan.keep <= |SnapsOf(n.zvol)| && plan.from <= |c|
    ensures SnapsOf(n.zvol)[i] in Resumed(n, c, plan, hist) <==>
            i < plan.keep || exists b :: plan.from <= b < |c| && c[b].end == SnapsOf(n.zvol)[i].time
  {
    var snaps, all := SnapsOf(n.zvol), Resumed(n, c, plan, hist);
    if i < plan.keep {
      assert all[i] == snaps[i];
    } else if snaps[i] in all {
      forall l | 0 <= l < plan.keep ensures all[l] != snaps[i] {
        EarlierDiffers(snaps, l, i);
      }
      var l :| 0 <= l < |all| && all[l] == snaps[i];
      assert c[plan.from..][l - plan.keep] == c[plan.from + l - plan.keep];
    } else if b :| plan.from <= b < |c| && c[b].end == snaps[i].time {
      assert c[plan.from..][b - plan.from] == c[b];
      assert all[plan.keep + b - plan.from] == snaps[i];
    }
  }

  /** Which of the snapshots are still there, with their images, after a receive that succeeds. */
  lemma SurvivesIff(n: Node, c: seq<Stream>, hist: map<Time, Image>, i: nat)
    requires Receivable(n, c, hist) && RecvChain(n, c).1 == Done && i < |SnapsOf(n.zvol)|
    ensures SnapsOf(n.zvol)[i] in SnapsOf(RecvChain(n, c).0.zvol) <==> Survives(Times(SnapsOf(n.zvol)), c, i)
  {
    hide Survives, Resumed, PlanFor, Recoverable, RunPlan;
    var ts := Times(SnapsOf(n.zvol));
    ChainRestoresIff(n, c, hist);
    PlanJoinsIff(ts, c);
    JoinedPlanSucceeds(n, c, PlanFor(ts, c).value, hist);
    KeptIff(ts, c, i);
    InResumed(n, c, hist, PlanFor(ts, c).value, i);
  }

  /** The volume is as it was, with what is live on it, exactly if the chain's end was there already; else what is live is
      the image of the chain's end. */
  lemma ReceiveKeepsVolumeIff(n: Node, c: seq<Stream>, hist: map<Time, Image>)
    requires Receivable(n, c, hist) && RecvChain(n, c).1 == Done
    ensures var z' := RecvChain(n, c).0.zvol;
            && (z' == n.zvol <==> AtEnd(Times(SnapsOf(n.zvol)), c))
            && z'.Some? && (z' != n.zvol ==> z'.value.live == Recorded(hist, c[|c| - 1].end))
  {
    var ts := Times(SnapsOf(n.zvol));
    ChainRestoresIff(n, c, hist);
    PlanJoinsIff(ts, c);
    NothingIsAppliedIff(ts, c);
    var plan := PlanFor(ts, c).value;
    JoinedPlanSucceeds(n, c, plan, hist);
    if plan.from < |c| { AppliedIsDifferent(n, c, hist, plan); }
  }

  lemma OneOrMany(ts: seq<Time>, c: seq<Stream>, plan: Plan)
    requires IsChain(c) && PlanFor(ts, c) == Some(plan) && ts != [] && !(|ts| == 1 <==> |c| == 1)
    ensures plan.keep + |c| - plan.from != |ts|
  {
    hide Kept, Astray, EndedBy;
  }

  lemma AppliedIsDifferent(n: Node, c: seq<Stream>, hist: map<Time, Image>, plan: Plan)
    requires IsChain(c) && PlanFor(Times(SnapsOf(n.zvol)), c) == Some(plan) && plan.from < |c|
    requires !AtEnd(Times(SnapsOf(n.zvol)), c) && NewestIs(Resumed(n, c, plan, hist), c[|c| - 1].end, hist)
    ensures Resumed(n, c, plan, hist) != SnapsOf(n.zvol)
  {
    hide PlanFor;
    var ts, all := Times(SnapsOf(n.zvol)), Resumed(n, c, plan, hist);
    assert |all| == plan.keep + |c| - plan.from;
    if all == SnapsOf(n.zvol) {
      assert ts[|ts| - 1] == c[|c| - 1].end;
      OneOrMany(ts, c, plan);
    }
  }

  /** At the chain's end there is nothing to keep less of and nothing to apply. */
  lemma NothingToDoAtEnd(ts: seq<Time>, c: seq<Stream>)
    requires IsChain(c) && ts != [] && ts[|ts| - 1] == c[|c| - 1].end
    requires |ts| == 1 <==> |c| == 1
    ensures PlanFor(ts, c) == Some(Plan(|ts|, |c|))
  {
    assert Boundary(c, ts[|ts| - 1]);
    if |c| >= 2 { ChainEndsIncrease(c, 0, |c| - 1); }
  }

  lemma ChainIsIdempotent(n: Node, c: seq<Stream>, hist: map<Time, Image>)
    requires Receivable(n, c, hist) && RecvChain(n, c).1 == Done
    ensures RecvChain(n, c).0.files == n.files && RecvChain(n, c).0.imported == n.imported
    ensures RecvChain(RecvChain(n, c).0, c) == RecvChain(n, c)
  {
    ChainRestoresIff(n, c, hist);
    var n' := RecvChain(n, c).0;
    NothingToDoAtEnd(Times(SnapsOf(n'.zvol)), c);
    assert c[|c|..] == [];
  }

  /** Receiving twice is receiving once: the second run finds nothing to do. */
  lemma ReceiveIsIdempotent(n: Node, hist: map<Time, Image>)
    requires Receivable(n, ChainOf(n.files.Keys), hist) && RecvNode(n).1 == Done
    ensures RecvNode(RecvNode(n).0) == RecvNode(n)
  {
    var c := ChainOf(n.files.Keys);
    assert c[0] in n.files;
    ChainIsIdempotent(n, c, hist);
  }

  /** A volume with empty snapshots at the given times, and the streams 1--1 and 1--2. */
  function ExampleNode(ts: seq<Time>): Node {
    Node(Some(Volume(seq(|ts|, i requires 0 <= i < |ts| => Snap(ts[i], map[])), map[])), false,
         map[Stream(1, 1) := File(10_000_000, map[], {}), Stream(1, 2) := File(0, map[], {})])
  }

  lemma ExampleChain(s: set<Stream>)
    requires s == {Stream(1, 1), Stream(1, 2)}
    ensures ChainOf(s) == [Stream(1, 1), Stream(1, 2)]
  {
    assert Stream(1, 1) in s && HasAnchor(Stream(1, 2), s);
    AnchoredChainReachesNewest(s);
    ChainOfTwo(ChainOf(s));
  }

  lemma ChainOfTwo(c: seq<Stream>)
    requires IsChain(c) && forall x :: x in c ==> x == Stream(1, 1) || x == Stream(1, 2)
    requires c[|c| - 1].end >= 2
    ensures c == [Stream(1, 1), Stream(1, 2)]
  {
    assert forall i :: 0 <= i < |c| ==> c[i] in c;
    if |c| > 2 {
      ChainEndsIncrease(c, 0, 1);
      ChainEndsIncrease(c, 1, 2);
      assert false;
    }
    assert |c| > 1 ==> Follows(c[1], c[0]);
  }

  /** Two concrete nodes on which `recv_streams` is refused, and changes nothing, although the files hold a whole
      chain: one has a snapshot newer than the chain's end, the other only snapshots older than its start. */
  lemma RefusedExamples()
    ensures RecvNode(ExampleNode([1, 2, 3])) == (ExampleNode([1, 2, 3]), Failed(Refused))
    ensures RecvNode(ExampleNode([-1, 0])) == (ExampleNode([-1, 0]), Failed(Refused))
  {
    RefusedExample([1, 2, 3]);
    RefusedExample([-1, 0]);
  }

  lemma ExamplePlan(ts: seq<Time>, c: seq<Stream>)
    requires (ts == [1, 2, 3] || ts == [-1, 0]) && c == [Stream(1, 1), Stream(1, 2)]
    ensures PlanFor(ts, c) == Some(Plan(|ts|, 1))
  {
  }

  lemma ExampleIsRefused(ts: seq<Time>, c: seq<Stream>)
    requires (ts == [1, 2, 3] || ts == [-1, 0]) && c == [Stream(1, 1), Stream(1, 2)]
    ensures RecvChain(ExampleNode(ts), c) == (ExampleNode(ts), Failed(Refused))
  {
    var n := ExampleNode(ts);
    assert Times(SnapsOf(n.zvol)) == ts;
    assert Follows(c[1], c[0]);
    ExamplePlan(ts, c);
    UnjoinedPlanIsRefused(n, c, Plan(|ts|, 1));
  }

  lemma RefusedExample(ts: seq<Time>)
    requires ts == [1, 2, 3] || ts == [-1, 0]
    ensures RecvNode(ExampleNode(ts)) == (ExampleNode(ts), Failed(Refused))
  {
    var n := ExampleNode(ts);
    assert n.files.Keys == {Stream(1, 1), Stream(1, 2)} && Stream(1, 1) in n.files;
    ExampleChain(n.files.Keys);
    ExampleIsRefused(ts, ChainOf(n.files.Keys));
  }
}
