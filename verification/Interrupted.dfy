/** A receive whose process dies between two streams: what it leaves behind, and that it can be taken up again. */
module Interrupted {
  import opened Options
  import opened Zvol
  import opened StreamChain
  import opened Receive

  /** Apply the streams until one is refused, or the process dies after `lifetime` of them. */
  function ApplyUntil(z: Option<Volume>, files: map<Stream, File>, c: seq<Stream>, lifetime: nat): (Option<Volume>, Outcome)
    requires forall x :: x in c ==> x in files
    decreases |c|
  {
    if c == [] then (z, Done)
    else if lifetime == 0 then (z, Failed(Killed))
    else
      var z' := Receive1(z, c[0], files[c[0]]);
      if z' == None then (z, Failed(Refused)) else ApplyUntil(z', files, c[1..], lifetime - 1)
  }

  /** A chain received by a process with that lifetime. */
  ghost function ChainUntil(n: Node, c: seq<Stream>, lifetime: nat): (Node, Outcome)
    requires forall x :: x in c ==> x in n.files
  {
    var plan := PlanFor(Times(SnapsOf(n.zvol)), c);
    if plan == None then (n, Failed(NoChain))
    else
      var todo := c[plan.value.from..];
      if todo == [] then (n, Done)
      else
        var (z, outcome) := ApplyUntil(Rollback(n.zvol, plan.value.keep), n.files, todo, lifetime);
        (n.(zvol := z), outcome)
  }

  /** `recv_streams` by such a process. */
  ghost function RecvUntil(n: Node, leftovers: bool, lifetime: nat): (Node, Outcome) {
    if n.files == map[] && !leftovers then (n, Done)
    else if n.imported then (n, Failed(PoolImported))
    else ChainUntil(n, ChainOf(n.files.Keys), lifetime)
  }

  /** Dying after m streams is receiving the first m. */
  lemma {:induction false} UntilIsPrefix(z: Option<Volume>, files: map<Stream, File>, c: seq<Stream>, lifetime: nat)
    requires forall x :: x in c ==> x in files
    ensures ApplyUntil(z, files, c, lifetime).0 == ApplyAll(z, files, if lifetime < |c| then c[..lifetime] else c).0
    ensures lifetime >= |c| ==> ApplyUntil(z, files, c, lifetime) == ApplyAll(z, files, c)
    ensures lifetime < |c| ==> ApplyUntil(z, files, c, lifetime).1 != Done
    decreases |c|
  {
    if c != [] && lifetime > 0 {
      var z' := Receive1(z, c[0], files[c[0]]);
      if lifetime < |c| { assert c[..lifetime][1..] == c[1..][..lifetime - 1]; }
      if z'.Some? { UntilIsPrefix(z', files, c[1..], lifetime - 1); }
    }
  }

  /** A process that lives long enough receives everything. */
  lemma LongLifeReceivesAll(n: Node, leftovers: bool, lifetime: nat)
    requires lifetime >= |ChainOf(n.files.Keys)|
    ensures RecvUntil(n, leftovers, lifetime) == RecvListed(n, leftovers)
  {
    var c := ChainOf(n.files.Keys);
    assert n.files == map[] ==> c == [] by { NoChainOfNothing(n.files.Keys); }
    var plan := PlanFor(Times(SnapsOf(n.zvol)), c);
    if plan.Some? { UntilIsPrefix(Rollback(n.zvol, plan.value.keep), n.files, c[plan.value.from..], lifetime); }
  }

  lemma NoChainOfNothing(s: set<Stream>)
    ensures s == {} ==> ChainOf(s) == []
  {
    if s == {} { ChainOfIsChain(s); }
  }

  /** The snapshots after m streams of a plan that joins up. */
  lemma CutSnapshots(n: Node, c: seq<Stream>, hist: map<Time, Image>, plan: Plan, m: nat)
    requires Receivable(n, c, hist) && Recoverable(Times(SnapsOf(n.zvol)), c)
    requires PlanFor(Times(SnapsOf(n.zvol)), c) == Some(plan) && plan.from < |c| && m <= |c| - plan.from
    ensures SnapsOf(ApplyAll(Rollback(n.zvol, plan.keep), n.files, c[plan.from..][..m]).0) ==
            SnapsOf(n.zvol)[..plan.keep] + SnapsCarried(c[plan.from..][..m], hist)
  {
    hide PlanFor, Recoverable;
    var z, snaps := Rollback(n.zvol, plan.keep), SnapsOf(n.zvol);
    assert SnapsOf(z) == snaps[..plan.keep];
    if m == 0 {
      assert c[plan.from..][..0] == [];
      assert snaps[..plan.keep] + SnapsCarried([], hist) == snaps[..plan.keep];
    } else {
      var head := c[..plan.from + m];
      assert head[plan.from..] == c[plan.from..][..m];
      PlanJoinsIff(Times(snaps), c);
      PrefixIsChain(c, plan.from + m);
      SuffixIsAccepted(z, n.files, head, plan.from, hist);
    }
  }

  /** What is left is part of what would have been there at the end. */
  lemma CutIsPartOfTheEnd(n: Node, c: seq<Stream>, hist: map<Time, Image>, lifetime: nat)
    requires Receivable(n, c, hist)
    ensures var plan, n' := PlanFor(Times(SnapsOf(n.zvol)), c), ChainUntil(n, c, lifetime).0;
            && plan.Some? && n'.files == n.files && n'.imported == n.imported
            && (!Recoverable(Times(SnapsOf(n.zvol)), c) ==> SnapsOf(n'.zvol) == SnapsOf(n.zvol)[..plan.value.keep])
            && (Recoverable(Times(SnapsOf(n.zvol)), c) ==>
                  if plan.value.from == |c| then n' == n
                  else exists m :: 0 <= m <= |c| - plan.value.from && CutAfter(n, c, hist, plan.value, m, n'))
  {
    var ts := Times(SnapsOf(n.zvol));
    PlanJoinsIff(ts, c);
    var plan := PlanFor(ts, c).value;
    if plan.from < |c| {
      var todo := c[plan.from..];
      var z := Rollback(n.zvol, plan.keep);
      UntilIsPrefix(z, n.files, todo, lifetime);
      var m := if lifetime < |todo| then lifetime else |todo|;
      assert todo[..|todo|] == todo;
      if Recoverable(ts, c) {
        CutSnapshots(n, c, hist, plan, m);
        assert CutAfter(n, c, hist, plan, m, ChainUntil(n, c, lifetime).0);
      } else {
        RefusedAtOnce(n, c, plan, m);
      }
    }
  }

  /** What is live is the newest snapshot. */
  predicate AtNewest(z: Option<Volume>) {
    z.Some? ==> z.value.snaps != [] && z.value.live == z.value.snaps[|z.value.snaps| - 1].image
  }

  lemma {:induction false} AppliedIsLive(z: Option<Volume>, files: map<Stream, File>, c: seq<Stream>, lifetime: nat)
    requires forall x :: x in c ==> x in files
    ensures ApplyUntil(z, files, c, lifetime).0 == z || AtNewest(ApplyUntil(z, files, c, lifetime).0)
    decreases |c|
  {
    if c != [] && lifetime > 0 {
      var z' := Receive1(z, c[0], files[c[0]]);
      if z'.Some? { AppliedIsLive(z', files, c[1..], lifetime - 1); }
    }
  }

  /** A receive that is cut short leaves the volume as it was, or none, or one that is live at its newest snapshot. */
  lemma CutIsLive(n: Node, c: seq<Stream>, lifetime: nat)
    requires forall x :: x in c ==> x in n.files
    ensures ChainUntil(n, c, lifetime).0.zvol == n.zvol || AtNewest(ChainUntil(n, c, lifetime).0.zvol)
  {
    var plan := PlanFor(Times(SnapsOf(n.zvol)), c);
    if plan.Some? { AppliedIsLive(Rollback(n.zvol, plan.value.keep), n.files, c[plan.value.from..], lifetime); }
  }

  ghost predicate CutAfter(n: Node, c: seq<Stream>, hist: map<Time, Image>, plan: Plan, m: nat, n': Node)
    requires plan.keep <= |SnapsOf(n.zvol)| && plan.from + m <= |c|
  {
    SnapsOf(n'.zvol) == SnapsOf(n.zvol)[..plan.keep] + SnapsCarried(c[plan.from..][..m], hist)
  }

  lemma RefusedAtOnce(n: Node, c: seq<Stream>, plan: Plan, m: nat)
    requires IsChain(c) && forall x :: x in c ==> x in n.files
    requires plan.keep <= |SnapsOf(n.zvol)| && 0 < plan.from < |c| && m <= |c| - plan.from
    requires plan.keep > 0 ==> SnapsOf(n.zvol)[plan.keep - 1].time != c[plan.from].start
    ensures SnapsOf(ApplyAll(Rollback(n.zvol, plan.keep), n.files, c[plan.from..][..m]).0) == SnapsOf(n.zvol)[..plan.keep]
  {
    assert Follows(c[plan.from], c[plan.from - 1]);
    var z := Rollback(n.zvol, plan.keep);
    assert SnapsOf(z) == SnapsOf(n.zvol)[..plan.keep];
    if m > 0 {
      assert c[plan.from..][..m][0] == c[plan.from];
    }
  }

  /** Where an interrupted receive stops, a state is left from which the chain can be received again. */
  lemma CutIsRecoverable(n: Node, c: seq<Stream>, hist: map<Time, Image>, plan: Plan, m: nat, n': Node)
    requires Receivable(n, c, hist) && Recoverable(Times(SnapsOf(n.zvol)), c)
    requires PlanFor(Times(SnapsOf(n.zvol)), c) == Some(plan) && plan.from < |c| && m <= |c| - plan.from
    requires CutAfter(n, c, hist, plan, m, n') && n'.files == n.files && n'.imported == n.imported
    ensures Receivable(n', c, hist) && Recoverable(Times(SnapsOf(n'.zvol)), c)
  {
    hide TrueSnaps, PlanFor, Increasing;
    var snaps, snaps' := SnapsOf(n.zvol), SnapsOf(n'.zvol);
    var ts' := Times(snaps');
    PlanJoinsIff(Times(snaps), c);
    CutIsTrue(n, c, hist, plan, m, snaps');
    CutTimes(n, c, hist, plan, m, snaps');
    CutIsIncreasing(Times(snaps), c, plan, ts');
    if snaps' != [] {
      var b := plan.from + m - 1;
      assert ts'[|ts'| - 1] == c[b].end && Boundary(c, c[b].end);
      if b < |c| - 1 { ChainEndsIncrease(c, b, |c| - 1); }
    }
  }

  lemma CutIsTrue(n: Node, c: seq<Stream>, hist: map<Time, Image>, plan: Plan, m: nat, snaps': seq<Snap>)
    requires Receivable(n, c, hist) && plan.keep <= |SnapsOf(n.zvol)| && plan.from + m <= |c|
    requires snaps' == SnapsOf(n.zvol)[..plan.keep] + SnapsCarried(c[plan.from..][..m], hist)
    ensures TrueSnaps(snaps', hist)
  {
    var k := plan.keep;
    forall i | k <= i < |snaps'| ensures snaps'[i].time in hist && snaps'[i].image == hist[snaps'[i].time] {
      assert c[plan.from..][..m][i - k] == c[plan.from + i - k] && c[plan.from + i - k] in c;
    }
  }

  lemma CutTimes(n: Node, c: seq<Stream>, hist: map<Time, Image>, plan: Plan, m: nat, snaps': seq<Snap>)
    requires plan.keep <= |SnapsOf(n.zvol)| && plan.from + m <= |c|
    requires snaps' == SnapsOf(n.zvol)[..plan.keep] + SnapsCarried(c[plan.from..][..m], hist)
    ensures var ts, ts', k := Times(SnapsOf(n.zvol)), Times(snaps'), plan.keep;
            && |ts'| == k + m && ts'[..k] == ts[..k]
            && forall i :: k <= i < k + m ==> ts'[i] == c[plan.from + i - k].end
  {
    var k := plan.keep;
    forall i | k <= i < k + m ensures Times(snaps')[i] == c[plan.from + i - k].end {
      assert c[plan.from..][..m][i - k] == c[plan.from + i - k];
    }
  }

  lemma CutIsIncreasing(ts: seq<Time>, c: seq<Stream>, plan: Plan, ts': seq<Time>)
    requires Increasing(ts) && IsChain(c) && plan.keep <= |ts| && plan.from <= |c|
    requires plan.from == 0 ==> plan.keep == 0
    requires plan.from > 0 ==> plan.keep > 0 && ts[plan.keep - 1] == c[plan.from - 1].end
    requires plan.keep <= |ts'| <= plan.keep + |c| - plan.from && ts'[..plan.keep] == ts[..plan.keep]
    requires forall i :: plan.keep <= i < |ts'| ==> ts'[i] == c[plan.from + i - plan.keep].end
    ensures Increasing(ts')
  {
    var k := plan.keep;
    assert forall i :: 0 <= i < k ==> ts'[..k][i] == ts'[i] && ts[..k][i] == ts[i];
    forall i, j | 0 <= i < j < |ts'| ensures ts'[i] < ts'[j] {
      if j >= k {
        ChainEndsIncrease(c, if i < k then plan.from - 1 else plan.from + i - k, plan.from + j - k);
      }
    }
  }

  /** Taking an interrupted receive up again ends where it would have ended: at the same snapshot, with the same image. */
  lemma CutThenReceive(n: Node, c: seq<Stream>, hist: map<Time, Image>, lifetime: nat)
    requires Receivable(n, c, hist) && Recoverable(Times(SnapsOf(n.zvol)), c)
    ensures var n' := ChainUntil(n, c, lifetime).0;
            && Receivable(n', c, hist) && Recoverable(Times(SnapsOf(n'.zvol)), c)
            && RecvChain(n', c).1 == Done
            && NewestIs(SnapsOf(RecvChain(n', c).0.zvol), c[|c| - 1].end, hist)
  {
    CutIsPartOfTheEnd(n, c, hist, lifetime);
    var n', plan := ChainUntil(n, c, lifetime).0, PlanFor(Times(SnapsOf(n.zvol)), c).value;
    if plan.from < |c| {
      var m :| 0 <= m <= |c| - plan.from && CutAfter(n, c, hist, plan, m, n');
      CutIsRecoverable(n, c, hist, plan, m, n');
    }
    ChainRestoresIff(n', c, hist);
  }

  /** The same for the whole of `recv_streams`. */
  lemma CutNodeReceives(n: Node, hist: map<Time, Image>, lifetime: nat)
    requires n.files != map[] && Receivable(n, ChainOf(n.files.Keys), hist)
    requires Recoverable(Times(SnapsOf(n.zvol)), ChainOf(n.files.Keys))
    ensures var n', c := RecvUntil(n, false, lifetime).0, ChainOf(n.files.Keys);
            RecvNode(n').1 == Done && NewestIs(SnapsOf(RecvNode(n').0.zvol), c[|c| - 1].end, hist)
  {
    hide ChainOf, ChainUntil, RecvChain, Recoverable, NewestIs, PlanFor;
    var c := ChainOf(n.files.Keys);
    CutThenReceive(n, c, hist, lifetime);
    CutIsPartOfTheEnd(n, c, hist, lifetime);
    var n' := ChainUntil(n, c, lifetime).0;
    assert RecvNode(n') == RecvChain(n', c);
  }
}
