/** Runs of the backup protocol over several machines: one of them at a time has the project open, the
    others hold replicated streams and perhaps a volume left over from earlier. */
module Cluster {
  import opened Options
  import opened Zvol
  import opened StreamChain
  import opened Receive
  import opened Interrupted
  import opened Send
  import opened Project

  datatype Entry = Entry(start: Time, file: File)

  /** Ghost history: every image ever snapshotted, every stream ever written, and the newest of the latter. */
  datatype Log = Log(clock: Time, hist: map<Time, Image>, ledger: map<Time, Entry>, last: Option<Time>)

  datatype World = World(log: Log, nodes: seq<Node>, active: Option<nat>)

  datatype Step =
    | Write(image: Image)
    | SendNow(now: Time, fate: Fate)
    | CloseNow(now: Time, fate: Fate, send: bool)
    | Abandon
    | Import(id: nat)
    | ImportKilled(id: nat, lifetime: nat)
    | Replicate(source: nat, target: nat, delete: bool)

  /** The node holds the stream that was written last. */
  ghost predicate UpToDate(n: Node, log: Log) {
    log.last.Some? ==> exists s :: s in n.files && s.end == log.last.value
  }

  /** The discipline: time moves forward, the machine on which the project is opened has the newest stream,
      no second machine opens it, and `--delete` is used only from a machine that has the newest stream. */
  ghost predicate Enabled(w: World, step: Step) {
    && (w.active.Some? ==> w.active.value < |w.nodes|)
    && match step
       case Write(_) => w.active.Some? && w.nodes[w.active.value].imported && w.nodes[w.active.value].zvol.Some?
       case SendNow(now, fate) => w.active.Some? && w.log.clock < now && FateFits(w.nodes[w.active.value], now, fate)
       case CloseNow(now, fate, _) => w.active.Some? && w.log.clock < now && FateFits(w.nodes[w.active.value], now, fate)
       case Abandon => w.active.Some?
       case Import(id) => id < |w.nodes| && (w.active == None || w.active == Some(id)) && UpToDate(w.nodes[id], w.log)
       case ImportKilled(id, _) =>
         id < |w.nodes| && !w.nodes[id].imported && (w.active == None || w.active == Some(id)) && UpToDate(w.nodes[id], w.log)
       case Replicate(source, target, delete) =>
         source < |w.nodes| && target < |w.nodes| && (delete ==> UpToDate(w.nodes[source], w.log))
  }

  /** The history after node n tries to send. */
  function Logged(log: Log, n: Node, now: Time, fate: Fate): Log {
    if n.zvol.None? || fate == SnapshotFails then log.(clock := now)
    else
      var v := Snapshotted(n.zvol.value, now);
      var log' := log.(clock := now, hist := log.hist[now := v.live]);
      if fate == SendFails then log'
      else
        var start := StartOf(Times(v.snaps), n.files, now);
        log'.(ledger := log.ledger[now := Entry(start, NewFile(fate.bytes, v.snaps, start, now))], last := Some(now))
  }

  ghost function Do(w: World, step: Step): World
    requires Enabled(w, step)
  {
    match step
    case Write(image) =>
      var id := w.active.value;
      var n := w.nodes[id];
      w.(nodes := w.nodes[id := n.(zvol := Some(n.zvol.value.(live := image)))])
    case SendNow(now, fate) =>
      var id := w.active.value;
      w.(nodes := w.nodes[id := SendNode(w.nodes[id], now, fate).0], log := Logged(w.log, w.nodes[id], now, fate))
    case CloseNow(now, fate, send) =>
      var id := w.active.value;
      var (n, outcome) := CloseNode(w.nodes[id], now, fate, send);
      World(if send then Logged(w.log, w.nodes[id], now, fate) else w.log,
            w.nodes[id := n],
            if outcome == Done then None else w.active)
    case Abandon =>
      var id := w.active.value;
      w.(nodes := w.nodes[id := w.nodes[id].(imported := false)], active := None)
    case Import(id) =>
      var (n, outcome) := ImportNode(w.nodes[id]);
      w.(nodes := w.nodes[id := n], active := if outcome == Done then Some(id) else None)
    case ImportKilled(id, lifetime) =>
      w.(nodes := w.nodes[id := RecvUntil(w.nodes[id], false, lifetime).0], active := None)
    case Replicate(source, target, delete) =>
      var t := w.nodes[target];
      w.(nodes := w.nodes[target := t.(files := ReplicatedFiles(w.nodes[source].files, t.files, delete))])
  }

  ghost predicate Init(w: World) {
    && (forall i :: 0 <= i < |w.nodes| ==> w.nodes[i] == Node(None, false, map[]))
    && w.log.hist == map[] && w.log.ledger == map[] && w.log.last == None && w.active == None
  }

  ghost predicate Run(ws: seq<World>, steps: seq<Step>) {
    && |ws| == |steps| + 1
    && Init(ws[0])
    && forall i :: 0 <= i < |steps| ==> Enabled(ws[i], steps[i]) && ws[i + 1] == Do(ws[i], steps[i])
  }

  // ----- the invariant -----

  ghost predicate BigAt(ledger: map<Time, Entry>, t: Time) {
    t in ledger && ledger[t].file.Big()
  }

  /** A stream starts at the newest large enough end before it, and is full only if there is none. */
  ghost predicate Linked(ledger: map<Time, Entry>, z: Time)
    requires z in ledger
  {
    && (forall y :: BigAt(ledger, y) && y < z ==> y <= ledger[z].start < z)
    && (ledger[z].start != z ==> BigAt(ledger, ledger[z].start))
  }

  /** The file of a ledger entry turns the image at its start into the image at its end. */
  ghost predicate TrueEntry(ledger: map<Time, Entry>, hist: map<Time, Image>, t: Time)
    requires t in ledger
  {
    TrueFile(Stream(ledger[t].start, t), ledger[t].file, hist)
  }

  ghost predicate LogOk(log: Log) {
    && (forall t :: t in log.hist ==> t <= log.clock)
    && (forall t :: t in log.ledger ==> t <= log.clock)
    && (forall t {:trigger Linked(log.ledger, t)} :: t in log.ledger ==> Linked(log.ledger, t))
    && (forall t {:trigger TrueEntry(log.ledger, log.hist, t)} :: t in log.ledger ==> TrueEntry(log.ledger, log.hist, t))
    && (log.last == None ==> log.ledger == map[])
    && (log.last.Some? ==> log.last.value in log.ledger && forall t :: t in log.ledger ==> t <= log.last.value)
  }

  ghost predicate FilesLogged(files: map<Stream, File>, ledger: map<Time, Entry>) {
    forall s :: s in files ==> s.end in ledger && ledger[s.end] == Entry(s.start, files[s])
  }

  /** A volume that has a snapshot has every large enough stream end before it. */
  ghost predicate Closed(ts: seq<Time>, ledger: map<Time, Entry>) {
    forall t, g :: t in ts && BigAt(ledger, g) && g < t ==> g in ts
  }

  ghost predicate NodeOk(n: Node, log: Log) {
    && WellFormed(n)
    && TrueSnaps(SnapsOf(n.zvol), log.hist)
    && FilesLogged(n.files, log.ledger) && Supported(n.files)
    && Closed(Times(SnapsOf(n.zvol)), log.ledger)
  }

  ghost predicate ActiveOk(n: Node, log: Log) {
    && n.zvol.Some? && UpToDate(n, log)
    && (log.last.Some? ==> log.last.value in Times(SnapsOf(n.zvol)))
  }

  ghost predicate Inv(w: World) {
    && LogOk(w.log)
    && (forall i :: 0 <= i < |w.nodes| ==> NodeOk(w.nodes[i], w.log))
    && (forall i :: 0 <= i < |w.nodes| && w.nodes[i].imported ==> w.active == Some(i))
    && (w.active.Some? ==> w.active.value < |w.nodes| && ActiveOk(w.nodes[w.active.value], w.log))
  }

  // ----- receiving -----

  lemma LoggedFilesAreTrue(n: Node, log: Log)
    requires LogOk(log) && NodeOk(n, log)
    ensures TrueFiles(n.files, log.hist)
    ensures EndBefore(n.files, log.clock + 1)
  {
    forall s | s in n.files ensures TrueFile(s, n.files[s], log.hist) && s.end <= log.clock {
      assert s.end in log.ledger && TrueEntry(log.ledger, log.hist, s.end);
    }
  }

  /** The chain that is found reaches the newest stream of the directory. */
  lemma ChainReachesNewest(n: Node, log: Log)
    requires LogOk(log) && NodeOk(n, log) && n.files != map[]
    ensures var c := ChainOf(n.files.Keys);
            && IsChain(c)
            && (forall s :: s in n.files ==> s.end <= c[|c| - 1].end)
            && (UpToDate(n, log) && log.last.Some? ==> c[|c| - 1].end == log.last.value)
  {
    hide Linked, TrueEntry, TrueSnaps, Closed, ChainOf, Increasing;
    SupportedIsAnchored(n.files);
    var s :| s in n.files;
    assert s in n.files.Keys;
    AnchoredChainReachesNewest(n.files.Keys);
    var c := ChainOf(n.files.Keys);
    assert c[|c| - 1] in n.files;
  }

  /** A chain of logged streams passes through every large enough end up to its own. */
  lemma {:induction false} ChainPassesBigEnds(c: seq<Stream>, files: map<Stream, File>, log: Log, i: nat, g: Time)
    requires LogOk(log) && FilesLogged(files, log.ledger) && IsChain(c) && i < |c| && forall x :: x in c ==> x in files
    requires BigAt(log.ledger, g) && g <= c[i].end
    ensures Boundary(c, g)
  {
    if g != c[i].end {
      assert c[i] in files;
      assert Linked(log.ledger, c[i].end);
      assert Follows(c[i], c[i - 1]);
      ChainPassesBigEnds(c, files, log, i - 1, g);
    }
  }

  lemma PrefixStaysOk(snaps: seq<Snap>, k: nat, log: Log)
    requires k <= |snaps| && Increasing(Times(snaps)) && Closed(Times(snaps), log.ledger) && TrueSnaps(snaps, log.hist)
    ensures Closed(Times(snaps[..k]), log.ledger) && TrueSnaps(snaps[..k], log.hist)
  {
    var ts, ts' := Times(snaps), Times(snaps[..k]);
    assert ts' == ts[..k];
    forall t, g | t in ts' && BigAt(log.ledger, g) && g < t ensures g in ts' {
      var i :| 0 <= i < k && ts'[i] == t;
      assert ts[i] == t && t in ts && g in ts;
      var j :| 0 <= j < |ts| && ts[j] == g;
      assert j < i && ts'[j] == g;
    }
  }

  /** Kept snapshots followed by the rest of the chain are as good as a complete history. */
  lemma ResumedStaysOk(snaps: seq<Snap>, c: seq<Stream>, files: map<Stream, File>, k: nat, j: nat, log: Log)
    requires LogOk(log) && FilesLogged(files, log.ledger) && IsChain(c) && forall x :: x in c ==> x in files
    requires k <= |snaps| && j <= |c|
    requires Increasing(Times(snaps)) && Closed(Times(snaps), log.ledger) && TrueSnaps(snaps, log.hist)
    requires if j == 0 then k == 0 else k > 0 && snaps[k - 1].time == c[j - 1].end
    ensures var snaps' := snaps[..k] + SnapsCarried(c[j..], log.hist);
            Closed(Times(snaps'), log.ledger) && TrueSnaps(snaps', log.hist)
  {
    var snaps' := snaps[..k] + SnapsCarried(c[j..], log.hist);
    var ts, ts' := Times(snaps), Times(snaps');
    PrefixStaysOk(snaps, k, log);
    forall i | 0 <= i < |snaps'| ensures snaps'[i].time in log.hist && snaps'[i].image == log.hist[snaps'[i].time] {
      if i >= k {
        assert c[j..][i - k] == c[j + i - k] && c[j + i - k] in c;
        assert c[j + i - k].end in log.ledger && TrueEntry(log.ledger, log.hist, c[j + i - k].end);
      }
    }
    forall t, g | t in ts' && BigAt(log.ledger, g) && g < t ensures g in ts' {
      var i :| 0 <= i < |ts'| && ts'[i] == t;
      if i < k {
        assert ts[..k] == Times(snaps[..k]) && t == ts[..k][i] && t in ts[..k];
        assert g in ts[..k];
        var l :| 0 <= l < k && ts[l] == g;
        assert ts'[l] == g;
      } else {
        LaterBoundaryIsResumed(snaps, c, files, k, j, log, i, g);
      }
    }
  }

  lemma LaterBoundaryIsResumed(snaps: seq<Snap>, c: seq<Stream>, files: map<Stream, File>, k: nat, j: nat, log: Log, i: nat, g: Time)
    requires LogOk(log) && FilesLogged(files, log.ledger) && IsChain(c) && forall x :: x in c ==> x in files
    requires k <= |snaps| && j <= |c| && k <= i < k + |c| - j
    requires Increasing(Times(snaps)) && Closed(Times(snaps), log.ledger)
    requires if j == 0 then k == 0 else k > 0 && snaps[k - 1].time == c[j - 1].end
    requires BigAt(log.ledger, g) && g < c[j + i - k].end
    ensures g in Times(snaps[..k] + SnapsCarried(c[j..], log.hist))
  {
    ChainPassesBigEnds(c, files, log, j + i - k, g);
    var b :| 0 <= b < |c| && c[b].end == g;
    if b >= j {
      AtResumed(snaps, c, k, j, log.hist, k + b - j);
    } else {
      if b < j - 1 { ChainEndsIncrease(c, b, j - 1); }
      assert Times(snaps)[k - 1] == c[j - 1].end;
      var l := HeldInPrefix(Times(snaps), k, g, log.ledger);
      AtResumed(snaps, c, k, j, log.hist, l);
    }
  }

  lemma AtResumed(snaps: seq<Snap>, c: seq<Stream>, k: nat, j: nat, hist: map<Time, Image>, l: nat)
    requires k <= |snaps| && j <= |c| && l < k + |c| - j
    ensures (if l < k then snaps[l].time else c[j + l - k].end) in Times(snaps[..k] + SnapsCarried(c[j..], hist))
  {
    var ts' := Times(snaps[..k] + SnapsCarried(c[j..], hist));
    assert ts'[l] in ts';
  }

  /** A large enough end up to the last kept snapshot is among the kept ones. */
  lemma HeldInPrefix(ts: seq<Time>, k: nat, g: Time, ledger: map<Time, Entry>) returns (l: nat)
    requires Increasing(ts) && Closed(ts, ledger) && BigAt(ledger, g) && 0 < k <= |ts| && g <= ts[k - 1]
    ensures l < k && ts[l] == g
  {
    assert ts[k - 1] in ts && g in ts;
    l :| 0 <= l < |ts| && ts[l] == g;
  }

  ghost predicate SnapsOk(n: Node, log: Log) {
    TrueSnaps(SnapsOf(n.zvol), log.hist) && Closed(Times(SnapsOf(n.zvol)), log.ledger)
  }

  lemma AcceptedSnapsStayOk(n: Node, log: Log, c: seq<Stream>, plan: Plan)
    requires LogOk(log) && NodeOk(n, log) && IsChain(c) && forall x :: x in c ==> x in n.files
    requires Some(plan) == PlanFor(Times(SnapsOf(n.zvol)), c) && Recoverable(Times(SnapsOf(n.zvol)), c)
    ensures SnapsOk(RunPlan(n, c, plan).0, log)
  {
    LoggedFilesAreTrue(n, log);
    PlanJoinsIff(Times(SnapsOf(n.zvol)), c);
    JoinedPlanSucceeds(n, c, plan, log.hist);
    ResumedStaysOk(SnapsOf(n.zvol), c, n.files, plan.keep, plan.from, log);
  }

  lemma RefusedSnapsStayOk(n: Node, log: Log, c: seq<Stream>, plan: Plan)
    requires LogOk(log) && NodeOk(n, log) && IsChain(c) && forall x :: x in c ==> x in n.files
    requires Some(plan) == PlanFor(Times(SnapsOf(n.zvol)), c) && !Recoverable(Times(SnapsOf(n.zvol)), c)
    ensures SnapsOk(RunPlan(n, c, plan).0, log)
  {
    PlanJoinsIff(Times(SnapsOf(n.zvol)), c);
    UnjoinedPlanIsRefused(n, c, plan);
    PrefixStaysOk(SnapsOf(n.zvol), plan.keep, log);
    assert SnapsOf(Rollback(n.zvol, plan.keep)) == SnapsOf(n.zvol)[..plan.keep];
  }

  /** The snapshots left by receiving along a chain, accepted or refused, are true and closed. */
  lemma PlannedSnapsStayOk(n: Node, log: Log, c: seq<Stream>)
    requires LogOk(log) && NodeOk(n, log) && !n.imported && IsChain(c) && forall x :: x in c ==> x in n.files
    ensures var n' := RecvChain(n, c).0;
            SnapsOk(n', log) && n'.files == n.files && n'.imported == n.imported
  {
    LoggedFilesAreTrue(n, log);
    ChainRestoresIff(n, c, log.hist);
    var plan := PlanFor(Times(SnapsOf(n.zvol)), c);
    PlanJoinsIff(Times(SnapsOf(n.zvol)), c);
    if Recoverable(Times(SnapsOf(n.zvol)), c) {
      AcceptedSnapsStayOk(n, log, c, plan.value);
    } else {
      RefusedSnapsStayOk(n, log, c, plan.value);
    }
  }

  /** Receiving keeps a node sound, whether it succeeds or is refused; when it succeeds on an up-to-date
      node, the newest stream's end is among the snapshots. */
  lemma ReceivingKeepsNodeOk(n: Node, log: Log)
    requires LogOk(log) && NodeOk(n, log)
    ensures var (n', outcome) := RecvNode(n);
            && NodeOk(n', log) && n'.files == n.files && n'.imported == n.imported
            && (outcome == Done && UpToDate(n, log) && log.last.Some? ==> log.last.value in Times(SnapsOf(n'.zvol)))
  {
    if n.files != map[] && !n.imported {
      ChainReachesNewest(n, log);
      PlannedSnapsStayOk(n, log, ChainOf(n.files.Keys));
      ReceivingKeepsWellFormed(n);
      var n' := RecvNode(n).0;
      if RecvNode(n).1 == Done {
        NewestIsReceived(n, log);
        NewestIsAmongTimes(SnapsOf(n'.zvol), ChainOf(n.files.Keys)[|ChainOf(n.files.Keys)| - 1].end, log.hist);
      }
    }
  }

  /** A receive that succeeds leaves the newest stream of the directory as the newest snapshot, with its image. */
  lemma NewestIsReceived(n: Node, log: Log)
    requires LogOk(log) && NodeOk(n, log) && n.files != map[] && !n.imported && RecvNode(n).1 == Done
    ensures var c := ChainOf(n.files.Keys);
            && IsChain(c)
            && NewestIs(SnapsOf(RecvNode(n).0.zvol), c[|c| - 1].end, log.hist)
            && (UpToDate(n, log) && log.last.Some? ==> c[|c| - 1].end == log.last.value)
  {
    ChainReachesNewest(n, log);
    LoggedFilesAreTrue(n, log);
    ReceiveRestoresIff(n, log.hist);
  }

  lemma NewestIsAmongTimes(snaps: seq<Snap>, t: Time, hist: map<Time, Image>)
    requires NewestIs(snaps, t, hist)
    ensures t in Times(snaps)
  {
    assert Times(snaps)[|snaps| - 1] == t;
  }

  /** On a sound node, receiving works exactly when the newest of several snapshots is neither newer
      than the whole chain nor older than its first stream. */
  lemma RecoverableGuard(n: Node, log: Log)
    requires LogOk(log) && NodeOk(n, log) && n.files != map[]
    ensures var ts, c := Times(SnapsOf(n.zvol)), ChainOf(n.files.Keys);
            c != [] && (Recoverable(ts, c) <==> Spans(ts, c))
  {
    ChainReachesNewest(n, log);
    ChainIsSpanned(n, log, ChainOf(n.files.Keys), Times(SnapsOf(n.zvol)));
  }

  ghost predicate Spans(ts: seq<Time>, c: seq<Stream>)
    requires c != []
  {
    |ts| <= 1 || |c| == 1 || c[0].end <= ts[|ts| - 1] <= c[|c| - 1].end
  }

  lemma ChainIsSpanned(n: Node, log: Log, c: seq<Stream>, ts: seq<Time>)
    requires LogOk(log) && NodeOk(n, log) && IsChain(c) && forall x :: x in c ==> x in n.files
    requires ts == Times(SnapsOf(n.zvol))
    ensures Recoverable(ts, c) <==> Spans(ts, c)
  {
    if |ts| >= 2 && |c| >= 2 {
      if c[0].end <= ts[|ts| - 1] {
        FirstOfManyIsHeld(n, log, c, ts);
      } else {
        forall i | 0 <= i < |ts| ensures !Boundary(c, ts[i]) {
          assert ts[i] <= ts[|ts| - 1];
          BoundaryIsNotEarly(c, ts[i]);
        }
      }
    }
  }

  lemma FirstOfManyIsHeld(n: Node, log: Log, c: seq<Stream>, ts: seq<Time>)
    requires LogOk(log) && NodeOk(n, log) && IsChain(c) && |c| >= 2 && forall x :: x in c ==> x in n.files
    requires ts == Times(SnapsOf(n.zvol)) && ts != [] && c[0].end <= ts[|ts| - 1]
    ensures exists i :: 0 <= i < |ts| && Boundary(c, ts[i])
  {
    FirstOfManyIsBig(n, log, c);
    assert ts[|ts| - 1] in ts && c[0].end in ts;
    var i :| 0 <= i < |ts| && ts[i] == c[0].end;
    assert Boundary(c, ts[i]);
  }

  lemma FirstOfManyIsBig(n: Node, log: Log, c: seq<Stream>)
    requires LogOk(log) && NodeOk(n, log) && IsChain(c) && |c| >= 2 && forall x :: x in c ==> x in n.files
    ensures BigAt(log.ledger, c[0].end)
  {
    assert Follows(c[1], c[0]);
    assert c[1] in n.files && HasBigAnchor(c[1], n.files);
    var y :| y in n.files && n.files[y].Big() && y.end == c[1].start;
  }

  // ----- sending -----

  /** An up-to-date node holds the newest large enough stream of all. */
  lemma NewestBigIsLocal(n: Node, log: Log, g: Time)
    requires LogOk(log) && NodeOk(n, log) && UpToDate(n, log) && BigAt(log.ledger, g)
    ensures exists s :: s in n.files && n.files[s].Big() && s.end >= g
  {
    var m := log.last.value;
    var s :| s in n.files && s.end == m;
    if !n.files[s].Big() {
      assert Linked(log.ledger, m) && HasBigAnchor(s, n.files);
    }
  }

  lemma BigEndsAreHeld(n: Node, log: Log, ts: seq<Time>)
    requires LogOk(log) && NodeOk(n, log) && ActiveOk(n, log)
    requires Times(SnapsOf(n.zvol)) <= ts
    ensures BigEndsHeld(n.files, ts)
    ensures forall g :: BigAt(log.ledger, g) ==> g in ts
  {
    forall g | BigAt(log.ledger, g) ensures g in ts {
      var m := log.last.value;
      assert m in Times(SnapsOf(n.zvol));
      assert g in Times(SnapsOf(n.zvol));
    }
  }

  /** The stream that an up-to-date node writes continues the one history. */
  lemma SentStreamIsLinked(n: Node, log: Log, now: Time, bytes: nat)
    requires LogOk(log) && NodeOk(n, log) && ActiveOk(n, log) && log.clock < now
    ensures var v := Snapshotted(n.zvol.value, now);
            var start := StartOf(Times(v.snaps), n.files, now);
            && start <= now
            && (start != now ==> BigAt(log.ledger, start) && start in Times(n.zvol.value.snaps))
            && (forall g :: BigAt(log.ledger, g) ==> g <= start < now)
  {
    var v := Snapshotted(n.zvol.value, now);
    SnapshotTimesOld(n, log, now);
    SnapshotKeepsOrder(n.zvol.value, now);
    var ts := Times(v.snaps);
    BigEndsAreHeld(n, log, ts);
    LoggedFilesAreTrue(n, log);
    StartIsNewestBigEnd(ts, n.files, now);
    var start := StartOf(ts, n.files, now);
    forall g | BigAt(log.ledger, g) ensures g <= start < now {
      NewestBigIsLocal(n, log, g);
      var s :| s in n.files && n.files[s].Big() && s.end >= g;
    }
    if start != now {
      var y :| y in n.files && n.files[y].Big() && y.end == start;
      assert BigAt(log.ledger, start);
      BigEndsAreHeld(n, log, Times(n.zvol.value.snaps));
    }
  }

  lemma SnapshotTimesOld(n: Node, log: Log, now: Time)
    requires LogOk(log) && NodeOk(n, log) && log.clock < now
    ensures Older(n, now)
  {
    LoggedFilesAreTrue(n, log);
    forall t | t in Times(SnapsOf(n.zvol)) ensures t < now {
      var i :| 0 <= i < |SnapsOf(n.zvol)| && SnapsOf(n.zvol)[i].time == t;
    }
  }

  /** Nothing recorded changes, and what is added to the ledger is newer than the old clock. */
  ghost predicate Grows(log: Log, log': Log) {
    && log.clock <= log'.clock
    && (forall t :: t in log.hist ==> t in log'.hist && log'.hist[t] == log.hist[t])
    && (forall t :: t in log.ledger ==> t in log'.ledger && log'.ledger[t] == log.ledger[t])
    && (forall t :: t in log'.ledger && t !in log.ledger ==> t > log.clock)
  }

  lemma GrowingKeepsNodeOk(n: Node, log: Log, log': Log)
    requires LogOk(log) && NodeOk(n, log) && Grows(log, log')
    ensures NodeOk(n, log')
  {
    var snaps := SnapsOf(n.zvol);
    forall t, g | t in Times(snaps) && BigAt(log'.ledger, g) && g < t ensures g in Times(snaps) {
      var i :| 0 <= i < |snaps| && snaps[i].time == t;
      assert BigAt(log.ledger, g);
    }
  }

  lemma {:induction false} ImageAtIsRecorded(snaps: seq<Snap>, t: Time, hist: map<Time, Image>)
    requires TrueSnaps(snaps, hist) && t in Times(snaps)
    ensures t in hist && ImageAt(snaps, t) == hist[t]
  {
    var i :| 0 <= i < |snaps| && Times(snaps)[i] == t;
    var n := |snaps| - 1;
    if snaps[n].time != t {
      assert Times(snaps[..n])[i] == t;
      ImageAtIsRecorded(snaps[..n], t, hist);
    }
  }

  lemma SnapshotIsTrue(n: Node, log: Log, now: Time)
    requires LogOk(log) && NodeOk(n, log) && n.zvol.Some? && log.clock < now
    ensures TrueSnaps(Snapshotted(n.zvol.value, now).snaps, log.hist[now := n.zvol.value.live])
    ensures Grows(log, log.(clock := now, hist := log.hist[now := n.zvol.value.live]))
  {
  }

  /** The file that is written turns the image at its start into the image at its end. */
  lemma SentFileIsTrue(n: Node, log: Log, now: Time, bytes: nat)
    requires LogOk(log) && NodeOk(n, log) && ActiveOk(n, log) && log.clock < now
    ensures var v := Snapshotted(n.zvol.value, now);
            var start := StartOf(Times(v.snaps), n.files, now);
            TrueFile(Stream(start, now), NewFile(bytes, v.snaps, start, now), log.hist[now := v.live])
  {
    var v := Snapshotted(n.zvol.value, now);
    var hist' := log.hist[now := v.live];
    SnapshotIsTrue(n, log, now);
    SentStreamIsLinked(n, log, now, bytes);
    assert Times(v.snaps) == Times(n.zvol.value.snaps) + [now];
    ImageAtIsRecorded(v.snaps, now, hist');
    var start := StartOf(Times(v.snaps), n.files, now);
    if start != now {
      ImageAtIsRecorded(v.snaps, start, hist');
    }
  }

  lemma SnapshotKeepsLogOk(log: Log, now: Time, image: Image)
    requires LogOk(log) && log.clock < now
    ensures LogOk(log.(clock := now, hist := log.hist[now := image]))
  {
    var log' := log.(clock := now, hist := log.hist[now := image]);
    forall t | t in log.ledger ensures TrueEntry(log.ledger, log'.hist, t) {
      assert TrueEntry(log.ledger, log.hist, t);
    }
    forall t | t in log'.ledger ensures Linked(log'.ledger, t) {
      assert Linked(log.ledger, t);
    }
  }

  lemma EntryKeepsLogOk(log: Log, now: Time, e: Entry)
    requires LogOk(log) && now == log.clock && now !in log.ledger
    requires TrueFile(Stream(e.start, now), e.file, log.hist)
    requires forall g :: BigAt(log.ledger, g) ==> g <= e.start < now
    requires e.start != now ==> BigAt(log.ledger, e.start)
    ensures LogOk(log.(ledger := log.ledger[now := e], last := Some(now)))
  {
    var log' := log.(ledger := log.ledger[now := e], last := Some(now));
    forall t | t in log'.ledger ensures Linked(log'.ledger, t) {
      assert t in log.ledger ==> Linked(log.ledger, t);
      assert forall y :: BigAt(log'.ledger, y) && y < t ==> BigAt(log.ledger, y);
      assert forall y :: BigAt(log.ledger, y) ==> BigAt(log'.ledger, y);
    }
    forall t | t in log'.ledger ensures TrueEntry(log'.ledger, log.hist, t) {
      assert t in log.ledger ==> TrueEntry(log.ledger, log.hist, t);
    }
  }

  lemma SendingKeepsLogOk(n: Node, log: Log, now: Time, fate: Fate)
    requires LogOk(log) && NodeOk(n, log) && ActiveOk(n, log) && log.clock < now
    ensures LogOk(Logged(log, n, now, fate)) && Grows(log, Logged(log, n, now, fate))
  {
    hide Linked, TrueEntry, NodeOk, TrueFile;
    if fate == SnapshotFails {
      ClockKeepsLogOk(log, now);
    } else {
      var v := Snapshotted(n.zvol.value, now);
      SnapshotKeepsLogOk(log, now, v.live);
      SnapshotIsTrue(n, log, now);
      if fate.Sends? {
        SentFileIsTrue(n, log, now, fate.bytes);
        SentStreamIsLinked(n, log, now, fate.bytes);
        var start := StartOf(Times(v.snaps), n.files, now);
        EntryKeepsLogOk(log.(clock := now, hist := log.hist[now := v.live]), now,
                        Entry(start, NewFile(fate.bytes, v.snaps, start, now)));
      }
    }
  }

  lemma ClockKeepsLogOk(log: Log, now: Time)
    requires LogOk(log) && log.clock < now
    ensures LogOk(log.(clock := now)) && Grows(log, log.(clock := now))
  {
    forall t | t in log.ledger ensures Linked(log.(clock := now).ledger, t) { assert Linked(log.ledger, t); }
  }

  /** The active node stays sound and up to date through a send, however the send ends. */
  lemma SendingKeepsNodeOk(n: Node, log: Log, now: Time, fate: Fate)
    requires LogOk(log) && NodeOk(n, log) && ActiveOk(n, log) && log.clock < now && FateFits(n, now, fate)
    ensures NodeOk(SendNode(n, now, fate).0, Logged(log, n, now, fate))
    ensures ActiveOk(SendNode(n, now, fate).0, Logged(log, n, now, fate))
  {
    var log', n' := Logged(log, n, now, fate), SendNode(n, now, fate).0;
    SendingKeepsLogOk(n, log, now, fate);
    GrowingKeepsNodeOk(n, log, log');
    if fate != SnapshotFails {
      var v := Snapshotted(n.zvol.value, now);
      SnapshotTimesOld(n, log, now);
      SnapshotKeepsOrder(n.zvol.value, now);
      SnapshotIsTrue(n, log, now);
      SnapshotStaysClosed(n, log, log', now);
      if fate.Sends? {
        SentFilesStayOk(n, log, now, fate);
        SentStreamIsLinked(n, log, now, fate.bytes);
        assert Times(v.snaps)[|v.snaps| - 1] == now;
      }
    }
  }

  lemma SnapshotStaysClosed(n: Node, log: Log, log': Log, now: Time)
    requires LogOk(log) && NodeOk(n, log) && ActiveOk(n, log) && Grows(log, log') && log'.clock == now && LogOk(log')
    requires forall t :: t in log'.ledger ==> t in log.ledger || t == now
    ensures Closed(Times(Snapshotted(n.zvol.value, now).snaps), log'.ledger)
  {
    var ts' := Times(Snapshotted(n.zvol.value, now).snaps);
    var ts := Times(n.zvol.value.snaps);
    assert ts' == ts + [now];
    BigEndsAreHeld(n, log, ts);
    forall t, g | t in ts' && BigAt(log'.ledger, g) && g < t ensures g in ts' {
      if t in ts {
        var i :| 0 <= i < |ts| && ts[i] == t;
        assert n.zvol.value.snaps[i].time in log.hist;
      }
      assert BigAt(log.ledger, g) && g in ts;
    }
  }

  lemma SentFilesStayOk(n: Node, log: Log, now: Time, fate: Fate)
    requires LogOk(log) && NodeOk(n, log) && ActiveOk(n, log) && log.clock < now && FateFits(n, now, fate) && fate.Sends?
    ensures var files' := SendNode(n, now, fate).0.files;
            && Supported(files')
            && FilesLogged(files', Logged(log, n, now, fate).ledger)
            && (forall x :: x in files' ==> x.start <= x.end)
            && Stream(StartOf(Times(Snapshotted(n.zvol.value, now).snaps), n.files, now), now) in files'
  {
    SentFilesAreSupported(n, log, now, fate);
    SentFilesAreLogged(n, log, now, fate);
  }

  lemma SentFilesAreSupported(n: Node, log: Log, now: Time, fate: Fate)
    requires LogOk(log) && NodeOk(n, log) && ActiveOk(n, log) && log.clock < now && FateFits(n, now, fate) && fate.Sends?
    ensures Supported(SendNode(n, now, fate).0.files)
  {
    SnapshotTimesOld(n, log, now);
    SnapshotKeepsOrder(n.zvol.value, now);
    BigEndsAreHeld(n, log, Times(Snapshotted(n.zvol.value, now).snaps));
    SendKeepsSupported(n, now, fate);
  }

  lemma SendKeepsSupported(n: Node, now: Time, fate: Fate)
    requires n.zvol.Some? && fate.Sends? && FateFits(n, now, fate) && Supported(n.files) && EndBefore(n.files, now)
    requires var ts := Times(Snapshotted(n.zvol.value, now).snaps); Increasing(ts) && BigEndsHeld(n.files, ts)
    ensures Supported(SendNode(n, now, fate).0.files)
  {
    AnyPartOfTheDiscardIsSafe(Snapshotted(n.zvol.value, now), n.files, now, fate.bytes, fate.discarded);
  }

  lemma SentFilesAreLogged(n: Node, log: Log, now: Time, fate: Fate)
    requires LogOk(log) && NodeOk(n, log) && ActiveOk(n, log) && log.clock < now && FateFits(n, now, fate) && fate.Sends?
    ensures var files' := SendNode(n, now, fate).0.files;
            && FilesLogged(files', Logged(log, n, now, fate).ledger)
            && (forall x :: x in files' ==> x.start <= x.end)
            && Stream(StartOf(Times(Snapshotted(n.zvol.value, now).snaps), n.files, now), now) in files'
  {
    LoggedFilesAreTrue(n, log);
    SentStreamIsLinked(n, log, now, fate.bytes);
    var new1 := Stream(StartOf(Times(Snapshotted(n.zvol.value, now).snaps), n.files, now), now);
    assert new1 !in n.files;
  }

  // ----- every step keeps the invariant -----

  lemma ReplicatingKeepsNodeOk(source: Node, target: Node, log: Log, delete: bool)
    requires LogOk(log) && NodeOk(source, log) && NodeOk(target, log)
    ensures var t' := target.(files := ReplicatedFiles(source.files, target.files, delete));
            && NodeOk(t', log)
            && (UpToDate(source, log) || (!delete && UpToDate(target, log)) ==> UpToDate(t', log))
  {
    var files' := ReplicatedFiles(source.files, target.files, delete);
    forall x | x in files' ensures HasBigAnchor(x, files') {
      if x in source.files {
        assert HasBigAnchor(x, source.files);
      } else {
        assert HasBigAnchor(x, target.files);
        if !x.Full() {
          var y :| y in target.files && target.files[y].Big() && y.end == x.start;
          assert y in files' && files'[y] == target.files[y];
        }
      }
    }
  }

  lemma ImportingKeepsNodeOk(n: Node, log: Log)
    requires LogOk(log) && NodeOk(n, log) && UpToDate(n, log)
    requires n.imported ==> ActiveOk(n, log)
    ensures var (n', outcome) := ImportNode(n);
            NodeOk(n', log) && (outcome == Done ==> ActiveOk(n', log)) && (outcome != Done ==> !n'.imported)
  {
    ImportingMounts(n);
    if n.files != map[] { ChainReachesNewest(n, log); }
    if !n.imported { ReceivingKeepsNodeOk(n, log); }
  }

  lemma CutSnapsStayOk(n: Node, log: Log, c: seq<Stream>, plan: Plan, m: nat, snaps': seq<Snap>)
    requires LogOk(log) && NodeOk(n, log) && Receivable(n, c, log.hist) && Recoverable(Times(SnapsOf(n.zvol)), c)
    requires Some(plan) == PlanFor(Times(SnapsOf(n.zvol)), c) && m <= |c| - plan.from
    requires snaps' == SnapsOf(n.zvol)[..plan.keep] + SnapsCarried(c[plan.from..][..m], log.hist)
    ensures Closed(Times(snaps'), log.ledger) && TrueSnaps(snaps', log.hist)
  {
    hide LogOk, Closed, TrueSnaps, PlanFor, Recoverable, NodeOk, Receivable;
    var full := SnapsOf(n.zvol)[..plan.keep] + SnapsCarried(c[plan.from..], log.hist);
    ResumedStaysTrue(n, log, c, plan, full);
    assert full[..plan.keep + m] == snaps';
    PrefixStaysOk(full, plan.keep + m, log);
  }

  lemma ResumedStaysTrue(n: Node, log: Log, c: seq<Stream>, plan: Plan, full: seq<Snap>)
    requires LogOk(log) && NodeOk(n, log) && Receivable(n, c, log.hist) && Recoverable(Times(SnapsOf(n.zvol)), c)
    requires Some(plan) == PlanFor(Times(SnapsOf(n.zvol)), c)
    requires full == SnapsOf(n.zvol)[..plan.keep] + SnapsCarried(c[plan.from..], log.hist)
    ensures Closed(Times(full), log.ledger) && TrueSnaps(full, log.hist) && Increasing(Times(full))
  {
    hide LogOk, Closed, PlanFor, SnapsCarried;
    PlanJoinsIff(Times(SnapsOf(n.zvol)), c);
    ResumedStaysOk(SnapsOf(n.zvol), c, n.files, plan.keep, plan.from, log);
    ResumedIsIncreasing(n, c, log.hist, plan, full);
  }

  lemma ResumedIsIncreasing(n: Node, c: seq<Stream>, hist: map<Time, Image>, plan: Plan, full: seq<Snap>)
    requires Increasing(Times(SnapsOf(n.zvol))) && IsChain(c) && plan.keep <= |SnapsOf(n.zvol)| && plan.from <= |c|
    requires plan.from == 0 ==> plan.keep == 0
    requires plan.from > 0 ==> plan.keep > 0 && Times(SnapsOf(n.zvol))[plan.keep - 1] == c[plan.from - 1].end
    requires full == SnapsOf(n.zvol)[..plan.keep] + SnapsCarried(c[plan.from..], hist)
    ensures Increasing(Times(full))
  {
    assert c[plan.from..][..|c| - plan.from] == c[plan.from..];
    CutTimes(n, c, hist, plan, |c| - plan.from, full);
    CutIsIncreasing(Times(SnapsOf(n.zvol)), c, plan, Times(full));
  }

  /** A receive that is cut short leaves a sound machine behind. */
  lemma InterruptedKeepsNodeOk(n: Node, log: Log, lifetime: nat)
    requires LogOk(log) && NodeOk(n, log) && !n.imported
    ensures var n' := RecvUntil(n, false, lifetime).0;
            NodeOk(n', log) && n'.files == n.files && !n'.imported
  {
    if n.files != map[] {
      var c := ChainOf(n.files.Keys);
      var snaps := SnapsOf(n.zvol);
      ChainReachesNewest(n, log);
      LoggedFilesAreTrue(n, log);
      ChainUntilKeepsWellFormed(n, c, lifetime);
      CutIsPartOfTheEnd(n, c, log.hist, lifetime);
      var n', plan := ChainUntil(n, c, lifetime).0, PlanFor(Times(snaps), c).value;
      if !Recoverable(Times(snaps), c) {
        PrefixStaysOk(snaps, plan.keep, log);
      } else if plan.from < |c| {
        var m :| 0 <= m <= |c| - plan.from && CutAfter(n, c, log.hist, plan, m, n');
        CutSnapsStayOk(n, log, c, plan, m, SnapsOf(n'.zvol));
      }
    }
  }

  lemma ClosingKeepsNodeOk(n: Node, log: Log, now: Time, fate: Fate, send: bool)
    requires LogOk(log) && NodeOk(n, log) && ActiveOk(n, log) && log.clock < now && FateFits(n, now, fate)
    ensures var log' := if send then Logged(log, n, now, fate) else log;
            var (n', outcome) := CloseNode(n, now, fate, send);
            NodeOk(n', log') && !n'.imported && (outcome != Done ==> ActiveOk(n', log'))
  {
    var m := n.(imported := false);
    if send { SendingKeepsNodeOk(m, log, now, fate); }
  }

  lemma InitIsInv(w: World)
    requires Init(w)
    ensures Inv(w)
  {
  }

  /** Replacing one node and extending the log keeps the others sound. */
  lemma UpdateKeepsInv(w: World, id: nat, n': Node, log': Log, active': Option<nat>)
    requires Inv(w) && id < |w.nodes|
    requires LogOk(log') && Grows(w.log, log') && NodeOk(n', log')
    requires n'.imported ==> active' == Some(id)
    requires w.active.Some? ==> w.active == Some(id) || active' == w.active
    requires active' == None || active' == Some(id) || (active' == w.active && log'.last == w.log.last)
    requires active' == Some(id) ==> ActiveOk(n', log')
    ensures Inv(World(log', w.nodes[id := n'], active'))
  {
    var nodes' := w.nodes[id := n'];
    forall i | 0 <= i < |nodes'| ensures NodeOk(nodes'[i], log') {
      if i != id { GrowingKeepsNodeOk(w.nodes[i], w.log, log'); }
    }
  }

  lemma StepKeepsInv(w: World, step: Step)
    requires Inv(w) && Enabled(w, step)
    ensures Inv(Do(w, step))
  {
    match step
    case Write(image) =>
      var id := w.active.value;
      var n := w.nodes[id];
      UpdateKeepsInv(w, id, n.(zvol := Some(n.zvol.value.(live := image))), w.log, w.active);
    case SendNow(now, fate) =>
      var id := w.active.value;
      var n := w.nodes[id];
      SendingKeepsNodeOk(n, w.log, now, fate);
      SendingKeepsLogOk(n, w.log, now, fate);
      UpdateKeepsInv(w, id, SendNode(n, now, fate).0, Logged(w.log, n, now, fate), w.active);
    case CloseNow(now, fate, send) =>
      var id := w.active.value;
      var n := w.nodes[id];
      var (n', outcome) := CloseNode(n, now, fate, send);
      ClosingKeepsNodeOk(n, w.log, now, fate, send);
      SendingKeepsLogOk(n, w.log, now, fate);
      UpdateKeepsInv(w, id, n', if send then Logged(w.log, n, now, fate) else w.log,
                     if outcome == Done then None else w.active);
    case Abandon =>
      var id := w.active.value;
      UpdateKeepsInv(w, id, w.nodes[id].(imported := false), w.log, None);
    case Import(id) =>
      var (n', outcome) := ImportNode(w.nodes[id]);
      ImportingKeepsNodeOk(w.nodes[id], w.log);
      UpdateKeepsInv(w, id, n', w.log, if outcome == Done then Some(id) else None);
    case ImportKilled(id, lifetime) =>
      InterruptedKeepsNodeOk(w.nodes[id], w.log, lifetime);
      UpdateKeepsInv(w, id, RecvUntil(w.nodes[id], false, lifetime).0, w.log, None);
    case Replicate(source, target, delete) =>
      var t := w.nodes[target];
      ReplicatingKeepsNodeOk(w.nodes[source], t, w.log, delete);
      UpdateKeepsInv(w, target, t.(files := ReplicatedFiles(w.nodes[source].files, t.files, delete)), w.log, w.active);
  }

  lemma {:induction false} RunKeepsInv(ws: seq<World>, steps: seq<Step>, i: nat)
    requires Run(ws, steps) && i < |ws|
    ensures Inv(ws[i])
  {
    if i == 0 {
      InitIsInv(ws[0]);
    } else {
      RunKeepsInv(ws, steps, i - 1);
      StepKeepsInv(ws[i - 1], steps[i - 1]);
    }
  }

  // ----- what every run guarantees -----

  /** In every reachable state, on every machine with the newest stream and no imported pool: `recv_streams`
      succeeds exactly when the newest of several snapshots is not outside the chain, and then the newest
      snapshot is the last one sent, with the image recorded for it. */
  lemma RestoreGivesLastSent(ws: seq<World>, steps: seq<Step>, j: nat, id: nat)
    requires Run(ws, steps) && j < |ws| && id < |ws[j].nodes|
    requires var n := ws[j].nodes[id]; !n.imported && n.files != map[] && UpToDate(n, ws[j].log)
    ensures var n, log := ws[j].nodes[id], ws[j].log;
            var (n', outcome) := RecvNode(n);
            var c := ChainOf(n.files.Keys);
            && c != []
            && (outcome == Done <==> Spans(Times(SnapsOf(n.zvol)), c))
            && (outcome == Done ==> log.last.Some? && NewestIs(SnapsOf(n'.zvol), log.last.value, log.hist))
  {
    var n, log := ws[j].nodes[id], ws[j].log;
    RunKeepsInv(ws, steps, j);
    ChainReachesNewest(n, log);
    LoggedFilesAreTrue(n, log);
    RecoverableGuard(n, log);
    ReceiveRestoresIff(n, log.hist);
  }

  /** A plan that goes astray keeps every snapshot. */
  lemma AstrayKeepsAll(ts: seq<Time>, c: seq<Stream>)
    requires Increasing(ts) && IsChain(c) && |ts| >= 2 && |c| >= 2
    requires ts[|ts| - 1] < c[0].end || ts[|ts| - 1] > c[|c| - 1].end
    ensures PlanFor(ts, c) == Some(Plan(|ts|, |c| - 1)) && !Recoverable(ts, c)
  {
    if ts[|ts| - 1] < c[0].end {
      forall i | 0 <= i < |ts| ensures !Boundary(c, ts[i]) {
        assert ts[i] <= ts[|ts| - 1];
        BoundaryIsNotEarly(c, ts[i]);
      }
    }
  }

  /** In every reachable state a receive that does not succeed changes nothing at all. */
  lemma RefusedReceiveChangesNothing(ws: seq<World>, steps: seq<Step>, j: nat, id: nat)
    requires Run(ws, steps) && j < |ws| && id < |ws[j].nodes| && RecvNode(ws[j].nodes[id]).1 != Done
    ensures RecvNode(ws[j].nodes[id]).0 == ws[j].nodes[id]
  {
    RunKeepsInv(ws, steps, j);
    var n := ws[j].nodes[id];
    if n.files != map[] && !n.imported { ReceiveIsAllOrNothing(n, ws[j].log); }
  }

  /** So a receive along it is refused at its first stream, before anything has changed. */
  lemma AstrayIsRefused(n: Node, c: seq<Stream>)
    requires IsChain(c) && |c| >= 2 && forall x :: x in c ==> x in n.files
    requires var ts := Times(SnapsOf(n.zvol));
             Increasing(ts) && |ts| >= 2 && (ts[|ts| - 1] < c[0].end || ts[|ts| - 1] > c[|c| - 1].end)
    ensures RecvChain(n, c) == (n, Failed(Refused))
  {
    var ts := Times(SnapsOf(n.zvol));
    AstrayKeepsAll(ts, c);
    PlanJoinsIff(ts, c);
    UnjoinedPlanIsRefused(n, c, Plan(|ts|, |c| - 1));
  }

  lemma OutsideIsRefused(n: Node, c: seq<Stream>)
    requires c == ChainOf(n.files.Keys) && !n.imported && IsChain(c) && |c| >= 2
    requires var ts := Times(SnapsOf(n.zvol));
             Increasing(ts) && |ts| >= 2 && (ts[|ts| - 1] < c[0].end || ts[|ts| - 1] > c[|c| - 1].end)
    ensures RecvNode(n) == (n, Failed(Refused))
  {
    assert c[0] in n.files;
    AstrayIsRefused(n, c);
  }

  lemma SpannedIsReceived(n: Node, log: Log)
    requires LogOk(log) && NodeOk(n, log) && n.files != map[] && !n.imported
    ensures var c := ChainOf(n.files.Keys);
            IsChain(c) && (Spans(Times(SnapsOf(n.zvol)), c) ==> RecvNode(n).1 == Done)
  {
    ChainReachesNewest(n, log);
    LoggedFilesAreTrue(n, log);
    ReceiveRestoresIff(n, log.hist);
    RecoverableGuard(n, log);
  }

  lemma SpansOrIsRefused(n: Node)
    requires WellFormed(n) && !n.imported && IsChain(ChainOf(n.files.Keys))
    ensures Spans(Times(SnapsOf(n.zvol)), ChainOf(n.files.Keys)) || RecvNode(n) == (n, Failed(Refused))
  {
    hide RecvNode, ChainOf;
    if !Spans(Times(SnapsOf(n.zvol)), ChainOf(n.files.Keys)) { OutsideIsRefused(n, ChainOf(n.files.Keys)); }
  }

  lemma ReceiveIsAllOrNothing(n: Node, log: Log)
    requires LogOk(log) && NodeOk(n, log) && n.files != map[] && !n.imported
    ensures RecvNode(n).1 == Done || RecvNode(n) == (n, Failed(Refused))
  {
    SpannedIsReceived(n, log);
    SpansOrIsRefused(n);
  }

  /** Crash safety of receiving: wherever the process dies, a second receive on the machine it leaves behind succeeds
      whenever an undisturbed one would have, and ends at the last sent snapshot with its image. */
  lemma InterruptedReceiveResumes(ws: seq<World>, steps: seq<Step>, j: nat, id: nat, lifetime: nat)
    requires Run(ws, steps) && j < |ws| && id < |ws[j].nodes|
    requires var n := ws[j].nodes[id]; !n.imported && n.files != map[] && UpToDate(n, ws[j].log) && RecvNode(n).1 == Done
    ensures var n', log := RecvUntil(ws[j].nodes[id], false, lifetime).0, ws[j].log;
            RecvNode(n').1 == Done && log.last.Some? && NewestIs(SnapsOf(RecvNode(n').0.zvol), log.last.value, log.hist)
  {
    RunKeepsInv(ws, steps, j);
    InterruptedResumes(ws[j].nodes[id], ws[j].log, lifetime);
  }

  lemma InterruptedResumes(n: Node, log: Log, lifetime: nat)
    requires LogOk(log) && NodeOk(n, log) && !n.imported && n.files != map[] && UpToDate(n, log) && RecvNode(n).1 == Done
    ensures var n' := RecvUntil(n, false, lifetime).0;
            RecvNode(n').1 == Done && log.last.Some? && NewestIs(SnapsOf(RecvNode(n').0.zvol), log.last.value, log.hist)
  {
    ChainReachesNewest(n, log);
    LoggedFilesAreTrue(n, log);
    ReceiveRestoresIff(n, log.hist);
    CutNodeReceives(n, log.hist, lifetime);
    var s :| s in n.files;
    assert s.end in log.ledger;
  }

  /** A step in which a stream was written completely. */
  predicate SendsAt(w: World, step: Step, now: Time)
    requires w.active.Some? ==> w.active.value < |w.nodes|
  {
    && w.active.Some? && w.nodes[w.active.value].zvol.Some?
    && ((step.SendNow? && step.now == now && step.fate.Sends?)
        || (step.CloseNow? && step.now == now && step.fate.Sends? && step.send))
  }

  lemma StepGrowsLog(w: World, step: Step)
    requires Inv(w) && Enabled(w, step)
    ensures Grows(w.log, Do(w, step).log)
  {
    if step.SendNow? || step.CloseNow? {
      SendingKeepsLogOk(w.nodes[w.active.value], w.log, step.now, step.fate);
    }
  }

  /** What is live when a stream is sent is recorded in that step. */
  lemma SendingRecords(w: World, step: Step, now: Time)
    requires Enabled(w, step) && SendsAt(w, step, now)
    ensures now in Do(w, step).log.hist && Do(w, step).log.hist[now] == w.nodes[w.active.value].zvol.value.live
  {
  }

  /** What was live when a stream was sent is on record from then on. */
  lemma {:induction false} SentImageIsRecorded(ws: seq<World>, steps: seq<Step>, i: nat, j: nat, now: Time)
    requires Run(ws, steps) && i < j < |ws|
    requires Enabled(ws[i], steps[i]) && SendsAt(ws[i], steps[i], now)
    ensures now in ws[j].log.hist
    ensures ws[j].log.hist[now] == ws[i].nodes[ws[i].active.value].zvol.value.live
  {
    hide Do, SendsAt, Inv;
    assert Enabled(ws[j - 1], steps[j - 1]) && ws[j - 1 + 1] == Do(ws[j - 1], steps[j - 1]);
    if i < j - 1 {
      SentImageIsRecorded(ws, steps, i, j - 1, now);
      RunKeepsInv(ws, steps, j - 1);
      StepGrowsLog(ws[j - 1], steps[j - 1]);
    } else {
      SendingRecords(ws[i], steps[i], now);
    }
  }

  /** End to end: as long as the stream sent in step i is the newest one, whatever else happens on whichever
      machines, a receive that succeeds on a machine that holds it brings back the image that was live then. */
  lemma RestoreGivesBackWhatWasSent(ws: seq<World>, steps: seq<Step>, i: nat, j: nat, id: nat, now: Time)
    requires Run(ws, steps) && i < j < |ws| && id < |ws[j].nodes|
    requires Enabled(ws[i], steps[i]) && SendsAt(ws[i], steps[i], now) && ws[j].log.last == Some(now)
    requires var n := ws[j].nodes[id]; !n.imported && UpToDate(n, ws[j].log)
    ensures var (n', outcome) := RecvNode(ws[j].nodes[id]);
            var snaps := SnapsOf(n'.zvol);
            outcome == Done ==>
              snaps != [] && snaps[|snaps| - 1] == Snap(now, ws[i].nodes[ws[i].active.value].zvol.value.live)
  {
    SentImageIsRecorded(ws, steps, i, j, now);
    RestoreGivesLastSent(ws, steps, j, id);
  }

  /** Closing a project and opening it again, there or on any machine that the streams were copied to and
      that has no volume of it, gives back the live image. */
  lemma CloseThenImport(ws: seq<World>, steps: seq<Step>, i: nat, j: nat, id: nat, now: Time)
    requires Run(ws, steps) && i < j < |ws| && id < |ws[j].nodes|
    requires Enabled(ws[i], steps[i]) && steps[i].CloseNow? && SendsAt(ws[i], steps[i], now) && ws[j].log.last == Some(now)
    requires var n := ws[j].nodes[id]; n.zvol.None? && UpToDate(n, ws[j].log)
    ensures var (n', outcome) := ImportNode(ws[j].nodes[id]);
            && outcome == Done && n'.imported && n'.zvol.Some?
            && n'.zvol.value.live == ws[i].nodes[ws[i].active.value].zvol.value.live
  {
    var n, log := ws[j].nodes[id], ws[j].log;
    RunKeepsInv(ws, steps, j);
    SentImageIsRecorded(ws, steps, i, j, now);
    EmptyNodeImports(n, log);
  }

  /** Without a volume the whole chain is applied. */
  lemma EmptyNodeImports(n: Node, log: Log)
    requires LogOk(log) && NodeOk(n, log) && n.zvol.None? && UpToDate(n, log) && log.last.Some?
    ensures var (n', outcome) := ImportNode(n);
            outcome == Done && n'.imported && n'.zvol.Some? && n'.zvol.value.live == Recorded(log.hist, log.last.value)
  {
    ChainReachesNewest(n, log);
    LoggedFilesAreTrue(n, log);
    EmptyNodeReceives(n, ChainOf(n.files.Keys), log.hist);
  }

  lemma EmptyNodeReceives(n: Node, c: seq<Stream>, hist: map<Time, Image>)
    requires Receivable(n, c, hist) && n.zvol.None?
    ensures var (n', outcome) := RecvChain(n, c);
            outcome == Done && n'.zvol.Some? && n'.zvol.value.live == Recorded(hist, c[|c| - 1].end)
  {
    JoinedPlanSucceeds(n, c, Plan(0, 0), hist);
  }

  /** While the project is open, the chain ends with the last stream sent, and every boundary of it is a snapshot. */
  lemma ActiveHoldsBoundaries(ws: seq<World>, steps: seq<Step>, j: nat)
    requires Run(ws, steps) && j < |ws| && ws[j].active.Some? && ws[j].log.last.Some?
    ensures ws[j].active.value < |ws[j].nodes|
    ensures var n := ws[j].nodes[ws[j].active.value];
            var c := ChainOf(n.files.Keys);
            && IsChain(c) && c[|c| - 1].end == ws[j].log.last.value
            && forall i :: 0 <= i < |c| ==> c[i].end in Times(SnapsOf(n.zvol))
  {
    RunKeepsInv(ws, steps, j);
    var n, log := ws[j].nodes[ws[j].active.value], ws[j].log;
    ChainReachesNewest(n, log);
    BigEndsAreHeld(n, log, Times(SnapsOf(n.zvol)));
    BoundariesAreHeld(n, log, ChainOf(n.files.Keys));
  }

  lemma BoundariesAreHeld(n: Node, log: Log, c: seq<Stream>)
    requires LogOk(log) && NodeOk(n, log) && IsChain(c) && forall x :: x in c ==> x in n.files
    requires forall g :: BigAt(log.ledger, g) ==> g in Times(SnapsOf(n.zvol))
    requires c[|c| - 1].end in Times(SnapsOf(n.zvol))
    ensures forall i :: 0 <= i < |c| ==> c[i].end in Times(SnapsOf(n.zvol))
  {
    forall i | 0 <= i < |c| ensures c[i].end in Times(SnapsOf(n.zvol)) {
      if i + 1 < |c| {
        assert Follows(c[i + 1], c[i]);
        assert c[i + 1] in n.files && HasBigAnchor(c[i + 1], n.files);
        assert BigAt(log.ledger, c[i].end);
      }
    }
  }

  /** The node after its send failed and it was abandoned. */
  function WithUnsentSnapshot(n: Node, now: Time): Node
    requires n.zvol.Some?
  {
    n.(zvol := Some(Snapshotted(n.zvol.value, now)), imported := false)
  }

  lemma FailThenAbandon(w: World, now: Time)
    requires w.active.Some? && w.active.value < |w.nodes| && w.log.clock < now
    requires w.nodes[w.active.value].zvol.Some?
    ensures Enabled(w, SendNow(now, SendFails)) && Enabled(Do(w, SendNow(now, SendFails)), Abandon)
    ensures var w' := Do(Do(w, SendNow(now, SendFails)), Abandon);
            && |w'.nodes| == |w.nodes| && w'.log.last == w.log.last
            && w'.nodes[w.active.value] == WithUnsentSnapshot(w.nodes[w.active.value], now)
  {
  }

  /** Where the protocol gets stuck: once the chain has two streams, a snapshot whose send failed makes the
      next receive on that machine refuse, although it holds the newest stream and its image. */
  lemma FailedSendBlocksReceive(w: World, now: Time)
    requires Inv(w) && w.active.Some? && w.log.clock < now && w.log.last.Some?
    requires |ChainOf(w.nodes[w.active.value].files.Keys)| >= 2
    ensures var id := w.active.value;
            && Enabled(w, SendNow(now, SendFails)) && Enabled(Do(w, SendNow(now, SendFails)), Abandon)
            && var w' := Do(Do(w, SendNow(now, SendFails)), Abandon);
            RecvNode(w'.nodes[id]) == (w'.nodes[id], Failed(Refused)) && UpToDate(w'.nodes[id], w'.log)
  {
    var n := w.nodes[w.active.value];
    FailThenAbandon(w, now);
    UnsentSnapshotIsRefused(n, w.log, now);
  }

  lemma UnsentSnapshotIsRefused(n: Node, log: Log, now: Time)
    requires LogOk(log) && NodeOk(n, log) && ActiveOk(n, log) && log.clock < now && log.last.Some?
    requires |ChainOf(n.files.Keys)| >= 2
    ensures var n' := WithUnsentSnapshot(n, now); RecvNode(n') == (n', Failed(Refused))
  {
    hide Linked, TrueEntry, RecvNode, ChainOf, Closed, TrueSnaps;
    var n', c := WithUnsentSnapshot(n, now), ChainOf(n.files.Keys);
    ChainReachesNewest(n, log);
    LoggedFilesAreTrue(n, log);
    SnapshotTimesOld(n, log, now);
    SnapshotKeepsOrder(n.zvol.value, now);
    assert c[|c| - 1] in n.files && log.last.value in Times(n.zvol.value.snaps);
    OutsideIsRefused(n', c);
  }

  // ----- runs in which no process was killed and no stale stream was left behind -----

  predicate Tidy(step: Step) {
    && ((step.SendNow? || step.CloseNow?) && step.fate.Sends? ==> step.fate.completed)
    && (step.Replicate? ==> step.delete)
  }

  lemma TidySendKeepsLinear(n: Node, log: Log, now: Time, fate: Fate, c: seq<Stream>)
    requires LogOk(log) && NodeOk(n, log) && ActiveOk(n, log) && log.clock < now && FateFits(n, now, fate)
    requires fate.Sends? && fate.completed && Linear(n.files, c)
    ensures var start := StartOf(Times(Snapshotted(n.zvol.value, now).snaps), n.files, now);
            Linear(SendNode(n, now, fate).0.files, KeptChain(n.files, c) + [Stream(start, now)])
  {
    var v := Snapshotted(n.zvol.value, now);
    SnapshotTimesOld(n, log, now);
    SnapshotKeepsOrder(n.zvol.value, now);
    BigEndsAreHeld(n, log, Times(v.snaps));
    forall x | x in c ensures x.end in Times(v.snaps) {
      if !n.files[x].Big() { SmallLastIsNewest(n, log, c, x); }
    }
    CompletedSendKeepsLinear(v, n.files, now, fate.bytes, c);
  }

  lemma SmallLastIsNewest(n: Node, log: Log, c: seq<Stream>, x: Stream)
    requires LogOk(log) && NodeOk(n, log) && UpToDate(n, log) && Linear(n.files, c)
    requires x in c && !n.files[x].Big()
    ensures log.last == Some(x.end)
  {
    assert x.end in log.ledger;
    var s :| s in n.files && s.end == log.last.value;
    var i :| 0 <= i < |c| && c[i] == x;
    assert i == |c| - 1 && s in c;
    var k :| 0 <= k < |c| && c[k] == s;
    if k < i { ChainEndsIncrease(c, k, i); }
  }

  ghost predicate IsLinear(files: map<Stream, File>) {
    exists c :: Linear(files, c)
  }

  ghost predicate AllLinear(w: World) {
    forall i :: 0 <= i < |w.nodes| ==> IsLinear(w.nodes[i].files)
  }

  lemma TidySendKeepsIsLinear(n: Node, log: Log, now: Time, fate: Fate)
    requires LogOk(log) && NodeOk(n, log) && ActiveOk(n, log) && log.clock < now && FateFits(n, now, fate)
    requires (fate.Sends? ==> fate.completed) && IsLinear(n.files)
    ensures IsLinear(SendNode(n, now, fate).0.files)
  {
    if fate.Sends? {
      var c :| Linear(n.files, c);
      TidySendKeepsLinear(n, log, now, fate, c);
    }
  }

  lemma TidyStepKeepsLinear(w: World, step: Step)
    requires Inv(w) && Enabled(w, step) && Tidy(step) && AllLinear(w)
    ensures AllLinear(Do(w, step))
  {
    hide IsLinear, LogOk;
    match step
    case Write(_) =>
    case SendNow(now, fate) => TidySendKeepsIsLinear(w.nodes[w.active.value], w.log, now, fate);
    case CloseNow(now, fate, send) => TidySendKeepsIsLinear(w.nodes[w.active.value].(imported := false), w.log, now, fate);
    case Abandon =>
    case Import(id) => ImportingKeepsFiles(w.nodes[id], w.log);
    case ImportKilled(id, lifetime) => InterruptedKeepsNodeOk(w.nodes[id], w.log, lifetime);
    case Replicate(_, _, _) =>
  }

  /** In such a run every stream directory is one chain at every step, large enough up to its last stream. */
  lemma {:induction false} TidyRunKeepsLinear(ws: seq<World>, steps: seq<Step>, i: nat)
    requires Run(ws, steps) && i < |ws|
    requires forall k :: 0 <= k < i ==> Tidy(steps[k])
    ensures AllLinear(ws[i])
  {
    if i == 0 {
      assert Linear(map[], []);
    } else {
      RunKeepsInv(ws, steps, i - 1);
      TidyRunKeepsLinear(ws, steps, i - 1);
      TidyStepKeepsLinear(ws[i - 1], steps[i - 1]);
    }
  }

  lemma ImportingKeepsFiles(n: Node, log: Log)
    requires LogOk(log) && NodeOk(n, log)
    ensures ImportNode(n).0.files == n.files
  {
    ReceivingKeepsNodeOk(n, log);
  }
}
