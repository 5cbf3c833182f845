/** What closing and importing do to a machine that has a volume, over all runs: what is destroyed was sent, what is
    live stays until something is written or received, and an import destroys no more than the chain makes necessary. */
module Reopen {
  import opened Options
  import opened Zvol
  import opened StreamChain
  import opened Receive
  import opened Interrupted
  import opened Send
  import opened Project
  import opened Cluster

  // ----- closing -----

  /** Step i closes machine id, which has a volume, with a send, and is done with it. */
  ghost predicate ClosesWithSend(ws: seq<World>, steps: seq<Step>, i: nat, id: nat) {
    && i < |steps| && i + 1 < |ws| && steps[i].CloseNow? && steps[i].send
    && ws[i].active == Some(id) && id < |ws[i].nodes| && ws[i].nodes[id].zvol.Some? && ws[i + 1].active == None
  }

  lemma ClosingSends(w: World, step: Step, id: nat)
    requires Inv(w) && Enabled(w, step) && step.CloseNow? && step.send && w.active == Some(id) && w.nodes[id].zvol.Some?
    ensures Do(w, step).active == None <==> step.fate.Sends? && step.fate.completed
    ensures Do(w, step).active == None <==> Do(w, step).nodes[id].zvol.None?
    ensures Do(w, step).active == None ==>
              var log := Do(w, step).log;
              && log.last == Some(step.now) && step.now in log.hist
              && log.hist[step.now] == w.nodes[id].zvol.value.live && UpToDate(Do(w, step).nodes[id], log)
    ensures Do(w, step).active != None ==>
              KeepsLive(w.nodes[id].zvol.value, Do(w, step).nodes[id].zvol, step.now, step.fate != SnapshotFails)
  {
    var n := w.nodes[id];
    LoggedFilesAreTrue(n, w.log);
    ClosedIff(n, step.now, step.fate, true);
  }

  /** A close with a send destroys the volume only after its live image has become the last thing sent, and the stream is in
      the directory. */
  lemma ClosedIsSent(ws: seq<World>, steps: seq<Step>, i: nat, id: nat)
    requires Run(ws, steps) && ClosesWithSend(ws, steps, i, id)
    ensures var now, log := steps[i].now, ws[i + 1].log;
            && id < |ws[i + 1].nodes| && ws[i + 1].nodes[id].zvol == None
            && log.last == Some(now) && now in log.hist && log.hist[now] == ws[i].nodes[id].zvol.value.live
            && UpToDate(ws[i + 1].nodes[id], log)
  {
    RunKeepsInv(ws, steps, i);
    assert Enabled(ws[i], steps[i]) && ws[i + 1] == Do(ws[i], steps[i]);
    ClosingSends(ws[i], steps[i], id);
  }

  /** So whatever happens afterwards, as long as nothing newer is sent, any machine without a volume that has the newest stream
      gives back what was live when the project was closed. */
  lemma ClosedComesBack(ws: seq<World>, steps: seq<Step>, i: nat, id: nat, j: nat, other: nat)
    requires Run(ws, steps) && ClosesWithSend(ws, steps, i, id) && i < j < |ws| && other < |ws[j].nodes|
    requires ws[j].log.last == Some(steps[i].now)
    requires var n := ws[j].nodes[other]; n.zvol.None? && UpToDate(n, ws[j].log)
    ensures var (n', outcome) := ImportNode(ws[j].nodes[other]);
            && outcome == Done && n'.imported && n'.zvol.Some?
            && n'.zvol.value.live == ws[i].nodes[id].zvol.value.live
  {
    RunKeepsInv(ws, steps, i);
    assert Enabled(ws[i], steps[i]) && ws[i + 1] == Do(ws[i], steps[i]);
    ClosingSends(ws[i], steps[i], id);
    CloseThenImport(ws, steps, i, j, other, steps[i].now);
  }

  // ----- what is live stays -----

  /** The steps that may replace or destroy what is live on machine id: writing to it, importing there, and a close that is
      done with it. */
  predicate Replaces(w: World, step: Step, w': World, id: nat) {
    match step
    case Write(_) => w.active == Some(id)
    case Import(i) => i == id
    case ImportKilled(i, _) => i == id
    case CloseNow(_, _, _) => w.active == Some(id) && w'.active == None
    case _ => false
  }

  /** The volume has what was live on it before, and all its snapshots. */
  predicate Preserved(z: Option<Volume>, z': Option<Volume>) {
    z.Some? ==> z'.Some? && z'.value.live == z.value.live && z.value.snaps <= z'.value.snaps
  }

  lemma StepPreserves(w: World, step: Step, id: nat)
    requires Inv(w) && Enabled(w, step) && id < |w.nodes| && !Replaces(w, step, Do(w, step), id)
    ensures |Do(w, step).nodes| == |w.nodes| && Preserved(w.nodes[id].zvol, Do(w, step).nodes[id].zvol)
  {
    if w.active == Some(id) && w.nodes[id].zvol.Some? {
      var n := w.nodes[id];
      LoggedFilesAreTrue(n, w.log);
      if step.SendNow? {
        SentIff(n, step.now, step.fate);
      } else if step.CloseNow? {
        ClosedIff(n, step.now, step.fate, step.send);
      }
    }
  }

  lemma PreservedTwice(a: Option<Volume>, b: Option<Volume>, c: Option<Volume>)
    requires Preserved(a, b) && Preserved(b, c)
    ensures Preserved(a, c)
  {
  }

  lemma NothingReplaced(z: Option<Volume>)
    ensures Preserved(z, z)
  {
  }

  /** In every run, as long as none of these steps concerns a machine, what is live on it stays, and no snapshot is lost. */
  lemma {:induction false} LiveStays(ws: seq<World>, steps: seq<Step>, i: nat, j: nat, id: nat)
    requires Run(ws, steps) && i <= j < |ws| && id < |ws[i].nodes|
    requires forall k :: i <= k < j ==> !Replaces(ws[k], steps[k], ws[k + 1], id)
    ensures id < |ws[j].nodes| && Preserved(ws[i].nodes[id].zvol, ws[j].nodes[id].zvol)
  {
    hide Inv, Do, Replaces, Preserved;
    NothingReplaced(ws[i].nodes[id].zvol);
    if i < j {
      LiveStays(ws, steps, i, j - 1, id);
      RunKeepsInv(ws, steps, j - 1);
      assert Enabled(ws[j - 1], steps[j - 1]) && ws[j - 1 + 1] == Do(ws[j - 1], steps[j - 1]);
      StepPreserves(ws[j - 1], steps[j - 1], id);
      PreservedTwice(ws[i].nodes[id].zvol, ws[j - 1].nodes[id].zvol, ws[j].nodes[id].zvol);
    }
  }

  // ----- importing over a volume -----

  /** The pool is mounted, or there is nothing to receive. */
  predicate NothingToReceive(n: Node) {
    n.imported || n.files == map[]
  }

  lemma ImportOverVolume(n: Node, log: Log)
    requires LogOk(log) && NodeOk(n, log) && n.zvol.Some?
    ensures ImportNode(n) == if NothingToReceive(n) then (n.(imported := true), Done)
                             else
                               var (m, outcome) := RecvChain(n, ChainOf(n.files.Keys));
                               if outcome == Done then (m.(imported := true), Done) else (n, Failed(Refused))
    ensures !NothingToReceive(n) ==>
              && Receivable(n, ChainOf(n.files.Keys), log.hist)
              && (RecvChain(n, ChainOf(n.files.Keys)).1 == Done <==> Spans(Times(SnapsOf(n.zvol)), ChainOf(n.files.Keys)))
              && RecvChain(n, ChainOf(n.files.Keys)).0.files == n.files
  {
    if !NothingToReceive(n) {
      ChainReachesNewest(n, log);
      LoggedFilesAreTrue(n, log);
      RecoverableGuard(n, log);
      ChainRestoresIff(n, ChainOf(n.files.Keys), log.hist);
      ReceiveIsAllOrNothing(n, log);
    }
  }

  /** In every reachable state an import of a machine with a volume succeeds exactly if there is nothing to receive or the newest
      of several snapshots is not outside the chain; if it does not succeed, nothing at all has changed. */
  lemma ImportSucceedsIff(ws: seq<World>, steps: seq<Step>, j: nat, id: nat)
    requires Run(ws, steps) && j < |ws| && id < |ws[j].nodes| && ws[j].nodes[id].zvol.Some?
    ensures var n := ws[j].nodes[id];
            var c, (n', outcome) := ChainOf(n.files.Keys), ImportNode(n);
            && (outcome == Done <==> NothingToReceive(n) || (c != [] && Spans(Times(SnapsOf(n.zvol)), c)))
            && (outcome != Done ==> n' == n && outcome == Failed(Refused))
            && (outcome == Done ==> n'.imported && n'.files == n.files && n'.zvol.Some?)
  {
    RunKeepsInv(ws, steps, j);
    var n, log := ws[j].nodes[id], ws[j].log;
    ImportOverVolume(n, log);
    if ImportNode(n).1 == Done && !NothingToReceive(n) { ReceiveKeepsVolumeIff(n, ChainOf(n.files.Keys), log.hist); }
  }

  /** A successful import leaves the volume as it was, with what is live on it, exactly if there was nothing to receive or the
      newest snapshot was the end of the chain already; otherwise what is live is the image of the chain's end. */
  lemma ImportKeepsVolumeIff(ws: seq<World>, steps: seq<Step>, j: nat, id: nat)
    requires Run(ws, steps) && j < |ws| && id < |ws[j].nodes| && ws[j].nodes[id].zvol.Some?
    requires ImportNode(ws[j].nodes[id]).1 == Done
    ensures var n, z' := ws[j].nodes[id], ImportNode(ws[j].nodes[id]).0.zvol;
            var c := ChainOf(n.files.Keys);
            && (z' == n.zvol <==> NothingToReceive(n) || (c != [] && AtEnd(Times(SnapsOf(n.zvol)), c)))
            && (z' != n.zvol ==> c != [] && z'.Some? && z'.value.live == Recorded(ws[j].log.hist, c[|c| - 1].end))
  {
    RunKeepsInv(ws, steps, j);
    var n, log := ws[j].nodes[id], ws[j].log;
    ImportOverVolume(n, log);
    if !NothingToReceive(n) { ReceiveKeepsVolumeIff(n, ChainOf(n.files.Keys), log.hist); }
  }

  /** A snapshot is still there after a successful import, with its image, exactly if there was nothing to receive, or it is at a
      boundary of the chain, or there are several snapshots and streams and a later snapshot is at a boundary. */
  lemma ImportKeepsSnapshotIff(ws: seq<World>, steps: seq<Step>, j: nat, id: nat, i: nat)
    requires Run(ws, steps) && j < |ws| && id < |ws[j].nodes| && ws[j].nodes[id].zvol.Some?
    requires ImportNode(ws[j].nodes[id]).1 == Done && i < |SnapsOf(ws[j].nodes[id].zvol)|
    ensures var n := ws[j].nodes[id];
            SnapsOf(n.zvol)[i] in SnapsOf(ImportNode(n).0.zvol) <==>
            NothingToReceive(n) || Survives(Times(SnapsOf(n.zvol)), ChainOf(n.files.Keys), i)
  {
    RunKeepsInv(ws, steps, j);
    var n, log := ws[j].nodes[id], ws[j].log;
    ImportOverVolume(n, log);
    if !NothingToReceive(n) { SurvivesIff(n, ChainOf(n.files.Keys), log.hist, i); }
  }
}
