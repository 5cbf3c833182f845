/** The `Project` class: one project on one machine, with the operations that move it between image and streams. */
module Project {
  import opened Options
  import opened Zvol
  import opened StreamChain
  import opened Receive
  import opened Interrupted
  import opened Send

  // ----- what the operations do to a node -----

  /** Unmount, send, and only after a send that completed destroy the volume. */
  function CloseNode(n: Node, now: Time, fate: Fate, send: bool): (Node, Outcome) {
    var (m, outcome) := if send then SendNode(n.(imported := false), now, fate) else (n.(imported := false), Done);
    if outcome == Done then (m.(zvol := None), Done) else (m, outcome)
  }

  ghost function ImportNode(n: Node): (Node, Outcome) {
    if ChainOf(n.files.Keys) == [] && n.zvol.None? then
      (n.(zvol := Some(Volume([], map[])), imported := true), Done)
    else if n.imported then (n, Done)
    else
      var (m, outcome) := RecvNode(n);
      if outcome == Done then (m.(imported := true), Done) else (m, outcome)
  }

  /** `rsync`: the source's files overwrite files of the same name. */
  function ReplicatedFiles(source: map<Stream, File>, target: map<Stream, File>, delete: bool): map<Stream, File> {
    if delete then source else target + source
  }

  ghost predicate WellFormed(n: Node) {
    && (n.imported ==> n.zvol.Some?)
    && Increasing(Times(SnapsOf(n.zvol)))
    && forall x :: x in n.files ==> x.start <= x.end
  }

  /** Nothing on the node is as new as now. */
  ghost predicate Older(n: Node, now: Time) {
    EndBefore(n.files, now) && forall t :: t in Times(SnapsOf(n.zvol)) ==> t < now
  }

  lemma {:induction false} ApplyingKeepsOrder(z: Option<Volume>, files: map<Stream, File>, c: seq<Stream>)
    requires forall x :: x in c ==> x in files && x.start <= x.end
    requires Increasing(Times(SnapsOf(z)))
    ensures Increasing(Times(SnapsOf(ApplyAll(z, files, c).0)))
    decreases |c|
  {
    if c != [] {
      var z' := Receive1(z, c[0], files[c[0]]);
      if z'.Some? {
        AppendingKeepsOrder(z, c[0], files[c[0]]);
        ApplyingKeepsOrder(z', files, c[1..]);
      }
    }
  }

  lemma AppendingKeepsOrder(z: Option<Volume>, s: Stream, f: File)
    requires s.start <= s.end && Increasing(Times(SnapsOf(z))) && Receive1(z, s, f).Some?
    ensures Increasing(Times(SnapsOf(Receive1(z, s, f))))
  {
    var ts, ts' := Times(SnapsOf(z)), Times(SnapsOf(Receive1(z, s, f)));
    assert ts' == ts + [s.end];
    assert ts != [] ==> ts[|ts| - 1] == s.start < s.end;
  }

  lemma ChainKeepsWellFormed(n: Node, c: seq<Stream>)
    requires WellFormed(n) && !n.imported && forall x :: x in c ==> x in n.files
    ensures WellFormed(RecvChain(n, c).0)
    ensures RecvChain(n, c).1 == Done && (c != [] || n.zvol.Some?) ==> RecvChain(n, c).0.zvol.Some?
  {
    var plan := PlanFor(Times(SnapsOf(n.zvol)), c);
    if plan.Some? {
      var z := Rollback(n.zvol, plan.value.keep);
      assert Times(SnapsOf(z)) == Times(SnapsOf(n.zvol))[..plan.value.keep];
      ApplyingKeepsOrder(z, n.files, c[plan.value.from..]);
      SomeIsApplied(z, n.files, c[plan.value.from..]);
    }
  }

  lemma ChainUntilKeepsWellFormed(n: Node, c: seq<Stream>, lifetime: nat)
    requires WellFormed(n) && !n.imported && forall x :: x in c ==> x in n.files
    ensures WellFormed(ChainUntil(n, c, lifetime).0)
  {
    var plan := PlanFor(Times(SnapsOf(n.zvol)), c);
    if plan.Some? {
      var z, todo := Rollback(n.zvol, plan.value.keep), c[plan.value.from..];
      assert Times(SnapsOf(z)) == Times(SnapsOf(n.zvol))[..plan.value.keep];
      UntilIsPrefix(z, n.files, todo, lifetime);
      ApplyingKeepsOrder(z, n.files, if lifetime < |todo| then todo[..lifetime] else todo);
    }
  }

  lemma ReceivingKeepsWellFormed(n: Node)
    requires WellFormed(n)
    ensures WellFormed(RecvNode(n).0)
  {
    if !n.imported { ChainKeepsWellFormed(n, ChainOf(n.files.Keys)); }
  }

  /** After an import that succeeds there is a volume to mount. */
  lemma ImportingMounts(n: Node)
    requires WellFormed(n)
    ensures ImportNode(n).1 == Done ==> ImportNode(n).0.imported && ImportNode(n).0.zvol.Some?
  {
    var c := ChainOf(n.files.Keys);
    assert c != [] ==> c[0] in n.files;
    if !n.imported { ChainKeepsWellFormed(n, c); }
  }

  lemma {:induction false} SomeIsApplied(z: Option<Volume>, files: map<Stream, File>, c: seq<Stream>)
    requires forall x :: x in c ==> x in files
    ensures ApplyAll(z, files, c).1 == Done && c != [] ==> ApplyAll(z, files, c).0.Some?
    decreases |c|
  {
    if c != [] {
      var z' := Receive1(z, c[0], files[c[0]]);
      if |c| > 1 && z'.Some? { SomeIsApplied(z', files, c[1..]); }
    }
  }

  lemma SnapshotKeepsOrder(v: Volume, now: Time)
    requires Increasing(Times(v.snaps)) && forall t :: t in Times(v.snaps) ==> t < now
    ensures Increasing(Times(Snapshotted(v, now).snaps))
    ensures Times(Snapshotted(v, now).snaps) == Times(v.snaps) + [now]
  {
    var ts := Times(v.snaps);
    assert forall i :: 0 <= i < |ts| ==> ts[i] in ts;
    assert Times(Snapshotted(v, now).snaps) == ts + [now];
  }

  lemma {:induction false} ListedAreFewer(v: seq<Stream>, s: set<Stream>)
    requires Lists(v, s)
    ensures |v| == |s|
  {
    if v == [] {
      assert s == {};
    } else {
      assert forall x :: x in v <==> x == v[0] || x in v[1..];
      ListedAreFewer(v[1..], s - {v[0]});
    }
  }

  /** Closing destroys the volume exactly if sending was not wanted, or was done; else what is live stays. */
  lemma ClosedIff(n: Node, now: Time, fate: Fate, send: bool)
    requires n.zvol.Some? && FateFits(n, now, fate) && EndBefore(n.files, now)
    ensures var (n', outcome) := CloseNode(n, now, fate, send);
            && !n'.imported && (outcome == Done <==> n'.zvol.None?)
            && (n'.zvol.None? <==> !send || (fate.Sends? && fate.completed))
            && (n'.zvol.Some? ==> KeepsLive(n.zvol.value, n'.zvol, now, fate != SnapshotFails))
            && (if send then fate.Sends? <==> exists s :: s in n'.files && s.end == now else n'.files == n.files)
  {
    if send { SentIff(n.(imported := false), now, fate); }
  }

  class Project {
    var zvol: Option<Volume>
    var imported: bool
    var files: map<Stream, File>

    ghost function State(): Node
      reads this
    {
      Node(zvol, imported, files)
    }

    ghost predicate Valid()
      reads this
    {
      WellFormed(State())
    }

    constructor ()
      ensures Valid() && State() == Node(None, false, map[])
    {
      zvol, imported, files := None, false, map[];
    }

    /** The streams in the directory, in whatever order it is listed. */
    method Streams() returns (v: seq<Stream>)
      ensures Lists(v, files.Keys)
    {
      v := [];
      var rest := files.Keys;
      while rest != {}
        invariant Lists(v, files.Keys - rest) && rest <= files.Keys
        decreases |rest|
      {
        var x :| x in rest;
        v, rest := v + [x], rest - {x};
      }
    }

    method DestroyVolume()
      modifies this
      ensures State() == old(State()).(zvol := None, imported := false)
    {
      if imported {
        imported := false;
      }
      zvol := None;
    }

    /** `leftovers`: the directory also holds a file that is not a stream; `lifetime`: how many streams the process
        lives to apply. */
    method RecvStreams(leftovers: bool, lifetime: nat) returns (outcome: Outcome)
      requires Valid()
      modifies this
      ensures (State(), outcome) == RecvUntil(old(State()), leftovers, lifetime)
      ensures lifetime >= |ChainOf(old(files).Keys)| ==> (State(), outcome) == RecvListed(old(State()), leftovers)
      ensures Valid()
    {
      if lifetime >= |ChainOf(files.Keys)| { LongLifeReceivesAll(State(), leftovers, lifetime); }
      if files == map[] && !leftovers { return Done; }
      if imported { return Failed(PoolImported); }
      var v := Streams();
      var streams := OptimalStreamSequence(v);
      ChainIgnoresOrder(v, files.Keys);
      ChainOfIsChain(files.Keys);
      outcome := RecvSequence(streams, lifetime);
    }

    /** Decide what to keep and what to apply, roll back, and apply. */
    method RecvSequence(streams: seq<Stream>, lifetime: nat) returns (outcome: Outcome)
      requires Valid() && !imported && (streams == [] || IsChain(streams)) && forall x :: x in streams ==> x in files
      modifies this
      ensures (State(), outcome) == ChainUntil(old(State()), streams, lifetime)
      ensures Valid()
    {
      hide ApplyUntil, PlanFor;
      ChainUntilKeepsWellFormed(State(), streams, lifetime);
      var snaps := SnapsOf(zvol);
      var plan := PlanReceive(Times(snaps), streams);
      if plan == None { return Failed(NoChain); }
      var todo := streams[plan.value.from..];
      if |todo| == 0 { return Done; }
      if plan.value.keep == 0 {
        DestroyVolume();
      } else if plan.value.keep < |snaps| {
        zvol := Some(Volume(snaps[..plan.value.keep], snaps[plan.value.keep - 1].image));
      }
      outcome := ApplyStreams(todo, lifetime);
    }

    /** Apply the streams one after the other; the first refusal ends it. */
    method ApplyStreams(todo: seq<Stream>, lifetime: nat) returns (outcome: Outcome)
      requires forall x :: x in todo ==> x in files
      modifies this`zvol
      ensures (zvol, outcome) == ApplyUntil(old(zvol), files, todo, lifetime)
    {
      var i := 0;
      while i < |todo|
        invariant 0 <= i <= |todo| && i <= lifetime
        invariant ApplyUntil(zvol, files, todo[i..], lifetime - i) == ApplyUntil(old(zvol), files, todo, lifetime)
      {
        assert todo[i..][0] == todo[i] && todo[i..][1..] == todo[i + 1..];
        if i == lifetime { return Failed(Killed); }
        var received := Receive1(zvol, todo[i], files[todo[i]]);
        if received == None { return Failed(Refused); }
        zvol := received;
        i := i + 1;
      }
      return Done;
    }

    /** Search the snapshots from the newest back for one at which a large enough stream ends. */
    method FindStart(ts: seq<Time>, bigEnds: set<Time>, now: Time) returns (start: Time)
      requires bigEnds == BigEnds(files)
      ensures start == StartOf(ts, files, now)
    {
      start := now;
      var i := |ts|;
      while i > 0
        invariant 0 <= i <= |ts|
        invariant NewestIn(ts[..i], bigEnds) == NewestIn(ts, bigEnds)
      {
        assert ts[..i][..i - 1] == ts[..i - 1];
        i := i - 1;
        if ts[i] in bigEnds {
          return ts[i];
        }
      }
    }

    /** Whether the snapshot and the send succeed, how large the new stream gets, and how many directory entries the
        process lives to look at in the discard loop, are up to the environment. */
    method SendStreams(now: Time, snapshotOk: bool, sendOk: bool, bytes: nat, lifetime: nat)
      returns (outcome: Outcome, discarded: set<Stream>)
      requires Valid() && Older(State(), now)
      modifies this
      ensures var fate := if !snapshotOk then SnapshotFails else if !sendOk then SendFails
                          else Sends(bytes, discarded, outcome == Done);
              (State(), outcome) == SendNode(old(State()), now, fate) && FateFits(old(State()), now, fate)
      ensures old(zvol) == None ==> outcome == Done && State() == old(State())
      ensures old(zvol).Some? ==>
                && (outcome == Done <==> snapshotOk && sendOk && |old(files)| <= lifetime)
                && (snapshotOk && sendOk <==> exists s :: s in files && s.end == now)
                && KeepsLive(old(zvol).value, zvol, now, snapshotOk)
      ensures !snapshotOk || !sendOk ==> files == old(files)
      ensures Valid()
    {
      if zvol.Some? && (!snapshotOk || !sendOk) { SentIff(State(), now, if !snapshotOk then SnapshotFails else SendFails); }
      ghost var before := State();
      discarded := {};
      if zvol == None { return Done, discarded; }
      if !snapshotOk { return Failed(SnapshotError), discarded; }
      TakeSnapshot(now);
      var v := Streams();
      ListedAreFewer(v, files.Keys);
      var start := StartFor(v, Times(zvol.value.snaps), now);
      if !sendOk { return Failed(SendError), discarded; }
      var completed;
      completed, discarded := WriteAndDiscard(v, start, now, bytes, lifetime);
      outcome := if completed then Done else Failed(Killed);
      SentIff(before, now, Sends(bytes, discarded, completed));
    }

    method TakeSnapshot(now: Time)
      requires Valid() && zvol.Some? && Older(State(), now)
      modifies this`zvol
      ensures Valid() && zvol == Some(Snapshotted(old(zvol).value, now))
    {
      SnapshotKeepsOrder(zvol.value, now);
      zvol := Some(Snapshotted(zvol.value, now));
    }

    /** Where the new stream starts: at the newest snapshot at which a large enough stream of the listing ends. */
    method StartFor(v: seq<Stream>, ts: seq<Time>, now: Time) returns (start: Time)
      requires Lists(v, files.Keys)
      ensures start == StartOf(ts, files, now)
    {
      var bigEnds := set x | x in v && files[x].SizeMb() >= STREAM_THRESH_MB :: x.end;
      assert bigEnds == BigEnds(files);
      start := FindStart(ts, bigEnds, now);
    }

    /** Put the new stream in place, then discard from the listing made before. */
    method WriteAndDiscard(v: seq<Stream>, start: Time, now: Time, bytes: nat, lifetime: nat)
      returns (completed: bool, discarded: set<Stream>)
      requires Valid() && zvol.Some? && Lists(v, files.Keys)
      requires start == StartOf(Times(zvol.value.snaps), files, now) <= now
      modifies this`files
      ensures files == FilesAfter(zvol.value, old(files), now, bytes, discarded) && Valid()
      ensures discarded <= Doomed(old(files).Keys, start, now)
      ensures completed ==> discarded == Doomed(old(files).Keys, start, now)
      ensures completed <==> |v| <= lifetime
    {
      files := files[Stream(start, now) := NewFile(bytes, zvol.value.snaps, start, now)];
      completed, discarded := Discard(v, start, now, lifetime);
      assert (set x | x in v && IsDoomed(x, start, now)) == Doomed(old(files).Keys, start, now);
    }

    /** Unlink the streams of the listing that are no longer needed, one at a time. */
    method Discard(v: seq<Stream>, start: Time, now: Time, lifetime: nat)
      returns (completed: bool, discarded: set<Stream>)
      modifies this`files
      ensures files == old(files) - discarded
      ensures discarded <= set x | x in v && IsDoomed(x, start, now)
      ensures completed ==> discarded == set x | x in v && IsDoomed(x, start, now)
      ensures completed <==> |v| <= lifetime
    {
      discarded := {};
      var i := 0;
      while i < |v|
        invariant 0 <= i <= |v| && i <= lifetime
        invariant discarded == set x | x in v[..i] && IsDoomed(x, start, now)
        invariant files == old(files) - discarded
      {
        if i == lifetime {
          return false, discarded;
        }
        var x := v[i];
        if x.start != x.end {
          if x.start >= start {
            files := files - {x};
            discarded := discarded + {x};
          }
        } else if start == now && x.start < start {
          files := files - {x};
          discarded := discarded + {x};
        }
        i := i + 1;
      }
      return true, discarded;
    }

    method Close(now: Time, send: bool, snapshotOk: bool, sendOk: bool, bytes: nat, lifetime: nat)
      returns (outcome: Outcome, discarded: set<Stream>)
      requires Valid() && Older(State(), now)
      modifies this
      ensures var fate := if !snapshotOk then SnapshotFails else if !sendOk then SendFails
                          else Sends(bytes, discarded, outcome == Done);
              && (State(), outcome) == CloseNode(old(State()), now, fate, send)
              && (send ==> FateFits(old(State()), now, fate)) && (!send ==> discarded == {})
      ensures outcome == Done <==> zvol == None
      ensures old(zvol).Some? ==>
                && (zvol == None <==> !send || (snapshotOk && sendOk && |old(files)| <= lifetime))
                && (send && zvol == None ==> exists s :: s in files && s.end == now)
                && (zvol.Some? ==> KeepsLive(old(zvol).value, zvol, now, snapshotOk))
      ensures !send || !snapshotOk || !sendOk ==> files == old(files)
      ensures Valid()
    {
      imported := false;
      discarded := {};
      if send {
        outcome, discarded := SendStreams(now, snapshotOk, sendOk, bytes, lifetime);
        if outcome != Done { return; }
      }
      DestroyVolume();
      outcome := Done;
    }

    /** Called when the directory holds no chain; the pool on the new volume is imported at once. */
    method Create()
      requires zvol == None
      modifies this
      ensures State() == old(State()).(zvol := Some(Volume([], map[])), imported := true)
    {
      zvol := Some(Volume([], map[]));
      imported := true;
    }

    method ImportPool() returns (outcome: Outcome)
      requires Valid()
      modifies this
      ensures (State(), outcome) == ImportNode(old(State()))
      ensures Valid()
      ensures outcome == Done ==> imported
    {
      ImportingMounts(State());
      var v := Streams();
      var streams := OptimalStreamSequence(v);
      ChainIgnoresOrder(v, files.Keys);
      if |streams| == 0 && zvol == None {
        Create();
        return Done;
      }
      if !imported {
        outcome := RecvStreams(false, |streams|);
        if outcome != Done { return; }
        imported := true;
      }
      return Done;
    }

    method Replicate(target: Project, delete: bool)
      modifies target`files
      ensures target.files == ReplicatedFiles(old(files), old(target.files), delete)
      ensures forall x :: x in target.files <==> x in old(files) || (!delete && x in old(target.files))
      ensures forall x :: x in target.files ==> target.files[x] == if x in old(files) then old(files)[x] else old(target.files)[x]
    {
      target.files := if delete then files else target.files + files;
    }
  }
}
