/** `send_streams`: snapshot the image, write one stream from the newest large enough one, discard what it replaces. */
module Send {
  import opened Options
  import opened Zvol
  import opened StreamChain

  function BigEnds(files: map<Stream, File>): set<Time> {
    set x | x in files && files[x].Big() :: x.end
  }

  /** The newest of the times ts that is in s. */
  function NewestIn(ts: seq<Time>, s: set<Time>): (r: Option<Time>)
    ensures r.None? ==> forall t :: t in ts ==> t !in s
    ensures r.Some? ==> exists i :: 0 <= i < |ts| && ts[i] == r.value && r.value in s
                                    && forall j :: i < j < |ts| ==> ts[j] !in s
  {
    if ts == [] then None
    else if ts[|ts| - 1] in s then Some(ts[|ts| - 1])
    else NewestIn(ts[..|ts| - 1], s)
  }

  function StartOf(ts: seq<Time>, files: map<Stream, File>, now: Time): Time {
    var t := NewestIn(ts, BigEnds(files));
    if t.Some? then t.value else now
  }

  predicate IsDoomed(x: Stream, start: Time, now: Time) {
    if x.start != x.end then x.start >= start else start == now && x.start < start
  }

  /** The streams that a stream from start to now makes redundant. */
  function Doomed(streams: set<Stream>, start: Time, now: Time): set<Stream> {
    set x | x in streams && IsDoomed(x, start, now)
  }

  function ImageAt(snaps: seq<Snap>, t: Time): Image {
    if snaps == [] then map[]
    else if snaps[|snaps| - 1].time == t then snaps[|snaps| - 1].image
    else ImageAt(snaps[..|snaps| - 1], t)
  }

  /** `zfs send`, or `zfs send -i` from an earlier snapshot. */
  function NewFile(bytes: nat, snaps: seq<Snap>, start: Time, now: Time): File {
    Diff(bytes, if start == now then map[] else ImageAt(snaps, start), ImageAt(snaps, now))
  }

  /** What the environment does to one send: the snapshot or the send can fail, and the process can be
      killed after it has discarded only some of the doomed streams. */
  datatype Fate = SnapshotFails | SendFails | Sends(bytes: nat, discarded: set<Stream>, completed: bool)

  /** Only doomed streams are ever discarded, and a send that completes has discarded them all. */
  predicate FateFits(n: Node, now: Time, fate: Fate) {
    n.zvol.Some? && fate.Sends? ==>
      fate.discarded <= AllDoomed(n, now) && (fate.completed ==> fate.discarded == AllDoomed(n, now))
  }

  function Snapshotted(v: Volume, now: Time): Volume {
    v.(snaps := v.snaps + [Snap(now, v.live)])
  }

  function FilesAfter(v: Volume, files: map<Stream, File>, now: Time, bytes: nat, gone: set<Stream>): map<Stream, File> {
    var start := StartOf(Times(v.snaps), files, now);
    files[Stream(start, now) := NewFile(bytes, v.snaps, start, now)] - gone
  }

  function AllDoomed(n: Node, now: Time): set<Stream>
    requires n.zvol.Some?
  {
    var v := Snapshotted(n.zvol.value, now);
    Doomed(n.files.Keys, StartOf(Times(v.snaps), n.files, now), now)
  }

  function SendNode(n: Node, now: Time, fate: Fate): (Node, Outcome) {
    if n.zvol.None? then (n, Done)
    else if fate == SnapshotFails then (n, Failed(SnapshotError))
    else
      var v := Snapshotted(n.zvol.value, now);
      if fate == SendFails then (n.(zvol := Some(v)), Failed(SendError))
      else (n.(zvol := Some(v), files := FilesAfter(v, n.files, now, fate.bytes, fate.discarded)),
            if fate.completed then Done else Failed(Killed))
  }

  // ----- crash safety -----

  /** Every incremental stream starts where a large enough stream ends. */
  ghost predicate Supported(files: map<Stream, File>) {
    forall x {:trigger HasBigAnchor(x, files)} :: x in files ==> HasBigAnchor(x, files)
  }

  ghost predicate HasBigAnchor(x: Stream, files: map<Stream, File>) {
    x.Full() || exists y :: y in files && files[y].Big() && y.end == x.start
  }

  ghost predicate BigEndsHeld(files: map<Stream, File>, ts: seq<Time>) {
    forall y :: y in files && files[y].Big() ==> y.end in ts
  }

  ghost predicate EndBefore(files: map<Stream, File>, now: Time) {
    forall x :: x in files ==> x.start <= x.end < now
  }

  /** However a send ends: it is done exactly if the stream was written and the discard was not cut short; a stream that
      ends now is there exactly if it was written; what is live stays, and so do the snapshots, followed by the new one. */
  lemma SentIff(n: Node, now: Time, fate: Fate)
    requires n.zvol.Some? && FateFits(n, now, fate) && EndBefore(n.files, now)
    ensures SendNode(n, now, fate).1 == Done <==> fate.Sends? && fate.completed
    ensures fate.Sends? <==> exists s :: s in SendNode(n, now, fate).0.files && s.end == now
    ensures forall s :: s in SendNode(n, now, fate).0.files && s.end != now ==>
              s in n.files && SendNode(n, now, fate).0.files[s] == n.files[s]
    ensures !fate.Sends? ==> SendNode(n, now, fate).0.files == n.files
    ensures fate.Sends? && fate.completed ==>
              var start := StartOf(Times(n.zvol.value.snaps) + [now], n.files, now);
              forall x :: x in n.files ==>
                (x in SendNode(n, now, fate).0.files <==> if x.start == x.end then start != now else x.start < start)
    ensures var n' := SendNode(n, now, fate).0;
            KeepsLive(n.zvol.value, n'.zvol, now, fate != SnapshotFails) && n'.imported == n.imported
  {
    if fate.Sends? {
      assert Times(Snapshotted(n.zvol.value, now).snaps) == Times(n.zvol.value.snaps) + [now];
      var new1 := Stream(StartOf(Times(Snapshotted(n.zvol.value, now).snaps), n.files, now), now);
      assert new1 !in n.files && new1 in SendNode(n, now, fate).0.files;
    }
  }

  /** The live image is untouched and no snapshot is lost; one is added if it could be taken. */
  predicate KeepsLive(v: Volume, z: Option<Volume>, now: Time, snapped: bool) {
    z == Some(Volume(if snapped then v.snaps + [Snap(now, v.live)] else v.snaps, v.live))
  }

  lemma SupportedIsAnchored(files: map<Stream, File>)
    requires Supported(files)
    ensures Anchored(files.Keys)
  {
    forall x | x in files.Keys ensures HasAnchor(x, files.Keys) {
      assert HasBigAnchor(x, files);
      if !x.Full() {
        var y :| y in files && files[y].Big() && y.end == x.start;
        assert y in files.Keys;
      }
    }
  }

  /** The start of the new stream is the newest end of a large enough stream, or there is none. */
  lemma StartIsNewestBigEnd(ts: seq<Time>, files: map<Stream, File>, now: Time)
    requires Increasing(ts) && EndBefore(files, now) && BigEndsHeld(files, ts)
    ensures var start := StartOf(ts, files, now);
            && (start == now ==> forall y :: y in files ==> !files[y].Big())
            && (start != now ==> start < now && exists y :: y in files && files[y].Big() && y.end == start)
            && forall y :: y in files && files[y].Big() ==> y.end <= start
  {
    var r := NewestIn(ts, BigEnds(files));
    if r.Some? {
      var i :| 0 <= i < |ts| && ts[i] == r.value && r.value in BigEnds(files) && forall j :: i < j < |ts| ==> ts[j] !in BigEnds(files);
      forall y | y in files && files[y].Big() ensures y.end <= r.value {
        var k :| 0 <= k < |ts| && ts[k] == y.end;
        assert y.end in BigEnds(files);
        assert k <= i;
      }
    } else {
      forall y | y in files ensures !files[y].Big() {
        assert files[y].Big() ==> y.end in BigEnds(files);
      }
    }
  }

  /** No anchor is ever among the doomed, whichever of them are already gone. */
  lemma AnchorsSurvive(ts: seq<Time>, files: map<Stream, File>, now: Time, y: Stream)
    requires Increasing(ts) && EndBefore(files, now) && BigEndsHeld(files, ts)
    requires y in files && files[y].Big()
    ensures !IsDoomed(y, StartOf(ts, files, now), now)
  {
    StartIsNewestBigEnd(ts, files, now);
  }

  /** Crash safety: once the new stream is in place, whichever doomed streams are gone already, the files left
      are supported, and the chain found in them ends with the new stream. */
  lemma AnyPartOfTheDiscardIsSafe(v: Volume, files: map<Stream, File>, now: Time, bytes: nat, gone: set<Stream>)
    requires Increasing(Times(v.snaps)) && EndBefore(files, now) && BigEndsHeld(files, Times(v.snaps)) && Supported(files)
    requires gone <= Doomed(files.Keys, StartOf(Times(v.snaps), files, now), now)
    ensures var files' := FilesAfter(v, files, now, bytes, gone);
            var new1 := Stream(StartOf(Times(v.snaps), files, now), now);
            && Supported(files')
            && IsChain(ChainOf(files'.Keys))
            && ChainOf(files'.Keys)[|ChainOf(files'.Keys)| - 1] == new1
  {
    var ts := Times(v.snaps);
    var start := StartOf(ts, files, now);
    var new1 := Stream(start, now);
    var files' := FilesAfter(v, files, now, bytes, gone);
    StartIsNewestBigEnd(ts, files, now);
    assert new1 !in files;
    forall x | x in files' ensures HasBigAnchor(x, files') && x.start <= x.end <= now {
      if x in files {
        assert HasBigAnchor(x, files);
      }
      if !x.Full() {
        var y :| y in files && files[y].Big() && y.end == x.start;
        AnchorsSurvive(ts, files, now, y);
        assert y in files' && files'[y] == files[y];
      }
    }
    assert new1 in files';
    SupportedIsAnchored(files');
    AnchoredChainReachesNewest(files'.Keys);
    var c := ChainOf(files'.Keys);
    assert c[|c| - 1] in files';
  }

  // ----- the shape of the directory when no send was cut short -----

  /** The directory is exactly one chain, whose streams except the last are large enough. */
  ghost predicate Linear(files: map<Stream, File>, c: seq<Stream>) {
    && (c == [] || IsChain(c))
    && (forall x :: x in files <==> x in c)
    && (forall i :: 0 <= i < |c| - 1 ==> files[c[i]].Big())
  }

  lemma ChainIsDistinct(c: seq<Stream>, n: nat)
    requires IsChain(c) && n < |c|
    ensures c[n] !in c[..n]
    ensures forall x :: x in c[..n] ==> x.end <= c[n].start
  {
    forall i | 0 <= i < n ensures c[i].end <= c[n].start && c[i] != c[n] { ChainEndsIncrease(c, i, n); }
  }

  /** The streams a completed send keeps: all but a last one that is too small. */
  function KeptChain(files: map<Stream, File>, c: seq<Stream>): seq<Stream>
    requires forall x :: x in c ==> x in files
  {
    if c != [] && !files[c[|c| - 1]].Big() then c[..|c| - 1] else c
  }

  /** The new stream starts where the kept ones end, and the rest is what is discarded. */
  lemma DiscardedIsTheSmallLast(ts: seq<Time>, files: map<Stream, File>, now: Time, c: seq<Stream>)
    requires Increasing(ts) && EndBefore(files, now) && Linear(files, c)
    requires forall x :: x in c ==> x.end in ts
    ensures var k := KeptChain(files, c);
            StartOf(ts, files, now) == if k == [] then now else k[|k| - 1].end
    ensures forall x :: x in Doomed(files.Keys, StartOf(ts, files, now), now) <==> x in c && x !in KeptChain(files, c)
  {
    StartIsNewestBigEnd(ts, files, now);
    if c != [] {
      var n := |c| - 1;
      assert c[n] in files;
      ChainIsDistinct(c, n);
      assert forall x :: x in c <==> x == c[n] || x in c[..n];
      if n > 0 {
        assert files[c[n - 1]].Big() && Follows(c[n], c[n - 1]);
        ChainIsDistinct(c, n - 1);
        assert forall x :: x in c[..n] <==> x == c[n - 1] || x in c[..n - 1];
      }
    }
  }

  /** Each completed send appends to the chain or replaces its last stream. */
  lemma CompletedSendKeepsLinear(v: Volume, files: map<Stream, File>, now: Time, bytes: nat, c: seq<Stream>)
    requires Increasing(Times(v.snaps)) && EndBefore(files, now) && Linear(files, c)
    requires forall x :: x in c ==> x.end in Times(v.snaps)
    ensures var start := StartOf(Times(v.snaps), files, now);
            var files' := FilesAfter(v, files, now, bytes, Doomed(files.Keys, start, now));
            Linear(files', KeptChain(files, c) + [Stream(start, now)])
  {
    var ts := Times(v.snaps);
    var start := StartOf(ts, files, now);
    var k := KeptChain(files, c);
    var new1 := Stream(start, now);
    var gone := Doomed(files.Keys, start, now);
    DiscardedIsTheSmallLast(ts, files, now, c);
    KeptChainIsBig(files, c);
    assert new1 !in files && new1 !in gone;
    ChainExtends(k, new1);
    MembersAfter(v, files, now, bytes, gone, k);
    BigChainIsLinear(FilesAfter(v, files, now, bytes, gone), k, new1);
  }

  lemma KeptChainIsBig(files: map<Stream, File>, c: seq<Stream>)
    requires Linear(files, c)
    ensures var k := KeptChain(files, c);
            (k == [] || IsChain(k)) && forall i :: 0 <= i < |k| ==> k[i] in files && files[k[i]].Big()
  {
    assert forall i :: 0 <= i < |c| ==> c[i] in files;
  }

  lemma BigChainIsLinear(files: map<Stream, File>, k: seq<Stream>, new1: Stream)
    requires IsChain(k + [new1]) && forall x :: x in files <==> x in k + [new1]
    requires forall i :: 0 <= i < |k| ==> k[i] in files && files[k[i]].Big()
    ensures Linear(files, k + [new1])
  {
  }

  lemma ChainExtends(k: seq<Stream>, x: Stream)
    requires k == [] || IsChain(k)
    requires if k == [] then x.Full() else Follows(x, k[|k| - 1])
    ensures IsChain(k + [x])
  {
    var c := k + [x];
    forall i, j | 0 <= i && j == i + 1 && j < |c| ensures Follows(c[j], c[i]) {
      if j < |k| { assert Follows(k[j], k[i]); }
    }
  }

  lemma MembersAfter(v: Volume, files: map<Stream, File>, now: Time, bytes: nat, gone: set<Stream>, k: seq<Stream>)
    requires var new1 := Stream(StartOf(Times(v.snaps), files, now), now); new1 !in files && new1 !in gone
    requires forall x :: x in files && x !in gone <==> x in k
    ensures var new1 := Stream(StartOf(Times(v.snaps), files, now), now);
            var files' := FilesAfter(v, files, now, bytes, gone);
            && (forall x :: x in files' <==> x in k + [new1])
            && forall x :: x in k ==> files'[x] == files[x]
  {
  }
}
