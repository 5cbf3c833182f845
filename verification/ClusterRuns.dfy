/** Two complete runs that end where `recv_streams` is refused, so that both kinds of refusal really occur. */
module ClusterRuns {
  import opened Options
  import opened Zvol
  import opened StreamChain
  import opened Receive
  import opened Send
  import opened Project
  import opened Cluster

  ghost predicate EndsIn(ws: seq<World>, steps: seq<Step>, w: World) {
    Run(ws, steps) && ws[|steps|] == w
  }

  ghost predicate Reachable(w: World) {
    exists ws, steps :: EndsIn(ws, steps, w)
  }

  lemma InitIsReachable(w: World)
    requires Init(w)
    ensures Reachable(w)
  {
    assert EndsIn([w], [], w);
  }

  lemma NextIsReachable(w: World, step: Step)
    requires Reachable(w) && Enabled(w, step)
    ensures Reachable(Do(w, step))
  {
    hide Do, Enabled, Init;
    var ws, steps :| EndsIn(ws, steps, w);
    var ws', steps' := ws + [Do(w, step)], steps + [step];
    forall i | 0 <= i < |steps'| ensures Enabled(ws'[i], steps'[i]) && ws'[i + 1] == Do(ws'[i], steps'[i]) {
      if i < |steps| { assert Enabled(ws[i], steps[i]) && ws[i + 1] == Do(ws[i], steps[i]); }
    }
    assert EndsIn(ws', steps', Do(w, step));
  }

  /** What the runs below need to know of a world. */
  ghost predicate Reached(nodes: seq<Node>, active: Option<nat>, clock: Time, last: Option<Time>) {
    exists w :: Reachable(w) && Shows(w, nodes, active, clock, last)
  }

  predicate Shows(w: World, nodes: seq<Node>, active: Option<nat>, clock: Time, last: Option<Time>) {
    w.nodes == nodes && w.active == active && w.log.clock == clock && w.log.last == last
  }

  lemma Start(count: nat, clock: Time)
    ensures Reached(seq(count, _ => Node(None, false, map[])), None, clock, None)
  {
    var w := World(Log(clock, map[], map[], None), seq(count, _ => Node(None, false, map[])), None);
    InitIsReachable(w);
    assert Shows(w, w.nodes, None, clock, None);
  }

  lemma DoImport(nodes: seq<Node>, clock: Time, last: Option<Time>, id: nat)
    requires Reached(nodes, None, clock, last) && id < |nodes| && ImportNode(nodes[id]).1 == Done
    requires last.Some? ==> exists s :: s in nodes[id].files && s.end == last.value
    ensures Reached(nodes[id := ImportNode(nodes[id]).0], Some(id), clock, last)
  {
    var w :| Reachable(w) && Shows(w, nodes, None, clock, last);
    NextIsReachable(w, Import(id));
    assert Shows(Do(w, Import(id)), nodes[id := ImportNode(nodes[id]).0], Some(id), clock, last);
  }

  lemma DoSend(nodes: seq<Node>, id: nat, clock: Time, last: Option<Time>, now: Time, fate: Fate)
    requires Reached(nodes, Some(id), clock, last) && id < |nodes| && clock < now
    requires nodes[id].zvol.Some? && fate != SnapshotFails && FateFits(nodes[id], now, fate)
    ensures Reached(nodes[id := SendNode(nodes[id], now, fate).0], Some(id), now, if fate.Sends? then Some(now) else last)
  {
    var w :| Reachable(w) && Shows(w, nodes, Some(id), clock, last);
    NextIsReachable(w, SendNow(now, fate));
    assert Shows(Do(w, SendNow(now, fate)), nodes[id := SendNode(nodes[id], now, fate).0], Some(id), now,
                 if fate.Sends? then Some(now) else last);
  }

  lemma DoAbandon(nodes: seq<Node>, id: nat, clock: Time, last: Option<Time>)
    requires Reached(nodes, Some(id), clock, last) && id < |nodes|
    ensures Reached(nodes[id := nodes[id].(imported := false)], None, clock, last)
  {
    var w :| Reachable(w) && Shows(w, nodes, Some(id), clock, last);
    NextIsReachable(w, Abandon);
    assert Shows(Do(w, Abandon), nodes[id := nodes[id].(imported := false)], None, clock, last);
  }

  lemma DoReplicate(nodes: seq<Node>, clock: Time, last: Option<Time>, source: nat, target: nat)
    requires Reached(nodes, None, clock, last) && source < |nodes| && target < |nodes|
    requires last.Some? ==> exists s :: s in nodes[source].files && s.end == last.value
    ensures Reached(nodes[target := nodes[target].(files := nodes[source].files)], None, clock, last)
  {
    var w :| Reachable(w) && Shows(w, nodes, None, clock, last);
    NextIsReachable(w, Replicate(source, target, true));
    assert Shows(Do(w, Replicate(source, target, true)),
                 nodes[target := nodes[target].(files := nodes[source].files)], None, clock, last);
  }

  // ----- a project whose image stays empty -----

  function Blank(ts: seq<Time>): seq<Snap> {
    seq(|ts|, i requires 0 <= i < |ts| => Snap(ts[i], map[]))
  }

  function Opened(ts: seq<Time>, files: map<Stream, File>): Node {
    Node(Some(Volume(Blank(ts), map[])), true, files)
  }

  function SentFile(bytes: nat): File {
    File(bytes, map[], {})
  }

  lemma {:induction false} BlankImages(snaps: seq<Snap>, t: Time)
    requires forall i :: 0 <= i < |snaps| ==> snaps[i].image == map[]
    ensures ImageAt(snaps, t) == map[]
  {
    if snaps != [] { BlankImages(snaps[..|snaps| - 1], t); }
  }

  /** A send of an empty image, given where it starts and what it discards. */
  lemma BlankSend(ts: seq<Time>, files: map<Stream, File>, now: Time, bytes: nat, start: Time)
    requires StartOf(ts + [now], files, now) == start
    ensures var n, gone := Opened(ts, files), Doomed(files.Keys, start, now);
            && FateFits(n, now, Sends(bytes, gone, true))
            && SendNode(n, now, Sends(bytes, gone, true)).0 == Opened(ts + [now], files[Stream(start, now) := SentFile(bytes)] - gone)
  {
    var n := Opened(ts, files);
    var v := Snapshotted(n.zvol.value, now);
    assert v.snaps == Blank(ts + [now]);
    assert Times(v.snaps) == ts + [now];
    BlankImages(v.snaps, start);
    BlankImages(v.snaps, now);
    assert Diff(bytes, map[], map[]) == SentFile(bytes);
    assert NewFile(bytes, v.snaps, start, now) == SentFile(bytes);
  }

  /** The same as a step of a run. */
  lemma SendBlank(nodes: seq<Node>, id: nat, ts: seq<Time>, files: map<Stream, File>, clock: Time, last: Option<Time>,
                  now: Time, bytes: nat, start: Time, files': map<Stream, File>)
    requires id < |nodes| && clock < now && nodes[id] == Opened(ts, files) && Reached(nodes, Some(id), clock, last)
    requires StartOf(ts + [now], files, now) == start
    requires files' == files[Stream(start, now) := SentFile(bytes)] - Doomed(files.Keys, start, now)
    ensures Reached(nodes[id := Opened(ts + [now], files')], Some(id), now, Some(now))
  {
    BlankSend(ts, files, now, bytes, start);
    DoSend(nodes, id, clock, last, now, Sends(bytes, Doomed(files.Keys, start, now), true));
  }

  const BIG: nat := 10_000_000

  /** The first stream is a full one. */
  lemma FirstSend(ts: seq<Time>, now: Time)
    ensures StartOf(ts + [now], map[], now) == now && Doomed({}, now, now) == {}
  {
    assert BigEnds(map[]) == {};
  }

  /** A small full stream is replaced by another full one. */
  lemma SmallIsReplaced(ts: seq<Time>, t: Time, now: Time)
    requires t < now
    ensures var files := map[Stream(t, t) := SentFile(0)];
            StartOf(ts + [now], files, now) == now && Doomed(files.Keys, now, now) == {Stream(t, t)}
  {
    assert BigEnds(map[Stream(t, t) := SentFile(0)]) == {};
  }

  /** A large one is continued from. */
  lemma BigIsContinued(ts: seq<Time>, t: Time, now: Time)
    requires t < now && ts != [] && ts[|ts| - 1] == t
    ensures var files := map[Stream(t, t) := SentFile(BIG)];
            StartOf(ts + [now], files, now) == t && Doomed(files.Keys, t, now) == {}
  {
    assert BigEnds(map[Stream(t, t) := SentFile(BIG)]) == {t};
    assert (ts + [now])[..|ts|] == ts;
  }

  /** Opening a project that has neither volume nor streams. */
  lemma Created()
    ensures ImportNode(Node(None, false, map[])) == (Opened([], map[]), Done)
  {
    var none: map<Stream, File> := map[];
    ChainOfIsChain(none.Keys);
    assert Blank([]) == [];
  }

  lemma ChainOfOne(c: seq<Stream>, t: Time)
    requires IsChain(c) && forall x :: x in c ==> x == Stream(t, t)
    ensures c == [Stream(t, t)]
  {
    assert forall i :: 0 <= i < |c| ==> c[i] in c;
    assert |c| > 1 ==> Follows(c[1], c[0]);
  }

  /** Opening a project on a machine that has one full stream of it and no volume. */
  lemma ReceivedFromOne(t: Time)
    ensures var files := map[Stream(t, t) := SentFile(0)];
            ImportNode(Node(None, false, files)) == (Opened([t], files), Done)
  {
    var files := map[Stream(t, t) := SentFile(0)];
    var n, c := Node(None, false, files), ChainOf(files.Keys);
    assert Stream(t, t) in files.Keys;
    ChainOfIsChain(files.Keys);
    ChainOfOne(c, t);
    assert c[0..] == c && c[1..] == [];
    assert SentFile(0).ApplyTo(map[]) == map[] && Blank([t]) == [Snap(t, map[])];
    assert Receive1(None, Stream(t, t), SentFile(0)) == Some(Volume(Blank([t]), map[]));
    assert ApplyAll(None, files, c) == ApplyAll(Some(Volume(Blank([t]), map[])), files, []);
    assert Stream(t, t) in files;
  }

  /** One large and one small stream. */
  function TwoFiles(): map<Stream, File> {
    map[Stream(1, 1) := SentFile(BIG), Stream(1, 2) := SentFile(0)]
  }

  /** Where there is no stream yet, or one small one, a large send and then a small one leave the two files. */
  lemma TwoSends(nodes: seq<Node>, id: nat, ts: seq<Time>, small: bool, clock: Time, last: Option<Time>)
    requires id < |nodes| && clock < 1
    requires nodes[id] == Opened(ts, if small then map[Stream(0, 0) := SentFile(0)] else map[])
    requires Reached(nodes, Some(id), clock, last)
    ensures Reached(nodes[id := Opened(ts + [1, 2], TwoFiles())], Some(id), 2, Some(2))
  {
    var files := nodes[id].files;
    var one := map[Stream(1, 1) := SentFile(BIG)];
    if small { SmallIsReplaced(ts, 0, 1); } else { FirstSend(ts, 1); }
    SendBlank(nodes, id, ts, files, clock, last, 1, BIG, 1, one);
    var nodes' := nodes[id := Opened(ts + [1], one)];
    BigIsContinued(ts + [1], 1, 2);
    SendBlank(nodes', id, ts + [1], one, 1, Some(1), 2, 0, 1, TwoFiles());
    assert ts + [1] + [2] == ts + [1, 2];
    assert nodes'[id := Opened(ts + [1, 2], TwoFiles())] == nodes[id := Opened(ts + [1, 2], TwoFiles())];
  }

  lemma IsExample(ts: seq<Time>)
    ensures Opened(ts, TwoFiles()).(imported := false) == ExampleNode(ts)
  {
    assert ExampleNode(ts).zvol.value.snaps == Blank(ts);
    assert ExampleNode(ts).files == TwoFiles();
  }

  /** The first kind of refusal: open a new project, send a large and a small stream, fail to send once, abandon. */
  lemma NewerSnapshotIsReachable()
    ensures Reached([ExampleNode([1, 2, 3])], None, 3, Some(2))
    ensures RecvNode(ExampleNode([1, 2, 3])) == (ExampleNode([1, 2, 3]), Failed(Refused))
  {
    hide Reached, ImportNode, RecvNode;
    Start(1, 0);
    Created();
    assert seq(1, _ => Node(None, false, map[])) == [Node(None, false, map[])];
    DoImport([Node(None, false, map[])], 0, None, 0);
    var mounted := [Opened([], map[])];
    assert [Node(None, false, map[])][0 := Opened([], map[])] == mounted;
    TwoSends(mounted, 0, [], false, 0, None);
    assert [] + [1, 2] == [1, 2] && mounted[0 := Opened([1, 2], TwoFiles())] == [Opened([1, 2], TwoFiles())];
    var sent := [Opened([1, 2], TwoFiles())];
    DoSend(sent, 0, 2, Some(2), 3, SendFails);
    assert Blank([1, 2]) + [Snap(3, map[])] == Blank([1, 2, 3]);
    assert sent[0 := SendNode(sent[0], 3, SendFails).0] == [Opened([1, 2, 3], TwoFiles())];
    DoAbandon([Opened([1, 2, 3], TwoFiles())], 0, 3, Some(2));
    IsExample([1, 2, 3]);
    assert [Opened([1, 2, 3], TwoFiles())][0 := ExampleNode([1, 2, 3])] == [ExampleNode([1, 2, 3])];
    RefusedExamples();
  }

  /** Two small sends on the first of two machines: the second replaces the first, and both snapshots stay. */
  lemma TwoSmallSends()
    ensures Reached([Opened([-1, 0], OneSmall()), Node(None, false, map[])], Some(0), 0, Some(0))
  {
    var none := Node(None, false, map[]);
    var one, two := map[Stream(-1, -1) := SentFile(0)], map[Stream(0, 0) := SentFile(0)];
    OpenedFirst();
    FirstSend([], -1);
    SendBlank([Opened([], map[]), none], 0, [], map[], -2, None, -1, 0, -1, one);
    assert [Opened([], map[]), none][0 := Opened([-1], one)] == [Opened([-1], one), none] && [] + [-1] == [-1];
    SmallIsReplaced([-1], -1, 0);
    SendBlank([Opened([-1], one), none], 0, [-1], one, -1, Some(-1), 0, 0, 0, two);
    assert [Opened([-1], one), none][0 := Opened([-1, 0], two)] == [Opened([-1, 0], two), none] && [-1] + [0] == [-1, 0];
  }

  lemma OpenedFirst()
    ensures Reached([Opened([], map[]), Node(None, false, map[])], Some(0), -2, None)
  {
    var none := Node(None, false, map[]);
    Start(2, -2);
    Created();
    assert seq(2, _ => Node(None, false, map[])) == [none, none];
    DoImport([none, none], -2, None, 0);
    assert [none, none][0 := Opened([], map[])] == [Opened([], map[]), none];
  }

  function OneSmall(): map<Stream, File> {
    map[Stream(0, 0) := SentFile(0)]
  }

  /** What the first machine is left with: both snapshots and the second stream. */
  function Behind(): Node {
    Opened([-1, 0], OneSmall()).(imported := false)
  }

  lemma Copied()
    ensures Reached([Behind(), Node(None, false, OneSmall())], None, 0, Some(0))
  {
    var none := Node(None, false, map[]);
    TwoSmallSends();
    assert Stream(0, 0) in Behind().files;
    DoAbandon([Opened([-1, 0], OneSmall()), none], 0, 0, Some(0));
    assert [Opened([-1, 0], OneSmall()), none][0 := Behind()] == [Behind(), none];
    DoReplicate([Behind(), none], 0, Some(0), 0, 1);
    assert [Behind(), none][1 := Node(None, false, OneSmall())] == [Behind(), Node(None, false, OneSmall())];
  }

  /** The project moves to the second machine, which knows only the newest snapshot. */
  lemma Moved()
    ensures Reached([Behind(), Opened([0], OneSmall())], Some(1), 0, Some(0))
  {
    hide Reached, ImportNode;
    var arrived := Node(None, false, OneSmall());
    Copied();
    ReceivedFromOne(0);
    assert Stream(0, 0) in arrived.files;
    DoImport([Behind(), arrived], 0, Some(0), 1);
    assert [Behind(), arrived][1 := Opened([0], OneSmall())] == [Behind(), Opened([0], OneSmall())];
  }

  /** The second kind: two small sends here, the project moves to another machine and sends a large and a small stream
      there, and these come back to the first machine, whose snapshots are all older. */
  lemma OlderSnapshotsAreReachable()
    ensures exists other :: Reached([ExampleNode([-1, 0]), other], None, 2, Some(2))
    ensures RecvNode(ExampleNode([-1, 0])) == (ExampleNode([-1, 0]), Failed(Refused))
  {
    Moved();
    TwoSends([Behind(), Opened([0], OneSmall())], 1, [0], true, 0, Some(0));
    var there := Opened([0] + [1, 2], TwoFiles());
    assert [Behind(), Opened([0], OneSmall())][1 := there] == [Behind(), there];
    DoAbandon([Behind(), there], 1, 2, Some(2));
    var other := there.(imported := false);
    assert [Behind(), there][1 := other] == [Behind(), other];
    ComesBack(other);
    RefusedExamples();
  }

  lemma ComesBack(other: Node)
    requires Reached([Behind(), other], None, 2, Some(2)) && other.files == TwoFiles()
    ensures Reached([ExampleNode([-1, 0]), other], None, 2, Some(2))
  {
    assert Stream(1, 2) in other.files;
    DoReplicate([Behind(), other], 2, Some(2), 1, 0);
    IsExample([-1, 0]);
    assert [Behind(), other][0 := ExampleNode([-1, 0])] == [ExampleNode([-1, 0]), other];
  }
}
