/** The storage a project lives on: a block image, its snapshots, and stream files
    that carry one snapshot's blocks, or the difference between two. */
module Zvol {
  import opened Options

  /** Timestamps are ISO strings in the source; they compare chronologically. */
  type Time = int

  /** Block number to block contents. */
  type Image = map<nat, int>

  /** The file name `start--end`; a stream whose start equals its end is a full one. */
  datatype Stream = Stream(start: Time, end: Time) {
    predicate Full() { start == end }
  }

  const STREAM_THRESH_MB: nat := 10

  /** What a stream file holds: blocks to write and blocks to free. */
  datatype File = File(bytes: nat, writes: Image, frees: set<nat>) {
    function SizeMb(): nat { bytes / 1_000_000 }

    predicate Big(): (b: bool)
      ensures b <==> bytes >= 10_000_000
    {
      SizeMb() >= STREAM_THRESH_MB
    }

    function ApplyTo(base: Image): Image { (base - frees) + writes }
  }

  datatype Snap = Snap(time: Time, image: Image)

  datatype Volume = Volume(snaps: seq<Snap>, live: Image)

  /** What one machine holds of a project: the volume, whether its pool is imported, the stream directory. */
  datatype Node = Node(zvol: Option<Volume>, imported: bool, files: map<Stream, File>)

  datatype Error = PoolImported | NoChain | Refused | SnapshotError | SendError | Killed

  datatype Outcome = Done | Failed(error: Error)

  function SnapsOf(z: Option<Volume>): seq<Snap> {
    if z.Some? then z.value.snaps else []
  }

  function Times(snaps: seq<Snap>): seq<Time> {
    seq(|snaps|, i requires 0 <= i < |snaps| => snaps[i].time)
  }

  /** `zfs send`: only the blocks that differ between the two images travel. */
  function Diff(bytes: nat, base: Image, target: Image): (f: File)
    ensures f.bytes == bytes
    ensures f.ApplyTo(base) == target
    ensures forall k :: k in f.writes || k in f.frees <==>
              (k in base && k !in target) || (k in target && !(k in base && base[k] == target[k]))
  {
    File(bytes, map k | k in target && !(k in base && base[k] == target[k]) :: target[k], base.Keys - target.Keys)
  }

  ghost predicate Increasing(ts: seq<Time>) {
    forall i, j :: 0 <= i < j < |ts| ==> ts[i] < ts[j]
  }
}
