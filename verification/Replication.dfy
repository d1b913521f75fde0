/**
 The ledger replication protocol, publisher side: bucket, database, publisher memory, and one
 action for every point where a call can fail or the process can die.
 */
module Replication {
  import opened Wrappers

  const SEQ_FLOOR_RESERVE: nat := 100

  type Time = int
  newtype byte = x: int | 0 <= x < 256
  type Blob = seq<byte>

  /** sha256, idealised: two contents with the same digest are the same content. */
  datatype Digest = Sha256(of: Blob)

  /** A 32-bit number that every byte of the content goes into. */
  function Mixed(content: Blob): (n: nat)
    ensures n < 0x1_0000_0000
  {
    if content == [] then 0
    else (Mixed(content[..|content| - 1]) * 31 + content[|content| - 1] as nat + 1) % 0x1_0000_0000
  }

  /** The eight hex digits of the digest that go into a key, read as a number. Not injective. */
  function TagOf(d: Digest): nat { Mixed(d.of) }

  /** `snapshots/<seq>-<tag>.sqlite`; the text form is in module SnapshotKeys. */
  datatype SnapKey = SnapKey(num: nat, tag: nat)

  /** The order of `keys.sort(reverse=True)`: a is listed before b. */
  predicate Above(a: SnapKey, b: SnapKey) {
    a.num > b.num || (a.num == b.num && a.tag > b.tag)
  }

  datatype Manifest = Manifest(
    num: nat,
    generatedAt: Time,
    key: SnapKey,
    sha: Digest,
    size: nat,
    heartbeatAt: Option<Time>,
    aliveAt: Option<Time>)

  function ManifestFor(blob: Blob, num: nat, at: Time, heartbeat: Option<Time>, alive: Option<Time>): Manifest {
    var sha := Sha256(blob);
    Manifest(num, at, SnapKey(num, TagOf(sha)), sha, |blob|, heartbeat, alive)
  }

  function HeartbeatManifest(previous: Manifest, num: nat, at: Time, alive: Option<Time>): Manifest {
    previous.(num := num, generatedAt := at, aliveAt := Coalesce(alive, previous.aliveAt))
  }

  /**
   A manifest made at time `at` for this content, after the manifest `last`: a heartbeat repeats everything about the
   snapshot and keeps the newer liveness stamp; otherwise the snapshot is that of the content, under its own new key
   unless the same bytes were published last.
   */
  predicate Tells(last: Option<Manifest>, reuse: bool, content: Blob, at: Time, heartbeat: Option<Time>,
                  alive: Option<Time>, m: Manifest)
  {
    && m.generatedAt == at
    && (reuse && last.Some? ==>
          && m.key == last.value.key && m.sha == last.value.sha && m.size == last.value.size
          && m.heartbeatAt == last.value.heartbeatAt
          && m.aliveAt == if alive.Some? then alive else last.value.aliveAt)
    && (!(reuse && last.Some?) ==>
          && m.sha == Sha256(content) && m.heartbeatAt == heartbeat && m.aliveAt == alive
          && if last.Some? && last.value.sha == Sha256(content)
             then m.key == last.value.key && m.size == last.value.size
             else m.key.num == m.num && m.size == |content|)
  }

  // ---------------------------------------------------------------- the object store

  datatype Slot = Absent | Corrupt | Holds(manifest: Manifest)

  datatype Bucket = Bucket(latest: Slot, floor: Option<nat>, snaps: map<SnapKey, Blob>)

  /** What a store call did: a call that raised may still have taken effect. */
  datatype Outcome = Done | Refused | DoneButRaised

  predicate TookEffect(o: Outcome) { o != Refused }

  function Max(a: nat, b: nat): nat { if a >= b then a else b }

  /** The largest seq among the snapshot keys, and `best` if that is larger. */
  ghost predicate IsBestOverKeys(r: nat, best: nat, keys: set<SnapKey>) {
    && best <= r
    && (forall k :: k in keys ==> k.num <= r)
    && (r == best || exists k :: k in keys && k.num == r)
  }

  ghost function BestOverKeys(best: nat, keys: set<SnapKey>): (r: nat)
    ensures IsBestOverKeys(r, best, keys)
  {
    if keys == {} then best
    else
      var k :| k in keys;
      var rest := BestOverKeys(best, keys - {k});
      assert forall x :: x in keys ==> x == k || x in keys - {k};
      Max(k.num, rest)
  }

  /** What the store's manifest and floor contribute to the next seq. */
  function BestFromControl(latest: Slot, floor: Option<nat>, previous: Option<Manifest>): nat {
    var best := if previous.Some? then previous.value.num else 0;
    var best := if latest.Holds? then Max(best, latest.manifest.num) else best;
    if floor.Some? && (!latest.Holds? || floor.value > latest.manifest.num + SEQ_FLOOR_RESERVE)
    then Max(best, floor.value) else best
  }

  ghost function NextSeq(b: Bucket, previous: Option<Manifest>): nat {
    BestOverKeys(BestFromControl(b.latest, b.floor, previous), b.snaps.Keys) + 1
  }

  // ---------------------------------------------------------------- database and publisher

  /** The ledger file: its identity (device, inode), the commits made to it, its content. */
  datatype Db = Db(file: nat, commits: nat, content: Blob)

  /** The publisher's read connection; `PRAGMA data_version` reads `base + commits`. */
  datatype Conn = Conn(file: nat, base: int)

  datatype FloorCache = FloorCache(loaded: bool, value: Option<nat>)

  const FRESH_FLOOR := FloorCache(false, None)

  /** Everything a restart forgets. */
  datatype Memory = Memory(
    last: Option<Manifest>,
    reseed: bool,
    floor: FloorCache,
    publishedDv: Option<int>,
    conn: Option<Conn>)

  const FRESH_MEMORY := Memory(None, false, FRESH_FLOOR, None, None)

  /** `_fail`: re-derive the seq from the store, re-read the floor. */
  function AfterFailure(m: Memory): Memory {
    m.(reseed := true, floor := FRESH_FLOOR)
  }

  /** What one tick read: the data version, whether it is a heartbeat, and (history) the content then. */
  datatype Tick = TickData(dv: int, reuse: bool, seen: Blob)

  datatype Phase =
    | Idle
    | Versioned(tick: Tick)
    | Sequenced(tick: Tick, num: nat)
    | Uploading(tick: Tick, m: Manifest, blob: Blob)
    | Ready(tick: Tick, m: Manifest)
    | Floored(tick: Tick, m: Manifest)
    | Visible(tick: Tick, m: Manifest)
    | Pruning(tick: Tick, m: Manifest, kept: set<SnapKey>, doomed: set<SnapKey>)

  /** `published` and `everPut` are history: manifests written and snapshot keys put, in the whole run. */
  datatype PubState = PubState(
    db: Db,
    bucket: Bucket,
    mem: Memory,
    phase: Phase,
    published: seq<Manifest>,
    everPut: set<SnapKey>,
    keep: nat)

  function Start(db: Db, keep: nat): PubState {
    PubState(db, Bucket(Absent, None, map[]), FRESH_MEMORY, Idle, [], {}, keep)
  }

  datatype PubAction =
    // the bot, and whoever swaps the database file
    | Commit(content: Blob)
    | ReplaceFile(content: Blob)
    // damage to latest.json
    | CorruptLatest
    | DeleteLatest
    | RollBackLatest(index: nat)
    // one tick of the publisher, call by call
    | BeginTick(base: int, due: bool)
    | PickNum
    | Build(at: Time, heartbeat: Option<Time>, alive: Option<Time>)
    | Upload(o: Outcome)
    | RaiseFloor(o: Outcome)
    | WriteLatest(o: Outcome)
    | ListForPrune(listing: seq<SnapKey>)
    | PruneOne(k: SnapKey, o: Outcome)
    | StopPruning
    | Finish
    // an exception that touched nothing in the store; the process dies
    | Fail(dropConn: bool)
    | Crash

  /** A listing as the prune loop sees it after its sort: every key once, newest first. */
  ghost predicate IsListing(listing: seq<SnapKey>, keys: set<SnapKey>) {
    && (forall k :: k in listing <==> k in keys)
    && (forall i, j :: 0 <= i < j < |listing| ==> Above(listing[i], listing[j]))
  }

  ghost function ToSet(s: seq<SnapKey>): set<SnapKey> { set k | k in s }

  function Effective(keep: nat): nat { Max(1, keep) }

  ghost function PStep(p: PubState, a: PubAction): PubState {
    match a
    case Commit(content) =>
      p.(db := p.db.(commits := p.db.commits + 1, content := content))
    case ReplaceFile(content) =>
      p.(db := Db(p.db.file + 1, 0, content))
    case CorruptLatest => p.(bucket := p.bucket.(latest := Corrupt))
    case DeleteLatest => p.(bucket := p.bucket.(latest := Absent))
    case RollBackLatest(i) =>
      if i < |p.published| then p.(bucket := p.bucket.(latest := Holds(p.published[i]))) else p
    case BeginTick(base, due) => if p.phase.Idle? then BeginTickStep(p, base, due) else p
    case PickNum =>
      if p.phase.Versioned? then p.(phase := Sequenced(p.phase.tick, ChosenNum(p))) else p
    case Build(at, heartbeat, alive) =>
      if p.phase.Sequenced? then p.(phase := BuildStep(p, at, heartbeat, alive)) else p
    case Upload(o) => if p.phase.Uploading? then UploadStep(p, o) else p
    case RaiseFloor(o) => if p.phase.Ready? then RaiseFloorStep(p, o) else p
    case WriteLatest(o) => if p.phase.Floored? then WriteLatestStep(p, o) else p
    case ListForPrune(listing) =>
      if p.phase.Visible? && IsListing(listing, p.bucket.snaps.Keys) then ListStep(p, listing) else p
    case PruneOne(k, o) =>
      if p.phase.Pruning? && k in p.phase.doomed then PruneStep(p, k, o) else p
    case StopPruning =>
      if p.phase.Visible? then p.(phase := Pruning(p.phase.tick, p.phase.m, {}, {}))
      else if p.phase.Pruning? then p.(phase := p.phase.(doomed := {})) else p
    case Finish =>
      if p.phase.Pruning? && p.phase.doomed == {} then FinishStep(p) else p
    case Fail(dropConn) =>
      if p.phase.Visible? || p.phase.Pruning? then p else
      var mem := AfterFailure(p.mem);
      p.(phase := Idle, mem := if dropConn && p.phase.Idle? then mem.(conn := None) else mem)
    case Crash => p.(phase := Idle, mem := FRESH_MEMORY)
  }

  /** `_read_dv` and the decision in `_tick`: nothing to do, a heartbeat, or a snapshot. */
  function BeginTickStep(p: PubState, base: int, due: bool): PubState {
    var sameFile := p.mem.conn.Some? && p.mem.conn.value.file == p.db.file;
    var mem := if sameFile then p.mem
               else p.mem.(conn := Some(Conn(p.db.file, base)), publishedDv := None);
    var dv := mem.conn.value.base + p.db.commits;
    var changed := mem.last.None? || mem.publishedDv != Some(dv);
    if !changed && !due then p.(mem := mem)
    else p.(mem := mem, phase := Versioned(TickData(dv, !changed, p.db.content)))
  }

  ghost function ChosenNum(p: PubState): nat {
    if p.mem.last.Some? && !p.mem.reseed then p.mem.last.value.num + 1
    else NextSeq(p.bucket, p.mem.last)
  }

  function BuildStep(p: PubState, at: Time, heartbeat: Option<Time>, alive: Option<Time>): Phase
    requires p.phase.Sequenced?
  {
    var (tick, num) := (p.phase.tick, p.phase.num);
    if tick.reuse && p.mem.last.Some? then
      Ready(tick, HeartbeatManifest(p.mem.last.value, num, at, alive))
    else if p.mem.last.Some? && p.mem.last.value.sha == Sha256(p.db.content) then
      Ready(tick, HeartbeatManifest(p.mem.last.value, num, at, alive).(heartbeatAt := heartbeat, aliveAt := alive))
    else
      Uploading(tick, ManifestFor(p.db.content, num, at, heartbeat, alive), p.db.content)
  }

  function UploadStep(p: PubState, o: Outcome): PubState
    requires p.phase.Uploading?
  {
    var k := p.phase.m.key;
    var q := if TookEffect(o)
             then p.(bucket := p.bucket.(snaps := p.bucket.snaps[k := p.phase.blob]), everPut := p.everPut + {k})
             else p;
    if o.Done? then q.(phase := Ready(p.phase.tick, p.phase.m))
    else q.(phase := Idle, mem := AfterFailure(p.mem))
  }

  /** `SeqFloor.ensure`. */
  function RaiseFloorStep(p: PubState, o: Outcome): PubState
    requires p.phase.Ready?
  {
    var num := p.phase.m.num;
    var value := if p.mem.floor.loaded then p.mem.floor.value else p.bucket.floor;
    if value.Some? && num <= value.value then
      p.(mem := p.mem.(floor := FloorCache(true, value)), phase := Floored(p.phase.tick, p.phase.m))
    else
      var raised := Some(num + SEQ_FLOOR_RESERVE);
      var bucket := if TookEffect(o) then p.bucket.(floor := raised) else p.bucket;
      if o.Done? then
        p.(bucket := bucket, mem := p.mem.(floor := FloorCache(true, raised)),
            phase := Floored(p.phase.tick, p.phase.m))
      else p.(bucket := bucket, mem := AfterFailure(p.mem), phase := Idle)
  }

  function WriteLatestStep(p: PubState, o: Outcome): PubState
    requires p.phase.Floored?
  {
    var m := p.phase.m;
    var q := if TookEffect(o)
             then p.(bucket := p.bucket.(latest := Holds(m)), published := p.published + [m])
             else p;
    if o.Done? then q.(phase := Visible(p.phase.tick, m))
    else q.(phase := Idle, mem := AfterFailure(p.mem))
  }

  /** `prune_snapshots`: the first `keep` of the listing stay, and so does the key just published. */
  ghost function ListStep(p: PubState, listing: seq<SnapKey>): PubState
    requires p.phase.Visible?
  {
    var n := if Effective(p.keep) <= |listing| then Effective(p.keep) else |listing|;
    p.(phase := Pruning(p.phase.tick, p.phase.m, ToSet(listing[..n]), ToSet(listing[n..]) - {p.phase.m.key}))
  }

  function PruneStep(p: PubState, k: SnapKey, o: Outcome): PubState
    requires p.phase.Pruning?
  {
    var q := if TookEffect(o) then p.(bucket := p.bucket.(snaps := p.bucket.snaps - {k})) else p;
    q.(phase := p.phase.(doomed := if o.Done? then p.phase.doomed - {k} else {}))
  }

  function FinishStep(p: PubState): PubState
    requires p.phase.Pruning?
  {
    p.(phase := Idle, mem := p.mem.(last := Some(p.phase.m), reseed := false, publishedDv := Some(p.phase.tick.dv)))
  }

  ghost function PRun(p: PubState, acts: seq<PubAction>): PubState
    decreases |acts|
  {
    if acts == [] then p else PRun(PStep(p, acts[0]), acts[1..])
  }
}
