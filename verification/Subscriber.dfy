/** The reading side: one sync pass, call by call, and the state file it keeps. */
module Subscriber {
  import opened Wrappers
  import opened Replication

  /** Times are microseconds; the state file keeps whole seconds. */
  const SECOND: int := 1_000_000

  function WholeSeconds(t: Time): Time { t - t % SECOND }

  function WholeSecondsOpt(t: Option<Time>): Option<Time> {
    if t.Some? then Some(WholeSeconds(t.value)) else None
  }

  datatype SyncState = SyncState(
    checkedAt: Time,
    lastOkAt: Option<Time>,
    num: Option<nat>,
    generatedAt: Option<Time>,
    heartbeatAt: Option<Time>,
    failed: bool,
    consecutiveErrors: nat,
    sha: Option<Digest>,
    seqAdvancedAt: Option<Time>,
    aliveAt: Option<Time>)

  /** `_failed_state` */
  function FailedState(prev: Option<SyncState>, at: Time): SyncState {
    match prev
    case None => SyncState(at, None, None, None, None, true, 1, None, None, None)
    case Some(p) => p.(checkedAt := at, failed := true, consecutiveErrors := p.consecutiveErrors + 1)
  }

  /** `_ok_state` */
  function OkState(at: Time, m: Manifest, prev: Option<SyncState>): SyncState {
    var advanced := prev.None? || prev.value.num.None? || m.num > prev.value.num.value;
    var advancedAt := if advanced then Some(at) else prev.value.seqAdvancedAt;
    SyncState(at, Some(at), Some(m.num), Some(m.generatedAt), m.heartbeatAt, false, 0, Some(m.sha), advancedAt,
        m.aliveAt)
  }

  /** What `read_state` gives back after `_write_state`. */
  function Persisted(st: SyncState): SyncState {
    st.(checkedAt := WholeSeconds(st.checkedAt),
        lastOkAt := WholeSecondsOpt(st.lastOkAt),
        generatedAt := WholeSecondsOpt(st.generatedAt),
        heartbeatAt := WholeSecondsOpt(st.heartbeatAt),
        seqAdvancedAt := WholeSecondsOpt(st.seqAdvancedAt),
        aliveAt := WholeSecondsOpt(st.aliveAt))
  }

  // ---------------------------------------------------------------- one pass, call by call

  datatype Disk = Disk(file: Option<Blob>, state: Option<SyncState>)

  datatype Pass =
    | Resting
    | Got(at: Time, m: Manifest, prev: Option<SyncState>, have: bool)
    | Fetching(at: Time, m: Manifest, prev: Option<SyncState>, base: Option<SyncState>)
    | Received(at: Time, m: Manifest, prev: Option<SyncState>, base: Option<SyncState>, blob: Blob)
    | Saving(next: SyncState, good: Option<Manifest>, installed: bool)

  datatype SubState = SubState(disk: Disk, pass: Pass)

  const EMPTY_SUBSCRIBER := SubState(Disk(None, None), Resting)

  datatype SubAction =
    | BeginPass(at: Time, readable: bool)
    | Compare
    | Download(blob: Blob)          // the bytes that arrive, good or bad
    | Install
    | SaveState(works: bool)
    | Abort(at: Time)               // a transport or disk error before the swap
    | Die
    | Wipe(stateToo: bool)          // an admin deletes the directory, or the ledger file is lost

  /** The stored seq that counts: none without a local file. */
  function LocalNum(prev: Option<SyncState>, have: bool): Option<nat> {
    if prev.Some? && have then prev.value.num else None
  }

  predicate Backwards(m: Manifest, prev: Option<SyncState>, have: bool) {
    LocalNum(prev, have).Some? && m.num < LocalNum(prev, have).value
  }

  /** The manifest names what the state file says is already here: nothing is downloaded. */
  predicate SameSnapshot(m: Manifest, prev: Option<SyncState>, have: bool) {
    LocalNum(prev, have).Some? && prev.value.sha == Some(m.sha)
  }

  function CompareStep(at: Time, m: Manifest, prev: Option<SyncState>, have: bool): Pass {
    var base := if have then prev else None;
    var local := LocalNum(prev, have);
    if local.Some? && m.num == local.value && prev.value.sha == Some(m.sha) then
      Saving(OkState(at, m, base), Some(m), false)
    else if local.Some? && m.num < local.value then Saving(FailedState(prev, at), None, false)
    else if local.Some? && prev.value.sha == Some(m.sha) then Saving(OkState(at, m, base), Some(m), false)
    else Fetching(at, m, prev, base)
  }

  function SStep(s: SubState, bucket: Bucket, a: SubAction): SubState {
    match a
    case BeginPass(at, readable) =>
      if !s.pass.Resting? then s
      else if readable && bucket.latest.Holds? then
        s.(pass := Got(at, bucket.latest.manifest, s.disk.state, s.disk.file.Some?))
      else s.(pass := Saving(FailedState(s.disk.state, at), None, false))
    case Compare =>
      if s.pass.Got? then s.(pass := CompareStep(s.pass.at, s.pass.m, s.pass.prev, s.pass.have)) else s
    case Download(blob) =>
      if !s.pass.Fetching? then s
      else if s.pass.m.key in bucket.snaps then
        s.(pass := Received(s.pass.at, s.pass.m, s.pass.prev, s.pass.base, blob))
      else s.(pass := Saving(FailedState(s.pass.prev, s.pass.at), None, false))
    case Install =>
      if !s.pass.Received? then s
      else if |s.pass.blob| != s.pass.m.size || Sha256(s.pass.blob) != s.pass.m.sha then
        s.(pass := Saving(FailedState(s.pass.prev, s.pass.at), None, false))
      else
        SubState(s.disk.(file := Some(s.pass.blob)),
            Saving(OkState(s.pass.at, s.pass.m, s.pass.base), Some(s.pass.m), true))
    case SaveState(works) =>
      if !s.pass.Saving? then s
      else SubState(if works then s.disk.(state := Some(Persisted(s.pass.next))) else s.disk, Resting)
    case Abort(at) =>
      if s.pass.Resting? || s.pass.Saving? then s
      else s.(pass := Saving(FailedState(s.disk.state, at), None, false))
    case Die => s.(pass := Resting)
    case Wipe(stateToo) =>
      SubState(Disk(None, if stateToo then None else s.disk.state), Resting)
  }

  /** The calls of one pass up to the state write; `received` is None if the download raised. */
  function PassUpToSave(disk: Disk, bucket: Bucket, at: Time, readable: bool, received: Option<Blob>): (w: SubState)
    ensures w.pass.Saving?
  {
    var compared := SStep(SStep(SubState(disk, Resting), bucket, BeginPass(at, readable)), bucket, Compare);
    var fetched := SStep(compared, bucket, if received.Some? then Download(received.value) else Abort(at));
    SStep(fetched, bucket, Install)
  }

  /** A pass in one go, against a bucket that does not change meanwhile. */
  function SyncPass(disk: Disk, bucket: Bucket, at: Time, blob: Blob): SubState {
    SStep(PassUpToSave(disk, bucket, at, true, Some(blob)), bucket, SaveState(true))
  }

  predicate Serves(disk: Disk, m: Manifest) {
    disk.file.Some? && Sha256(disk.file.value) == m.sha
  }

  /** The state file vouches for a ledger file that is not the one it names. */
  predicate StateLies(disk: Disk, m: Manifest) {
    SameSnapshot(m, disk.state, disk.file.Some?) && disk.file.Some?
        && disk.state.value.sha != Some(Sha256(disk.file.value))
  }

  /**
   An undisturbed pass ends without error exactly when the manifest is not behind the state file, and
   then it serves what the manifest names exactly when the state file was not vouching for another file.
   */
  lemma UndisturbedPass(disk: Disk, bucket: Bucket, at: Time, m: Manifest)
    requires bucket.latest == Holds(m)
    requires m.key in bucket.snaps && Sha256(bucket.snaps[m.key]) == m.sha && |bucket.snaps[m.key]| == m.size
    ensures var after := SyncPass(disk, bucket, at, bucket.snaps[m.key]);
            && after.pass.Resting? && after.disk.state.Some?
            && (after.disk.state.value.failed <==> Backwards(m, disk.state, disk.file.Some?))
            && (!after.disk.state.value.failed ==>
                  && after.disk.state.value.num == Some(m.num) && after.disk.state.value.sha == Some(m.sha)
                  && (Serves(after.disk, m) <==> !StateLies(disk, m)))
            && (after.disk.state.value.failed ==> after.disk.file == disk.file)
  {
  }

  // ---------------------------------------------------------------- the code, on a real directory

  class Replica {
    var file: Option<Blob>
    var state: Option<SyncState>

    function Contents(): Disk
      reads this
    {
      Disk(file, state)
    }

    constructor ()
      ensures Contents() == Disk(None, None)
    {
      file, state := None, None;
    }

    /** `_sync`: replaces the ledger file only by bytes with the promised size and digest. */
    method Sync(latest: Option<Slot>, snaps: map<SnapKey, Blob>, received: Option<Blob>, prev: Option<SyncState>,
                have: bool, at: Time)
      returns (changed: bool, good: Option<(SyncState, Manifest)>)
      requires prev == state && have == file.Some?
      modifies this`file
      ensures var b := Bucket(if latest.Some? then latest.value else Absent, None, snaps);
              var w := PassUpToSave(old(Contents()), b, at, latest.Some?, received);
              && file == w.disk.file && changed == w.pass.installed
              && good.Some? == w.pass.good.Some?
              && (good.Some? ==> good.value == (w.pass.next, w.pass.good.value))
              && (good.None? ==> w.pass.next == FailedState(prev, at))
    {
      changed, good := false, None;
      if latest.None? || !latest.value.Holds? { return; }
      var m := latest.value.manifest;
      var base := if have then prev else None;
      var local := LocalNum(prev, have);
      if local.Some? {
        if m.num == local.value && prev.value.sha == Some(m.sha) { return false, Some((OkState(at, m, base), m)); }
        if m.num < local.value { return; }
        if prev.value.sha == Some(m.sha) { return false, Some((OkState(at, m, base), m)); }
      }
      if m.key !in snaps || received.None? { return; }
      var tmp := received.value;
      if |tmp| != m.size { return; }
      if Sha256(tmp) != m.sha { return; }
      file := Some(tmp);
      return true, Some((OkState(at, m, base), m));
    }

    /** `sync_once`: never raises; the state file may fail to be written. */
    method SyncOnce(latest: Option<Slot>, snaps: map<SnapKey, Blob>, received: Option<Blob>, saves: bool, at: Time)
      returns (changed: bool, failed: bool)
      modifies this
      ensures var b := Bucket(if latest.Some? then latest.value else Absent, None, snaps);
              var w := PassUpToSave(old(Contents()), b, at, latest.Some?, received);
              && Contents() == SStep(w, b, SaveState(saves)).disk
              && changed == w.pass.installed && failed == w.pass.good.None?
    {
      var prev := state;
      var good;
      changed, good := Sync(latest, snaps, received, prev, file.Some?, at);
      failed := good.None?;
      var next := if failed then FailedState(prev, at) else good.value.0;
      if saves { state := Some(Persisted(next)); }
    }
  }
}
