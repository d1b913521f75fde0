/** No committed change is hidden by a heartbeat: the data version is read before the snapshot is taken. */
module ChangeDetection {
  import opened Wrappers
  import opened Replication
  import opened PublisherSafety

  /** The data version the publisher's connection would read now. */
  function Current(p: PubState): int
    requires p.mem.conn.Some?
  {
    p.mem.conn.value.base + p.db.commits
  }

  predicate SameFile(p: PubState) { p.mem.conn.Some? && p.mem.conn.value.file == p.db.file }

  predicate InTick(p: PubState) { !p.phase.Idle? }

  /** Content that was read at version dv is still the content if the version still reads dv. */
  predicate Fits(p: PubState, dv: int, sha: Digest)
    requires p.mem.conn.Some?
  {
    dv <= Current(p) && (dv == Current(p) ==> sha == Sha256(p.db.content))
  }

  ghost predicate Tracks(p: PubState) {
    && (p.mem.conn.Some? ==> p.mem.conn.value.file <= p.db.file)
    && (InTick(p) ==> p.mem.conn.Some?)
    && (SameFile(p) && p.mem.last.Some? && p.mem.publishedDv.Some? ==>
          Fits(p, p.mem.publishedDv.value, p.mem.last.value.sha))
    && (SameFile(p) && InTick(p) ==> Fits(p, p.phase.tick.dv, Sha256(p.phase.tick.seen)))
    && (SameFile(p) && HasManifest(p) ==> Fits(p, p.phase.tick.dv, p.phase.m.sha))
    && (InTick(p) && p.phase.tick.reuse ==>
          && p.mem.last.Some? && p.mem.last.value.sha == Sha256(p.phase.tick.seen)
          && (HasManifest(p) ==> p.phase.m.sha == Sha256(p.phase.tick.seen)))
  }

  lemma BotKeepsTracks(p: PubState, a: PubAction)
    requires Tracks(p)
    requires a.Commit? || a.ReplaceFile? || a.CorruptLatest? || a.DeleteLatest? || a.RollBackLatest?
    ensures Tracks(PStep(p, a))
  {
  }

  lemma BuildKeepsTracks(p: PubState, at: Time, heartbeat: Option<Time>, alive: Option<Time>)
    requires Tracks(p) && p.phase.Sequenced?
    ensures Tracks(p.(phase := BuildStep(p, at, heartbeat, alive)))
  {
  }

  lemma TickKeepsTracks(p: PubState, a: PubAction)
    requires Tracks(p)
    requires a.BeginTick? || a.PickNum? || a.Finish? || a.Fail? || a.Crash?
    ensures Tracks(PStep(p, a))
  {
  }

  lemma StoreKeepsTracks(p: PubState, a: PubAction)
    requires Tracks(p)
    requires a.Upload? || a.RaiseFloor? || a.WriteLatest?
    ensures Tracks(PStep(p, a))
  {
  }

  lemma PruneKeepsTracks(p: PubState, a: PubAction)
    requires Tracks(p)
    requires a.ListForPrune? || a.PruneOne? || a.StopPruning?
    ensures Tracks(PStep(p, a))
  {
  }

  lemma {:induction false} RunKeepsTracks(p: PubState, acts: seq<PubAction>)
    requires Tracks(p)
    ensures Tracks(PRun(p, acts))
    decreases |acts|
  {
    if acts != [] {
      var a := acts[0];
      if a.Commit? || a.ReplaceFile? || a.CorruptLatest? || a.DeleteLatest? || a.RollBackLatest? {
        BotKeepsTracks(p, a);
      } else if a.BeginTick? || a.PickNum? || a.Finish? || a.Fail? || a.Crash? {
        TickKeepsTracks(p, a);
      } else if a.Upload? || a.RaiseFloor? || a.WriteLatest? {
        StoreKeepsTracks(p, a);
      } else if a.Build? {
        if p.phase.Sequenced? { BuildKeepsTracks(p, a.at, a.heartbeat, a.alive); }
      } else {
        PruneKeepsTracks(p, a);
      }
      RunKeepsTracks(PStep(p, a), acts[1..]);
    }
  }

  /**
   A heartbeat names bytes equal to the database content at that tick's version read, and they are in
   the bucket, whatever the bot committed meanwhile and however many publishes failed before.
   */
  lemma HeartbeatNamesContentSeen(db: Db, keep: nat, acts: seq<PubAction>)
    ensures var p := PRun(Start(db, keep), acts);
            HasManifest(p) && !p.phase.Uploading? && p.phase.tick.reuse ==>
              p.phase.m.key in p.bucket.snaps && p.bucket.snaps[p.phase.m.key] == p.phase.tick.seen
  {
    RunKeepsTracks(Start(db, keep), acts);
    RunKeepsSafe(Start(db, keep), acts);
  }

  /** A tick that finds the version unchanged holds, in memory, the digest of the current content. */
  lemma UnchangedMeansPublished(db: Db, keep: nat, acts: seq<PubAction>, base: int)
    requires var p := PRun(Start(db, keep), acts);
             p.phase.Idle? && BeginTickStep(p, base, false).phase.Idle?
    ensures var p := PRun(Start(db, keep), acts);
            p.mem.last.Some? && p.mem.last.value.sha == Sha256(p.db.content)
  {
    RunKeepsTracks(Start(db, keep), acts);
  }
}
