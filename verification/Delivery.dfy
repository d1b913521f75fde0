/**
 From the publisher's clock to the dashboard's banner: what a published manifest says, and what the dashboard makes
 of it once a pass has read it. Bounds are written out in seconds.
 */
module Delivery {
  import opened Wrappers
  import opened Replication
  import opened PublisherSafety
  import opened Subscriber
  import opened EndToEnd
  import opened Freshness

  // ---------------------------------------------------------------- where a manifest comes from

  /** The j-th action of the run is the step that made m, with these stamps. */
  ghost predicate BuiltAt(sys: System, acts: seq<Action>, j: nat, m: Manifest)
    requires j < |acts|
  {
    && acts[j].ByPublisher? && acts[j].p.Build?
    && var (p, a) := (Run(sys, acts[..j]).pub, acts[j].p);
       && p.phase.Sequenced? && m.num == p.phase.num
       && Tells(p.mem.last, p.phase.tick.reuse, p.db.content, a.at, a.heartbeat, a.alive, m)
  }

  /** The manifests that are out or on their way. */
  ghost predicate Made(p: PubState, m: Manifest) { m in p.published || (HasManifest(p) && p.phase.m == m) }

  lemma StepMakes(p: PubState, a: PubAction, m: Manifest)
    requires Made(PStep(p, a), m) && !Made(p, m)
    ensures a.Build? && p.phase.Sequenced? && m.num == p.phase.num
    ensures Tells(p.mem.last, p.phase.tick.reuse, p.db.content, a.at, a.heartbeat, a.alive, m)
  {
  }

  lemma {:induction false} MadeWasBuilt(sys: System, acts: seq<Action>, m: Manifest) returns (j: nat)
    requires Made(Run(sys, acts).pub, m) && !Made(sys.pub, m)
    ensures j < |acts| && BuiltAt(sys, acts, j, m)
    decreases |acts|
  {
    var next := Step(sys, acts[0]);
    if Made(next.pub, m) {
      StepMakes(sys.pub, acts[0].p, m);
      j := 0;
      assert acts[..0] == [];
    } else {
      var i := MadeWasBuilt(next, acts[1..], m);
      j := i + 1;
      assert acts[..j][1..] == acts[1..][..i];
    }
  }

  /** Every manifest published in a run was made by one step of it, and tells what that step read. */
  lemma EveryManifestTells(db: Db, keep: nat, acts: seq<Action>, m: Manifest) returns (j: nat)
    requires m in Run(Begin(db, keep), acts).pub.published
    ensures j < |acts| && BuiltAt(Begin(db, keep), acts, j, m)
  {
    j := MadeWasBuilt(Begin(db, keep), acts, m);
  }

  // ---------------------------------------------------------------- a pass that reads it

  /** The manifest is news to the reader: a higher seq than it stored, or no ledger or no seq stored at all. */
  predicate IsNews(disk: Disk, m: Manifest) {
    disk.file.None? || disk.state.None? || disk.state.value.num.None? || disk.state.value.num.value < m.num
  }

  /** What the state file keeps of a time: whole microseconds cut down to whole seconds. */
  function Cut(t: Option<Time>): Option<Time> { if t.Some? then Some(t.value - t.value % 1_000_000) else None }

  /** One pass, its state written; `received` is None if the download raised. */
  function PassOnce(disk: Disk, bucket: Bucket, at: Time, readable: bool, received: Option<Blob>): SubState {
    SStep(PassUpToSave(disk, bucket, at, readable, received), bucket, SaveState(true))
  }

  /** A ledger file and a state that says which seq it is. */
  predicate Knows(disk: Disk) { disk.file.Some? && disk.state.Some? && disk.state.value.num.Some? }

  /** The state file says that the manifest's bytes are here already. */
  predicate IsHere(disk: Disk, m: Manifest) { Knows(disk) && disk.state.value.sha == Some(m.sha) }

  /**
   When a pass succeeds, whatever the bucket does to it: it got a manifest that is not behind the stored one, and
   either the state file has its digest or the download brought exactly the bytes it names.
   */
  predicate Succeeds(disk: Disk, bucket: Bucket, readable: bool, received: Option<Blob>) {
    && readable && bucket.latest.Holds?
    && var m := bucket.latest.manifest;
       && (Knows(disk) ==> m.num >= disk.state.value.num.value)
       && (IsHere(disk, m)
           || (m.key in bucket.snaps
               && received.Some? && |received.value| == m.size && Sha256(received.value) == m.sha))
  }

  lemma PassDecides(disk: Disk, bucket: Bucket, at: Time, readable: bool, received: Option<Blob>)
    ensures var w := PassUpToSave(disk, bucket, at, readable, received);
            && w.pass.Saving? && w.disk.state == disk.state
            && if Succeeds(disk, bucket, readable, received)
               then w.pass.next == OkState(at, bucket.latest.manifest, if disk.file.Some? then disk.state else None)
                    && (w.pass.installed <==> !IsHere(disk, bucket.latest.manifest))
                    && w.disk.file == (if IsHere(disk, bucket.latest.manifest) then disk.file else received)
               else w.pass.next == FailedState(disk.state, at) && w.disk.file == disk.file && !w.pass.installed
  {
  }

  lemma OkIsStored(disk: Disk, m: Manifest, at: Time)
    ensures var st := Persisted(OkState(at, m, if disk.file.Some? then disk.state else None));
            Stored(disk, m, at, st) && !st.failed && st.checkedAt == at - at % 1_000_000
  {
  }

  lemma FailedIsKept(prev: Option<SyncState>, at: Time)
    ensures var st := Persisted(FailedState(prev, at));
            KeptWhatWasKnown(prev, st) && st.failed && st.checkedAt == at - at % 1_000_000
  {
  }

  /**
   What a pass leaves behind. A success stores the manifest's stamps, moves the moment of the last advance only on
   news, and clears the error count; a failure keeps the file and everything known of the data and counts up.
   */
  lemma PassLeaves(disk: Disk, bucket: Bucket, at: Time, readable: bool, received: Option<Blob>)
    ensures var after := PassOnce(disk, bucket, at, readable, received);
            && after.pass.Resting? && after.disk.state.Some?
            && var st := after.disk.state.value;
               && st.checkedAt == at - at % 1_000_000
               && (st.failed <==> !Succeeds(disk, bucket, readable, received))
               && (!st.failed ==> Stored(disk, bucket.latest.manifest, at, st))
               && (st.failed ==> KeptWhatWasKnown(disk.state, st))
               && after.disk.file == if st.failed || IsHere(disk, bucket.latest.manifest) then disk.file else received
  {
    PassDecides(disk, bucket, at, readable, received);
    FailedIsKept(disk.state, at);
    if Succeeds(disk, bucket, readable, received) { OkIsStored(disk, bucket.latest.manifest, at); }
    hide PassUpToSave, Succeeds, OkState, FailedState, Persisted, Stored, KeptWhatWasKnown, IsHere;
  }

  predicate Stored(disk: Disk, m: Manifest, at: Time, st: SyncState) {
    && st.consecutiveErrors == 0 && st.num == Some(m.num) && st.sha == Some(m.sha)
    && st.lastOkAt == Cut(Some(at)) && st.generatedAt == Cut(Some(m.generatedAt))
    && st.aliveAt == Cut(m.aliveAt) && st.heartbeatAt == Cut(m.heartbeatAt)
    && st.seqAdvancedAt == if IsNews(disk, m) then Cut(Some(at)) else Cut(disk.state.value.seqAdvancedAt)
  }

  predicate KeptWhatWasKnown(prev: Option<SyncState>, st: SyncState) {
    match prev
    case None =>
      && st.consecutiveErrors == 1 && st.num == None && st.sha == None && st.lastOkAt == None
      && st.generatedAt == None && st.aliveAt == None && st.heartbeatAt == None && st.seqAdvancedAt == None
    case Some(p) =>
      && st.consecutiveErrors == p.consecutiveErrors + 1 && st.num == p.num && st.sha == p.sha
      && st.lastOkAt == Cut(p.lastOkAt) && st.generatedAt == Cut(p.generatedAt)
      && st.aliveAt == Cut(p.aliveAt) && st.heartbeatAt == Cut(p.heartbeatAt)
      && st.seqAdvancedAt == Cut(p.seqAdvancedAt)
  }

  /** A whole number of seconds, cut off. */
  function InSeconds(t: Time): int { t / 1_000_000 }

  /**
   End to end: a manifest that was made at time `at` by a step of the run and is news to the reader turns the banner
   green, seen at `now`, exactly when by whole seconds the pass ran no more than 60 s before `now` and 10 s after it,
   no less than 10 s before and no more than 60 s after `at`, and `at` is at most 10 s ahead of `now`.
   */
  lemma FreshManifestTurnsGreen(db: Db, keep: nat, acts: seq<Action>, read: Time, now: Time) returns (j: nat)
    requires NoRollbacks(acts)
    requires var t := Run(Begin(db, keep), acts);
             t.sub.pass.Resting? && t.pub.bucket.latest.Holds? && IsNews(t.sub.disk, t.pub.bucket.latest.manifest)
    ensures var t := Run(Begin(db, keep), acts);
            var m := t.pub.bucket.latest.manifest;
            && j < |acts| && BuiltAt(Begin(db, keep), acts, j, m) && m.key in t.pub.bucket.snaps
            && var state := SyncPass(t.sub.disk, t.pub.bucket, read, t.pub.bucket.snaps[m.key]).disk.state;
               var (made, seen) := (1_000_000 * InSeconds(acts[j].p.at), 1_000_000 * InSeconds(read));
               Assess(state, now).level.Fresh? <==>
                 && -10_000_000 <= now - seen <= 60_000_000
                 && -10_000_000 <= seen - made <= 60_000_000
                 && made - now <= 10_000_000
  {
    var t := Run(Begin(db, keep), acts);
    var m := t.pub.bucket.latest.manifest;
    RunKeepsGood(Begin(db, keep), acts);
    assert m in t.pub.published;
    j := EveryManifestTells(db, keep, acts, m);
    var blob := t.pub.bucket.snaps[m.key];
    PassLeaves(t.sub.disk, t.pub.bucket, read, true, Some(blob));
    assert SyncPass(t.sub.disk, t.pub.bucket, read, blob) == PassOnce(t.sub.disk, t.pub.bucket, read, true, Some(blob));
    hide Run, SyncPass, PassOnce;
    BannerOf(m, read, SyncPass(t.sub.disk, t.pub.bucket, read, blob).disk.state.value, now);
  }

  lemma BannerOf(m: Manifest, read: Time, st: SyncState, now: Time)
    requires st.generatedAt == Cut(Some(m.generatedAt))
    requires st.seqAdvancedAt == Cut(Some(read))
    ensures var (made, seen) := (1_000_000 * InSeconds(m.generatedAt), 1_000_000 * InSeconds(read));
            Assess(Some(st), now).level.Fresh? <==>
              && -10_000_000 <= now - seen <= 60_000_000
              && -10_000_000 <= seen - made <= 60_000_000
              && made - now <= 10_000_000
  {
    GreenExactlyWhen(st, now);
  }

  // ---------------------------------------------------------------- what the banner and the bot status mean

  /** Trustworthy stamps: green up to a minute, amber up to three, red after; otherwise never better than amber. */
  lemma BannerExactly(st: SyncState, now: Time)
    requires st.generatedAt.Some?
    ensures var (made, seen) := (st.generatedAt.value, st.seqAdvancedAt);
            var age := now - if seen.Some? then seen.value else made;
            var sound := age >= -10_000_000 && made - now <= 10_000_000
                         && (seen.Some? ==> -10_000_000 <= seen.value - made <= 60_000_000);
            var a := Assess(Some(st), now);
            && a.age == Some(age)
            && (a.level.Fresh? <==> sound && age <= 60_000_000)
            && (a.level.Stale? <==> age <= 180_000_000 && !(sound && age <= 60_000_000))
            && (a.level.Broken? <==> age > 180_000_000)
  {
  }

  lemma NothingKnownWaits(now: Time, st: SyncState)
    requires st.generatedAt.None?
    ensures Assess(None, now) == Assess(Some(st), now) == Assessment(Waiting, None, Bot(BotUnknown, None))
  {
  }

  /**
   The bot is said to be alive exactly when its stamp is at most 10 s ahead of the manifest and what the data's age and
   the stamp's lag behind the manifest add up to is within 180 s; without a stamp, 45 minutes for a heartbeat row.
   */
  lemma BotExactly(st: SyncState, now: Time)
    requires st.generatedAt.Some?
    ensures var made := st.generatedAt.value;
            var age := now - if st.seqAdvancedAt.Some? then st.seqAdvancedAt.value else made;
            var shown := if age >= 0 then age else 0;
            var bot := Assess(Some(st), now).bot;
            if st.aliveAt.Some? then
              var lag := made - st.aliveAt.value;
              && (bot.level.BotOk? <==> lag >= -10_000_000 && shown + (if lag >= 0 then lag else 0) <= 180_000_000)
              && (bot.level.BotSilent? <==> !bot.level.BotOk?)
              && bot.age == (if lag < -10_000_000 then None else Some(shown + if lag >= 0 then lag else 0))
            else if st.heartbeatAt.Some? then
              var lag := made - st.heartbeatAt.value;
              && (bot.level.BotOk? <==> shown + (if lag >= 0 then lag else 0) <= 2_700_000_000)
              && (bot.level.BotSilent? <==> !bot.level.BotOk?)
              && bot.age == Some(shown + if lag >= 0 then lag else 0)
            else bot == Bot(BotUnknown, None)
  {
  }

  /** The ages the subscriber reports agree with the banner's: never negative on its own clock. */
  lemma AgesAgree(st: SyncState, now: Time)
    requires st.generatedAt.Some?
    ensures var age := Assess(Some(st), now).age.value;
            && DataAge(st, now) == Some(if st.seqAdvancedAt.Some? && age < 0 then 0 else age)
            && (st.seqAdvancedAt.Some? && Assess(Some(st), now).bot.age.Some? && st.aliveAt.Some? ==>
                  BotAliveAge(st, now) == Assess(Some(st), now).bot.age)
  {
  }
}
