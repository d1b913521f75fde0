/** What every run of the publisher keeps, under failures, restarts and damage to latest.json. */
module PublisherSafety {
  import opened Wrappers
  import opened Replication

  // ---------------------------------------------------------------- invariants

  ghost predicate Points(snaps: map<SnapKey, Blob>, m: Manifest) {
    m.key in snaps && Sha256(snaps[m.key]) == m.sha && |snaps[m.key]| == m.size
  }

  predicate Chosen(p: PubState) { p.phase.Sequenced? || p.phase.Uploading? || p.phase.Ready? || p.phase.Floored? }

  predicate HasManifest(p: PubState) {
    p.phase.Uploading? || p.phase.Ready? || p.phase.Floored? || p.phase.Visible? || p.phase.Pruning?
  }

  function NumOf(p: PubState): nat
    requires Chosen(p)
  {
    if p.phase.Sequenced? then p.phase.num else p.phase.m.num
  }

  ghost predicate AtMost(num: nat, ms: seq<Manifest>) {
    forall i :: 0 <= i < |ms| ==> ms[i].num <= num
  }

  /** The persisted floor bounds every seq that was ever made visible. */
  ghost predicate FloorBounds(p: PubState) {
    && (p.published != [] ==> p.bucket.floor.Some? && AtMost(p.bucket.floor.value, p.published))
    && (p.mem.floor.loaded ==> p.mem.floor.value == p.bucket.floor)
    && (p.phase.Floored? ==> p.bucket.floor.Some? && p.phase.m.num <= p.bucket.floor.value)
  }

  ghost predicate NotAbove(keys: set<SnapKey>, num: nat) { forall k :: k in keys ==> k.num <= num }

  ghost predicate Below(keys: set<SnapKey>, num: nat) { forall k :: k in keys ==> k.num < num }

  ghost predicate NewestStays(all: set<SnapKey>, staying: set<SnapKey>) {
    exists t :: t in staying && NotAbove(all, t.num)
  }

  function Doomed(phase: Phase): set<SnapKey> { if phase.Pruning? then phase.doomed else {} }

  /** The newest snapshot key ever put is still there, and the seq in use is above every key. */
  ghost predicate KeysFresh(p: PubState) {
    && p.bucket.snaps.Keys <= p.everPut
    && (p.everPut != {} ==> NewestStays(p.everPut, p.bucket.snaps.Keys - Doomed(p.phase)))
    && ((p.phase.Idle? || p.phase.Versioned?) && p.mem.last.Some? && !p.mem.reseed ==>
          NotAbove(p.everPut, p.mem.last.value.num))
    && (p.phase.Sequenced? || p.phase.Uploading? ==> Below(p.everPut, NumOf(p)))
    && (p.phase.Uploading? ==> p.phase.m.key.num == p.phase.m.num)
    && (p.phase.Ready? || p.phase.Floored? || p.phase.Visible? || p.phase.Pruning? ==>
          NotAbove(p.everPut, p.phase.m.num))
  }

  /** Every manifest that is or may become visible names a snapshot that is present. */
  ghost predicate NoDangling(p: PubState) {
    && (p.published != [] ==> Points(p.bucket.snaps, p.published[|p.published| - 1]))
    && (p.mem.last.Some? && !p.phase.Pruning? && !p.phase.Visible? ==> Points(p.bucket.snaps, p.mem.last.value))
    && (p.phase.Ready? || p.phase.Floored? || p.phase.Visible? || p.phase.Pruning? ==>
          Points(p.bucket.snaps, p.phase.m))
    && (p.phase.Uploading? ==> p.phase.m.sha == Sha256(p.phase.blob) && p.phase.m.size == |p.phase.blob|)
    && (p.phase.Visible? || p.phase.Pruning? ==>
          p.published != [] && p.published[|p.published| - 1] == p.phase.m)
    && (p.phase.Pruning? ==> p.phase.m.key !in p.phase.doomed)
  }

  /** While pruning, a full `keep` of newer snapshots is set aside for every doomed one. */
  ghost predicate KeepsEnough(p: PubState) {
    p.phase.Pruning? && p.phase.doomed != {} ==>
      && |p.phase.kept| == Effective(p.keep)
      && p.phase.kept <= p.bucket.snaps.Keys
      && p.phase.kept !! p.phase.doomed
      && p.phase.doomed <= p.bucket.snaps.Keys
      && forall k, d :: k in p.phase.kept && d in p.phase.doomed ==> Above(k, d)
  }

  /** Holds in every run, also when latest.json is rolled back to an older manifest. */
  ghost predicate Safe(p: PubState) {
    FloorBounds(p) && KeysFresh(p) && NoDangling(p) && KeepsEnough(p)
  }

  ghost predicate Increasing(ms: seq<Manifest>) {
    forall i, j :: 0 <= i < j < |ms| ==> ms[i].num < ms[j].num
  }

  ghost predicate Exceeds(num: nat, ms: seq<Manifest>) {
    forall i :: 0 <= i < |ms| ==> ms[i].num < num
  }

  /** Holds as long as nobody rolls latest.json back. */
  ghost predicate Ordered(p: PubState) {
    && Increasing(p.published)
    && (p.bucket.latest.Holds? ==>
          p.published != [] && p.bucket.latest.manifest == p.published[|p.published| - 1])
    && (Chosen(p) ==> Exceeds(NumOf(p), p.published))
    && ((p.phase.Idle? || p.phase.Versioned?) && p.mem.last.Some? && !p.mem.reseed ==>
          p.published != [] && p.mem.last.value == p.published[|p.published| - 1])
  }

  predicate IsRollback(a: PubAction) { a.RollBackLatest? }

  // ---------------------------------------------------------------- the seq that is chosen

  lemma NextSeqBounds(b: Bucket, previous: Option<Manifest>)
    ensures Below(b.snaps.Keys, NextSeq(b, previous))
    ensures previous.Some? ==> previous.value.num < NextSeq(b, previous)
    ensures b.latest.Holds? ==> b.latest.manifest.num < NextSeq(b, previous)
    ensures !b.latest.Holds? && b.floor.Some? ==> b.floor.value < NextSeq(b, previous)
    ensures b.latest.Holds? && b.floor.Some? && b.floor.value > b.latest.manifest.num + SEQ_FLOOR_RESERVE ==>
              b.floor.value < NextSeq(b, previous)
  {
  }

  /** And it is the least such number: the floor counts only without a manifest or beyond its reserve of 100. */
  lemma NextSeqIsLeast(b: Bucket, previous: Option<Manifest>, n: nat)
    requires n > 0 && Below(b.snaps.Keys, n)
    requires previous.Some? ==> previous.value.num < n
    requires b.latest.Holds? ==> b.latest.manifest.num < n
    requires b.floor.Some? && (!b.latest.Holds? || b.floor.value > b.latest.manifest.num + 100) ==> b.floor.value < n
    ensures NextSeq(b, previous) <= n
  {
  }

  /** The floor goes 100 past a seq it does not cover yet, and what it became is remembered unless a call failed. */
  lemma FloorRaisedExactly(p: PubState, o: Outcome)
    requires p.phase.Ready?
    ensures var (q, num) := (RaiseFloorStep(p, o), p.phase.m.num);
            var known := if p.mem.floor.loaded then p.mem.floor.value else p.bucket.floor;
            var enough := known.Some? && num <= known.value;
            && q.bucket == (if enough || o.Refused? then p.bucket else p.bucket.(floor := Some(num + 100)))
            && (enough || o.Done? ==>
                  q.phase.Floored? && q.mem.floor.loaded
                  && q.mem.floor.value == if enough then known else Some(num + 100))
            && (!enough && !o.Done? ==> q.phase.Idle? && q.mem.reseed && !q.mem.floor.loaded)
  {
  }

  lemma ChosenNumFresh(p: PubState)
    requires Safe(p) && p.phase.Versioned?
    ensures Below(p.everPut, ChosenNum(p))
    ensures Ordered(p) ==> Exceeds(ChosenNum(p), p.published)
  {
    NextSeqBounds(p.bucket, p.mem.last);
  }

  // ---------------------------------------------------------------- one step

  lemma ToSetSize(s: seq<SnapKey>)
    requires forall i, j :: 0 <= i < j < |s| ==> Above(s[i], s[j])
    ensures |ToSet(s)| == |s|
  {
    if s != [] {
      var front := s[..|s| - 1];
      ToSetSize(front);
      assert s[|s| - 1] !in front;
      assert ToSet(s) == ToSet(front) + {s[|s| - 1]};
    }
  }

  lemma ListKeepsFresh(p: PubState, listing: seq<SnapKey>)
    requires KeysFresh(p) && p.phase.Visible? && IsListing(listing, p.bucket.snaps.Keys)
    ensures KeysFresh(ListStep(p, listing))
  {
    if p.everPut != {} {
      var t :| t in p.bucket.snaps && NotAbove(p.everPut, t.num);
      var newest := listing[0];
      assert newest in listing;
      assert newest.num >= t.num by {
        var i :| 0 <= i < |listing| && listing[i] == t;
        if i > 0 { assert Above(listing[0], listing[i]); }
      }
      forall j | 1 <= j < |listing| ensures listing[j] != newest { assert Above(listing[0], listing[j]); }
    }
  }

  lemma ListKeepsEnough(p: PubState, listing: seq<SnapKey>)
    requires p.phase.Visible? && IsListing(listing, p.bucket.snaps.Keys)
    ensures KeepsEnough(ListStep(p, listing))
  {
    var q := ListStep(p, listing);
    var n := if Effective(p.keep) <= |listing| then Effective(p.keep) else |listing|;
    ToSetSize(listing[..n]);
    assert forall k :: k in listing[..n] ==> k in listing;
    assert forall k :: k in listing[n..] ==> k in listing;
    forall k, d | k in q.phase.kept && d in q.phase.doomed ensures Above(k, d) {
      var i :| 0 <= i < n && listing[i] == k;
      var j :| n <= j < |listing| && listing[j] == d;
    }
  }

  lemma StepKeepsFloor(p: PubState, a: PubAction)
    requires FloorBounds(p)
    ensures FloorBounds(PStep(p, a))
  {
    match a
    case WriteLatest(o) =>
    case RaiseFloor(o) =>
    case _ =>
  }

  predicate IsEnvironment(a: PubAction) {
    a.Commit? || a.ReplaceFile? || a.CorruptLatest? || a.DeleteLatest? || a.RollBackLatest?
  }

  lemma EnvironmentKeepsFresh(p: PubState, a: PubAction)
    requires KeysFresh(p) && IsEnvironment(a)
    ensures KeysFresh(PStep(p, a))
  {
    assert PStep(p, a).bucket.snaps == p.bucket.snaps;
  }

  lemma BuildKeepsFresh(p: PubState, at: Time, heartbeat: Option<Time>, alive: Option<Time>)
    requires KeysFresh(p) && p.phase.Sequenced?
    ensures KeysFresh(p.(phase := BuildStep(p, at, heartbeat, alive)))
  {
  }

  lemma TickKeepsFresh(p: PubState, base: int, due: bool)
    requires KeysFresh(p) && p.phase.Idle?
    ensures KeysFresh(BeginTickStep(p, base, due))
  {
  }

  lemma ControlKeepsFresh(p: PubState, a: PubAction)
    requires KeysFresh(p) && (a.RaiseFloor? || a.WriteLatest? || a.Finish? || a.Fail? || a.Crash?)
    ensures KeysFresh(PStep(p, a))
  {
  }

  lemma StepKeepsFresh(p: PubState, a: PubAction)
    requires Safe(p)
    ensures KeysFresh(PStep(p, a))
  {
    if IsEnvironment(a) {
      EnvironmentKeepsFresh(p, a);
    } else if a.RaiseFloor? || a.WriteLatest? || a.Finish? || a.Fail? || a.Crash? {
      ControlKeepsFresh(p, a);
    } else {
      match a
      case BeginTick(base, due) => if p.phase.Idle? { TickKeepsFresh(p, base, due); }
      case PickNum => if p.phase.Versioned? { ChosenNumFresh(p); }
      case Build(at, heartbeat, alive) => if p.phase.Sequenced? { BuildKeepsFresh(p, at, heartbeat, alive); }
      case Upload(o) => if p.phase.Uploading? { UploadKeepsFresh(p, o); }
      case ListForPrune(listing) =>
        if p.phase.Visible? && IsListing(listing, p.bucket.snaps.Keys) { ListKeepsFresh(p, listing); }
      case PruneOne(k, o) => if p.phase.Pruning? && k in p.phase.doomed { PruneKeepsFresh(p, k, o); }
      case StopPruning => StopKeepsFresh(p);
    }
  }

  lemma StopKeepsFresh(p: PubState)
    requires KeysFresh(p)
    ensures KeysFresh(PStep(p, StopPruning))
  {
    if p.everPut != {} {
      var t :| t in p.bucket.snaps.Keys - Doomed(p.phase) && NotAbove(p.everPut, t.num);
      assert t in p.bucket.snaps.Keys - Doomed(PStep(p, StopPruning).phase);
    }
  }

  lemma PruneKeepsFresh(p: PubState, k: SnapKey, o: Outcome)
    requires KeysFresh(p) && p.phase.Pruning? && k in p.phase.doomed
    ensures KeysFresh(PruneStep(p, k, o))
  {
    if p.everPut != {} {
      var t :| t in p.bucket.snaps.Keys - p.phase.doomed && NotAbove(p.everPut, t.num);
      var q := PruneStep(p, k, o);
      assert t in q.bucket.snaps.Keys - Doomed(q.phase);
    }
  }

  lemma UploadKeepsFresh(p: PubState, o: Outcome)
    requires KeysFresh(p) && p.phase.Uploading?
    ensures KeysFresh(UploadStep(p, o))
  {
    if TookEffect(o) {
      assert p.phase.m.key in UploadStep(p, o).bucket.snaps.Keys - {};
    }
  }

  lemma TickKeepsNoDangling(p: PubState, a: PubAction)
    requires NoDangling(p)
    requires IsEnvironment(a) || a.BeginTick? || a.PickNum? || a.Fail? || a.Crash?
    ensures NoDangling(PStep(p, a))
  {
    assert PStep(p, a).bucket.snaps == p.bucket.snaps;
  }

  lemma UploadKeepsNoDangling(p: PubState, o: Outcome)
    requires Safe(p) && p.phase.Uploading?
    ensures NoDangling(UploadStep(p, o))
  {
    assert p.phase.m.key !in p.everPut;
  }

  lemma PublishKeepsNoDangling(p: PubState, a: PubAction)
    requires NoDangling(p)
    requires a.Build? || a.RaiseFloor? || a.WriteLatest?
    ensures NoDangling(PStep(p, a))
  {
  }

  lemma RetireKeepsNoDangling(p: PubState, a: PubAction)
    requires NoDangling(p)
    requires a.ListForPrune? || a.PruneOne? || a.StopPruning? || a.Finish?
    ensures NoDangling(PStep(p, a))
  {
  }

  lemma StepKeepsNoDangling(p: PubState, a: PubAction)
    requires Safe(p)
    ensures NoDangling(PStep(p, a))
  {
    if IsEnvironment(a) || a.BeginTick? || a.PickNum? || a.Fail? || a.Crash? {
      TickKeepsNoDangling(p, a);
    } else if a.Build? || a.RaiseFloor? || a.WriteLatest? {
      PublishKeepsNoDangling(p, a);
    } else if a.Upload? {
      if p.phase.Uploading? { UploadKeepsNoDangling(p, a.o); }
    } else {
      RetireKeepsNoDangling(p, a);
    }
  }

  lemma StepKeepsEnough(p: PubState, a: PubAction)
    requires KeepsEnough(p)
    ensures KeepsEnough(PStep(p, a))
  {
    match a
    case ListForPrune(listing) =>
      if p.phase.Visible? && IsListing(listing, p.bucket.snaps.Keys) { ListKeepsEnough(p, listing); }
    case PruneOne(k, o) =>
    case _ =>
  }

  lemma StepKeepsSafe(p: PubState, a: PubAction)
    requires Safe(p)
    ensures Safe(PStep(p, a))
  {
    StepKeepsFloor(p, a);
    StepKeepsFresh(p, a);
    StepKeepsNoDangling(p, a);
    StepKeepsEnough(p, a);
  }

  lemma WriteKeepsOrdered(p: PubState, o: Outcome)
    requires Ordered(p) && p.phase.Floored?
    ensures Ordered(WriteLatestStep(p, o))
  {
  }

  lemma QuietKeepsOrdered(p: PubState, a: PubAction)
    requires Ordered(p) && !IsRollback(a)
    requires IsEnvironment(a) || a.BeginTick? || a.Upload? || a.RaiseFloor? || a.Fail? || a.Crash?
    ensures Ordered(PStep(p, a))
  {
    assert PStep(p, a).published == p.published;
  }

  lemma RetireKeepsOrdered(p: PubState, a: PubAction)
    requires NoDangling(p) && Ordered(p)
    requires a.Build? || a.ListForPrune? || a.PruneOne? || a.StopPruning? || a.Finish?
    ensures Ordered(PStep(p, a))
  {
    assert PStep(p, a).published == p.published;
  }

  lemma StepKeepsOrdered(p: PubState, a: PubAction)
    requires Safe(p) && Ordered(p) && !IsRollback(a)
    ensures Ordered(PStep(p, a))
  {
    if a.PickNum? {
      if p.phase.Versioned? { ChosenNumFresh(p); }
    } else if a.WriteLatest? {
      if p.phase.Floored? { WriteKeepsOrdered(p, a.o); }
    } else if a.Build? || a.ListForPrune? || a.PruneOne? || a.StopPruning? || a.Finish? {
      RetireKeepsOrdered(p, a);
    } else {
      QuietKeepsOrdered(p, a);
    }
  }

  // ---------------------------------------------------------------- whole runs

  predicate NoRollback(acts: seq<PubAction>) { forall i :: 0 <= i < |acts| ==> !IsRollback(acts[i]) }

  lemma {:induction false} RunKeepsSafe(p: PubState, acts: seq<PubAction>)
    requires Safe(p)
    ensures Safe(PRun(p, acts))
    ensures Ordered(p) && NoRollback(acts) ==> Ordered(PRun(p, acts))
    decreases |acts|
  {
    if acts != [] {
      StepKeepsSafe(p, acts[0]);
      if Ordered(p) && NoRollback(acts) { StepKeepsOrdered(p, acts[0]); }
      RunKeepsSafe(PStep(p, acts[0]), acts[1..]);
    }
  }

  /** Every manifest made visible has a seq strictly above every earlier visible one. */
  lemma VisibleSeqsIncrease(db: Db, keep: nat, acts: seq<PubAction>)
    requires NoRollback(acts)
    ensures Increasing(PRun(Start(db, keep), acts).published)
  {
    RunKeepsSafe(Start(db, keep), acts);
  }

  /** The manifest last written names a snapshot that is present with that digest and size, even mid-prune. */
  lemma LastManifestNeverDangles(db: Db, keep: nat, acts: seq<PubAction>)
    ensures var p := PRun(Start(db, keep), acts);
            p.published != [] ==> Points(p.bucket.snaps, p.published[|p.published| - 1])
  {
    RunKeepsSafe(Start(db, keep), acts);
  }

  /** A put never lands on a key that was ever used, and no step changes a stored snapshot. */
  lemma SnapshotsNeverOverwritten(db: Db, keep: nat, acts: seq<PubAction>, a: PubAction)
    ensures KeysOnlyAdded(PRun(Start(db, keep), acts), PStep(PRun(Start(db, keep), acts), a))
  {
    RunKeepsSafe(Start(db, keep), acts);
    StepOnlyAdds(PRun(Start(db, keep), acts), a);
  }

  ghost predicate KeysOnlyAdded(p: PubState, q: PubState) {
    && (forall k :: k in p.bucket.snaps && k in q.bucket.snaps ==> q.bucket.snaps[k] == p.bucket.snaps[k])
    && (forall k :: k in q.bucket.snaps && k !in p.bucket.snaps ==> k !in p.everPut)
    && p.everPut <= q.everPut
    && p.bucket.snaps.Keys <= p.everPut
  }

  lemma StepOnlyAdds(p: PubState, a: PubAction)
    requires KeysFresh(p)
    ensures KeysOnlyAdded(p, PStep(p, a))
  {
    if a.Upload? {
      if p.phase.Uploading? { assert p.phase.m.key !in p.everPut; }
    } else {
      assert PStep(p, a).everPut == p.everPut;
    }
  }

  /** A snapshot is deleted only while `keep` higher-sorted ones exist, and never the visible one. */
  lemma PruneKeepsNewest(db: Db, keep: nat, acts: seq<PubAction>, a: PubAction, d: SnapKey)
    requires d in PRun(Start(db, keep), acts).bucket.snaps
    requires d !in PStep(PRun(Start(db, keep), acts), a).bucket.snaps
    ensures var p := PRun(Start(db, keep), acts);
            && |set k | k in p.bucket.snaps && Above(k, d)| >= (if keep == 0 then 1 else keep)
            && p.published != [] && d != p.published[|p.published| - 1].key
  {
    hide PRun;
    var p := PRun(Start(db, keep), acts);
    RunKeepsSafe(Start(db, keep), acts);
    RunKeepsKeep(Start(db, keep), acts);
    var above := set k | k in p.bucket.snaps && Above(k, d);
    assert p.phase.kept <= above;
    SubsetSize(p.phase.kept, above);
  }

  lemma {:induction false} RunKeepsKeep(p: PubState, acts: seq<PubAction>)
    ensures PRun(p, acts).keep == p.keep
    decreases |acts|
  {
    if acts != [] { RunKeepsKeep(PStep(p, acts[0]), acts[1..]); }
  }

  lemma SubsetSize(a: set<SnapKey>, b: set<SnapKey>)
    requires a <= b
    ensures |a| <= |b|
  {
    assert b == a + (b - a);
  }

  // ---------------------------------------------------------------- a rolled back manifest

  predicate TooOldForFloor(b: Bucket) {
    b.latest.Holds? && b.floor.Some? && b.latest.manifest.num + SEQ_FLOOR_RESERVE < b.floor.value
  }

  /** What makes the next seq exceed a seq published earlier: a caller can check each of these. */
  ghost predicate Covers(b: Bucket, previous: Option<Manifest>, num: nat) {
    || !b.latest.Holds?
    || TooOldForFloor(b)
    || b.latest.manifest.num >= num
    || (previous.Some? && previous.value.num >= num)
    || exists k :: k in b.snaps && k.num >= num
  }

  /**
   After any run, rollbacks included: the next seq is at most 99 below anything published, above all
   of it when the manifest is too old for the floor, and above a given seq exactly when Covers says so.
   */
  lemma NextSeqAfterRollback(db: Db, keep: nat, acts: seq<PubAction>, i: nat)
    requires i < |PRun(Start(db, keep), acts).published|
    ensures var p := PRun(Start(db, keep), acts);
            var next := NextSeq(p.bucket, p.mem.last);
            && next + 99 >= p.published[i].num
            && (TooOldForFloor(p.bucket) ==> next > p.published[i].num)
            && (next > p.published[i].num <==> Covers(p.bucket, p.mem.last, p.published[i].num))
  {
    RunKeepsSafe(Start(db, keep), acts);
    var p := PRun(Start(db, keep), acts);
    NextSeqBounds(p.bucket, p.mem.last);
    var r := BestOverKeys(BestFromControl(p.bucket.latest, p.bucket.floor, p.mem.last), p.bucket.snaps.Keys);
    assert NextSeq(p.bucket, p.mem.last) == r + 1;
  }
}
