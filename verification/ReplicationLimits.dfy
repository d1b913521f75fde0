/** Where the replication promises stop: concrete runs that break them when their conditions fail. */
module ReplicationLimits {
  import opened Wrappers
  import opened Replication
  import opened PublisherSafety
  import opened ChangeDetection
  import opened Subscriber
  import opened EndToEnd

  lemma {:induction false} RunSnoc(sys: System, acts: seq<Action>, a: Action)
    ensures Run(sys, acts + [a]) == Step(Run(sys, acts), a)
    decreases |acts|
  {
    if acts == [] {
      assert [] + [a] == [a];
      assert Run(Step(sys, a), []) == Step(sys, a);
    } else {
      assert (acts + [a])[0] == acts[0] && (acts + [a])[1..] == acts[1..] + [a];
      RunSnoc(Step(sys, acts[0]), acts[1..], a);
    }
  }

  /** One more action at the end of a run. */
  lemma Extend(start: System, sys: System, acts: seq<Action>, a: Action) returns (sys': System, acts': seq<Action>)
    requires sys == Run(start, acts)
    ensures sys' == Step(sys, a) && acts' == acts + [a] && sys' == Run(start, acts')
  {
    RunSnoc(start, acts, a);
    sys', acts' := Step(sys, a), acts + [a];
  }

  predicate Working(p: PubState) { p.phase.Idle? && !p.mem.reseed && SameFile(p) }

  predicate FloorCached(p: PubState) { p.mem.floor.loaded ==> p.mem.floor.value == p.bucket.floor }

  /** First half of a tick in which every call works: a commit of new content, then the upload. */
  lemma UploadsNewContent(start: System, sys: System, acts: seq<Action>, content: Blob)
    returns (sys': System, acts': seq<Action>)
    requires sys == Run(start, acts)
    requires sys.pub.phase.Idle? && !sys.pub.mem.reseed
    requires sys.pub.mem.last.Some? ==> sys.pub.mem.last.value.sha != Sha256(content) && SameFile(sys.pub)
                                        && sys.pub.mem.publishedDv != Some(Current(sys.pub) + 1)
    ensures sys' == Run(start, acts') && (NoRollbacks(acts) ==> NoRollbacks(acts')) && sys'.sub == sys.sub
    ensures var p := sys'.pub;
            && p.phase.Ready? && p.phase.m.sha == Sha256(content) && p.phase.m.size == |content|
            && p.phase.m.key in p.bucket.snaps && p.bucket.snaps[p.phase.m.key] == content
            && SameFile(p) && p.phase.tick.dv == Current(p) && p.published == sys.pub.published
            && p.phase.m.num == (if sys.pub.mem.last.Some? then sys.pub.mem.last.value.num + 1
                                 else NextSeq(sys.pub.bucket, None))
            && p.phase.m.key.num == p.phase.m.num
            && p.bucket == sys.pub.bucket.(snaps := sys.pub.bucket.snaps[p.phase.m.key := content])
            && p.mem.floor == sys.pub.mem.floor
  {
    sys', acts' := Extend(start, sys, acts, ByPublisher(Commit(content)));
    sys', acts' := Extend(start, sys', acts', ByPublisher(BeginTick(0, true)));
    sys', acts' := Extend(start, sys', acts', ByPublisher(PickNum));
    sys', acts' := Extend(start, sys', acts', ByPublisher(Build(0, None, None)));
    sys', acts' := Extend(start, sys', acts', ByPublisher(Upload(Done)));
  }

  /** Second half: the floor, the manifest, no pruning. */
  lemma BecomesVisible(start: System, sys: System, acts: seq<Action>) returns (sys': System, acts': seq<Action>)
    requires sys == Run(start, acts)
    requires sys.pub.phase.Ready? && FloorCached(sys.pub)
    ensures sys' == Run(start, acts') && (NoRollbacks(acts) ==> NoRollbacks(acts')) && sys'.sub == sys.sub
    ensures var (p, m) := (sys'.pub, sys.pub.phase.m);
            && p.phase.Idle? && !p.mem.reseed && p.mem.last == Some(m) && p.bucket.latest == Holds(m)
            && p.published == sys.pub.published + [m] && p.bucket.snaps == sys.pub.bucket.snaps
            && p.bucket.floor == (if sys.pub.bucket.floor.Some? && m.num <= sys.pub.bucket.floor.value
                                  then sys.pub.bucket.floor else Some(m.num + SEQ_FLOOR_RESERVE))
            && FloorCached(p)
            && p.mem.conn == sys.pub.mem.conn && p.db == sys.pub.db && p.mem.publishedDv == Some(sys.pub.phase.tick.dv)
  {
    sys', acts' := Extend(start, sys, acts, ByPublisher(RaiseFloor(Done)));
    sys', acts' := Extend(start, sys', acts', ByPublisher(WriteLatest(Done)));
    sys', acts' := Extend(start, sys', acts', ByPublisher(StopPruning));
    sys', acts' := Extend(start, sys', acts', ByPublisher(Finish));
  }

  lemma Publishes(start: System, sys: System, acts: seq<Action>, content: Blob)
    returns (sys': System, acts': seq<Action>)
    requires sys == Run(start, acts)
    requires sys.pub.phase.Idle? && !sys.pub.mem.reseed && FloorCached(sys.pub)
    requires sys.pub.mem.last.Some? ==> sys.pub.mem.last.value.sha != Sha256(content) && SameFile(sys.pub)
                                        && sys.pub.mem.publishedDv == Some(Current(sys.pub))
    ensures sys' == Run(start, acts') && (NoRollbacks(acts) ==> NoRollbacks(acts')) && sys'.sub == sys.sub
    ensures NewestIs(sys'.pub, content) && sys'.pub.published == sys.pub.published + [sys'.pub.mem.last.value]
    ensures sys.pub.mem.last.Some? ==> sys'.pub.mem.last.value.num == sys.pub.mem.last.value.num + 1
  {
    sys', acts' := UploadsNewContent(start, sys, acts, content);
    sys', acts' := BecomesVisible(start, sys', acts');
  }

  ghost predicate NewestIs(p: PubState, content: Blob) {
    && Working(p) && p.mem.last.Some? && p.bucket.latest == Holds(p.mem.last.value)
    && p.mem.publishedDv == Some(Current(p)) && FloorCached(p)
    && p.mem.last.value.sha == Sha256(content) && p.mem.last.value.size == |content|
    && p.mem.last.value.key in p.bucket.snaps && p.bucket.snaps[p.mem.last.value.key] == content
  }

  /** One pass in which every call works, except perhaps the state write at the end. */
  lemma Syncs(start: System, sys: System, acts: seq<Action>, content: Blob, saves: bool)
    returns (sys': System, acts': seq<Action>)
    requires sys == Run(start, acts)
    requires NewestIs(sys.pub, content) && sys.sub.pass.Resting?
    ensures sys' == Run(start, acts') && (NoRollbacks(acts) ==> NoRollbacks(acts')) && sys'.pub == sys.pub
    ensures var w := PassUpToSave(sys.sub.disk, sys.pub.bucket, 0, true, Some(content));
            sys'.sub == SStep(w, sys.pub.bucket, SaveState(saves))
  {
    sys', acts' := Extend(start, sys, acts, BySubscriber(BeginPass(0, true)));
    sys', acts' := Extend(start, sys', acts', BySubscriber(Compare));
    sys', acts' := Extend(start, sys', acts', BySubscriber(Download(content)));
    sys', acts' := Extend(start, sys', acts', BySubscriber(Install));
    sys', acts' := Extend(start, sys', acts', BySubscriber(SaveState(saves)));
  }

  /**
   Both conditions of SuccessServesTheManifest can fail together, and then it fails: content A, then B
   swapped in with the state write lost, then A again. The last pass reports success and B stays.
   */
  lemma TornPassServesStaleBytes(a: Blob, b: Blob) returns (acts: seq<Action>)
    requires a != b
    ensures NoRollbacks(acts)
    ensures var t := Run(Begin(Db(0, 0, []), 1), acts);
            && t.sub.pass.Resting? && t.pub.bucket.latest.Holds? && t.sub.disk.state.Some?
            && !t.sub.disk.state.value.failed
            && t.sub.disk.state.value.num == Some(t.pub.bucket.latest.manifest.num)
            && t.pub.bucket.latest.manifest.sha == Sha256(a)
            && t.sub.disk.file == Some(b)
  {
    var start := Begin(Db(0, 0, []), 1);
    var sys := start;
    acts := [];
    sys, acts := Publishes(start, sys, acts, a);
    sys, acts := Syncs(start, sys, acts, a, true);
    sys, acts := Publishes(start, sys, acts, b);
    sys, acts := Syncs(start, sys, acts, b, false);
    sys, acts := Publishes(start, sys, acts, a);
    sys, acts := Syncs(start, sys, acts, a, true);
  }

  /** First half of a heartbeat over unchanged content. */
  lemma PreparesHeartbeat(start: System, sys: System, acts: seq<Action>, content: Blob)
    returns (sys': System, acts': seq<Action>)
    requires sys == Run(start, acts) && NewestIs(sys.pub, content)
    ensures sys' == Run(start, acts')
    ensures var p := sys'.pub;
            && p.phase.Ready? && p.phase.m.num == sys.pub.mem.last.value.num + 1
            && p.bucket == sys.pub.bucket && p.published == sys.pub.published && FloorCached(p)
  {
    hide Run;
    sys', acts' := Extend(start, sys, acts, ByPublisher(BeginTick(0, true)));
    sys', acts' := Extend(start, sys', acts', ByPublisher(PickNum));
    sys', acts' := Extend(start, sys', acts', ByPublisher(Build(0, None, None)));
  }

  /** The first publish into an empty bucket, then a heartbeat. */
  lemma PublishThenHeartbeat(start: System) returns (sys: System, acts: seq<Action>)
    requires start == Begin(Db(0, 0, []), 1)
    ensures sys == Run(start, acts)
    ensures var p := sys.pub;
            && p.phase.Idle? && |p.published| == 2 && p.published[0].num == 1 && p.published[1].num == 2
            && p.bucket.floor == Some(101) && p.bucket.snaps.Keys == {p.published[0].key} && p.published[0].key.num == 1
  {
    acts := [];
    assert Run(start, []) == start;
    hide Run;
    sys, acts := UploadsNewContent(start, start, acts, [1]);
    sys, acts := BecomesVisible(start, sys, acts);
    sys, acts := PreparesHeartbeat(start, sys, acts, [1]);
    sys, acts := BecomesVisible(start, sys, acts);
  }

  /** A manifest rolled back inside the reserve makes a restarted publisher issue an old seq again. */
  lemma RollbackRepeatsSeq() returns (acts: seq<Action>)
    ensures var p := Run(Begin(Db(0, 0, []), 1), acts).pub;
            && |p.published| == 3 && p.published[1].num == 2 && p.published[2].num == 2
  {
    var start := Begin(Db(0, 0, []), 1);
    var sys;
    sys, acts := PublishThenHeartbeat(start);
    sys, acts := Extend(start, sys, acts, ByPublisher(RollBackLatest(0)));
    sys, acts := Extend(start, sys, acts, ByPublisher(Crash));
    NextSeqBounds(sys.pub.bucket, None);
    assert NextSeq(sys.pub.bucket, None) == 2;
    sys, acts := UploadsNewContent(start, sys, acts, [2]);
    sys, acts := BecomesVisible(start, sys, acts);
  }
}
