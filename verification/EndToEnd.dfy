/** Publisher, bucket and subscriber together: what a reader is served, over all runs. */
module EndToEnd {
  import opened Wrappers
  import opened Replication
  import opened PublisherSafety
  import opened Subscriber

  datatype System = System(pub: PubState, sub: SubState)

  datatype Action = ByPublisher(p: PubAction) | BySubscriber(s: SubAction)

  ghost function Step(sys: System, a: Action): System {
    match a
    case ByPublisher(p) => sys.(pub := PStep(sys.pub, p))
    case BySubscriber(s) => sys.(sub := SStep(sys.sub, sys.pub.bucket, s))
  }

  ghost function Run(sys: System, acts: seq<Action>): System
    decreases |acts|
  {
    if acts == [] then sys else Run(Step(sys, acts[0]), acts[1..])
  }

  function Begin(db: Db, keep: nat): System { System(Start(db, keep), EMPTY_SUBSCRIBER) }

  predicate NoRollbacks(acts: seq<Action>) {
    forall i :: 0 <= i < |acts| ==> !(acts[i].ByPublisher? && IsRollback(acts[i].p))
  }

  // ---------------------------------------------------------------- invariants of the reader

  /** Some manifest published with a seq between lo and hi has this digest. */
  ghost predicate Between(published: seq<Manifest>, lo: nat, hi: nat, sha: Digest) {
    exists j :: 0 <= j < |published| && lo <= published[j].num <= hi && published[j].sha == sha
  }

  /** A stored (seq, digest) pair was really published. */
  ghost predicate Known(published: seq<Manifest>, st: SyncState) {
    st.num.Some? ==> st.sha.Some? && Between(published, st.num.value, st.num.value, st.sha.value)
  }

  function Floor(prev: Option<SyncState>): nat {
    if prev.Some? && prev.value.num.Some? then prev.value.num.value else 0
  }

  function PassManifest(pass: Pass): Option<Manifest> {
    match pass
    case Resting => None
    case Saving(_, good, _) => good
    case _ => Some(pass.m)
  }

  predicate Reading(pass: Pass) { pass.Got? || pass.Fetching? || pass.Received? }

  /** The pass under way started from the disk as it is, with the newest manifest of that moment. */
  ghost predicate PassFits(published: seq<Manifest>, s: SubState) {
    && (Reading(s.pass) ==> s.pass.prev == s.disk.state)
    && (s.pass.Got? ==> s.pass.have == s.disk.file.Some?)
    && (PassManifest(s.pass).Some? ==>
          && PassManifest(s.pass).value in published
          && Floor(s.disk.state) <= PassManifest(s.pass).value.num)
    && (s.pass.Saving? && s.pass.good.Some? ==>
          s.pass.next.num == Some(s.pass.good.value.num) && s.pass.next.sha == Some(s.pass.good.value.sha))
    && (s.pass.Saving? && s.pass.good.None? ==>
          && Floor(Some(s.pass.next)) == Floor(s.disk.state)
          && (s.disk.state.Some? ==>
                s.pass.next.num == s.disk.state.value.num && s.pass.next.sha == s.disk.state.value.sha)
          && (s.disk.state.None? ==> s.pass.next.num == None))
  }

  /** Holds in every run without rollbacks: a reader only ever holds what was published, and only moves up. */
  ghost predicate Good(sys: System) {
    && Safe(sys.pub) && Ordered(sys.pub)
    && (sys.sub.disk.state.Some? ==> Known(sys.pub.published, sys.sub.disk.state.value))
    && PassFits(sys.pub.published, sys.sub)
  }

  lemma BetweenGrows(published: seq<Manifest>, m: Manifest)
    ensures forall lo: nat, hi: nat, sha :: Between(published, lo, hi, sha) ==> Between(published + [m], lo, hi, sha)
  {
    forall lo: nat, hi: nat, sha | Between(published, lo, hi, sha) ensures Between(published + [m], lo, hi, sha) {
      var j :| 0 <= j < |published| && lo <= published[j].num <= hi && published[j].sha == sha;
      assert (published + [m])[j] == published[j];
    }
  }

  lemma PublishedOnlyGrows(p: PubState, a: PubAction)
    ensures PStep(p, a).published == p.published
            || (a.WriteLatest? && p.phase.Floored? && PStep(p, a).published == p.published + [p.phase.m])
  {
  }

  lemma PublisherStepKeepsGood(sys: System, a: PubAction)
    requires Good(sys) && !IsRollback(a)
    ensures Good(Step(sys, ByPublisher(a)))
  {
    StepKeepsSafe(sys.pub, a);
    StepKeepsOrdered(sys.pub, a);
    PublishedOnlyGrows(sys.pub, a);
    if a.WriteLatest? && sys.pub.phase.Floored? {
      BetweenGrows(sys.pub.published, sys.pub.phase.m);
    }
  }

  lemma BeginKeepsGood(sys: System, a: SubAction)
    requires Good(sys) && a.BeginPass?
    ensures Good(Step(sys, BySubscriber(a)))
  {
    if sys.sub.pass.Resting? && a.readable && sys.pub.bucket.latest.Holds? {
      var m := sys.pub.bucket.latest.manifest;
      assert forall i :: 0 <= i < |sys.pub.published| ==> sys.pub.published[i].num <= m.num;
    }
  }

  lemma SaveKeepsGood(sys: System, a: SubAction)
    requires Good(sys) && a.SaveState?
    ensures Good(Step(sys, BySubscriber(a)))
  {
    var s := sys.sub;
    if s.pass.Saving? && s.pass.good.Some? {
      var m := s.pass.good.value;
      var j :| 0 <= j < |sys.pub.published| && sys.pub.published[j] == m;
      assert Between(sys.pub.published, m.num, m.num, m.sha);
    }
  }

  lemma SubscriberStepKeepsGood(sys: System, a: SubAction)
    requires Good(sys)
    ensures Good(Step(sys, BySubscriber(a)))
  {
    if a.BeginPass? {
      BeginKeepsGood(sys, a);
    } else if a.SaveState? {
      SaveKeepsGood(sys, a);
    }
  }

  lemma {:induction false} RunKeepsGood(sys: System, acts: seq<Action>)
    requires Good(sys) && NoRollbacks(acts)
    ensures Good(Run(sys, acts))
    decreases |acts|
  {
    if acts != [] {
      match acts[0] {
        case ByPublisher(p) => PublisherStepKeepsGood(sys, p);
        case BySubscriber(s) => SubscriberStepKeepsGood(sys, s);
      }
      RunKeepsGood(Step(sys, acts[0]), acts[1..]);
    }
  }

  /** A pass that got hold of an intact manifest never fails with "seq went backwards". */
  lemma NeverBackwards(db: Db, keep: nat, acts: seq<Action>)
    requires NoRollbacks(acts)
    ensures var s := Run(Begin(db, keep), acts).sub;
            s.pass.Got? ==> !Backwards(s.pass.m, s.pass.prev, s.pass.have)
  {
    RunKeepsGood(Begin(db, keep), acts);
  }

  // ---------------------------------------------------------------- the served file

  /** A pass about to report success serves what its manifest names. */
  predicate GoodServes(s: SubState) {
    s.pass.Saving? && s.pass.good.Some? ==> Serves(s.disk, s.pass.good.value)
  }

  /** The process dies, or the state write fails, after the file was swapped. */
  predicate Tears(s: SubState, a: SubAction) {
    s.pass.Saving? && s.pass.installed && (a.Die? || a == SaveState(false))
  }

  ghost predicate NoTears(sys: System, acts: seq<Action>)
    decreases |acts|
  {
    acts == [] ||
    (!(acts[0].BySubscriber? && Tears(sys.sub, acts[0].s)) && NoTears(Step(sys, acts[0]), acts[1..]))
  }

  /** Without tears, the state file names the digest of the file beside it. */
  predicate Agrees(s: SubState) {
    && GoodServes(s)
    && (s.pass.Saving? && s.pass.installed ==> s.pass.good.Some?)
    && (s.disk.file.Some? && s.disk.state.Some? && s.disk.state.value.num.Some?
        && !(s.pass.Saving? && s.pass.installed) ==>
          s.disk.state.value.sha == Some(Sha256(s.disk.file.value)))
  }

  lemma SubscriberStepKeepsAgrees(sys: System, a: SubAction)
    requires Good(sys) && Agrees(sys.sub) && !Tears(sys.sub, a)
    ensures Agrees(Step(sys, BySubscriber(a)).sub)
  {
  }

  lemma {:induction false} RunKeepsAgrees(sys: System, acts: seq<Action>)
    requires Good(sys) && NoRollbacks(acts) && NoTears(sys, acts) && Agrees(sys.sub)
    ensures Agrees(Run(sys, acts).sub)
    decreases |acts|
  {
    if acts != [] {
      match acts[0] {
        case ByPublisher(p) => PublisherStepKeepsGood(sys, p);
        case BySubscriber(s) => SubscriberStepKeepsGood(sys, s); SubscriberStepKeepsAgrees(sys, s);
      }
      RunKeepsAgrees(Step(sys, acts[0]), acts[1..]);
    }
  }

  /** Bytes that were superseded do not come back. */
  ghost predicate NoRecurrence(published: seq<Manifest>) {
    forall i, j, k :: 0 <= i < j < k < |published| && published[i].sha == published[k].sha ==>
      published[j].sha == published[i].sha
  }

  ghost predicate AtLeast(published: seq<Manifest>, lo: nat, sha: Digest) {
    exists j :: 0 <= j < |published| && lo <= published[j].num && published[j].sha == sha
  }

  /** The served file comes from a manifest no older than the stored one, and no newer than the one in hand. */
  ghost predicate FileFits(published: seq<Manifest>, s: SubState) {
    && GoodServes(s)
    && (s.disk.file.Some? ==>
          && AtLeast(published, Floor(s.disk.state), Sha256(s.disk.file.value))
          && (PassManifest(s.pass).Some? ==>
                Between(published, Floor(s.disk.state), PassManifest(s.pass).value.num, Sha256(s.disk.file.value))))
  }

  /** If the digest of a published manifest was already stored, everything between has it too. */
  lemma NothingBetween(published: seq<Manifest>, lo: nat, m: Manifest, sha: Digest)
    requires Increasing(published) && NoRecurrence(published) && m in published
    requires Between(published, lo, lo, m.sha) && Between(published, lo, m.num, sha)
    ensures sha == m.sha
  {
    var i :| 0 <= i < |published| && lo <= published[i].num <= lo && published[i].sha == m.sha;
    var j :| 0 <= j < |published| && lo <= published[j].num <= m.num && published[j].sha == sha;
    var k :| 0 <= k < |published| && published[k] == m;
    assert i <= j <= k;
  }

  lemma BetweenIsAtLeast(published: seq<Manifest>, lo: nat, hi: nat, sha: Digest)
    requires Between(published, lo, hi, sha)
    ensures AtLeast(published, lo, sha)
  {
  }

  lemma BeginKeepsFileFits(sys: System, a: SubAction)
    requires Good(sys) && FileFits(sys.pub.published, sys.sub) && a.BeginPass?
    ensures FileFits(sys.pub.published, Step(sys, BySubscriber(a)).sub)
  {
    var (s, published) := (sys.sub, sys.pub.published);
    if s.pass.Resting? && a.readable && sys.pub.bucket.latest.Holds? && s.disk.file.Some? {
      var m := sys.pub.bucket.latest.manifest;
      var j :| 0 <= j < |published| && Floor(s.disk.state) <= published[j].num
               && published[j].sha == Sha256(s.disk.file.value);
      assert published[j].num <= m.num;
    }
  }

  lemma CompareKeepsFileFits(sys: System)
    requires Good(sys) && NoRecurrence(sys.pub.published) && FileFits(sys.pub.published, sys.sub)
    ensures FileFits(sys.pub.published, Step(sys, BySubscriber(Compare)).sub)
  {
    var s := sys.sub;
    if s.pass.Got? && SameSnapshot(s.pass.m, s.pass.prev, s.pass.have) {
      NothingBetween(sys.pub.published, Floor(s.disk.state), s.pass.m, Sha256(s.disk.file.value));
    }
  }

  lemma InstallKeepsFileFits(sys: System)
    requires Good(sys) && FileFits(sys.pub.published, sys.sub)
    ensures FileFits(sys.pub.published, Step(sys, BySubscriber(Install)).sub)
  {
    var (s, published) := (sys.sub, sys.pub.published);
    if s.pass.Received? {
      var m := s.pass.m;
      var j :| 0 <= j < |published| && published[j] == m;
      assert Between(published, Floor(s.disk.state), m.num, m.sha);
      BetweenIsAtLeast(published, Floor(s.disk.state), m.num, m.sha);
    }
  }

  lemma SaveKeepsFileFits(sys: System, works: bool)
    requires Good(sys) && FileFits(sys.pub.published, sys.sub)
    ensures FileFits(sys.pub.published, Step(sys, BySubscriber(SaveState(works))).sub)
  {
    var (s, published) := (sys.sub, sys.pub.published);
    if s.pass.Saving? && s.pass.good.Some? {
      var m := s.pass.good.value;
      var j :| 0 <= j < |published| && published[j] == m;
      assert AtLeast(published, m.num, m.sha);
    }
  }

  lemma SubscriberStepKeepsFileFits(sys: System, a: SubAction)
    requires Good(sys) && NoRecurrence(sys.pub.published) && FileFits(sys.pub.published, sys.sub)
    ensures FileFits(sys.pub.published, Step(sys, BySubscriber(a)).sub)
  {
    match a
    case BeginPass(_, _) => BeginKeepsFileFits(sys, a);
    case Compare => CompareKeepsFileFits(sys);
    case Install => InstallKeepsFileFits(sys);
    case SaveState(works) => SaveKeepsFileFits(sys, works);
    case _ =>
  }

  lemma PublisherStepKeepsFileFits(sys: System, a: PubAction)
    requires FileFits(sys.pub.published, sys.sub)
    ensures FileFits(Step(sys, ByPublisher(a)).pub.published, sys.sub)
  {
    PublishedOnlyGrows(sys.pub, a);
    if a.WriteLatest? && sys.pub.phase.Floored? && sys.sub.disk.file.Some? {
      var (s, published) := (sys.sub, sys.pub.published);
      BetweenGrows(published, sys.pub.phase.m);
      var j :| 0 <= j < |published| && Floor(s.disk.state) <= published[j].num
               && published[j].sha == Sha256(s.disk.file.value);
      assert (published + [sys.pub.phase.m])[j] == published[j];
    }
  }

  lemma {:induction false} RunPublishedGrows(sys: System, acts: seq<Action>)
    ensures sys.pub.published <= Run(sys, acts).pub.published
    decreases |acts|
  {
    if acts != [] {
      if acts[0].ByPublisher? { PublishedOnlyGrows(sys.pub, acts[0].p); }
      RunPublishedGrows(Step(sys, acts[0]), acts[1..]);
    }
  }

  lemma NoRecurrencePrefix(a: seq<Manifest>, b: seq<Manifest>)
    requires a <= b && NoRecurrence(b)
    ensures NoRecurrence(a)
  {
  }

  lemma {:induction false} RunKeepsFileFits(sys: System, acts: seq<Action>)
    requires Good(sys) && NoRollbacks(acts) && FileFits(sys.pub.published, sys.sub)
    requires NoRecurrence(Run(sys, acts).pub.published)
    ensures var t := Run(sys, acts); FileFits(t.pub.published, t.sub)
    decreases |acts|
  {
    if acts != [] {
      RunPublishedGrows(sys, acts);
      NoRecurrencePrefix(sys.pub.published, Run(sys, acts).pub.published);
      match acts[0] {
        case ByPublisher(p) => PublisherStepKeepsGood(sys, p); PublisherStepKeepsFileFits(sys, p);
        case BySubscriber(s) => SubscriberStepKeepsGood(sys, s); SubscriberStepKeepsFileFits(sys, s);
      }
      RunKeepsFileFits(Step(sys, acts[0]), acts[1..]);
    }
  }

  /**
   End to end: a pass that is about to record success serves exactly the bytes its manifest names,
   if no pass was torn or no superseded bytes ever came back.
   */
  lemma SuccessServesTheManifest(db: Db, keep: nat, acts: seq<Action>)
    requires NoRollbacks(acts)
    requires NoTears(Begin(db, keep), acts) || NoRecurrence(Run(Begin(db, keep), acts).pub.published)
    ensures GoodServes(Run(Begin(db, keep), acts).sub)
  {
    if NoTears(Begin(db, keep), acts) {
      RunKeepsAgrees(Begin(db, keep), acts);
    } else {
      RunKeepsFileFits(Begin(db, keep), acts);
    }
  }

  /** An undisturbed pass at rest over an intact manifest succeeds and serves the snapshot itself. */
  lemma UndisturbedPassServes(db: Db, keep: nat, acts: seq<Action>, at: Time)
    requires NoRollbacks(acts)
    requires NoTears(Begin(db, keep), acts) || NoRecurrence(Run(Begin(db, keep), acts).pub.published)
    requires var t := Run(Begin(db, keep), acts); t.sub.pass.Resting? && t.pub.bucket.latest.Holds?
    ensures var t := Run(Begin(db, keep), acts);
            var m := t.pub.bucket.latest.manifest;
            && m.key in t.pub.bucket.snaps
            && (var after := SyncPass(t.sub.disk, t.pub.bucket, at, t.pub.bucket.snaps[m.key]).disk;
                && after.file == Some(t.pub.bucket.snaps[m.key])
                && after.state.Some? && !after.state.value.failed && after.state.value.num == Some(m.num))
  {
    var t := Run(Begin(db, keep), acts);
    var m := t.pub.bucket.latest.manifest;
    var s := t.sub;
    RunKeepsGood(Begin(db, keep), acts);
    UndisturbedPass(s.disk, t.pub.bucket, at, m);
    if NoTears(Begin(db, keep), acts) {
      RunKeepsAgrees(Begin(db, keep), acts);
    } else {
      RunKeepsFileFits(Begin(db, keep), acts);
      BeginKeepsFileFits(t, BeginPass(at, true));
      if StateLies(s.disk, m) {
        NothingBetween(t.pub.published, Floor(s.disk.state), m, Sha256(s.disk.file.value));
      }
    }
  }
}
