/**
 publisher.py and the store-touching half of snapshot.py, as the code runs them: objects updated in
 place and calls that may raise. Every method is proved to be a run of the actions of Replication,
 so what PublisherSafety and ChangeDetection prove of all runs holds of this code; a crash at any
 point is a prefix of the run followed by Crash.
 */
module PublisherProcess {
  import opened Wrappers
  import opened Replication

  // ---------------------------------------------------------------- the store

  /** Every call of the script works. */
  predicate Calm(faults: seq<Outcome>) { forall i :: 0 <= i < |faults| ==> faults[i].Done? }

  /** One bucket. `faults` is the script of an adversary: how each coming call will behave. */
  class ObjectStore {
    var latest: Slot
    var floor: Option<nat>
    var snaps: map<SnapKey, Blob>
    var faults: seq<Outcome>

    function Contents(): Bucket
      reads this
    {
      Bucket(latest, floor, snaps)
    }

    constructor (faults: seq<Outcome>)
      ensures Contents() == Bucket(Absent, None, map[]) && this.faults == faults
    {
      latest, floor, snaps, this.faults := Absent, None, map[], faults;
    }

    method NextOutcome() returns (o: Outcome)
      modifies this`faults
      ensures o == if old(faults) == [] then Done else old(faults)[0]
      ensures faults == if old(faults) == [] then [] else old(faults)[1..]
      ensures Calm(old(faults)) ==> o.Done? && Calm(faults)
    {
      o := Done;
      if faults != [] {
        o := faults[0];
        faults := faults[1..];
      }
    }

    method PutFile(k: SnapKey, blob: Blob) returns (o: Outcome)
      modifies this`snaps, this`faults
      ensures snaps == if TookEffect(o) then old(snaps)[k := blob] else old(snaps)
      ensures Calm(old(faults)) ==> o.Done? && Calm(faults)
    {
      o := NextOutcome();
      if TookEffect(o) { snaps := snaps[k := blob]; }
    }

    method PutFloor(num: nat) returns (o: Outcome)
      modifies this`floor, this`faults
      ensures floor == if TookEffect(o) then Some(num) else old(floor)
      ensures Calm(old(faults)) ==> o.Done? && Calm(faults)
    {
      o := NextOutcome();
      if TookEffect(o) { floor := Some(num); }
    }

    method PutLatest(m: Manifest) returns (o: Outcome)
      modifies this`latest, this`faults
      ensures latest == if TookEffect(o) then Holds(m) else old(latest)
      ensures Calm(old(faults)) ==> o.Done? && Calm(faults)
    {
      o := NextOutcome();
      if TookEffect(o) { latest := Holds(m); }
    }

    method Delete(k: SnapKey) returns (o: Outcome)
      modifies this`snaps, this`faults
      ensures snaps == if TookEffect(o) then old(snaps) - {k} else old(snaps)
      ensures Calm(old(faults)) ==> o.Done? && Calm(faults)
    {
      o := NextOutcome();
      if TookEffect(o) { snaps := snaps - {k}; }
    }

    /** A read either answers or raises; it changes nothing but the script. */
    method CanRead() returns (ok: bool)
      modifies this`faults
      ensures Calm(old(faults)) ==> ok && Calm(faults)
    {
      var o := NextOutcome();
      ok := o.Done?;
    }

    method ListKeys() returns (ok: bool, keys: seq<SnapKey>)
      modifies this`faults
      ensures ok ==> forall k :: k in keys <==> k in snaps
      ensures ok ==> Distinct(keys)
      ensures Calm(old(faults)) ==> ok && Calm(faults)
    {
      ok := CanRead();
      keys := [];
      var rest := snaps.Keys;
      while rest != {}
        invariant rest <= snaps.Keys
        invariant forall k :: k in keys <==> k in snaps.Keys - rest
        invariant Distinct(keys)
        decreases rest
      {
        var k :| k in rest;
        assert k !in keys;
        keys := keys + [k];
        rest := rest - {k};
      }
    }
  }

  predicate Distinct(keys: seq<SnapKey>) { forall i, j :: 0 <= i < j < |keys| ==> keys[i] != keys[j] }

  predicate Descending(keys: seq<SnapKey>) { forall i, j :: 0 <= i < j < |keys| ==> Above(keys[i], keys[j]) }

  lemma HeadAbove(keys: seq<SnapKey>)
    requires keys != [] && Descending(keys)
    ensures forall x :: x in keys[1..] ==> Above(keys[0], x)
  {
    forall x | x in keys[1..] ensures Above(keys[0], x) {
      var j :| 0 < j < |keys| && keys[j] == x;
    }
  }

  function Insert(k: SnapKey, keys: seq<SnapKey>): (r: seq<SnapKey>)
    requires Descending(keys) && k !in keys
    ensures Descending(r) && forall x :: x in r <==> x == k || x in keys
  {
    if keys == [] then [k]
    else if Above(k, keys[0]) then [k] + keys
    else
      var rest := Insert(k, keys[1..]);
      HeadAbove(keys);
      assert forall j :: 0 <= j < |rest| ==> rest[j] in rest;
      [keys[0]] + rest
  }

  /** `keys.sort(reverse=True)` */
  function SortDescending(keys: seq<SnapKey>): (r: seq<SnapKey>)
    requires Distinct(keys)
    ensures Descending(r) && forall x :: x in r <==> x in keys
  {
    if keys == [] then [] else Insert(keys[0], SortDescending(keys[1..]))
  }

  /** What the publisher itself does: no commit, no damage to the bucket, no crash. */
  predicate OwnAction(a: PubAction) {
    a.BeginTick? || a.PickNum? || a.Build? || a.Upload? || a.RaiseFloor? || a.WriteLatest? || a.ListForPrune?
    || a.PruneOne? || a.StopPruning? || a.Finish? || a.Fail?
  }

  predicate Own(acts: seq<PubAction>) { forall i :: 0 <= i < |acts| ==> OwnAction(acts[i]) }

  // ---------------------------------------------------------------- the floor

  class SeqFloor {
    var value: Option<nat>
    var loaded: bool

    function Cache(): FloorCache
      reads this
    {
      FloorCache(loaded, value)
    }

    constructor ()
      ensures Cache() == FRESH_FLOOR
    {
      value, loaded := None, false;
    }

    /** `ensure`: true if the stored floor is now at least `num`; false if a call raised. */
    method Ensure(store: ObjectStore, num: nat, ghost p: PubState) returns (ok: bool, ghost a: PubAction)
      requires p.phase.Ready? && p.phase.m.num == num
      requires p.bucket == store.Contents() && p.mem.floor == Cache()
      modifies this, store`floor, store`faults
      ensures a.RaiseFloor? || a == Fail(false)
      ensures ok == PStep(p, a).phase.Floored?
      ensures !ok ==> PStep(p, a).phase.Idle?
      ensures store.Contents() == PStep(p, a).bucket
      ensures ok ==> Cache() == PStep(p, a).mem.floor
      ensures Calm(old(store.faults)) ==> ok && Calm(store.faults)
    {
      if !loaded {
        var readable := store.CanRead();
        if !readable { return false, Fail(false); }
        value, loaded := store.floor, true;
      }
      if value.Some? && num <= value.value { return true, RaiseFloor(Done); }
      var raised := num + SEQ_FLOOR_RESERVE;
      var o := store.PutFloor(raised);
      if o.Done? { value := Some(raised); }
      return o.Done?, RaiseFloor(o);
    }
  }

  // ---------------------------------------------------------------- next_seq

  method PickNextSeq(store: ObjectStore, previous: Option<Manifest>) returns (ok: bool, num: nat)
    modifies store`faults
    ensures ok ==> num == NextSeq(store.Contents(), previous)
    ensures Calm(old(store.faults)) ==> ok && Calm(store.faults)
  {
    var best := if previous.Some? then previous.value.num else 0;
    ok := store.CanRead();
    if !ok { return false, 0; }
    if store.latest.Holds? { best := Max(best, store.latest.manifest.num); }
    ok := store.CanRead();
    if !ok { return false, 0; }
    if store.floor.Some? && (!store.latest.Holds?
        || store.floor.value > store.latest.manifest.num + SEQ_FLOOR_RESERVE) {
      best := Max(best, store.floor.value);
    }
    ghost var control := best;
    assert control == BestFromControl(store.latest, store.floor, previous);
    var keys;
    ok, keys := store.ListKeys();
    if !ok { return false, 0; }
    for i := 0 to |keys|
      invariant best >= control
      invariant forall j :: 0 <= j < i ==> keys[j].num <= best
      invariant best == control || exists j :: 0 <= j < i && keys[j].num == best
    {
      best := Max(best, keys[i].num);
    }
    num := best + 1;
    assert IsBestOverKeys(best, control, store.snaps.Keys) by {
      forall k | k in store.snaps.Keys ensures k.num <= best { assert k in keys; }
      if best != control {
        var j :| 0 <= j < |keys| && keys[j].num == best;
        assert keys[j] in store.snaps;
      }
    }
  }

  // ---------------------------------------------------------------- the publisher

  lemma {:induction false} RunAppend(p: PubState, acts: seq<PubAction>, a: PubAction)
    ensures PRun(p, acts + [a]) == PStep(PRun(p, acts), a)
    decreases |acts|
  {
    if acts == [] {
      assert PRun(PStep(p, a), []) == PStep(p, a);
      assert [] + [a] == [a];
    } else {
      assert (acts + [a])[0] == acts[0] && (acts + [a])[1..] == acts[1..] + [a];
      RunAppend(PStep(p, acts[0]), acts[1..], a);
    }
  }

  class Publisher {
    const store: ObjectStore
    var floor: SeqFloor
    var last: Option<Manifest>
    var reseed: bool
    var publishedDv: Option<int>
    var conn: Option<Conn>
    const keep: nat
    ghost var model: PubState

    function Mem(): Memory
      reads this, floor
    {
      Memory(last, reseed, floor.Cache(), publishedDv, conn)
    }

    /** The objects hold exactly the abstract state, between ticks. */
    ghost predicate Valid()
      reads this, floor, store
    {
      && model.bucket == store.Contents()
      && model.mem == Mem()
      && model.phase.Idle?
      && model.keep == keep
    }

    constructor (store: ObjectStore, keep: nat, db: Db)
      requires store.Contents() == Bucket(Absent, None, map[])
      ensures Valid() && model == Start(db, keep) && fresh(floor) && this.store == store
    {
      this.store, this.keep := store, keep;
      floor := new SeqFloor();
      last, reseed, publishedDv, conn := None, false, None, None;
      model := Start(db, keep);
    }

    /** `_fail` */
    method Recover()
      modifies this`reseed, this`floor
      ensures reseed && fresh(floor) && floor.Cache() == FRESH_FLOOR
    {
      reseed := true;
      floor := new SeqFloor();
    }

    /** `_read_dv`, when the database file could be opened. */
    method ReadDv(db: Db, base: int) returns (dv: int)
      modifies this`conn, this`publishedDv
      ensures conn.Some? && dv == conn.value.base + db.commits
      ensures if old(conn).Some? && old(conn).value.file == db.file
              then conn == old(conn) && publishedDv == old(publishedDv)
              else conn == Some(Conn(db.file, base)) && publishedDv == None
    {
      if conn.Some? && conn.value.file != db.file { conn := None; }
      if conn.None? {
        conn := Some(Conn(db.file, base));
        publishedDv := None;
      }
      dv := conn.value.base + db.commits;
    }

    /** One key of the sorted listing past the first `keep`; false when the delete raised. */
    method PruneAt(keys: seq<SnapKey>, i: nat, protect: SnapKey, ghost p: PubState, ghost q: PubState,
                   ghost acts: seq<PubAction>, ghost stored: set<SnapKey>)
      returns (ok: bool, ghost q': PubState, ghost acts': seq<PubAction>)
      requires p.phase.Visible? && p.phase.m.key == protect && Effective(keep) <= i < |keys|
      requires q == PRun(p, acts) && PruneGoing(p, q, keys, i) && q.bucket == store.Contents()
      modifies store`snaps, store`faults
      ensures q' == PRun(p, acts') && q'.bucket == store.Contents() && (Own(acts) ==> Own(acts'))
      ensures if ok then PruneGoing(p, q', keys, i + 1) else PruneDone(p, q')
      ensures Calm(old(store.faults)) ==> ok && Calm(store.faults)
      ensures Calm(old(store.faults)) && LeftAt(keys, i, stored, old(store.snaps.Keys), protect, keep) ==>
                LeftAt(keys, i + 1, stored, store.snaps.Keys, protect, keep)
    {
      LeftNext(keys, i, stored, store.snaps.Keys, protect, keep);
      hide PRun, Calm, LeftAt, PStep, Own;
      ok, q', acts' := true, q, acts;
      if keys[i] != protect {
        PruneNext(p, q, keys, i);
        var o := store.Delete(keys[i]);
        q', acts' := Perform(p, q, acts, PruneOne(keys[i], o));
        ok := o.Done?;
      } else {
        PruneSkip(p, q, keys, i);
      }
    }

    /** `prune_snapshots` inside its own try: whatever happens, the publish stands. */
    method PruneSnapshots(protect: SnapKey, ghost p: PubState) returns (ghost acts: seq<PubAction>)
      requires p.phase.Visible? && p.phase.m.key == protect
      requires p.bucket == store.Contents() && p.keep == keep
      modifies store`snaps, store`faults
      ensures PruneDone(p, PRun(p, acts)) && PRun(p, acts).bucket == store.Contents() && Own(acts)
      ensures Calm(old(store.faults)) ==>
                Calm(store.faults) && Retained(old(store.snaps.Keys), store.snaps.Keys, protect, keep)
    {
      hide PRun, Calm, IsListing, Own;
      PRunNothing(p);
      var ok, keys := store.ListKeys();
      if !ok {
        ghost var q;
        q, acts := Perform(p, p, [], StopPruning);
        return;
      }
      hide PStep;
      keys := SortDescending(keys);
      ghost var q, stored := p, store.snaps.Keys;
      q, acts := Perform(p, p, [], ListForPrune(keys));
      SortedIsListing(keys, store.snaps.Keys);
      ListedForPrune(p, keys);
      LeftStart(keys, stored, protect, keep);
      hide LeftAt, Retained;
      var i := Effective(keep);
      while i < |keys|
        invariant Effective(keep) <= i
        invariant q == PRun(p, acts) && Own(acts)
        invariant PruneGoing(p, q, keys, i) && q.bucket == store.Contents()
        invariant Calm(old(store.faults)) ==>
                    Calm(store.faults) && LeftAt(keys, i, stored, store.snaps.Keys, protect, keep)
      {
        var ok;
        ok, q, acts := PruneAt(keys, i, protect, p, q, acts, stored);
        if !ok { return; }
        i := i + 1;
      }
      if Calm(old(store.faults)) { LeftIsRetained(keys, i, stored, store.snaps.Keys, protect, keep); }
    }

    /** The seq a publish uses: the one it is given, else one from the store. */
    method ChooseNum(num: Option<nat>, ghost p: PubState)
      returns (ok: bool, chosen: nat, ghost q: PubState, ghost acts: seq<PubAction>)
      requires p.phase.Versioned? && p.bucket == store.Contents() && p.mem == Mem()
      requires num == if last.Some? && !reseed then Some(last.value.num + 1) else None
      modifies store`faults
      ensures q == PRun(p, acts) && Own(acts)
      ensures if ok then q == p.(phase := Sequenced(p.phase.tick, chosen))
              else q == p.(phase := Idle, mem := AfterFailure(p.mem))
      ensures ok ==> chosen == if num.Some? then num.value else NextSeq(store.Contents(), last)
      ensures Calm(old(store.faults)) ==> ok && Calm(store.faults)
    {
      hide PRun, Calm, NextSeq, Own;
      PRunNothing(p);
      ok, chosen, q, acts := true, 0, p, [];
      if num.Some? {
        chosen := num.value;
      } else {
        ok, chosen := PickNextSeq(store, last);
        if !ok {
          q, acts := Perform(p, q, acts, Fail(false));
          return;
        }
      }
      q, acts := Perform(p, q, acts, PickNum);
    }

    /** `publish_once` up to the point where the snapshot is stored and the manifest is made. */
    method PrepareManifest(num: Option<nat>, reuse: bool, content: Blob, at: Time, heartbeat: Option<Time>,
                           alive: Option<Time>, ghost p: PubState)
      returns (m: Option<Manifest>, ghost acts: seq<PubAction>)
      requires p.phase.Versioned? && p.phase.tick.reuse == reuse && (reuse ==> last.Some?)
      requires p.bucket == store.Contents() && p.mem == Mem() && p.db.content == content
      requires num == if last.Some? && !reseed then Some(last.value.num + 1) else None
      modifies store
      ensures var q := PRun(p, acts);
              && q == p.(bucket := q.bucket, everPut := q.everPut, mem := q.mem, phase := q.phase)
              && q.bucket == store.Contents()
              && (if m.Some? then q.phase == Ready(p.phase.tick, m.value) && q.mem == p.mem
                  else q.phase.Idle? && q.mem == AfterFailure(p.mem))
      ensures Calm(old(store.faults)) ==> m.Some? && Calm(store.faults)
      ensures m.Some? ==> Tells(last, reuse, content, at, heartbeat, alive, m.value)
      ensures m.Some? ==> m.value.num == if num.Some? then num.value else NextSeq(old(store.Contents()), last)
      ensures Own(acts)
    {
      hide PRun, Calm, NextSeq, Own, ChosenNum;
      m := None;
      ghost var q;
      var ok, chosen;
      ok, chosen, q, acts := ChooseNum(num, p);
      if !ok { return; }
      q, acts := Perform(p, q, acts, Build(at, heartbeat, alive));
      if reuse {
        m := Some(HeartbeatManifest(last.value, chosen, at, alive));
      } else if last.Some? && last.value.sha == Sha256(content) {
        m := Some(HeartbeatManifest(last.value, chosen, at, alive).(heartbeatAt := heartbeat, aliveAt := alive));
      } else {
        var built := ManifestFor(content, chosen, at, heartbeat, alive);
        var o := store.PutFile(built.key, content);
        q, acts := Perform(p, q, acts, Upload(o));
        if o.Done? { m := Some(built); }
      }
    }

    /** The rest of `publish_once`: floor before visible, manifest last, retention after. */
    method Announce(m: Manifest, ghost p: PubState) returns (ok: bool, ghost acts: seq<PubAction>)
      requires p.phase.Ready? && p.phase.m == m
      requires p.bucket == store.Contents() && p.mem == Mem() && p.keep == keep
      modifies store, floor
      ensures PRun(p, acts).bucket == store.Contents()
      ensures if ok then Announced(p, PRun(p, acts)) && PRun(p, acts).mem == Mem() else GaveUp(p, PRun(p, acts))
      ensures Own(acts)
      ensures Calm(old(store.faults)) ==> ok && Retained(old(store.snaps.Keys), store.snaps.Keys, m.key, keep)
    {
      ghost var q := p;
      acts := [];
      ghost var a;
      ok, a := floor.Ensure(store, m.num, q);
      q, acts := Perform(p, q, acts, a);
      if !ok { return; }
      var o := store.PutLatest(m);
      q, acts := Perform(p, q, acts, WriteLatest(o));
      if !o.Done? { return false, acts; }
      ghost var pruned := PruneSnapshots(m.key, q);
      RunConcat(p, acts, pruned);
      acts := acts + pruned;
    }

    method PublishOnce(num: Option<nat>, reuse: bool, content: Blob, at: Time, heartbeat: Option<Time>,
                       alive: Option<Time>, ghost p: PubState)
      returns (m: Option<Manifest>, ghost acts: seq<PubAction>, ghost q: PubState)
      requires p.phase.Versioned? && p.phase.tick.reuse == reuse && (reuse ==> last.Some?)
      requires p.bucket == store.Contents() && p.mem == Mem() && p.keep == keep && p.db.content == content
      requires num == if last.Some? && !reseed then Some(last.value.num + 1) else None
      modifies store, floor
      ensures q == PRun(p, acts) && q.bucket == store.Contents() && q.keep == keep
      ensures m.Some? ==> Published(p, q, m.value) && q.mem == Mem()
      ensures m.Some? ==> Tells(last, reuse, content, at, heartbeat, alive, m.value)
      ensures m.Some? ==> m.value.num == if num.Some? then num.value else NextSeq(old(store.Contents()), last)
      ensures m.None? ==> q.phase.Idle? && q.mem == AfterFailure(p.mem)
      ensures Calm(old(store.faults)) ==> m.Some?
      ensures Own(acts)
    {
      m, acts := PrepareManifest(num, reuse, content, at, heartbeat, alive, p);
      q := PRun(p, acts);
      if m.Some? {
        ghost var more;
        var ok;
        ok, more := Announce(m.value, q);
        RunConcat(p, acts, more);
        q, acts := PRun(q, more), acts + more;
        if !ok { m := None; }
      }
    }

    /** The first half of `_tick`: read the version, decide whether to publish and how. */
    method Decide(db: Db, base: int, due: bool) returns (dv: int, changed: bool)
      requires Valid() && model.db == db
      modifies this`conn, this`publishedDv, this`model
      ensures model == PStep(old(model), BeginTick(base, due)) == BeginTickStep(old(model), base, due)
      ensures model.bucket == store.Contents() && model.mem == Mem() && model.keep == keep && model.db == db
      ensures if changed || due then model.phase == Versioned(TickData(dv, !changed, db.content)) else model.phase.Idle?
      ensures !changed ==> last.Some?
      ensures model.published == old(model).published
    {
      dv := ReadDv(db, base);
      changed := last.None? || publishedDv != Some(dv);
      model := PStep(model, BeginTick(base, due));
    }

    /** The second half of `_tick`: remember what was published, or that a publish failed. */
    method Conclude(m: Option<Manifest>, dv: int, ghost q: PubState) returns (published: bool)
      requires q.bucket == store.Contents() && q.keep == keep
      requires m.Some? ==> q.phase.Pruning? && q.phase.doomed == {} && q.phase.m == m.value
                           && q.phase.tick.dv == dv && q.mem == Mem()
      requires m.None? ==> q.phase.Idle? && q.mem == AfterFailure(Mem())
      modifies this
      ensures published == m.Some? && Valid()
      ensures published ==> last == m && !reseed && model == PStep(q, Finish) && floor == old(floor)
      ensures !published ==> last == old(last) && reseed && model == q && fresh(floor)
    {
      published := m.Some?;
      if published {
        last, reseed, publishedDv := m, false, Some(dv);
        model := PStep(q, Finish);
      } else {
        Recover();
        model := q;
      }
    }

    /** `_tick`: true if a manifest was published. */
    method RunTick(db: Db, base: int, due: bool, readable: bool, at: Time, heartbeat: Option<Time>, alive: Option<Time>)
      returns (published: bool, ghost acts: seq<PubAction>)
      requires Valid() && model.db == db
      modifies this, store, floor
      ensures Valid() && model == PRun(old(model), acts) && Own(acts)
      ensures fresh(floor) || floor == old(floor)
      ensures published ==> last.Some? && !reseed && model.published == old(model).published + [last.value]
      ensures published ==>
                last.value.num == if old(last).Some? && !old(reseed) then old(last).value.num + 1
                                  else NextSeq(old(store.Contents()), old(last))
      ensures published ==>
                var begun := BeginTickStep(old(model), base, due).phase;
                begun.Versioned? && Tells(old(last), begun.tick.reuse, db.content, at, heartbeat, alive, last.value)
      ensures !published ==> last == old(last) && (reseed || acts == [BeginTick(base, due)])
      ensures readable && Calm(old(store.faults)) ==>
              (published <==> BeginTickStep(old(model), base, due).phase.Versioned?)
    {
      hide Own, Calm, PRun, Tells, NextSeq, BeginTickStep;
      ghost var p := model;
      PRunNothing(p);
      published := false;
      if !readable {
        Recover();
        model, acts := Perform(p, p, [], Fail(false));
        return;
      }
      var dv, changed := Decide(db, base, due);
      ghost var begun;
      begun, acts := Perform(p, p, [], BeginTick(base, due));
      if !changed && !due { return; }
      var num := if last.Some? && !reseed then Some(last.value.num + 1) else None;
      ghost var more, q;
      var m;
      m, more, q := PublishOnce(num, !changed, db.content, at, heartbeat, alive, model);
      RunConcat(p, acts, more);
      acts := acts + more;
      published := Conclude(m, dv, q);
      if published { q, acts := Perform(p, q, acts, Finish); }
    }
  }

  ghost predicate Published(p: PubState, q: PubState, m: Manifest)
    requires p.phase.Versioned?
  {
    && q.phase.Pruning? && q.phase.doomed == {} && q.phase.m == m && q.phase.tick == p.phase.tick
    && q.published == p.published + [m]
  }

  ghost predicate Announced(p: PubState, q: PubState)
    requires p.phase.Ready?
  {
    && q.phase.Pruning? && q.phase.doomed == {} && q.phase.m == p.phase.m && q.phase.tick == p.phase.tick
    && q.published == p.published + [p.phase.m]
    && q == p.(bucket := q.bucket, mem := q.mem, phase := q.phase, published := q.published)
  }

  ghost predicate GaveUp(p: PubState, q: PubState) {
    && q.phase.Idle? && q.mem == AfterFailure(p.mem)
    && q == p.(bucket := q.bucket, mem := q.mem, phase := q.phase, published := q.published)
  }

  /** How far a retention pass has come: everything but the bucket and the doomed set is as before. */
  ghost predicate PruneDone(p: PubState, q: PubState)
    requires p.phase.Visible?
  {
    && q.phase.Pruning? && q.phase.doomed == {}
    && q.phase.m == p.phase.m && q.phase.tick == p.phase.tick
    && q == p.(bucket := q.bucket, phase := q.phase)
  }

  ghost predicate PruneGoing(p: PubState, q: PubState, keys: seq<SnapKey>, i: nat)
    requires p.phase.Visible?
  {
    && q.phase.Pruning? && q.phase.doomed == ToSet(if i <= |keys| then keys[i..] else []) - {p.phase.m.key}
    && q.phase.m == p.phase.m && q.phase.tick == p.phase.tick
    && q == p.(bucket := q.bucket, phase := q.phase)
    && Descending(keys)
  }

  function AboveIn(keys: set<SnapKey>, k: SnapKey): set<SnapKey> { set x | x in keys && Above(x, k) }

  /** What a prune in which every call works leaves: the newest `keep` and the protected snapshot. */
  ghost predicate Retained(before: set<SnapKey>, after: set<SnapKey>, protect: SnapKey, keep: nat) {
    forall k :: k in after <==> k in before && (k == protect || |AboveIn(before, k)| < if keep == 0 then 1 else keep)
  }

  /** The same for a loop that has come to position i of the sorted listing. */
  ghost predicate LeftAt(keys: seq<SnapKey>, i: nat, before: set<SnapKey>, after: set<SnapKey>, protect: SnapKey,
                         keep: nat)
  {
    forall k :: k in after <==> k in before && (k == protect || k in keys[if i <= |keys| then i else |keys|..]
                                                || k in keys[..if Effective(keep) <= |keys| then Effective(keep)
                                                    else |keys|])
  }

  lemma LeftStart(keys: seq<SnapKey>, before: set<SnapKey>, protect: SnapKey, keep: nat)
    requires forall k :: k in keys <==> k in before
    ensures LeftAt(keys, Effective(keep), before, before, protect, keep)
  {
    var n := if Effective(keep) <= |keys| then Effective(keep) else |keys|;
    assert keys == keys[..n] + keys[n..];
  }

  lemma LeftNext(keys: seq<SnapKey>, i: nat, before: set<SnapKey>, after: set<SnapKey>, protect: SnapKey, keep: nat)
    requires Descending(keys) && Effective(keep) <= i < |keys|
    ensures LeftAt(keys, i, before, after, protect, keep) ==>
              LeftAt(keys, i + 1, before, if keys[i] == protect then after else after - {keys[i]}, protect, keep)
  {
    assert keys[i..] == [keys[i]] + keys[i + 1..];
    forall j | 0 <= j < |keys| && j != i ensures keys[j] != keys[i] {
      assert j < i ==> Above(keys[j], keys[i]);
      assert i < j ==> Above(keys[i], keys[j]);
    }
  }

  lemma PositionIsRank(keys: seq<SnapKey>, before: set<SnapKey>, j: nat)
    requires Descending(keys) && (forall k :: k in keys <==> k in before) && j < |keys|
    ensures |AboveIn(before, keys[j])| == j
  {
    RankOfPrefix(keys, j);
    assert AboveIn(before, keys[j]) == ToSet(keys[..j]) by {
      forall x | x in before && Above(x, keys[j]) ensures x in keys[..j] {
        var i :| 0 <= i < |keys| && keys[i] == x;
        assert i < j;
      }
    }
  }

  lemma {:induction false} RankOfPrefix(keys: seq<SnapKey>, j: nat)
    requires Descending(keys) && j <= |keys|
    ensures |ToSet(keys[..j])| == j
  {
    if j > 0 {
      RankOfPrefix(keys, j - 1);
      forall i | 0 <= i < j - 1 ensures keys[i] != keys[j - 1] { assert Above(keys[i], keys[j - 1]); }
      assert keys[j - 1] !in ToSet(keys[..j - 1]);
      assert ToSet(keys[..j]) == ToSet(keys[..j - 1]) + {keys[j - 1]};
    }
  }

  lemma LeftIsRetained(keys: seq<SnapKey>, i: nat, before: set<SnapKey>, after: set<SnapKey>, protect: SnapKey,
      keep: nat)
    requires Descending(keys) && (forall k :: k in keys <==> k in before) && i >= |keys|
    requires LeftAt(keys, i, before, after, protect, keep)
    ensures Retained(before, after, protect, keep)
  {
    var n := if Effective(keep) <= |keys| then Effective(keep) else |keys|;
    forall k | k in before ensures k in keys[..n] <==> |AboveIn(before, k)| < Effective(keep) {
      var j :| 0 <= j < |keys| && keys[j] == k;
      PositionIsRank(keys, before, j);
      if k in keys[..n] {
        var j' :| 0 <= j' < n && keys[j'] == k;
        assert j == j';
      }
    }
  }

  lemma SortedIsListing(keys: seq<SnapKey>, all: set<SnapKey>)
    requires Descending(keys) && forall k :: k in keys <==> k in all
    ensures IsListing(keys, all)
  {
  }

  lemma ListedForPrune(p: PubState, keys: seq<SnapKey>)
    requires p.phase.Visible? && IsListing(keys, p.bucket.snaps.Keys)
    ensures PruneGoing(p, PStep(p, ListForPrune(keys)), keys, Effective(p.keep))
    ensures PStep(p, ListForPrune(keys)).bucket == p.bucket
  {
  }

  lemma SplitDoomed(keys: seq<SnapKey>, i: nat)
    requires i < |keys| && Descending(keys)
    ensures ToSet(keys[i..]) == ToSet(keys[i + 1..]) + {keys[i]} && keys[i] !in ToSet(keys[i + 1..])
  {
    assert keys[i..] == [keys[i]] + keys[i + 1..];
    forall j | i < j < |keys| ensures keys[j] != keys[i] { assert Above(keys[i], keys[j]); }
  }

  lemma PruneNext(p: PubState, q: PubState, keys: seq<SnapKey>, i: nat)
    requires p.phase.Visible? && i < |keys| && PruneGoing(p, q, keys, i) && keys[i] != p.phase.m.key
    ensures keys[i] in q.phase.doomed
    ensures PruneGoing(p, PStep(q, PruneOne(keys[i], Done)), keys, i + 1)
    ensures forall o :: o != Done ==> PruneDone(p, PStep(q, PruneOne(keys[i], o)))
    ensures forall o :: PStep(q, PruneOne(keys[i], o)).bucket
                        == if TookEffect(o) then q.bucket.(snaps := q.bucket.snaps - {keys[i]}) else q.bucket
  {
    SplitDoomed(keys, i);
  }

  lemma PruneSkip(p: PubState, q: PubState, keys: seq<SnapKey>, i: nat)
    requires p.phase.Visible? && i < |keys| && PruneGoing(p, q, keys, i) && keys[i] == p.phase.m.key
    ensures PruneGoing(p, q, keys, i + 1)
  {
    SplitDoomed(keys, i);
  }

  lemma PRunNothing(p: PubState)
    ensures PRun(p, []) == p && Own([])
  {
  }

  ghost method Perform(p: PubState, q: PubState, acts: seq<PubAction>, a: PubAction)
    returns (q': PubState, acts': seq<PubAction>)
    requires q == PRun(p, acts)
    ensures q' == PStep(q, a) && acts' == acts + [a] && q' == PRun(p, acts')
    ensures Own(acts) && OwnAction(a) ==> Own(acts')
  {
    RunAppend(p, acts, a);
    q', acts' := PStep(q, a), acts + [a];
  }

  lemma {:induction false} RunConcat(p: PubState, acts: seq<PubAction>, more: seq<PubAction>)
    ensures PRun(p, acts + more) == PRun(PRun(p, acts), more)
    ensures Own(acts) && Own(more) ==> Own(acts + more)
    decreases |acts|
  {
    if acts == [] {
      assert [] + more == more;
    } else {
      assert (acts + more)[0] == acts[0] && (acts + more)[1..] == acts[1..] + more;
      RunConcat(PStep(p, acts[0]), acts[1..], more);
    }
  }
}
