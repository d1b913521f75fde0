/**
 The remote pause: control.py's poller and resume command, and main.py's kill switch, as a state machine
 over the remote key, the local latch file and the memory of the running process.
 */
module PauseLatch {
  import opened Wrappers

  /** The control key: absent, `paused: false`, a pause with its requested_at, or unreadable content. */
  datatype Remote = Missing | NotPaused | Paused(requestedAt: Option<string>) | Corrupt

  /** What one read of the key brought back; a transport error or a corrupt document is a failure. */
  datatype Reading = Got(remote: Remote) | Failed(corrupt: bool)

  datatype LastState = NoState | SawPaused | SawFalse | SawMissing | SawCorrupt

  datatype Ack = Ack(requestedAt: Option<string>, latched: bool)

  datatype Poller = Poller(remotePaused: bool, verified: bool, lastState: LastState, ackedFor: Option<string>)

  const NEW_POLLER := Poller(false, false, NoState, None)

  /** A process without a poller is one whose control store could not be built. */
  datatype Process = Down | BuildFailed | Running(poller: Poller)

  /** `polls` are the polls of this process that have read the key and not yet done their bookkeeping. */
  datatype World = World(remote: Remote, ack: Option<Ack>, file: bool, process: Process, polls: seq<Reading>,
      resuming: bool)

  datatype Source = Local | RemotePause | RemoteUnverified

  /** `_kill_switch_source` for a bot with a control store; an order needs None. */
  function KillSource(w: World, live: bool): Option<Source> {
    if w.file then Some(Local)
    else if w.process.Running? && w.process.poller.remotePaused then Some(RemotePause)
    else if live && w.process.Running? && !w.process.poller.verified then Some(RemoteUnverified)
    else if live && w.process.BuildFailed? then Some(RemoteUnverified)
    else None
  }

  predicate OrdersAllowed(w: World) { !w.process.Down? && KillSource(w, true).None? }

  /** Orders are forbidden by the file in any mode, by a latched pause, and in a live bot that has read no key yet. */
  lemma KillSourceExactly(w: World, live: bool)
    ensures KillSource(w, live) == Some(Local) <==> w.file
    ensures KillSource(w, live) == Some(RemotePause) <==>
              !w.file && w.process.Running? && w.process.poller.remotePaused
    ensures KillSource(w, live).None? <==>
              && !w.file
              && (w.process.Running? ==> !w.process.poller.remotePaused && (live ==> w.process.poller.verified))
              && (w.process.BuildFailed? ==> !live)
  {
  }

  /** A stopped process sends nothing; a new one has forgotten every read, and a live one must read the key first. */
  lemma FreshProcess(w: World, built: bool)
    ensures Possible(Step(w, Crash), Start(built))
    ensures !OrdersAllowed(Step(w, Crash)) && Step(w, Crash).file == w.file && Step(w, Crash).polls == []
    ensures var t := Step(Step(w, Crash), Start(built));
            && t == w.(process := t.process, polls := [])
            && KillSource(t, true) == Some(if w.file then Local else RemoteUnverified)
            && (KillSource(t, false).None? <==> !w.file)
  {
  }

  // ---------------------------------------------------------------- bookkeeping of one poll

  predicate Readable(r: Remote) { !r.Corrupt? }

  function StateOf(r: Remote): LastState {
    match r
    case Missing => SawMissing
    case NotPaused => SawFalse
    case Paused(_) => SawPaused
    case Corrupt => SawCorrupt
  }

  /** `_latch`: the file first, then the acknowledgement, once per request. */
  function Latched(w: World, p: Poller, requestedAt: Option<string>, fileOk: bool, ackOk: bool): World {
    var file := w.file || fileOk;
    if p.ackedFor == requestedAt then w.(file := file, process := Running(p))
    else if !ackOk then w.(file := file, process := Running(p))
    else w.(file := file, ack := Some(Ack(requestedAt, file)), process := Running(p.(ackedFor := requestedAt)))
  }

  /** `_on_success` and `_on_failure`; `fileOk` and `ackOk` say whether those writes would succeed. */
  function Book(w: World, reading: Reading, fileOk: bool, ackOk: bool): World
    requires w.process.Running? && (reading.Got? ==> Readable(reading.remote))
  {
    var p := w.process.poller;
    match reading
    case Failed(corrupt) => w.(process := Running(if corrupt then p.(lastState := SawCorrupt) else p))
    case Got(remote) =>
      var seen := p.(verified := true, lastState := StateOf(remote));
      if remote.Paused? then Latched(w, seen.(remotePaused := true), remote.requestedAt, fileOk, ackOk)
      else if p.remotePaused && !w.file then w.(process := Running(seen.(remotePaused := false, ackedFor := None)))
      else w.(process := Running(seen))
  }

  // ---------------------------------------------------------------- the state machine

  datatype Action =
    | SetRemote(remote: Remote)                       // the dashboard, or anything else with access to the key
    | Start(built: bool)
    | Crash
    | Read(reading: Reading)
    | Bookkeep(k: nat, fileOk: bool, ackOk: bool)     // of the k-th outstanding read
    | RemoveFile                                      // an operator deletes the file by hand
    | WriteFile                                       // ... or creates it, as the pause command does
    | ResumeClearsRemote(done: bool)
    | ResumeRemovesFile(removed: bool)

  predicate Possible(w: World, a: Action) {
    match a
    case Start(_) => w.process.Down?
    case Read(reading) =>
      w.process.Running? && (reading.Got? ==> Readable(w.remote) && reading.remote == w.remote)
    case Bookkeep(k, _, _) => w.process.Running? && k < |w.polls|
    case ResumeRemovesFile(_) => w.resuming
    case _ => true
  }

  predicate ReadsFit(w: World) { forall k :: 0 <= k < |w.polls| && w.polls[k].Got? ==> Readable(w.polls[k].remote) }

  function Step(w: World, a: Action): World {
    match a
    case SetRemote(remote) => w.(remote := remote)
    case Start(built) => w.(process := if built then Running(NEW_POLLER) else BuildFailed, polls := [])
    case Crash => w.(process := Down, polls := [])
    case Read(reading) => w.(polls := w.polls + [reading])
    case Bookkeep(k, fileOk, ackOk) =>
      if w.process.Running? && k < |w.polls| && (w.polls[k].Got? ==> Readable(w.polls[k].remote)) then
        Book(w, w.polls[k], fileOk, ackOk).(polls := w.polls[..k] + w.polls[k + 1..])
      else w
    case RemoveFile => w.(file := false)
    case WriteFile => w.(file := true)
    case ResumeClearsRemote(done) => if done then w.(remote := Missing, resuming := true) else w.(resuming := false)
    case ResumeRemovesFile(removed) => w.(file := w.file && !removed, resuming := false)
  }

  function Run(w: World, acts: seq<Action>): World
    decreases |acts|
  {
    if acts == [] then w else Run(Step(w, acts[0]), acts[1..])
  }

  predicate AllPossible(w: World, acts: seq<Action>)
    decreases |acts|
  {
    acts == [] || (Possible(w, acts[0]) && AllPossible(Step(w, acts[0]), acts[1..]))
  }

  lemma StepKeepsReadsFit(w: World, a: Action)
    requires ReadsFit(w) && Possible(w, a)
    ensures ReadsFit(Step(w, a))
  {
  }

  // ---------------------------------------------------------------- the latch file

  predicate RemovesFile(a: Action) { a.RemoveFile? || (a.ResumeRemovesFile? && a.removed) }

  /**
   Once the latch file is there, no sequence of remote edits, deletions, corruption, read errors, crashes
   or restarts allows an order in any mode until the local file is removed.
   */
  lemma {:induction false} FileForbidsOrders(w: World, acts: seq<Action>, live: bool)
    requires w.file && forall a :: a in acts ==> !RemovesFile(a)
    ensures Run(w, acts).file && KillSource(Run(w, acts), live) == Some(Local)
    decreases |acts|
  {
    if acts != [] {
      assert acts[0] in acts && Step(w, acts[0]).file;
      FileForbidsOrders(Step(w, acts[0]), acts[1..], live);
    }
  }

  // ---------------------------------------------------------------- a pause that is still in the remote key

  /** Every outstanding read that succeeded saw a pause. */
  predicate NoStaleRead(polls: seq<Reading>) {
    forall k :: 0 <= k < |polls| && polls[k].Got? ==> polls[k].remote.Paused?
  }

  /** The pause is in the key and the process either cannot trade or cannot forget it. */
  predicate Obeys(w: World) {
    && w.remote.Paused?
    && (w.process.Running? ==>
          || (w.process.poller.remotePaused && w.file)
          || (NoStaleRead(w.polls) && (w.process.poller.verified ==> w.process.poller.remotePaused)))
  }

  lemma ObeysForbidsOrders(w: World)
    requires Obeys(w)
    ensures !OrdersAllowed(w)
  {
  }

  /** A process that starts while the pause is in the key obeys it from its first moment. */
  lemma StartObeys(w: World, built: bool)
    requires w.remote.Paused?
    ensures Obeys(Step(w, Start(built)))
  {
  }

  /**
   The bookkeeping of a read that saw the pause makes the process obey it, exactly unless the latch file
   could not be written while a read from before the pause is still outstanding.
   */
  lemma PolledPauseObeys(w: World, k: nat, fileOk: bool, ackOk: bool)
    requires ReadsFit(w) && w.process.Running? && k < |w.polls| && w.remote.Paused?
    requires w.polls[k].Got? && w.polls[k].remote.Paused?
    ensures Obeys(Step(w, Bookkeep(k, fileOk, ackOk))) <==> w.file || fileOk || NoStaleRead(w.polls)
  {
    var rest := w.polls[..k] + w.polls[k + 1..];
    if NoStaleRead(rest) {
      forall j | 0 <= j < |w.polls| && w.polls[j].Got? ensures w.polls[j].remote.Paused? {
        if j < k { assert rest[j] == w.polls[j]; } else if j > k { assert rest[j - 1] == w.polls[j]; }
      }
    }
  }

  /** An operator deletes the file by hand while a read from before the pause is outstanding. */
  predicate RemovedUnderStaleRead(w: World, a: Action) {
    RemovesFile(a) && w.process.Running? && !NoStaleRead(w.polls)
  }

  lemma StepObeys(w: World, a: Action)
    requires Obeys(w) && ReadsFit(w) && Possible(w, a) && Step(w, a).remote.Paused? && !RemovedUnderStaleRead(w, a)
    ensures Obeys(Step(w, a))
  {
  }

  /** The pause stays in the key, and nobody deletes the file under a stale read. */
  predicate PauseStands(w: World, acts: seq<Action>)
    decreases |acts|
  {
    acts == [] || (Step(w, acts[0]).remote.Paused? && !RemovedUnderStaleRead(w, acts[0])
        && PauseStands(Step(w, acts[0]), acts[1..]))
  }

  /**
   From the moment a process obeys the pause, no order is allowed as long as the pause stays in the key,
   through read errors, further polls, crashes, restarts and writes of the file or the acknowledgement that fail.
   */
  lemma {:induction false} StandingPauseForbidsOrders(w: World, acts: seq<Action>)
    requires Obeys(w) && ReadsFit(w) && AllPossible(w, acts) && PauseStands(w, acts)
    ensures Obeys(Run(w, acts)) && !OrdersAllowed(Run(w, acts))
    decreases |acts|
  {
    ObeysForbidsOrders(w);
    if acts != [] {
      StepObeys(w, acts[0]);
      StepKeepsReadsFit(w, acts[0]);
      StandingPauseForbidsOrders(Step(w, acts[0]), acts[1..]);
    }
  }

  const QUIET := World(Missing, None, false, Running(NEW_POLLER), [], false)

  /** The exception is real: two overlapping polls and a latch file that cannot be written let orders through. */
  lemma StaleReadReleasesOrders()
    ensures var w := Step(Step(Step(Step(Step(QUIET, Read(Got(Missing))), SetRemote(Paused(None))),
            Read(Got(Paused(None)))),
                               Bookkeep(1, false, false)), Bookkeep(0, false, false));
            w.remote.Paused? && OrdersAllowed(w)
  {
    var w1 := Step(Step(Step(QUIET, Read(Got(Missing))), SetRemote(Paused(None))), Read(Got(Paused(None))));
    assert w1.polls == [Got(Missing), Got(Paused(None))];
    var w2 := Step(w1, Bookkeep(1, false, false));
    assert w2.polls == [Got(Missing)] && w2.process.poller.remotePaused && !w2.file;
  }

  // ---------------------------------------------------------------- what lets orders through again

  /**
   Only a poll acknowledges, and only a pause: it tells the request it saw, and whether the file is there, unless this
   process has acknowledged that request last.
   */
  lemma AcknowledgedExactly(w: World, a: Action)
    requires ReadsFit(w) && Possible(w, a)
    ensures Step(w, a).ack ==
              if a.Bookkeep? && w.polls[a.k].Got? && w.polls[a.k].remote.Paused? && a.ackOk
                 && w.process.poller.ackedFor != w.polls[a.k].remote.requestedAt
              then Some(Ack(w.polls[a.k].remote.requestedAt, w.file || a.fileOk)) else w.ack
  {
  }

  /** A poll releases a paused bot exactly when it read "not paused" and the local file is gone. */
  lemma PollReleasesExactly(w: World, k: nat, fileOk: bool, ackOk: bool)
    requires ReadsFit(w) && w.process.Running? && k < |w.polls| && !OrdersAllowed(w)
    ensures OrdersAllowed(Step(w, Bookkeep(k, fileOk, ackOk))) <==>
              !w.file && w.polls[k].Got? && !w.polls[k].remote.Paused?
  {
  }

  /** Besides such a poll only the removal of the file can release a bot. */
  lemma NothingElseReleases(w: World, a: Action)
    requires Possible(w, a) && !a.Bookkeep? && !RemovesFile(a) && !OrdersAllowed(w)
    ensures !OrdersAllowed(Step(w, a))
  {
  }

  /** A resume removes the file only after the key was cleared. */
  lemma ResumeClearsFirst(w: World, cleared: bool, removed: bool)
    ensures var t := Step(w, ResumeClearsRemote(cleared));
            && (Possible(t, ResumeRemovesFile(removed)) <==> cleared)
            && t.remote == (if cleared then Missing else w.remote) && t.file == w.file && t.process == w.process
            && Step(t, ResumeRemovesFile(removed)).file == (w.file && !removed)
            && !Possible(Step(t, ResumeRemovesFile(removed)), ResumeRemovesFile(removed))
  {
  }

  /** An operator who deletes the file by hand lets the next poll release the bot, exactly if no pause is in the key. */
  lemma OperatorReleases(w: World, fileOk: bool, ackOk: bool)
    requires w.process.Running? && w.polls == [] && Readable(w.remote)
    ensures OrdersAllowed(Step(Step(Step(w, RemoveFile), Read(Got(w.remote))), Bookkeep(0, fileOk, ackOk))) <==>
              !w.remote.Paused?
    ensures !OrdersAllowed(Step(w, WriteFile))
  {
    var t := Step(Step(w, RemoveFile), Read(Got(w.remote)));
    assert t.polls == [Got(w.remote)] && !t.file;
  }

  /** The world after both steps of a resume and one more poll of the key. */
  function Resumed(w: World, removed: bool): World {
    var w' := Step(Step(w, ResumeClearsRemote(true)), ResumeRemovesFile(removed));
    Step(Step(w', Read(Got(w'.remote))), Bookkeep(0, true, true))
  }

  /** After an admin resume the next poll releases the bot, unless the file could not be removed. */
  lemma ResumeReleases(w: World, removed: bool)
    requires w.process.Running? && w.polls == []
    ensures OrdersAllowed(Resumed(w, removed)) <==> removed || !w.file
  {
    var w' := Step(Step(w, ResumeClearsRemote(true)), ResumeRemovesFile(removed));
    assert Step(w', Read(Got(Missing))).polls == [Got(Missing)];
  }

  /** An acknowledgement says "latched" exactly when the file is there at that moment. */
  lemma AckTellsTheTruth(w: World, a: Action)
    requires Possible(w, a) && ReadsFit(w) && Step(w, a).ack != w.ack
    ensures Step(w, a).ack.Some? && Step(w, a).ack.value.latched == Step(w, a).file
  {
  }

  // ---------------------------------------------------------------- the program

  class ControlStore {
    var remote: Remote
    var ack: Option<Ack>
    constructor () { remote, ack := Missing, None; }
  }

  class LatchFile {
    var present: bool
    constructor () { present := false; }
  }

  class ControlPoller {
    const store: ControlStore
    const latch: LatchFile
    var remotePaused: bool
    var verified: bool
    var lastState: LastState
    var ackedFor: Option<string>

    constructor (store: ControlStore, latch: LatchFile)
      ensures this.store == store && this.latch == latch
      ensures View().process == Running(NEW_POLLER)
    {
      this.store, this.latch := store, latch;
      remotePaused, verified, lastState, ackedFor := false, false, NoState, None;
    }

    /** The world as this poller leaves it between two polls. */
    function View(): World
      reads this, store, latch
    {
      World(store.remote, store.ack, latch.present, Running(Poller(remotePaused, verified, lastState, ackedFor)), [],
          false)
    }

    method WriteLatchFile(fileOk: bool) returns (there: bool)
      modifies latch
      ensures latch.present == (old(latch.present) || fileOk) && there == latch.present
    {
      if latch.present { return true; }
      if fileOk { latch.present := true; }
      there := latch.present;
    }

    method Latch(requestedAt: Option<string>, fileOk: bool, ackOk: bool)
      modifies this`ackedFor, store`ack, latch
      ensures View() == Latched(old(View()), old(View()).process.poller, requestedAt, fileOk, ackOk)
    {
      var there := WriteLatchFile(fileOk);
      if ackedFor == requestedAt { return; }
      if ackOk {
        store.ack := Some(Ack(requestedAt, there));
        ackedFor := requestedAt;
      }
    }

    method OnSuccess(remote: Remote, fileOk: bool, ackOk: bool)
      requires Readable(remote)
      modifies this, store`ack, latch
      ensures View() == Book(old(View()), Got(remote), fileOk, ackOk)
      ensures verified && (remotePaused <==> remote.Paused? || (old(remotePaused) && latch.present))
      ensures latch.present <==> old(latch.present) || (remote.Paused? && fileOk)
      ensures lastState == match remote case Missing => SawMissing case NotPaused => SawFalse case _ => SawPaused
      ensures var acks := remote.Paused? && ackOk && old(ackedFor) != remote.requestedAt;
              && store.ack == (if acks then Some(Ack(remote.requestedAt, latch.present)) else old(store.ack))
              && ackedFor == if acks then remote.requestedAt
                             else if old(remotePaused) && !remotePaused then None else old(ackedFor)
    {
      var wasPaused := remotePaused;
      verified := true;
      lastState := StateOf(remote);
      if remote.Paused? {
        remotePaused := true;
        Latch(remote.requestedAt, fileOk, ackOk);
        return;
      }
      if !wasPaused || latch.present { return; }
      remotePaused, ackedFor := false, None;
    }

    method OnFailure(corrupt: bool)
      modifies this
      ensures View() == Book(old(View()), Failed(corrupt), false, false)
      ensures verified == old(verified) && remotePaused == old(remotePaused) && ackedFor == old(ackedFor)
      ensures lastState == if corrupt then SawCorrupt else old(lastState)
    {
      if corrupt { lastState := SawCorrupt; }
    }

    /** `poll_once`: one read and its bookkeeping. */
    method PollOnce(transportFails: bool, fileOk: bool, ackOk: bool)
      modifies this, store`ack, latch
      ensures var reading := if transportFails then Failed(false) else if store.remote.Corrupt? then Failed(true)
              else Got(store.remote);
              View() == Step(Step(old(View()), Read(reading)), Bookkeep(0, fileOk, ackOk))
    {
      if transportFails {
        OnFailure(false);
      } else if store.remote.Corrupt? {
        OnFailure(true);
      } else {
        OnSuccess(store.remote, fileOk, ackOk);
      }
    }
  }

  /** `python -m nba_trading.control resume`, with a control store: the exit code and what is left behind. */
  method Resume(store: ControlStore, latch: LatchFile, deleteOk: bool, ackDeleteOk: bool, removeOk: bool)
      returns (rc: nat)
    modifies store, latch
    ensures !deleteOk ==> rc == 1 && latch.present == old(latch.present) && store.remote == old(store.remote)
    ensures deleteOk ==> store.remote == Missing && latch.present == (old(latch.present) && !removeOk)
    ensures rc == 0 <==> deleteOk && !latch.present
  {
    if !deleteOk { return 1; }
    store.remote := Missing;
    if ackDeleteOk { store.ack := None; }
    if !latch.present { return 0; }
    if !removeOk { return 1; }
    latch.present := false;
    rc := 0;
  }
}
