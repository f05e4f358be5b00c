/**
 Ceph-only bootstrap on an existing cluster: any number of members race through
 a compare-and-set lifecycle row, run their steps, crash or lose the recording.
 */
module Bootstrap {
  import opened Common

  datatype Lifecycle = NotBootstrapped | InProgress | Bootstrapped | Failed

  /** The shared rows. `fsid` stands for the fsid and admin-keyring rows, written in one transaction. */
  datatype Db = Db(lifecycle: Lifecycle, fsid: Option<nat>)

  datatype StartResult = Proceed | AlreadyBootstrapped | Partial | Busy

  /** The start transaction as a value; an error rolls everything back, the force reset included. */
  function StartTxn(db: Db, force: bool): (Db, StartResult)
  {
    var lc := if force && db.lifecycle == InProgress then Failed else db.lifecycle;
    if db.fsid.Some? then (db, if lc == Bootstrapped then AlreadyBootstrapped else Partial)
    else if lc == NotBootstrapped || lc == Failed then (db.(lifecycle := InProgress), Proceed)
    else if lc == Bootstrapped then (db, AlreadyBootstrapped)
    else (db, Busy)
  }

  class Database {
    var db: Db

    constructor ()
      ensures db == Db(NotBootstrapped, None)
    {
      db := Db(NotBootstrapped, None);
    }

    /** Reset on request, check the configuration rows, then the conditional update. */
    method AtomicStartBootstrap(force: bool) returns (r: StartResult)
      modifies this
      ensures (db, r) == StartTxn(old(db), force)
      ensures r == Proceed <==>
                && old(db).fsid.None?
                && (old(db).lifecycle == NotBootstrapped || old(db).lifecycle == Failed
                    || (force && old(db).lifecycle == InProgress))
      ensures r == AlreadyBootstrapped <==> old(db).lifecycle == Bootstrapped
      ensures r == Partial <==> old(db).fsid.Some? && old(db).lifecycle != Bootstrapped
      ensures r == Proceed ==> db == Db(InProgress, None)
      ensures r != Proceed ==> db == old(db)
    {
      var before := db;
      if force && db.lifecycle == InProgress {
        db := db.(lifecycle := Failed);
      }
      if db.fsid.Some? {
        r := if db.lifecycle == Bootstrapped then AlreadyBootstrapped else Partial;
      } else if db.lifecycle == NotBootstrapped || db.lifecycle == Failed {
        db := db.(lifecycle := InProgress);
        return Proceed;
      } else {
        r := if db.lifecycle == Bootstrapped then AlreadyBootstrapped else Busy;
      }
      if r == Partial || r == Busy {
        db := before;
      }
    }
  }

  // ----- attempts around the rows -----

  /** Where an attempt is. `Stepping` has not written the rows yet, `Populated` has, `Up` has started daemons. */
  datatype Pc =
    | Checking | Verifying | Ready
    | Stepping | Populated(fsid: nat) | Up(fsid: nat)
    | Recording(success: bool) | Over
  datatype Attempt = Attempt(force: bool, pc: Pc)

  /** `recorded` and `raised` remember every fsid ever written and every cluster ever started. */
  datatype State = State(db: Db, attempts: map<nat, Attempt>, recorded: set<nat>, raised: set<nat>)

  datatype Step =
    | Begin(id: nat, force: bool)
    | LookForStale(id: nat)
    | Verify(id: nat, reachable: bool)
    | Start(id: nat)
    | Populate(id: nat, fsid: nat)
    | BringUp(id: nat)
    | MarkBootstrapped(id: nat)
    | EndSteps(id: nat, success: bool)
    | Record(id: nat)
    | Crash(id: nat)

  predicate At(s: State, id: nat, pc: Pc)
  {
    id in s.attempts && s.attempts[id].pc == pc
  }

  /** The bootstrap steps are running. */
  predicate InFlight(s: State, id: nat)
  {
    id in s.attempts && (s.attempts[id].pc == Stepping || s.attempts[id].pc.Populated? || s.attempts[id].pc.Up?)
  }

  /** Won the row and has not recorded its result. */
  predicate Owner(s: State, id: nat)
  {
    InFlight(s, id) || (id in s.attempts && s.attempts[id].pc.Recording?)
  }

  function Move(s: State, id: nat, pc: Pc): State
    requires id in s.attempts
  {
    s.(attempts := s.attempts[id := s.attempts[id].(pc := pc)])
  }

  function Exec(s: State, step: Step): Option<State>
  {
    match step
    case Begin(id, force) =>
      if id in s.attempts then None else Some(s.(attempts := s.attempts[id := Attempt(force, Checking)]))
    case LookForStale(id) =>
      if !At(s, id, Checking) then None
      else Some(Move(s, id, if s.db.lifecycle != Bootstrapped && s.db.fsid.Some? then Verifying else Ready))
    case Verify(id, reachable) =>
      if !At(s, id, Verifying) then None
      else if reachable then Some(Move(s, id, Over).(db := s.db.(lifecycle := Bootstrapped)))
      else Some(Move(s, id, Over))
    case Start(id) =>
      if !At(s, id, Ready) then None
      else
        var (db, r) := StartTxn(s.db, s.attempts[id].force);
        Some(Move(s, id, if r == Proceed then Stepping else Over).(db := db))
    case Populate(id, fsid) =>
      // the key column is unique: a second insert fails and with it the steps
      if !At(s, id, Stepping) then None
      else if s.db.fsid.Some? then Some(Move(s, id, Recording(false)))
      else Some(Move(s, id, Populated(fsid)).(db := s.db.(fsid := Some(fsid)), recorded := s.recorded + {fsid}))
    case BringUp(id) =>
      if id in s.attempts && s.attempts[id].pc.Populated?
      then Some(Move(s, id, Up(s.attempts[id].pc.fsid)).(raised := s.raised + {s.attempts[id].pc.fsid})) else None
    case MarkBootstrapped(id) =>
      if id in s.attempts && s.attempts[id].pc.Up? then Some(s.(db := s.db.(lifecycle := Bootstrapped))) else None
    case EndSteps(id, success) =>
      if InFlight(s, id) && (success ==> s.attempts[id].pc.Up?) then Some(Move(s, id, Recording(success))) else None
    case Record(id) =>
      if id !in s.attempts || !s.attempts[id].pc.Recording? then None
      else
        var result := if s.attempts[id].pc.success then Bootstrapped else Failed;
        Some(Move(s, id, Over).(db := s.db.(lifecycle := result)))
    case Crash(id) =>
      if id in s.attempts then Some(Move(s, id, Over)) else None
  }

  function RunFrom(s: State, steps: seq<Step>): Option<State>
    decreases |steps|
  {
    if steps == [] then Some(s)
    else
      var next := Exec(s, steps[0]);
      if next.None? then None else RunFrom(next.value, steps[1..])
  }

  const FRESH := State(Db(NotBootstrapped, None), map[], {}, {})

  // ----- with or without force: one identity -----

  /** The rows are written once; whoever populated them holds their fsid. */
  predicate OneIdentity(s: State)
  {
    && s.recorded == (if s.db.fsid.None? then {} else {s.db.fsid.value})
    && s.raised <= s.recorded
    && (forall i :: i in s.attempts && s.attempts[i].pc.Populated? ==> Some(s.attempts[i].pc.fsid) == s.db.fsid)
    && (forall i :: i in s.attempts && s.attempts[i].pc.Up? ==> Some(s.attempts[i].pc.fsid) == s.db.fsid)
    && (forall i :: i in s.attempts && s.attempts[i].pc == Verifying ==> s.db.fsid.Some?)
  }

  lemma StepKeepsIdentity(s: State, step: Step)
    requires OneIdentity(s) && Exec(s, step).Some?
    ensures OneIdentity(Exec(s, step).value)
    ensures s.db.fsid.Some? ==> Exec(s, step).value.db.fsid == s.db.fsid
  {
  }

  /** Once the rows exist no attempt starts its steps, forced or not. */
  lemma NoStepsOverAnExistingCluster(s: State, step: Step, id: nat)
    requires s.db.fsid.Some? && Exec(s, step).Some?
    ensures At(Exec(s, step).value, id, Stepping) ==> At(s, id, Stepping)
  {
  }

  lemma {:induction false} RunKeepsIdentity(s: State, steps: seq<Step>)
    requires OneIdentity(s) && RunFrom(s, steps).Some?
    ensures OneIdentity(RunFrom(s, steps).value)
    decreases |steps|
  {
    if steps != [] {
      StepKeepsIdentity(s, steps[0]);
      RunKeepsIdentity(Exec(s, steps[0]).value, steps[1..]);
    }
  }

  /** No run, even with force, records two fsids or starts two clusters. */
  lemma AtMostOneCluster(steps: seq<Step>)
    requires RunFrom(FRESH, steps).Some?
    ensures var s := RunFrom(FRESH, steps).value;
            && (forall a, b :: a in s.recorded && b in s.recorded ==> a == b)
            && (forall a, b :: a in s.raised && b in s.raised ==> a == b)
  {
    RunKeepsIdentity(FRESH, steps);
  }

  // ----- results -----

  /** The lifecycle row ends up saying how the steps went. */
  lemma RecordTellsTheResult(s: State, id: nat, success: bool)
    requires InFlight(s, id) && (success ==> s.attempts[id].pc.Up?)
    ensures var ended := Exec(s, EndSteps(id, success));
            && ended.Some? && ended.value.db == s.db
            && var recorded := Exec(ended.value, Record(id));
               && recorded.Some? && At(recorded.value, id, Over)
               && recorded.value.db == Db(if success then Bootstrapped else Failed, s.db.fsid)
  {
  }

  /** Whoever comes second to write the rows fails: nothing of the first is touched, nothing is raised, and the result
      is recorded as a failure. */
  lemma SecondWriterFails(s: State, id: nat, fsid: nat)
    requires At(s, id, Stepping) && s.db.fsid.Some?
    ensures var refused := Exec(s, Populate(id, fsid));
            && refused.Some? && refused.value.db == s.db
            && var recorded := Exec(refused.value, Record(id));
               && recorded.Some? && At(recorded.value, id, Over)
               && recorded.value.db == Db(Failed, s.db.fsid)
               && recorded.value.raised == s.raised && recorded.value.recorded == s.recorded
  {
  }

  function Working(id: nat, fsid: nat): seq<Step>
  {
    [Populate(id, fsid), BringUp(id), EndSteps(id, true)]
  }

  lemma StepsWork(s: State, id: nat, fsid: nat) returns (ended: State)
    requires At(s, id, Stepping) && s.db.fsid.None?
    ensures RunFrom(s, Working(id, fsid)) == Some(ended)
    ensures At(ended, id, Recording(true)) && ended.db == s.db.(fsid := Some(fsid))
    ensures fsid in ended.recorded && fsid in ended.raised
  {
    var populated := Exec(s, Populate(id, fsid)).value;
    var up := Exec(populated, BringUp(id)).value;
    ended := Exec(up, EndSteps(id, true)).value;
    RunThree(s, Populate(id, fsid), BringUp(id), EndSteps(id, true), populated, up, ended);
  }

  /** A bootstrap that nobody disturbs writes its fsid, raises its cluster and ends as bootstrapped; whoever comes
      after it is told so. */
  lemma UndisturbedBootstrap(s: State, id: nat, fsid: nat) returns (ended: State, done: State)
    requires id !in s.attempts && s.db.fsid.None? && (s.db.lifecycle == NotBootstrapped || s.db.lifecycle == Failed)
    ensures RunFrom(s, Entering(id, false) + Working(id, fsid)) == Some(ended) && Exec(ended, Record(id)) == Some(done)
    ensures done.db == Db(Bootstrapped, Some(fsid))
    ensures fsid in done.recorded && fsid in done.raised
    ensures forall force :: StartTxn(done.db, force) == (done.db, AlreadyBootstrapped)
  {
    var started := GetsIn(s, id, false);
    ended := StepsWork(started, id, fsid);
    RunConcat(s, Entering(id, false), Working(id, fsid));
    done := Exec(ended, Record(id)).value;
  }

  /** A stale lifecycle row is repaired exactly when the recorded cluster answers; nothing else is changed. */
  lemma StaleRowIsRepaired(s: State, id: nat, reachable: bool)
    requires At(s, id, Checking) && s.db.fsid.Some? && s.db.lifecycle != Bootstrapped
    ensures var looked := Exec(s, LookForStale(id));
            && looked.Some? && At(looked.value, id, Verifying)
            && var verified := Exec(looked.value, Verify(id, reachable));
               && verified.Some? && At(verified.value, id, Over)
               && verified.value.db == if reachable then Db(Bootstrapped, s.db.fsid) else s.db
  {
  }

  // ----- without force: one set of steps at a time -----

  predicate Unforced(steps: seq<Step>)
  {
    forall i :: 0 <= i < |steps| && steps[i].Begin? ==> !steps[i].force
  }

  predicate OneOwner(s: State)
  {
    && OneIdentity(s)
    && (forall i :: i in s.attempts ==> !s.attempts[i].force)
    && (forall i, j :: i in s.attempts && j in s.attempts && Owner(s, i) && Owner(s, j) ==> i == j)
    && (forall i :: i in s.attempts && Owner(s, i) ==> s.db.lifecycle == InProgress || s.db.fsid.Some?)
  }

  predicate Starts(s: State, step: Step)
  {
    step.Start? && At(s, step.id, Ready) && StartTxn(s.db, s.attempts[step.id].force).1 == Proceed
  }

  /** Only winning the row makes an owner. */
  lemma OwnersDoNotGrow(s: State, step: Step, i: nat)
    requires Exec(s, step).Some? && !Starts(s, step)
    ensures Owner(Exec(s, step).value, i) ==> Owner(s, i)
  {
  }

  /** Winning the row without force means that nobody owned it. */
  lemma StartsAlone(s: State, step: Step, i: nat)
    requires OneOwner(s) && Starts(s, step)
    ensures !Owner(s, i)
  {
    assert i in s.attempts && Owner(s, i) ==> s.db.lifecycle == InProgress || s.db.fsid.Some?;
  }

  /** Nobody but the owner moves the lifecycle while the rows are missing. */
  lemma LifecycleFollowsOwner(s: State, step: Step, i: nat)
    requires OneOwner(s) && Exec(s, step).Some? && !Starts(s, step)
    requires Owner(Exec(s, step).value, i)
    ensures var db := Exec(s, step).value.db; db.lifecycle == InProgress || db.fsid.Some?
  {
    OwnersDoNotGrow(s, step, i);
    assert i in s.attempts && Owner(s, i);
    if step.Record? {
      assert Owner(s, step.id);
    }
  }

  lemma StepKeepsOwner(s: State, step: Step)
    requires OneOwner(s) && Exec(s, step).Some? && (step.Begin? ==> !step.force)
    ensures OneOwner(Exec(s, step).value)
  {
    StepKeepsIdentity(s, step);
    var s' := Exec(s, step).value;
    forall i, j | i in s'.attempts && j in s'.attempts && Owner(s', i) && Owner(s', j)
      ensures i == j
    {
      if Starts(s, step) {
        StartsAlone(s, step, i);
        StartsAlone(s, step, j);
      } else {
        OwnersDoNotGrow(s, step, i);
        OwnersDoNotGrow(s, step, j);
      }
    }
    forall i | i in s'.attempts && Owner(s', i)
      ensures s'.db.lifecycle == InProgress || s'.db.fsid.Some?
    {
      if !Starts(s, step) {
        LifecycleFollowsOwner(s, step, i);
      }
    }
  }

  lemma {:induction false} RunKeepsOwner(s: State, steps: seq<Step>)
    requires OneOwner(s) && RunFrom(s, steps).Some? && Unforced(steps)
    ensures OneOwner(RunFrom(s, steps).value)
    decreases |steps|
  {
    if steps != [] {
      StepKeepsOwner(s, steps[0]);
      assert forall i :: 0 <= i < |steps[1..]| ==> steps[1..][i] == steps[i + 1];
      RunKeepsOwner(Exec(s, steps[0]).value, steps[1..]);
    }
  }

  /** In every interleaving without force, at most one set of bootstrap steps is in flight. */
  lemma AtMostOneInFlight(steps: seq<Step>, a: nat, b: nat)
    requires RunFrom(FRESH, steps).Some? && Unforced(steps)
    requires InFlight(RunFrom(FRESH, steps).value, a) && InFlight(RunFrom(FRESH, steps).value, b)
    ensures a == b
  {
    RunKeepsOwner(FRESH, steps);
    var s := RunFrom(FRESH, steps).value;
    assert Owner(s, a) && Owner(s, b);
  }

  // ----- with force: exactly when a start joins a live bootstrap -----

  /** A bootstrap that calls itself done has its rows. */
  predicate DoneHasRows(s: State)
  {
    && OneIdentity(s)
    && (s.db.lifecycle == Bootstrapped ==> s.db.fsid.Some?)
    && (forall i :: i in s.attempts && s.attempts[i].pc == Recording(true) ==> s.db.fsid.Some?)
  }

  lemma {:induction false} RunKeepsRows(s: State, steps: seq<Step>)
    requires DoneHasRows(s) && RunFrom(s, steps).Some?
    ensures DoneHasRows(RunFrom(s, steps).value)
    decreases |steps|
  {
    if steps != [] {
      StepKeepsIdentity(s, steps[0]);
      StepKeepsRows(s, steps[0]);
      RunKeepsRows(Exec(s, steps[0]).value, steps[1..]);
    }
  }

  lemma StepKeepsRows(s: State, step: Step)
    requires DoneHasRows(s) && Exec(s, step).Some?
    ensures DoneHasRows(Exec(s, step).value)
  {
    StepKeepsIdentity(s, step);
  }

  /** In every run, an attempt that is ready to start beside a live bootstrap joins it exactly when the rows are not
      written yet and it is forced or the lifecycle row does not say that one is running. */
  lemma JoinsLiveBootstrapIff(steps: seq<Step>, a: nat, b: nat)
    requires RunFrom(FRESH, steps).Some?
    requires InFlight(RunFrom(FRESH, steps).value, a) && At(RunFrom(FRESH, steps).value, b, Ready)
    ensures var s := RunFrom(FRESH, steps).value;
            var after := Exec(s, Start(b));
            && after.Some? && a != b && InFlight(after.value, a)
            && (InFlight(after.value, b) <==> s.db.fsid.None? && (s.attempts[b].force || s.db.lifecycle != InProgress))
  {
    RunKeepsRows(FRESH, steps);
  }

  /** For a forced attempt only the rows count: force is unsafe exactly until the live bootstrap has written them. */
  lemma ForceJoinsIff(steps: seq<Step>, a: nat, b: nat)
    requires RunFrom(FRESH, steps).Some?
    requires InFlight(RunFrom(FRESH, steps).value, a) && At(RunFrom(FRESH, steps).value, b, Ready)
    requires RunFrom(FRESH, steps).value.attempts[b].force
    ensures var s := RunFrom(FRESH, steps).value;
            InFlight(Exec(s, Start(b)).value, a) && InFlight(Exec(s, Start(b)).value, b) <==> s.db.fsid.None?
  {
    JoinsLiveBootstrapIff(steps, a, b);
  }

  function Entering(id: nat, force: bool): seq<Step>
  {
    [Begin(id, force), LookForStale(id), Start(id)]
  }

  lemma RunThree(s: State, x: Step, y: Step, z: Step, t: State, u: State, v: State)
    requires Exec(s, x) == Some(t) && Exec(t, y) == Some(u) && Exec(u, z) == Some(v)
    ensures RunFrom(s, [x, y, z]) == Some(v)
  {
    assert [x, y, z][1..] == [y, z] && [y, z][1..] == [z] && [z][1..] == [];
    assert RunFrom(u, [z]) == RunFrom(v, []);
    assert RunFrom(t, [y, z]) == RunFrom(u, [z]);
  }

  lemma {:induction false} RunConcat(s: State, a: seq<Step>, b: seq<Step>)
    requires RunFrom(s, a).Some?
    ensures RunFrom(s, a + b) == RunFrom(RunFrom(s, a).value, b)
    decreases |a|
  {
    if a == [] {
      assert a + b == b;
    } else {
      assert (a + b)[1..] == a[1..] + b;
      RunConcat(Exec(s, a[0]).value, a[1..], b);
    }
  }

  /** Before the rows exist a newcomer gets in, if it is forced or the lifecycle row is free. */
  lemma GetsIn(s: State, id: nat, force: bool) returns (started: State)
    requires id !in s.attempts && s.db.fsid.None? && s.db.lifecycle != Bootstrapped
    requires force || s.db.lifecycle != InProgress
    ensures RunFrom(s, Entering(id, force)) == Some(started)
    ensures At(started, id, Stepping) && started.db == Db(InProgress, None)
    ensures started.attempts.Keys == s.attempts.Keys + {id}
    ensures forall i :: i in s.attempts ==> started.attempts[i] == s.attempts[i]
  {
    var begun := Exec(s, Begin(id, force)).value;
    var ready := Exec(begun, LookForStale(id)).value;
    started := Exec(ready, Start(id)).value;
    RunThree(s, Begin(id, force), LookForStale(id), Start(id), begun, ready, started);
  }

  /** A witness: force takes the row from a live bootstrap. */
  lemma ForceAdmitsTwoInFlight()
    ensures exists steps :: RunFrom(FRESH, steps).Some?
              && InFlight(RunFrom(FRESH, steps).value, 0) && InFlight(RunFrom(FRESH, steps).value, 1)
  {
    var first := GetsIn(FRESH, 0, false);
    var second := GetsIn(first, 1, true);
    RunConcat(FRESH, Entering(0, false), Entering(1, true));
    assert InFlight(second, 0) && InFlight(second, 1);
  }

  // ----- the members' race over the real transaction -----

  /** Any race of members whose starts go through the database transaction is a run of the model. */
  method Race(steps: seq<Step>) returns (s: Option<State>)
    ensures s == RunFrom(FRESH, steps)
  {
    var d := new Database();
    var state := FRESH;
    assert steps[0..] == steps;
    for i := 0 to |steps|
      invariant state.db == d.db
      invariant RunFrom(FRESH, steps) == RunFrom(state, steps[i..])
    {
      assert steps[i..][0] == steps[i] && steps[i..][1..] == steps[i + 1..];
      var next := Exec(state, steps[i]);
      if next.None? { return None; }
      if steps[i].Start? {
        var id := steps[i].id;
        var r := d.AtomicStartBootstrap(state.attempts[id].force);
        state := Move(state, id, if r == Proceed then Stepping else Over).(db := d.db);
      } else {
        state := next.value;
        d.db := state.db;
      }
    }
    return Some(state);
  }
}
