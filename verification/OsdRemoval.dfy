/**
 Removing one OSD. Every command is recorded in a trace together with the state it met, and between any two
 commands the environment moves: the service may respawn a process whose ready marker exists, and a boot message
 that was sent before the process stopped may be committed at any later time.
 */
module OsdRemoval {
  import opened Common

  const PURGE_ATTEMPTS: nat := 10
  const PURGE_ROUNDS: nat := 2

  /** `boots` counts the boot messages sent and not yet committed to the OSD map. */
  datatype Osd = Osd(row: bool, running: bool, ready: bool, suppressed: bool,
                     inTree: bool, inMap: bool, up: bool, boots: nat)

  datatype Act =
    | Migrated | EnoughLeft | ScaledDown | TreeLook
    | SafeToStop | Out | Stopped | Down
    | MapCheck | Committed | SafeToDestroy | Purge
    | AuxCleaned | ConfigRemoved | RestoreTried | RowDeleted

  /** Gone for now, and nothing will bring it back. */
  predicate Quiet(o: Osd)
  {
    !o.running && !o.ready
  }

  /** What a trace has shown so far: its commands, whether a look has found the OSD in the tree, whether the tree was
      looked at after the stop, what the last look at the OSD map met, and the boot messages still on their way when the
      process was stopped. */
  datatype Summary = Summary(acts: set<Act>, tree: bool, relooked: bool, check: Option<Osd>, late: nat)

  const NOTHING := Summary({}, false, false, None, 0)

  /** Before the commit, the restoration and the deletion of the record. */
  predicate Uncommitted(seen: Summary)
  {
    Committed !in seen.acts && RestoreTried !in seen.acts && RowDeleted !in seen.acts
  }

  /** The same looks at the tree, and the same stop. */
  predicate SameTree(a: Summary, b: Summary)
  {
    a.tree == b.tree && a.relooked == b.relooked && a.late == b.late
  }

  /** A command, with the state in which it took effect and the summary of the commands before it. */
  datatype Entry = Entry(act: Act, osd: Osd, seen: Summary)

  type Trace = seq<Entry>

  function Next(e: Entry): Summary
  {
    Summary(e.seen.acts + {e.act},
            e.seen.tree || (e.act == TreeLook && e.osd.inTree),
            e.seen.relooked || (e.act == TreeLook && Stopped in e.seen.acts),
            if e.act == MapCheck then Some(e.osd) else e.seen.check,
            if e.act == Stopped then e.osd.boots else e.seen.late)
  }

  predicate SeenAbsent(seen: Summary)
  {
    seen.check.Some? && !seen.check.value.inMap
  }

  /** An OSD that was found in the tree has been taken out, and that only when it was safe to stop. */
  predicate TakenOut(bypass: bool, seen: Summary)
  {
    seen.tree ==> Out in seen.acts && (bypass || SafeToStop in seen.acts)
  }

  /** Found in the tree, or not found there even after the stop, with the map looked at instead; and marked down if it
      is known to either. */
  predicate MarkedDown(seen: Summary)
  {
    && (seen.tree || (seen.relooked && seen.check.Some?))
    && (seen.tree || (seen.check.Some? && seen.check.value.inMap) ==> Down in seen.acts)
  }

  /** Which command may follow which. */
  predicate Allowed(bypass: bool, e: Entry)
  {
    match e.act
    case Out => bypass || SafeToStop in e.seen.acts
    case EnoughLeft => Migrated in e.seen.acts
    case ScaledDown => Migrated in e.seen.acts && (bypass || EnoughLeft in e.seen.acts)
    case TreeLook => ScaledDown in e.seen.acts
    case Stopped => Quiet(e.osd) && TreeLook in e.seen.acts && TakenOut(bypass, e.seen)
    case Down => Stopped in e.seen.acts && Quiet(e.osd) && TakenOut(bypass, e.seen)
    case Committed => Stopped in e.seen.acts && TakenOut(bypass, e.seen) && MarkedDown(e.seen)
    case SafeToDestroy => Committed in e.seen.acts
    case Purge => Committed in e.seen.acts && Quiet(e.osd) && (bypass || SafeToDestroy in e.seen.acts)
    case AuxCleaned => Committed in e.seen.acts && SeenAbsent(e.seen)
    case ConfigRemoved => AuxCleaned in e.seen.acts
    case RestoreTried => Committed !in e.seen.acts
    case RowDeleted => ConfigRemoved in e.seen.acts && SeenAbsent(e.seen)
    case Migrated | SafeToStop | MapCheck => true
  }

  ghost predicate Lawful(bypass: bool, t: Trace)
  {
    && (forall i :: 0 <= i < |t| ==> Allowed(bypass, t[i]))
    && (forall i :: 0 <= i < |t| && i == 0 ==> t[i].seen == NOTHING)
    && (forall i, j :: 0 <= i && j == i + 1 < |t| ==> t[j].seen == Next(t[i]))
  }

  /** The summary of the whole trace. */
  ghost predicate Sums(t: Trace, seen: Summary)
  {
    && (t == [] ==> seen == NOTHING)
    && (forall i :: 0 <= i < |t| && i == |t| - 1 ==> seen == Next(t[i]))
  }

  predicate Happened(t: Trace, n: nat, act: Act)
    requires n <= |t|
  {
    exists i :: 0 <= i < n && t[i].act == act
  }

  /** The last look before entry `n` found no such id. */
  predicate LookedAbsent(t: Trace, n: nat)
    requires n <= |t|
  {
    exists i :: 0 <= i < n && t[i].act == MapCheck && !t[i].osd.inMap && forall k :: i < k < n ==> t[k].act != MapCheck
  }

  /** A look before entry `n` found the OSD in the tree. */
  predicate FoundInTree(t: Trace, n: nat)
    requires n <= |t|
  {
    exists i :: 0 <= i < n && t[i].act == TreeLook && t[i].osd.inTree
  }

  /** A look before entry `n` came after the stop. */
  predicate LookedAfterStop(t: Trace, n: nat)
    requires n <= |t|
  {
    exists i :: 0 <= i < n && t[i].act == TreeLook && Happened(t, i, Stopped)
  }

  /** Summaries say what they should: which commands came before. */
  lemma {:induction false} SummaryIsHistory(bypass: bool, t: Trace, n: nat, seen: Summary, act: Act)
    requires Lawful(bypass, t) && n <= |t| && Sums(t[..n], seen)
    ensures act in seen.acts <==> Happened(t, n, act)
  {
    if n > 0 {
      var last := LastSums(bypass, t, n, seen);
      SummaryIsHistory(bypass, t, n - 1, last.seen, act);
      assert Happened(t, n, act) <==> Happened(t, n - 1, act) || last.act == act;
    }
  }

  /** What the looks found. */
  lemma {:induction false} LooksAreHistory(bypass: bool, t: Trace, n: nat, seen: Summary)
    requires Lawful(bypass, t) && n <= |t| && Sums(t[..n], seen)
    ensures SeenAbsent(seen) <==> LookedAbsent(t, n)
    ensures seen.tree <==> FoundInTree(t, n)
    ensures seen.relooked <==> LookedAfterStop(t, n)
  {
    if n > 0 {
      var last := LastSums(bypass, t, n, seen);
      SummaryIsHistory(bypass, t, n - 1, last.seen, Stopped);
      assert LookedAfterStop(t, n) <==>
             LookedAfterStop(t, n - 1) || (last.act == TreeLook && Happened(t, n - 1, Stopped));
      LooksAreHistory(bypass, t, n - 1, last.seen);
      FoundStep(t, n);
      LookStep(t, n);
    }
  }

  lemma LastSums(bypass: bool, t: Trace, n: nat, seen: Summary) returns (last: Entry)
    requires Lawful(bypass, t) && 0 < n <= |t| && Sums(t[..n], seen)
    ensures last == t[n - 1] && seen == Next(last) && Sums(t[..n - 1], last.seen)
  {
    last := t[n - 1];
    assert t[..n][n - 1] == last;
    EntrySums(bypass, t, n - 1);
  }

  lemma FoundStep(t: Trace, n: nat)
    requires 0 < n <= |t|
    ensures FoundInTree(t, n) <==> FoundInTree(t, n - 1) || (t[n - 1].act == TreeLook && t[n - 1].osd.inTree)
  {
  }

  lemma LookStep(t: Trace, n: nat)
    requires 0 < n <= |t|
    ensures LookedAbsent(t, n) <==>
              if t[n - 1].act == MapCheck then !t[n - 1].osd.inMap else LookedAbsent(t, n - 1)
  {
    if t[n - 1].act != MapCheck && LookedAbsent(t, n - 1) {
      var i :| 0 <= i < n - 1 && t[i].act == MapCheck && !t[i].osd.inMap
               && forall k :: i < k < n - 1 ==> t[k].act != MapCheck;
      assert forall k :: i < k < n ==> t[k].act != MapCheck;
    }
  }

  lemma EntrySums(bypass: bool, t: Trace, n: nat)
    requires Lawful(bypass, t) && n < |t|
    ensures Sums(t[..n], t[n].seen)
  {
    if n > 0 {
      assert t[..n][n - 1] == t[n - 1];
    }
  }

  /** What a lawful trace shows, read entry by entry. */
  lemma LawfulOrder(bypass: bool, t: Trace, n: nat)
    requires Lawful(bypass, t) && n < |t|
    ensures t[n].act == Down || t[n].act == Purge ==> !t[n].osd.running && Happened(t, n, Stopped)
    ensures t[n].act == Purge && !bypass ==> Happened(t, n, SafeToDestroy)
    ensures t[n].act == Stopped ==>
              && Happened(t, n, Migrated) && Happened(t, n, ScaledDown) && Happened(t, n, TreeLook)
              && (bypass || Happened(t, n, EnoughLeft))
    ensures (t[n].act == Stopped || t[n].act == Down || t[n].act == Committed) && FoundInTree(t, n) ==>
              Happened(t, n, Out) && (bypass || Happened(t, n, SafeToStop))
    ensures t[n].act == Out ==> bypass || Happened(t, n, SafeToStop)
    ensures t[n].act == Committed && !FoundInTree(t, n) ==> LookedAfterStop(t, n)
    ensures t[n].act == Committed && (FoundInTree(t, n) || !LookedAbsent(t, n)) ==> Happened(t, n, Down)
    ensures t[n].act == AuxCleaned ==> Happened(t, n, Committed) && LookedAbsent(t, n)
    ensures t[n].act == RestoreTried ==> !Happened(t, n, Committed)
    ensures t[n].act == RowDeleted ==> LookedAbsent(t, n) && Happened(t, n, AuxCleaned)
  {
    EntrySums(bypass, t, n);
    forall act ensures act in t[n].seen.acts <==> Happened(t, n, act) {
      SummaryIsHistory(bypass, t, n, t[n].seen, act);
    }
    LooksAreHistory(bypass, t, n, t[n].seen);
    if t[n].act == Stopped {
      Earlier(bypass, t, n, TreeLook, ScaledDown);
      Earlier(bypass, t, n, ScaledDown, Migrated);
      if !bypass { Earlier(bypass, t, n, ScaledDown, EnoughLeft); }
    }
    if t[n].act == Purge {
      Earlier(bypass, t, n, Committed, Stopped);
    }
    if t[n].act == RowDeleted {
      Earlier(bypass, t, n, ConfigRemoved, AuxCleaned);
    }
  }

  /** A command that needs another one before it brings that one along. */
  lemma Earlier(bypass: bool, t: Trace, n: nat, act: Act, needed: Act)
    requires Lawful(bypass, t) && n <= |t| && Happened(t, n, act)
    requires || (act == Committed && needed == Stopped) || (act == ConfigRemoved && needed == AuxCleaned)
             || (act == TreeLook && needed == ScaledDown) || (act == ScaledDown && needed == Migrated)
             || (act == ScaledDown && needed == EnoughLeft && !bypass)
    ensures Happened(t, n, needed)
  {
    var i :| 0 <= i < n && t[i].act == act;
    EntrySums(bypass, t, i);
    SummaryIsHistory(bypass, t, i, t[i].seen, needed);
    assert Allowed(bypass, t[i]);
  }

  lemma LawfulAppend(bypass: bool, t: Trace, seen: Summary, e: Entry)
    requires Lawful(bypass, t) && Sums(t, seen) && e.seen == seen && Allowed(bypass, e)
    ensures Lawful(bypass, t + [e]) && Sums(t + [e], Next(e))
  {
  }

  /** How often the monitors can still find the OSD up. */
  function Pending(o: Osd): nat
  {
    o.boots + if o.up then 1 else 0
  }

  /** What the environment may have made of `o`. Once the process is gone and autostart is suppressed only the
      boot messages still on their way can change what the monitors know. */
  predicate Drifted(o: Osd, p: Osd)
  {
    && p.row == o.row && p.ready == o.ready && p.suppressed == o.suppressed
    && (Quiet(o) ==> Quiet(p) && p.boots <= o.boots && Pending(p) <= Pending(o))
    && (Quiet(o) && p.boots == o.boots ==> p == o)
  }

  /** The same once commands of the removal itself may have run. */
  predicate Progressed(o: Osd, p: Osd)
  {
    && p.row == o.row && p.ready == o.ready && p.suppressed == o.suppressed
    && (Quiet(o) ==> Quiet(p) && p.boots <= o.boots)
  }

  function Landed(o: Osd, inTree: bool): Osd
    requires o.boots > 0
  {
    o.(boots := o.boots - 1, inMap := true, up := true, inTree := o.inTree || inTree)
  }

  function Downed(o: Osd): Osd
  {
    o.(up := false)
  }

  /** A purge the monitors accept: they do not have the OSD up. */
  function Purged(o: Osd): Osd
    requires !o.up
  {
    o.(inMap := false, inTree := false)
  }

  /** The last look saw no such id, and only a boot message that landed after it can have brought one back. */
  predicate AbsentSince(look: Option<Osd>, o: Osd)
  {
    look.Some? && !look.value.inMap && o.boots <= look.value.boots && (o.boots == look.value.boots ==> !o.inMap)
  }

  lemma StaysAbsent(look: Option<Osd>, o: Osd, p: Osd)
    requires AbsentSince(look, o) && Quiet(o) && Drifted(o, p)
    ensures AbsentSince(look, p) && Quiet(p)
  {
  }

  // ----- the environment -----

  /** What the environment makes of the OSD before each command. */
  type Environment = (nat, Osd) -> Osd

  predicate ObeysAt(env: Environment, k: nat, o: Osd)
  {
    Drifted(o, env(k, o))
  }

  ghost predicate Obeys(env: Environment)
  {
    forall k: nat, o: Osd :: ObeysAt(env, k, o)
  }

  datatype Move = Respawn | Die | Send | Land(placed: bool)

  function Moved(o: Osd, m: Move): Osd
  {
    match m
    case Respawn => if o.ready then o.(running := true) else o
    case Die => o.(running := false)
    case Send => if o.running then o.(boots := o.boots + 1) else o
    case Land(placed) => if o.boots > 0 then Landed(o, placed) else o
  }

  function Drift(o: Osd, moves: seq<Move>): Osd
  {
    if moves == [] then o else Moved(Drift(o, moves[..|moves| - 1]), moves[|moves| - 1])
  }

  lemma {:induction false} DriftIsBounded(o: Osd, moves: seq<Move>)
    ensures Drifted(o, Drift(o, moves))
  {
    if moves != [] {
      DriftIsBounded(o, moves[..|moves| - 1]);
      MoveIsBounded(o, Drift(o, moves[..|moves| - 1]), moves[|moves| - 1]);
    }
  }

  lemma MoveIsBounded(o: Osd, p: Osd, m: Move)
    requires Drifted(o, p)
    ensures Drifted(o, Moved(p, m))
  {
  }

  /** The respawns, deaths, boot messages sent and boot messages committed before each command. */
  type Schedule = nat -> seq<Move>

  function Following(schedule: Schedule): Environment
  {
    (k: nat, o: Osd) => Drift(o, schedule(k))
  }

  lemma SchedulesObey(schedule: Schedule)
    ensures Obeys(Following(schedule))
  {
    forall k: nat, o: Osd ensures ObeysAt(Following(schedule), k, o) {
      DriftIsBounded(o, schedule(k));
    }
  }

  // ----- the purge without faults, as a function of the environment -----

  datatype Purging = Purging(osd: Osd, ok: bool, clock: nat)

  function PurgeAttempts(o: Osd, env: Environment, clock: nat, attempt: nat): Purging
    decreases PURGE_ATTEMPTS - attempt, clock
  {
    if attempt >= PURGE_ATTEMPTS then Purging(o, false, clock)
    else
      var p := env(clock, o);
      if !p.up then Purging(Purged(p), true, clock + 1)
      else if attempt + 1 == PURGE_ATTEMPTS then Purging(p, false, clock + 1)
      else PurgeAttempts(Downed(env(clock + 1, p)), env, clock + 2, attempt + 1)
  }

  function PurgeRounds(o: Osd, env: Environment, clock: nat, round: nat): Purging
    decreases PURGE_ROUNDS - round, clock
  {
    if round >= PURGE_ROUNDS then Purging(o, false, clock)
    else
      var p := PurgeAttempts(o, env, clock, 0);
      if !p.ok then p
      else
        var seen := env(p.clock, p.osd);
        if !seen.inMap || round + 1 == PURGE_ROUNDS then Purging(seen, !seen.inMap, p.clock + 1)
        else PurgeRounds(Downed(env(p.clock + 1, seen)), env, p.clock + 2, round + 1)
  }

  /** One attempt from `a` to `b`: the purge works, or it is refused and answered by a `down` unless it was the last. */
  predicate Attempted(env: Environment, attempt: nat, a: Purging, b: Purging)
  {
    var p := env(a.clock, a.osd);
    if !p.up then b == Purging(Purged(p), true, a.clock + 1)
    else if attempt + 1 >= PURGE_ATTEMPTS then b == Purging(p, false, a.clock + 1)
    else b == Purging(Downed(env(a.clock + 1, p)), false, a.clock + 2)
  }

  lemma AttemptStep(env: Environment, attempt: nat, a: Purging, b: Purging)
    requires attempt < PURGE_ATTEMPTS && Attempted(env, attempt, a, b)
    ensures PurgeAttempts(a.osd, env, a.clock, attempt)
         == if b.ok then b else PurgeAttempts(b.osd, env, b.clock, attempt + 1)
  {
  }

  predicate StepAt(env: Environment, path: seq<Purging>, i: nat)
    requires i + 1 < |path|
  {
    !path[i].ok && Attempted(env, i, path[i], path[i + 1])
  }

  /** Attempts one after the other, until one works or all are used up. */
  ghost predicate AttemptPath(env: Environment, path: seq<Purging>)
  {
    0 < |path| <= PURGE_ATTEMPTS + 1 && forall i: nat :: i + 1 < |path| ==> StepAt(env, path, i)
  }

  lemma PathAppend(env: Environment, path: seq<Purging>, b: Purging)
    requires AttemptPath(env, path) && |path| <= PURGE_ATTEMPTS
    requires !path[|path| - 1].ok && Attempted(env, |path| - 1, path[|path| - 1], b)
    ensures AttemptPath(env, path + [b])
  {
    forall i: nat | i + 1 < |path + [b]|
      ensures StepAt(env, path + [b], i)
    {
      if i + 1 < |path| { assert StepAt(env, path, i); }
    }
  }

  lemma {:induction false} PathIsAttempts(env: Environment, path: seq<Purging>, k: nat)
    requires AttemptPath(env, path) && k < |path| && !path[k].ok
    requires path[|path| - 1].ok || |path| == PURGE_ATTEMPTS + 1
    ensures PurgeAttempts(path[k].osd, env, path[k].clock, k) == path[|path| - 1]
    decreases |path| - k
  {
    if k + 1 < |path| {
      assert StepAt(env, path, k);
      AttemptStep(env, k, path[k], path[k + 1]);
      if k + 2 < |path| { assert StepAt(env, path, k + 1); }
      if !path[k + 1].ok { PathIsAttempts(env, path, k + 1); }
    }
  }

  /** The look after attempts that ended in `p`, and the `down` that answers a return unless it was the last round. */
  predicate Looked(env: Environment, round: nat, p: Purging, b: Purging)
  {
    var seen := env(p.clock, p.osd);
    if !seen.inMap || round + 1 >= PURGE_ROUNDS then b == Purging(seen, !seen.inMap, p.clock + 1)
    else b == Purging(Downed(env(p.clock + 1, seen)), false, p.clock + 2)
  }

  lemma RoundStep(env: Environment, round: nat, a: Purging, p: Purging, b: Purging)
    requires round < PURGE_ROUNDS && p == PurgeAttempts(a.osd, env, a.clock, 0)
    requires p.ok ==> Looked(env, round, p, b)
    ensures PurgeRounds(a.osd, env, a.clock, round)
         == if !p.ok then p else if b.ok then b else PurgeRounds(b.osd, env, b.clock, round + 1)
  {
  }

  lemma {:induction false} AttemptsOutlastBoots(o: Osd, env: Environment, clock: nat, attempt: nat)
    requires Obeys(env) && Quiet(o) && Pending(o) + attempt < PURGE_ATTEMPTS
    ensures var p := PurgeAttempts(o, env, clock, attempt);
            p.ok && Quiet(p.osd) && !p.osd.inMap && !p.osd.up && p.osd.boots <= o.boots
    decreases PURGE_ATTEMPTS - attempt, clock
  {
    var p := env(clock, o);
    assert ObeysAt(env, clock, o) && ObeysAt(env, clock + 1, p);
    if p.up {
      AttemptsOutlastBoots(Downed(env(clock + 1, p)), env, clock + 2, attempt + 1);
    }
  }

  lemma {:induction false} RoundsOutlastBoots(o: Osd, env: Environment, clock: nat, round: nat)
    requires Obeys(env) && Quiet(o) && o.boots + round < PURGE_ROUNDS
    ensures var p := PurgeRounds(o, env, clock, round);
            p.ok && Quiet(p.osd) && !p.osd.inMap && p.osd.boots <= o.boots
    decreases PURGE_ROUNDS - round, clock
  {
    AttemptsOutlastBoots(o, env, clock, 0);
    var p := PurgeAttempts(o, env, clock, 0);
    var seen := env(p.clock, p.osd);
    assert ObeysAt(env, p.clock, p.osd) && ObeysAt(env, p.clock + 1, seen);
    if seen.inMap {
      RoundsOutlastBoots(Downed(env(p.clock + 1, seen)), env, p.clock + 2, round + 1);
    }
  }

  // ----- how many late boots the purge survives -----

  /** Boots land before the commands `first` and `second`; otherwise nothing moves. */
  function OneBefore(first: nat, second: nat): Schedule
  {
    (k: nat) => if k == first || k == second then [Land(true)] else []
  }

  lemma OneBeforeMoves(first: nat, second: nat, k: nat, o: Osd)
    ensures Following(OneBefore(first, second))(k, o) == if k == first || k == second then Moved(o, Land(true)) else o
  {
    LandOne(o);
    assert Drift(o, []) == o;
    assert OneBefore(first, second)(k) == if k == first || k == second then [Land(true)] else [];
  }

  lemma LandOne(o: Osd)
    ensures Drift(o, [Land(true)]) == Moved(o, Land(true))
  {
    assert [Land(true)][..0] == [];
    assert Drift(o, [Land(true)]) == Moved(Drift(o, []), Land(true));
  }

  /** An undisturbed purge: an OSD that is up costs a refused attempt and a `down` first. */
  lemma UndisturbedAttempts(o: Osd, env: Environment, clock: nat)
    requires env(clock, o) == o
    requires o.up ==> env(clock + 1, o) == o && env(clock + 2, Downed(o)) == Downed(o)
    ensures PurgeAttempts(o, env, clock, 0) == Purging(Purged(Downed(o)), true, clock + if o.up then 3 else 1)
  {
    if o.up {
      assert PurgeAttempts(Downed(o), env, clock + 2, 1) == Purging(Purged(Downed(o)), true, clock + 3);
    }
  }

  lemma SecondRoundDefeated(o: Osd, env: Environment, clock: nat)
    requires !o.up && o.boots > 0 && env(clock, o) == o && env(clock + 1, Purged(o)) == Landed(Purged(o), true)
    ensures !PurgeRounds(o, env, clock, PURGE_ROUNDS - 1).ok
  {
    UndisturbedAttempts(o, env, clock);
    var p := PurgeAttempts(o, env, clock, 0);
    RoundStep(env, PURGE_ROUNDS - 1, Purging(o, false, clock), p, Purging(Landed(Purged(o), true), false, clock + 2));
  }

  /** Two outstanding boots can each land after a purge and before the look that follows it. */
  lemma BootsDefeatRounds(o: Osd, clock: nat) returns (schedule: Schedule)
    requires Quiet(o) && o.boots >= PURGE_ROUNDS
    ensures !PurgeRounds(o, Following(schedule), clock, 0).ok
  {
    var look: nat := clock + if o.up then 3 else 1;
    schedule := OneBefore(look, look + 3);
    var env := Following(schedule);
    forall k: nat, q: Osd
      ensures env(k, q) == if k == look || k == look + 3 then Moved(q, Land(true)) else q
    {
      OneBeforeMoves(look, look + 3, k, q);
    }
    var purged := Purged(Downed(o));
    UndisturbedAttempts(o, env, clock);
    var again := Downed(Landed(purged, true));
    RoundStep(env, 0, Purging(o, false, clock), Purging(purged, true, look), Purging(again, false, look + 2));
    SecondRoundDefeated(again, env, look + 2);
  }

  /** Without faults the purge reports success under every schedule exactly when fewer boot messages are outstanding
      than it has rounds. */
  lemma PurgeSucceedsIff(o: Osd, clock: nat)
    requires Quiet(o)
    ensures (forall schedule: Schedule :: PurgeRounds(o, Following(schedule), clock, 0).ok) <==> o.boots < 2
  {
    if o.boots < PURGE_ROUNDS {
      forall schedule: Schedule ensures PurgeRounds(o, Following(schedule), clock, 0).ok {
        SchedulesObey(schedule);
        RoundsOutlastBoots(o, Following(schedule), clock, 0);
      }
    } else {
      var schedule := BootsDefeatRounds(o, clock);
    }
  }

  /** An absent id can come back exactly if a boot message is outstanding. */
  lemma ReturnsIff(o: Osd)
    requires Quiet(o) && !o.inMap
    ensures (exists moves :: Drift(o, moves).inMap) <==> o.boots > 0
  {
    if o.boots > 0 {
      LandOne(o);
      assert Drift(o, [Land(true)]).inMap;
    } else {
      forall moves ensures !Drift(o, moves).inMap {
        DriftIsBounded(o, moves);
      }
    }
  }

  /** The purge reports success, and the id stays away whatever happens after it. */
  predicate Final(o: Osd, schedule: Schedule, clock: nat, moves: seq<Move>)
  {
    var p := PurgeRounds(o, Following(schedule), clock, 0);
    p.ok && !Drift(p.osd, moves).inMap
  }

  /** A single late boot that lands only after the last look. */
  lemma OneBootReturns(o: Osd, clock: nat) returns (schedule: Schedule)
    requires Quiet(o) && o.boots > 0
    ensures !Final(o, schedule, clock, [Land(true)])
  {
    var look: nat := clock + if o.up then 3 else 1;
    schedule := OneBefore(look + 1, look + 1);
    var env := Following(schedule);
    forall k: nat, q: Osd
      ensures env(k, q) == if k == look + 1 then Moved(q, Land(true)) else q
    {
      OneBeforeMoves(look + 1, look + 1, k, q);
    }
    var purged := Purged(Downed(o));
    UndisturbedAttempts(o, env, clock);
    RoundStep(env, 0, Purging(o, false, clock), Purging(purged, true, look), Purging(purged, true, look + 1));
    LandOne(purged);
  }

  /** Success is final under every schedule exactly when no boot message is outstanding at all. */
  lemma PurgeIsFinalIff(o: Osd, clock: nat)
    requires Quiet(o)
    ensures (forall schedule: Schedule, moves: seq<Move> :: Final(o, schedule, clock, moves)) <==> o.boots == 0
  {
    if o.boots == 0 {
      forall schedule: Schedule, moves: seq<Move> ensures Final(o, schedule, clock, moves) {
        SchedulesObey(schedule);
        RoundsOutlastBoots(o, Following(schedule), clock, 0);
        DriftIsBounded(PurgeRounds(o, Following(schedule), clock, 0).osd, moves);
      }
    } else {
      var schedule := OneBootReturns(o, clock);
    }
  }

  class Removal {
    const env: Environment
    var clock: nat
    var osd: Osd
    var bypass: bool
    var trace: Trace
    var seen: Summary

    ghost predicate Valid()
      reads this
    {
      Lawful(bypass, trace) && Sums(trace, seen)
    }

    constructor (osd: Osd, env: Environment)
      ensures Valid() && this.osd == osd && this.env == env && trace == []
    {
      this.env, clock, this.osd, bypass, trace, seen := env, 0, osd, false, [], NOTHING;
    }

    method Emit(act: Act)
      requires Valid() && Allowed(bypass, Entry(act, osd, seen))
      modifies this`trace, this`seen
      ensures Valid() && seen == Next(Entry(act, osd, old(seen)))
      ensures trace == old(trace) + [Entry(act, osd, old(seen))]
    {
      var e := Entry(act, osd, seen);
      LawfulAppend(bypass, trace, seen, e);
      trace, seen := trace + [e], Next(e);
    }

    method Interfere()
      requires Obeys(env)
      modifies this`osd, this`clock
      ensures osd == env(old(clock), old(osd)) && clock == old(clock) + 1
      ensures Drifted(old(osd), osd)
    {
      assert ObeysAt(env, clock, osd);
      osd, clock := env(clock, osd), clock + 1;
    }

    /** The outcome of a command; without faults every command works and every safety check passes. */
    method Try(faults: bool) returns (ok: bool)
      requires Obeys(env)
      modifies this`osd, this`clock
      ensures osd == env(old(clock), old(osd)) && clock == old(clock) + 1
      ensures Drifted(old(osd), osd)
      ensures !faults ==> ok
    {
      Interfere();
      ok := *;
      ok := ok || !faults;
    }

    /** `down` reaches the monitors; one that reports a failure may still have been committed. */
    method DownOsd(faults: bool) returns (ok: bool)
      requires Valid() && Stopped in seen.acts && Quiet(osd) && TakenOut(bypass, seen)
      requires Obeys(env)
      modifies this`osd, this`clock, this`trace, this`seen
      ensures Valid() && Progressed(old(osd), osd)
      ensures Pending(osd) <= old(Pending(osd))
      ensures ok ==> osd == Downed(env(old(clock), old(osd)))
      ensures clock == old(clock) + 1
      ensures seen.acts == old(seen).acts + {Down}
      ensures SameTree(seen, old(seen)) && seen.check == old(seen).check
      ensures !faults ==> ok
    {
      ok := Try(faults);
      Emit(Down);
      var anyway: bool := *;
      if ok || anyway { osd := Downed(osd); }
    }

    /** One purge command. The monitors refuse it while they have the OSD up. */
    method DoPurge(faults: bool) returns (ok: bool, refused: bool)
      requires Valid() && Committed in seen.acts && Stopped in seen.acts && Quiet(osd) && TakenOut(bypass, seen)
      requires bypass || SafeToDestroy in seen.acts
      requires Obeys(env)
      modifies this`osd, this`clock, this`trace, this`seen
      ensures Valid() && Progressed(old(osd), osd)
      ensures Pending(osd) <= old(Pending(osd))
      ensures ok ==> !osd.inMap && !osd.up && !osd.inTree
      ensures refused ==> !ok
      ensures !faults ==> clock == old(clock) + 1 && refused == !ok
      ensures !faults ==> var p := env(old(clock), old(osd)); ok == !p.up && osd == if p.up then p else Purged(p)
      ensures seen.acts == old(seen).acts + {Purge}
      ensures SameTree(seen, old(seen)) && seen.check == old(seen).check
    {
      ok := Try(faults);
      Emit(Purge);
      if osd.up {
        refused := ok;   // or the command failed before the monitors could refuse it
        ok := false;
        return;
      }
      refused := false;
      var anyway: bool := *;
      if ok || anyway { osd := Purged(osd); }
    }

    /** One attempt, and after a refusal another `down` unless it was the last one. */
    method TryPurge(i: nat, faults: bool) returns (ok: bool)
      requires Valid() && Committed in seen.acts && Stopped in seen.acts && Quiet(osd) && TakenOut(bypass, seen)
      requires (bypass || SafeToDestroy in seen.acts) && i < PURGE_ATTEMPTS
      requires Obeys(env)
      modifies this`osd, this`clock, this`trace, this`seen
      ensures Valid() && Progressed(old(osd), osd)
      ensures ok ==> !osd.inMap && !osd.up
      ensures old(seen).acts <= seen.acts <= old(seen).acts + {Purge, Down}
      ensures SameTree(seen, old(seen)) && seen.check == old(seen).check
      ensures !faults ==> Attempted(env, i, Purging(old(osd), false, old(clock)), Purging(osd, ok, clock))
    {
      var refused;
      ok, refused := DoPurge(faults);
      if !ok && i < PURGE_ATTEMPTS - 1 && refused {
        var downed := DownOsd(faults);
      }
    }

    /** Ten attempts, each refusal answered by another `down`. */
    method PurgeLoop(faults: bool) returns (ok: bool, ghost path: seq<Purging>)
      requires Valid() && Committed in seen.acts && Stopped in seen.acts && Quiet(osd) && TakenOut(bypass, seen)
      requires bypass || SafeToDestroy in seen.acts
      requires Obeys(env)
      modifies this`osd, this`clock, this`trace, this`seen
      ensures Valid() && Progressed(old(osd), osd)
      ensures ok ==> !osd.inMap && !osd.up
      ensures old(seen).acts <= seen.acts <= old(seen).acts + {Purge, Down}
      ensures SameTree(seen, old(seen)) && seen.check == old(seen).check
      ensures !faults ==> AttemptPath(env, path) && (ok || |path| == PURGE_ATTEMPTS + 1) && |path| > 1
      ensures !faults ==> path[0] == Purging(old(osd), false, old(clock))
      ensures !faults ==> path[|path| - 1] == Purging(osd, ok, clock)
    {
      path := [Purging(osd, false, clock)];
      for i := 0 to PURGE_ATTEMPTS
        invariant Valid() && Progressed(old(osd), osd)
        invariant old(seen).acts <= seen.acts <= old(seen).acts + {Purge, Down}
        invariant SameTree(seen, old(seen)) && seen.check == old(seen).check
        invariant |path| == i + 1 && path[0] == Purging(old(osd), false, old(clock))
        invariant !faults ==> AttemptPath(env, path) && path[i] == Purging(osd, false, clock)
      {
        ok := TryPurge(i, faults);
        if !faults { PathAppend(env, path, Purging(osd, ok, clock)); }
        path := path + [Purging(osd, ok, clock)];
        if ok { return; }
      }
      ok := false;
    }

    /** Without faults nine outstanding boot messages are survived whatever the order in which they land. */
    method PurgeWithRetries(faults: bool) returns (ok: bool)
      requires Valid() && Committed in seen.acts && Stopped in seen.acts && Quiet(osd) && TakenOut(bypass, seen)
      requires bypass || SafeToDestroy in seen.acts
      requires Obeys(env)
      modifies this`osd, this`clock, this`trace, this`seen
      ensures Valid() && Progressed(old(osd), osd)
      ensures ok ==> !osd.inMap && !osd.up
      ensures old(seen).acts <= seen.acts <= old(seen).acts + {Purge, Down}
      ensures SameTree(seen, old(seen)) && seen.check == old(seen).check
      ensures !faults ==> Purging(osd, ok, clock) == PurgeAttempts(old(osd), env, old(clock), 0)
      ensures !faults && old(Pending(osd)) < 10 ==> ok
    {
      if Pending(osd) < PURGE_ATTEMPTS { AttemptsOutlastBoots(osd, env, clock, 0); }
      ghost var path;
      ok, path := PurgeLoop(faults);
      if !faults { PathIsAttempts(env, path, 0); }
    }

    ghost predicate AbsentUnlessLanded()
      reads this
    {
      AbsentSince(seen.check, osd)
    }

    /** Looks whether the id is gone; a return is answered by a `down` unless this was the last round. */
    method LookAndDown(round: nat, faults: bool) returns (ok: bool, gone: bool)
      requires Valid() && Stopped in seen.acts && Quiet(osd) && !osd.inMap && round < PURGE_ROUNDS
      requires TakenOut(bypass, seen)
      requires Obeys(env)
      modifies this`osd, this`clock, this`trace, this`seen
      ensures Valid() && Progressed(old(osd), osd)
      ensures ok && gone ==> AbsentUnlessLanded()
      ensures old(seen).acts <= seen.acts <= old(seen).acts + {Down, MapCheck}
      ensures SameTree(seen, old(seen))
      ensures !faults ==> ok && Looked(env, round, Purging(old(osd), true, old(clock)), Purging(osd, gone, clock))
      ensures gone ==> !osd.inMap
    {
      gone := false;
      ok := Try(faults);
      if !ok { return; }
      Emit(MapCheck);
      gone := !osd.inMap;
      if !gone && round + 1 < PURGE_ROUNDS {
        ok := DownOsd(faults);
      }
    }

    /** Purge, look, and purge once more when a late boot brought the id back. */
    method PurgeOsd(faults: bool) returns (ok: bool)
      requires Valid() && Committed in seen.acts && Stopped in seen.acts && Quiet(osd) && TakenOut(bypass, seen)
      requires bypass || SafeToDestroy in seen.acts
      requires Obeys(env)
      modifies this`osd, this`clock, this`trace, this`seen
      ensures Valid() && Progressed(old(osd), osd)
      ensures ok ==> !osd.inMap && AbsentUnlessLanded()
      ensures old(seen).acts <= seen.acts <= old(seen).acts + {Purge, Down, MapCheck}
      ensures SameTree(seen, old(seen))
      ensures !faults ==> Purging(osd, ok, clock) == PurgeRounds(old(osd), env, old(clock), 0)
      ensures !faults && old(osd).boots < PURGE_ROUNDS ==> ok
    {
      if osd.boots < PURGE_ROUNDS { RoundsOutlastBoots(osd, env, clock, 0); }
      ghost var goal := PurgeRounds(osd, env, clock, 0);
      for round := 0 to PURGE_ROUNDS
        invariant Valid() && Progressed(old(osd), osd)
        invariant old(seen).acts <= seen.acts <= old(seen).acts + {Purge, Down, MapCheck}
        invariant SameTree(seen, old(seen))
        invariant !faults ==> PurgeRounds(osd, env, clock, round) == goal
      {
        ghost var a := Purging(osd, false, clock);
        ok := PurgeWithRetries(faults);
        ghost var p := Purging(osd, ok, clock);
        if !ok {
          if !faults { RoundStep(env, round, a, p, p); }
          return;
        }
        var gone;
        ok, gone := LookAndDown(round, faults);
        if !faults { RoundStep(env, round, a, p, Purging(osd, gone, clock)); }
        if !ok || gone { return; }
      }
      ok := false;
    }

    /** Polls the CRUSH tree until the OSD shows up or the window closes. */
    method WaitForPresence(faults: bool) returns (ok: bool, present: bool)
      requires Valid() && Quiet(osd) && {ScaledDown, Stopped} <= seen.acts && !seen.tree
      requires Obeys(env)
      modifies this`osd, this`clock, this`trace, this`seen
      ensures Valid() && Drifted(old(osd), osd)
      ensures old(seen).acts <= seen.acts <= old(seen).acts + {TreeLook}
      ensures seen.check == old(seen).check && seen.late == old(seen).late
      ensures ok ==> seen.relooked && seen.tree == present == osd.inTree
      ensures !faults ==> ok
    {
      var window: nat := *;
      while window > 0
        invariant Valid() && Drifted(old(osd), osd) && !seen.tree
        invariant old(seen).acts <= seen.acts <= old(seen).acts + {TreeLook}
        invariant seen.check == old(seen).check && seen.late == old(seen).late
      {
        window := window - 1;
        ok, present := Look(faults);
        if !ok || present { return; }
      }
      ok, present := Look(faults);
    }

    /** One look at the tree. */
    method Look(faults: bool) returns (ok: bool, present: bool)
      requires Valid() && ScaledDown in seen.acts
      requires Obeys(env)
      modifies this`osd, this`clock, this`trace, this`seen
      ensures Valid() && Drifted(old(osd), osd)
      ensures seen.acts == if ok then old(seen).acts + {TreeLook} else old(seen).acts
      ensures seen.check == old(seen).check && seen.late == old(seen).late
      ensures ok ==> present == osd.inTree && seen.relooked == (old(seen).relooked || Stopped in old(seen).acts)
      ensures seen.tree == (old(seen).tree || (ok && present))
      ensures !faults ==> ok
    {
      ok := Try(faults);
      present := osd.inTree;
      if ok { Emit(TreeLook); }
    }

    /** Reweights, proves the OSD safe to stop and takes it out. */
    method TakeOut(faults: bool) returns (ok: bool)
      requires Valid()
      requires Obeys(env)
      modifies this`osd, this`clock, this`trace, this`seen
      ensures Valid() && Drifted(old(osd), osd)
      ensures old(seen).acts <= seen.acts <= old(seen).acts + {SafeToStop, Out}
      ensures SameTree(seen, old(seen)) && seen.check == old(seen).check
      ensures ok ==> Out in seen.acts && (bypass || SafeToStop in seen.acts)
      ensures !faults ==> ok
    {
      Interfere();   // a failed reweight is only logged
      if !bypass {
        ok := Passed(SafeToStop, faults);
        if !ok { return; }
      }
      ok := Passed(Out, faults);
    }

    /** Moves the ready marker aside, replacing a stale suppressed one. */
    method SuppressAutostart(faults: bool) returns (ok: bool, suppressed: bool)
      requires Valid()
      requires Obeys(env)
      modifies this`osd, this`clock
      ensures Valid() && osd.row == old(osd).row
      ensures ok ==> !osd.ready && osd.suppressed == suppressed == (old(osd).ready || old(osd).suppressed)
      ensures !ok ==> osd.ready == old(osd).ready && !suppressed
      ensures !faults ==> ok
    {
      suppressed := false;
      ok := Try(faults);
      if !ok { return; }
      if !osd.ready {
        ok := Try(faults);
        suppressed := ok && osd.suppressed;
        return;
      }
      ok := Try(faults);
      if !ok { return; }
      if osd.suppressed {
        ok := Try(faults);
        if !ok { return; }
        osd := osd.(suppressed := false);
      }
      ok := Try(faults);
      if !ok { return; }
      osd := osd.(ready := false, suppressed := true);
      suppressed := true;
    }

    /** Moves the marker back unless a ready one exists. */
    method RestoreAutostart(faults: bool) returns (ok: bool)
      requires Valid() && Committed !in seen.acts
      requires Obeys(env)
      modifies this`osd, this`clock, this`trace, this`seen
      ensures Valid() && osd.row == old(osd).row
      ensures seen.acts == old(seen).acts + {RestoreTried}
      ensures SameTree(seen, old(seen))
      ensures osd.ready == (old(osd).ready || (ok && old(osd).suppressed))
      ensures osd.suppressed == (old(osd).suppressed && (!ok || old(osd).ready))
      ensures !faults ==> ok
    {
      ok := Try(faults);
      Emit(RestoreTried);
      if !ok || !osd.suppressed { return; }
      ok := Try(faults);
      if !ok || osd.ready { return; }
      ok := Try(faults);
      if !ok { return; }
      osd := osd.(ready := true, suppressed := false);
    }

    /** Stops the process. A failed kill may have stopped it all the same. */
    method Kill(faults: bool) returns (ok: bool)
      requires Obeys(env) && !osd.ready
      modifies this`osd, this`clock
      ensures Progressed(old(osd), osd) && (ok ==> Quiet(osd))
      ensures !faults ==> ok
    {
      ok := Try(faults);
      var anyway: bool := *;
      if ok || anyway { osd := osd.(running := false); }
    }

    method KillOsd(faults: bool) returns (ok: bool)
      requires Valid() && !osd.ready && TreeLook in seen.acts && TakenOut(bypass, seen)
      requires Obeys(env)
      modifies this`osd, this`clock, this`trace, this`seen
      ensures Valid() && Progressed(old(osd), osd)
      ensures ok ==> Quiet(osd) && seen.late == osd.boots && seen.acts == old(seen).acts + {Stopped}
      ensures ok ==> seen.tree == old(seen).tree && seen.relooked == old(seen).relooked
      ensures !ok ==> trace == old(trace) && seen == old(seen)
      ensures !faults ==> ok
    {
      ok := Kill(faults);
      if ok { Emit(Stopped); }
    }

    /** Marks a stopped OSD that was not in the tree down, if the monitors know it by now. */
    method DownLatecomer(faults: bool) returns (ok: bool, listed: bool)
      requires Valid() && {ScaledDown, Stopped} <= seen.acts && Quiet(osd) && !seen.tree
      requires Obeys(env)
      modifies this`osd, this`clock, this`trace, this`seen
      ensures Valid() && Progressed(old(osd), osd)
      ensures old(seen).acts <= seen.acts <= old(seen).acts + {TreeLook, Down, SafeToStop, Out, MapCheck}
      ensures seen.late == old(seen).late
      ensures ok ==> TakenOut(bypass, seen) && MarkedDown(seen)
      ensures ok && !listed ==> AbsentUnlessLanded()
      ensures !faults ==> ok
    {
      ok, listed := WaitForPresence(faults);
      if !ok { return; }
      if listed {
        ok := TakeOut(faults);
        if !ok { return; }
        ok := DownOsd(faults);
        return;
      }
      ok := Try(faults);
      if !ok { return; }
      Emit(MapCheck);
      listed := osd.inMap;
      if listed {
        ok := DownOsd(faults);
      }
    }

    /** Stops the process and marks the OSD down; `listed` says whether there is an id to purge. */
    method StopAndDown(present: bool, faults: bool) returns (ok: bool, listed: bool)
      requires Valid() && !osd.ready && {ScaledDown, TreeLook} <= seen.acts
      requires present == seen.tree && TakenOut(bypass, seen) && Uncommitted(seen)
      requires Obeys(env)
      modifies this`osd, this`clock, this`trace, this`seen
      ensures Valid() && Progressed(old(osd), osd)
      ensures ok ==> Stopped in seen.acts && Quiet(osd) && osd.boots <= seen.late
      ensures ok ==> TakenOut(bypass, seen) && MarkedDown(seen)
      ensures ok && !listed ==> AbsentUnlessLanded()
      ensures Uncommitted(seen)
      ensures !faults ==> ok
    {
      listed := present;
      ok := KillOsd(faults);
      if !ok { return; }
      if listed {
        ok := DownOsd(faults);
      } else {
        ok, listed := DownLatecomer(faults);
      }
    }

    /** Proves the OSD safe to destroy and purges it. */
    method DestroyListed(faults: bool) returns (ok: bool)
      requires Valid() && {Stopped, Committed} <= seen.acts && Quiet(osd) && TakenOut(bypass, seen)
      requires Obeys(env)
      modifies this`osd, this`clock, this`trace, this`seen
      ensures Valid() && Progressed(old(osd), osd)
      ensures ok ==> AbsentUnlessLanded()
      ensures old(seen).acts <= seen.acts <= old(seen).acts + {SafeToDestroy, Purge, Down, MapCheck}
      ensures SameTree(seen, old(seen))
      ensures !faults && old(osd).boots < PURGE_ROUNDS ==> ok
    {
      if !bypass {
        ok := Passed(SafeToDestroy, faults);
        if !ok { return; }
      }
      ok := PurgeOsd(faults);
    }

    /** Frees the carriers' partitions and removes the data directory, suppressed marker included. */
    method CleanUp(faults: bool) returns (ok: bool)
      requires Valid() && Committed in seen.acts && Quiet(osd) && AbsentUnlessLanded()
      requires Obeys(env)
      modifies this`osd, this`clock, this`trace, this`seen
      ensures Valid() && Quiet(osd) && osd.row == old(osd).row && AbsentUnlessLanded()
      ensures seen.acts <= old(seen).acts + {AuxCleaned, ConfigRemoved} && Committed in seen.acts
      ensures ok ==> ConfigRemoved in seen.acts && !osd.suppressed
      ensures SameTree(seen, old(seen)) && seen.check == old(seen).check
      ensures !faults ==> ok
    {
      Interfere();   // a failed wipe of the primary storage is only logged
      StaysAbsent(seen.check, old(osd), osd);
      ghost var o := osd;
      ok := Passed(AuxCleaned, faults);
      StaysAbsent(seen.check, o, osd);
      if !ok { return; }
      o := osd;
      ok := Passed(ConfigRemoved, faults);
      StaysAbsent(seen.check, o, osd);
      var anyway: bool := *;
      if ok || anyway { osd := osd.(suppressed := false); }
    }

    /** Everything local, the record last. */
    method ForgetOsd(faults: bool) returns (ok: bool)
      requires Valid() && Committed in seen.acts && RowDeleted !in seen.acts
      requires Quiet(osd) && osd.row && AbsentUnlessLanded()
      requires Obeys(env)
      modifies this`osd, this`clock, this`trace, this`seen
      ensures Valid() && Quiet(osd) && osd.row == !ok
      ensures Committed in seen.acts && (RestoreTried in seen.acts ==> RestoreTried in old(seen).acts)
      ensures ok <==> RowDeleted in seen.acts
      ensures ok ==> AbsentUnlessLanded() && !osd.suppressed
      ensures SameTree(seen, old(seen))
      ensures !faults ==> ok
    {
      ok := CleanUp(faults);
      if !ok { return; }
      ghost var o := osd;
      ok := Passed(RowDeleted, faults);
      StaysAbsent(seen.check, o, osd);
      if ok { osd := osd.(row := false); }
    }

    /** Everything after the commit point. */
    method Destroy(listed: bool, faults: bool) returns (ok: bool)
      requires TakenOut(bypass, seen)
      requires Valid() && {Stopped, Committed} <= seen.acts && RowDeleted !in seen.acts && RestoreTried !in seen.acts
      requires Quiet(osd) && osd.row && (!listed ==> AbsentUnlessLanded())
      requires Obeys(env)
      modifies this`osd, this`clock, this`trace, this`seen
      ensures Valid() && Quiet(osd) && osd.row == !ok
      ensures Committed in seen.acts && (ok <==> RowDeleted in seen.acts) && RestoreTried !in seen.acts
      ensures ok ==> AbsentUnlessLanded() && !osd.suppressed
      ensures SameTree(seen, old(seen))
      ensures !faults && old(osd).boots < PURGE_ROUNDS ==> ok
    {
      if listed {
        ok := DestroyListed(faults);
        if !ok { return; }
      }
      ok := ForgetOsd(faults);
    }

    /** The checks that come first: ownership records upgraded, enough OSDs left, failure domain scaled down. */
    method Check(faults: bool) returns (ok: bool)
      requires Valid() && seen == NOTHING
      requires Obeys(env)
      modifies this`osd, this`clock, this`trace, this`seen
      ensures Valid() && Drifted(old(osd), osd) && !seen.tree && !seen.relooked
      ensures Uncommitted(seen) && (ok ==> ScaledDown in seen.acts)
      ensures !faults ==> ok
    {
      ok := Passed(Migrated, faults);
      if ok && !bypass { ok := Passed(EnoughLeft, faults); }
      if ok { ok := Passed(ScaledDown, faults); }
    }

    /** A command that is recorded only if it worked, and changes nothing the trace looks at. */
    method Passed(act: Act, faults: bool) returns (ok: bool)
      requires Valid() && act != TreeLook && act != MapCheck && act != Stopped
      requires forall o :: Allowed(bypass, Entry(act, o, seen))
      requires Obeys(env)
      modifies this`osd, this`clock, this`trace, this`seen
      ensures Valid() && Drifted(old(osd), osd) && SameTree(seen, old(seen)) && seen.check == old(seen).check
      ensures seen.acts == if ok then old(seen).acts + {act} else old(seen).acts
      ensures !faults ==> ok
    {
      ok := Try(faults);
      if ok { Emit(act); }
    }

    /** The first look at the tree, and taking the OSD out if it is there. */
    method Prepare(faults: bool) returns (ok: bool, present: bool)
      requires Valid() && seen == NOTHING
      requires Obeys(env)
      modifies this`osd, this`clock, this`trace, this`seen
      ensures Valid() && osd.row == old(osd).row && osd.ready == old(osd).ready && (ok ==> osd.row)
      ensures Uncommitted(seen)
      ensures ok ==> {ScaledDown, TreeLook} <= seen.acts && present == seen.tree
      ensures ok && present ==> Out in seen.acts && (bypass || SafeToStop in seen.acts)
      ensures !faults && osd.row ==> ok
    {
      Interfere();
      present := false;
      if !osd.row { return false, false; }
      ok := Check(faults);
      if !ok { return; }
      ok, present := Look(faults);
      if ok && present { ok := TakeOut(faults); }
    }

    /** One removal. The trace is lawful whatever fails; an error leaves the record; a failure after the commit
        point leaves the OSD stopped and autostart off; and without faults one late boot message is survived. */
    method RemoveOsd(bypass: bool, faults: bool) returns (ok: bool)
      requires Obeys(env)
      modifies this
      ensures Valid() && this.bypass == bypass
      ensures ok <==> old(osd).row && !osd.row
      ensures !ok ==> osd.row == old(osd).row
      ensures ok <==> RowDeleted in seen.acts
      ensures ok ==> Quiet(osd) && !osd.suppressed && AbsentUnlessLanded()
      ensures Committed in seen.acts ==> Quiet(osd)
      ensures RestoreTried in seen.acts ==> !ok && Committed !in seen.acts
      ensures !ok && Committed !in seen.acts && old(osd).ready ==> osd.ready || RestoreTried in seen.acts
      ensures !faults && old(osd).row && seen.late < 2 ==> ok
    {
      this.bypass, trace, seen := bypass, [], NOTHING;
      var present, suppressed, listed;
      ok, present := Prepare(faults);
      if !ok { return; }
      ok, suppressed := SuppressAutostart(faults);
      if !ok { return; }
      ok, listed := StopAndDown(present, faults);
      if !ok {
        if suppressed {
          var restored := RestoreAutostart(faults);
        }
        return;
      }
      Emit(Committed);
      ok := Destroy(listed, faults);
    }
  }

  datatype Attempt = Attempt(bypass: bool, trace: Trace, ok: bool)

  ghost predicate Honest(a: Attempt)
  {
    Lawful(a.bypass, a.trace) && (a.ok <==> Happened(a.trace, |a.trace|, RowDeleted))
  }

  /** Any number of attempts with any faults, the environment moving throughout: every trace is lawful, only the
      last attempt can have succeeded, and the record is gone exactly when it did. */
  method RetryRemoval(r: Removal, attempts: nat) returns (log: seq<Attempt>)
    requires Obeys(r.env) && r.osd.row
    modifies r
    ensures forall i :: 0 <= i < |log| ==> Honest(log[i])
    ensures forall i :: 0 <= i < |log| - 1 ==> !log[i].ok
    ensures r.osd.row <==> (|log| > 0 ==> !log[|log| - 1].ok)
    ensures !r.osd.row ==> Quiet(r.osd) && LookedAbsent(log[|log| - 1].trace, |log[|log| - 1].trace|)
  {
    log := [];
    for i := 0 to attempts
      invariant r.osd.row
      invariant forall i :: 0 <= i < |log| ==> Honest(log[i]) && !log[i].ok
    {
      var bypass, faults: bool := *, *;
      var ok := r.RemoveOsd(bypass, faults);
      assert r.trace[..|r.trace|] == r.trace;
      SummaryIsHistory(bypass, r.trace, |r.trace|, r.seen, RowDeleted);
      LooksAreHistory(bypass, r.trace, |r.trace|, r.seen);
      log := log + [Attempt(bypass, r.trace, ok)];
      if ok { return; }
      r.Interfere();
    }
  }
}
