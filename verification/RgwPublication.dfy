/**
 Publishing an RGW frontend: stage the TLS pair, journal the previous
 configuration, switch the configuration, restart, and finish or roll back.
 Every write and service command goes through `Commit` or `UndoJournal`, which
 record the new state in `trace`. A crash is a stop at any recorded state: the
 next operation starts from there with nothing but what is on disk and the
 gateway process. `*` is an outcome the source does not decide.
 */
module RgwPublication {
  import opened Common

  /** File contents, by identity. */
  type Pem = nat
  datatype Pair = Pair(cert: Pem, key: Pem)

  /** A generation directory is named by the hash of both halves of its pair. */
  datatype Dir = LegacyDir | Generation(pair: Pair)
  datatype Files = Files(cert: Option<Pem>, key: Option<Pem>)

  /** A frontend line. `usable` says that the line alone parses to a supported frontend. */
  datatype Frontend = Frontend(line: string, usable: bool, tls: Option<Dir>)

  /** `radosgw.conf`: the frontend line, and the lines other writers keep fresh. */
  datatype Conf = Conf(front: Option<Frontend>, monHost: string, runDir: string)
  datatype Journal = Journal(prev: Option<Conf>, active: bool)

  /** A member as a crash leaves it: its files and its gateway process. `loaded` is the frontend, if any, of the
      configuration the process last came up with. */
  datatype Host = Host(
    conf: Option<Conf>, journal: Option<Journal>, files: map<Dir, Files>, active: bool,
    loaded: Option<Option<Frontend>>)

  datatype Rollback = Rollback(
    prev: Option<Conf>, prevActive: bool, published: Option<Dir>, prevDir: Option<Dir>, serviceChanged: bool)

  datatype Activity = Active | Inactive | Unknown

  // ----- what must hold at every write boundary -----

  predicate Complete(files: map<Dir, Files>, dir: Dir)
  {
    dir in files &&
    match dir
    case LegacyDir => files[dir].cert.Some? && files[dir].key.Some?
    case Generation(pair) => files[dir] == Files(Some(pair.cert), Some(pair.key))
  }

  function FrontOf(conf: Option<Conf>): Option<Frontend>
  {
    if conf.None? then None else conf.value.front
  }

  function DirOf(conf: Option<Conf>): Option<Dir>
  {
    if FrontOf(conf).None? then None else FrontOf(conf).value.tls
  }

  /** The TLS pair a configuration names is complete on disk. */
  predicate PairComplete(files: map<Dir, Files>, conf: Option<Conf>)
  {
    DirOf(conf).Some? ==> Complete(files, DirOf(conf).value)
  }

  /** Crash safety: both the live configuration and the rollback target name complete pairs. */
  predicate PairsComplete(h: Host)
  {
    && PairComplete(h.files, h.conf)
    && (h.journal.Some? ==> PairComplete(h.files, h.journal.value.prev))
  }

  /** The gateway came up with exactly this configuration's frontend. */
  predicate Runs(h: Host, conf: Option<Conf>)
  {
    conf.Some? && h.loaded == Some(conf.value.front)
  }

  /** Journal meaning: without a journal, an active gateway runs exactly the frontend on disk. */
  predicate BaselineKnown(h: Host)
  {
    h.journal.None? && h.active ==> Runs(h, h.conf)
  }

  /** A configuration whose frontend the gateway has run. */
  predicate HasRun(conf: Option<Conf>, ran: set<Option<Frontend>>)
  {
    conf.Some? && conf.value.front in ran
  }

  /** A journal that promises to bring the gateway back names a frontend the gateway has run. */
  predicate TargetConfirmed(h: Host, ran: set<Option<Frontend>>)
  {
    h.journal.Some? && h.journal.value.active ==> HasRun(h.journal.value.prev, ran)
  }

  /** An undo that does not touch the service meets a gateway that runs something other than what it restores. */
  predicate Stranded(h: Host, rb: Rollback)
  {
    !rb.serviceChanged && h.active && !Runs(h, rb.prev)
  }

  /** A gateway is up on something other than the published configuration; starting it changes nothing. */
  predicate Misloaded(h: Host)
  {
    h.journal.Some? && h.active && !Runs(h, h.conf)
  }

  // ----- the history of a run -----

  /** `ran`: the frontends that have run. `lost`: the baseline has been lost. `missed`: a start met a misloaded gateway,
      and neither the frontend on disk nor the loaded one has changed since. `skips`: how many starts did. */
  datatype Marks = Marks(ran: set<Option<Frontend>>, lost: bool, missed: bool, skips: nat)

  /** The journal removal that ends an undo or an apply, the start of a gateway that is up, or anything else. */
  datatype Event = Write | Undo(rb: Rollback) | Finished | Skip

  /** A state at a write boundary. */
  datatype Moment = Moment(host: Host, marks: Marks, event: Event)

  predicate Good(h: Host, m: Marks)
  {
    && PairsComplete(h)
    && (h.loaded.Some? ==> h.loaded.value in m.ran)
    && (m.missed ==> m.skips > 0 && h.journal.Some? && !Runs(h, h.conf))
    && (m.lost || BaselineKnown(h))
    && (m.lost || m.skips > 0 || TargetConfirmed(h, m.ran))
  }

  predicate Unmoved(before: Host, after: Host)
  {
    FrontOf(after.conf) == FrontOf(before.conf) && after.loaded == before.loaded && after.journal.Some?
    && after.conf.Some? == before.conf.Some?
  }

  function Carried(m: Marks, before: Host, after: Host): Marks
  {
    m.(missed := m.missed && Unmoved(before, after))
  }

  predicate Kept(m: Marks, n: Marks)
  {
    m.ran <= n.ran && n.lost == m.lost && n.skips == m.skips
  }

  predicate Later(m: Marks, n: Marks)
  {
    m.ran <= n.ran && (m.lost ==> n.lost) && m.skips <= n.skips
  }

  predicate Strands(before: Moment, after: Moment)
  {
    after.event.Undo? && Stranded(before.host, after.event.rb)
  }

  /** An apply is finished although its start was skipped. */
  predicate Misses(before: Moment, after: Moment)
  {
    after.event.Finished? && before.marks.missed && before.host.active
  }

  /** One boundary follows another: `lost` is set by a stranding undo, by a finish after a missed start, and by nothing
      else, and then the baseline is really gone. */
  predicate Follows(before: Moment, after: Moment)
  {
    && (after.marks.lost <==> before.marks.lost || Strands(before, after) || Misses(before, after))
    && (after.marks.lost && !before.marks.lost ==> !BaselineKnown(after.host))
    && (after.event.Skip? ==>
          && before.host.active && after.host == before.host && after.marks.missed == Misloaded(before.host)
          && after.marks.skips == before.marks.skips + if Misloaded(before.host) then 1 else 0)
    && (!after.event.Skip? ==>
          && after.marks.missed == (before.marks.missed && Unmoved(before.host, after.host))
          && after.marks.skips == before.marks.skips)
  }

  ghost predicate Sound(trace: seq<Moment>, restarts: bool)
  {
    && |trace| > 0 && !trace[0].marks.lost && !trace[0].marks.missed
    && (forall i :: 0 <= i < |trace| ==> Good(trace[i].host, trace[i].marks))
    && (forall i :: 0 < i < |trace| ==> Follows(trace[i - 1], trace[i]))
    && (!restarts ==> forall i :: 0 <= i < |trace| ==> !trace[i].marks.lost && trace[i].marks.skips == 0)
  }

  lemma SoundAppend(trace: seq<Moment>, restarts: bool, m: Moment)
    requires Sound(trace, restarts) && Good(m.host, m.marks) && Follows(trace[|trace| - 1], m)
    requires restarts || (!m.marks.lost && m.marks.skips == 0)
    ensures Sound(trace + [m], restarts)
  {
  }

  lemma SoundPrefix(trace: seq<Moment>, restarts: bool, n: nat)
    requires Sound(trace, restarts) && 0 < n <= |trace|
    ensures Sound(trace[..n], restarts)
  {
  }

  /** As long as the baseline was known it has not been lost. */
  lemma {:induction false} NotLostWhileKnown(trace: seq<Moment>, restarts: bool, n: nat)
    requires Sound(trace, restarts) && n < |trace|
    requires forall j :: 0 <= j <= n ==> BaselineKnown(trace[j].host)
    ensures !trace[n].marks.lost
  {
    if n > 0 {
      NotLostWhileKnown(trace, restarts, n - 1);
      assert Follows(trace[n - 1], trace[n]);
    }
  }

  /** Entry `j` is a start that met a misloaded gateway, and up to entry `n` nothing has made up for it. */
  predicate MissedFrom(trace: seq<Moment>, j: int, n: int)
  {
    && 0 < j <= n < |trace| && trace[j].event.Skip? && Misloaded(trace[j - 1].host)
    && forall k :: j < k <= n ==> trace[k].event.Skip? || Unmoved(trace[k - 1].host, trace[k].host)
  }

  ghost predicate StillMissed(trace: seq<Moment>, n: int)
  {
    exists j :: MissedFrom(trace, j, n)
  }

  /** The mark means what it says. */
  lemma {:induction false} MissedIsHistory(trace: seq<Moment>, restarts: bool, n: nat)
    requires Sound(trace, restarts) && n < |trace|
    ensures trace[n].marks.missed <==> StillMissed(trace, n)
  {
    if n > 0 {
      MissedIsHistory(trace, restarts, n - 1);
      assert Follows(trace[n - 1], trace[n]) && Good(trace[n - 1].host, trace[n - 1].marks);
      if trace[n].event.Skip? && trace[n].marks.missed {
        assert MissedFrom(trace, n, n);
      } else if trace[n].marks.missed {
        var j :| MissedFrom(trace, j, n - 1);
        assert MissedFrom(trace, j, n);
      }
      if j :| MissedFrom(trace, j, n) && j < n {
        assert MissedFrom(trace, j, n - 1);
      }
    }
  }

  /** Entry `i` ends an undo that strands the gateway, or finishes an apply while the gateway still runs what its
      missed start met. */
  ghost predicate Loses(trace: seq<Moment>, i: int)
    requires 0 < i < |trace|
  {
    || Strands(trace[i - 1], trace[i])
    || (trace[i].event.Finished? && trace[i - 1].host.active && StillMissed(trace, i - 1))
  }

  ghost predicate KnownBefore(trace: seq<Moment>, i: int)
    requires i <= |trace|
  {
    forall j :: 0 <= j < i ==> BaselineKnown(trace[j].host)
  }

  /** The first state of a run without a known baseline is left by one of the two, and each of the two leaves one. */
  ghost predicate LostExactly(trace: seq<Moment>)
  {
    forall i :: 0 < i < |trace| && KnownBefore(trace, i) ==> (BaselineKnown(trace[i].host) <==> !Loses(trace, i))
  }

  lemma SoundLosesExactly(trace: seq<Moment>, restarts: bool)
    requires Sound(trace, restarts)
    ensures LostExactly(trace)
    ensures !restarts ==> forall i :: 0 <= i < |trace| ==> BaselineKnown(trace[i].host)
  {
    forall i | 0 < i < |trace| && KnownBefore(trace, i)
      ensures BaselineKnown(trace[i].host) <==> !Loses(trace, i)
    {
      NotLostWhileKnown(trace, restarts, i - 1);
      MissedIsHistory(trace, restarts, i - 1);
      assert Follows(trace[i - 1], trace[i]);
    }
  }

  /** The pair in the directory that the configuration names. */
  function ReusedPair(h: Host): (pair: Option<Pair>)
    ensures pair.Some? <==>
              && DirOf(h.conf).Some? && DirOf(h.conf).value in h.files
              && h.files[DirOf(h.conf).value].cert.Some? && h.files[DirOf(h.conf).value].key.Some?
    ensures pair.Some? ==>
              h.files[DirOf(h.conf).value] == Files(Some(pair.value.cert), Some(pair.value.key))
  {
    if DirOf(h.conf).None? || DirOf(h.conf).value !in h.files then None
    else
      var f := h.files[DirOf(h.conf).value];
      if f.cert.None? || f.key.None? then None else Some(Pair(f.cert.value, f.key.value))
  }

  // ----- rollback -----

  /** The previous frontend is back on disk, or the file is gone again. */
  predicate Back(h: Host, prev: Option<Conf>)
  {
    FrontOf(h.conf) == FrontOf(prev) && (prev.None? <==> h.conf.None?)
  }

  /** Atomicity of a failed operation: a journal is left to drive recovery, or the frontend is the one from before,
      or the one an already pending undo goes back to. */
  predicate Undone(before: Host, after: Host)
  {
    || after.journal.Some?
    || FrontOf(after.conf) == FrontOf(before.conf)
    || (before.journal.Some? && Back(after, before.journal.value.prev))
  }

  /** There is nothing left to publish. */
  predicate Published(h: Host, desired: Frontend, pair: Option<Pair>)
  {
    FrontOf(h.conf) == Some(desired) && (pair.Some? ==> Complete(h.files, Generation(pair.value)))
  }

  /** The same when the undo's own commands worked. */
  predicate FullyUndone(before: Host, after: Host)
  {
    || FrontOf(after.conf) == FrontOf(before.conf)
    || (before.journal.Some? && Back(after, before.journal.value.prev))
  }

  /** A frontend that parses to a supported one. */
  predicate Usable(conf: Option<Conf>)
  {
    FrontOf(conf).Some? && FrontOf(conf).value.usable
  }

  /** Nothing is pending, or what is pending can be brought up. */
  predicate Recoverable(h: Host)
  {
    h.journal.None? || Usable(h.conf)
  }

  /** Nothing is left on disk but the pair in use. */
  predicate Tidy(h: Host)
  {
    forall d :: d in h.files ==> DirOf(h.conf) == Some(d)
  }

  /** The undo of an apply is still possible: its pair is there, and unless the gateway may be restarted by others
      one that was not touched still runs its frontend. */
  predicate CanRestore(h: Host, rb: Rollback, restarts: bool)
  {
    && PairComplete(h.files, rb.prev)
    && (rb.published.Some? && rb.published != rb.prevDir ==> DirOf(rb.prev) != rb.published)
    && (h.journal.Some? || Back(h, rb.prev))
    && (rb.serviceChanged ==> h.journal.Some?)
    && (restarts || !Stranded(h, rb))
  }

  /** Nothing moved but the lines of other writers and the service. */
  predicate SameFiles(before: Host, after: Host)
  {
    && FrontOf(after.conf) == FrontOf(before.conf) && (after.conf.Some? <==> before.conf.Some?)
    && after.journal == before.journal && after.files == before.files
  }

  /** All that a monitor refresh, a dying gateway and (with `restarts`) a restart nobody asked for can change. */
  predicate Drifted(before: Host, after: Host, restarts: bool)
  {
    && SameFiles(before, after)
    && (after.loaded == before.loaded || (restarts && Runs(after, after.conf)))
    && (after.active ==> (before.active && after.loaded == before.loaded) || (restarts && Runs(after, after.conf)))
  }

  /** What rollback writes: the old frontend line among the newest other lines. */
  function RestoredConf(current: Option<Conf>, prev: Conf): Conf
  {
    if FrontOf(current).Some? then current.value.(front := prev.front) else prev
  }

  /** A whole undo that leaves the service alone, as one step. */
  function AfterUndo(h: Host, prev: Option<Conf>): Host
  {
    h.(conf := if prev.None? then None else Some(RestoredConf(h.conf, prev.value)), journal := None)
  }

  /** The undo is the same, except that it now has the service to bring back too. */
  predicate SameUndo(undo: Option<Rollback>, rb: Option<Rollback>, changed: bool)
  {
    undo == if changed && rb.Some? then Some(rb.value.(serviceChanged := true)) else rb
  }

  class Gateway {
    const restarts: bool
    const faults: bool
    const undoFaults: bool
    var host: Host
    var marks: Marks
    var trace: seq<Moment>
    var record: Option<Frontend>   // the frontend in the cluster database
    ghost var probed: bool         // the gateway passed the readiness probe and was not touched since

    ghost predicate Valid()
      reads this`host, this`marks, this`trace
    {
      && Sound(trace, restarts)
      && trace[|trace| - 1] == Moment(host, marks, trace[|trace| - 1].event)
    }

    ghost predicate Extends(before: seq<Moment>)
      reads this`trace
    {
      before <= trace
    }

    /** `restarts` admits restarts that nobody asked for in the middle of operations, `faults` failing commands and a
        dying gateway, and `undoFaults` failing commands in an undo. */
    constructor (host: Host, restarts: bool, faults: bool, undoFaults: bool)
      requires PairsComplete(host) && BaselineKnown(host) && host.journal.None?
      ensures Valid() && this.host == host && !marks.lost && marks.skips == 0
      ensures this.restarts == restarts && this.faults == faults && this.undoFaults == undoFaults && record == None
    {
      this.faults, this.undoFaults := faults, undoFaults;
      record, probed := None, false;
      var known := Marks(if host.loaded.Some? then {host.loaded.value} else {}, false, false, 0);
      this.restarts, this.host, marks := restarts, host, known;
      trace := [Moment(host, known, Write)];
    }

    /** Every command works and nobody touches the service. */
    predicate Calm()
    {
      !faults && !restarts
    }

    method Try(faulty: bool) returns (ok: bool)
      ensures !faulty ==> ok
    {
      ok := *;
      ok := ok || !faulty;
    }

    // ----- single writes and service commands -----

    method Append(m: Moment)
      requires Valid() && Good(m.host, m.marks) && (restarts || (!m.marks.lost && m.marks.skips == 0))
      requires Follows(Moment(host, marks, Write), m)
      modifies this`host, this`marks, this`trace
      ensures Valid() && Extends(old(trace)) && host == m.host && marks == m.marks
    {
      SoundAppend(trace, restarts, m);
      host, marks := m.host, m.marks;
      trace := trace + [m];
    }

    method Commit(h: Host)
      requires Valid() && Good(h, Carried(marks, host, h))
      modifies this`host, this`marks, this`trace
      ensures Valid() && host == h && marks == Carried(old(marks), old(host), h) && Extends(old(trace))
    {
      Append(Moment(h, Carried(marks, host, h), Write));
    }

    /** The gateway dies, or with `restarts` comes up again on whatever is on disk. */
    method ServiceMoves()
      requires Valid()
      modifies this`host, this`marks, this`trace, this`probed
      ensures Valid() && Extends(old(trace)) && Kept(old(marks), marks)
      ensures Drifted(old(host), host, restarts) && host.conf == old(host).conf
      ensures old(marks).missed ==> marks.missed || Runs(host, host.conf)
      ensures Calm() ==> host == old(host) && probed == old(probed)
    {
      var died, restarted: bool := *, *;
      if faults && died {
        Commit(host.(active := false));
        probed := false;
      }
      if restarts && restarted { var up := Restart(true); }
    }

    /** Outside the configuration lock the monitor refresh may also rewrite its lines. */
    method Interfere()
      requires Valid()
      modifies this`host, this`marks, this`trace, this`probed
      ensures Valid() && Extends(old(trace)) && Kept(old(marks), marks)
      ensures Drifted(old(host), host, restarts)
      ensures old(marks).missed ==> marks.missed || Runs(host, host.conf)
      ensures Calm() ==> host.active == old(host).active && host.loaded == old(host).loaded && probed == old(probed)
    {
      var refreshed: bool := *;
      if refreshed && host.conf.Some? {
        var monHost: string, runDir: string := *, *;
        Commit(host.(conf := Some(host.conf.value.(monHost := monHost, runDir := runDir))));
      }
      ServiceMoves();
    }

    /** A file is replaced by a rename; the error of a later directory sync does not undo it. */
    method WriteConf(conf: Conf, faulty: bool) returns (ok: bool)
      requires Valid() && Good(host.(conf := Some(conf)), Carried(marks, host, host.(conf := Some(conf))))
      modifies this`host, this`marks, this`trace
      ensures Valid() && Extends(old(trace)) && Kept(old(marks), marks)
      ensures host == old(host) || host == old(host).(conf := Some(conf))
      ensures ok ==> host == old(host).(conf := Some(conf))
      ensures !faulty ==> ok
    {
      ok := Try(faulty);
      var renamed: bool := *;
      if ok || renamed { Commit(host.(conf := Some(conf))); }
    }

    method RemoveConf(faulty: bool) returns (ok: bool)
      requires Valid() && Good(host.(conf := None), Carried(marks, host, host.(conf := None)))
      modifies this`host, this`marks, this`trace
      ensures Valid() && Extends(old(trace)) && Kept(old(marks), marks)
      ensures host == if ok then old(host).(conf := None) else old(host)
      ensures !faulty ==> ok
    {
      ok := Try(faulty);
      if ok { Commit(host.(conf := None)); }
    }

    method WriteJournal(active: bool, faulty: bool) returns (ok: bool)
      requires Valid()
      requires active && !marks.lost && marks.skips == 0 ==> HasRun(host.conf, marks.ran)
      modifies this`host, this`marks, this`trace
      ensures Valid() && Extends(old(trace)) && Kept(old(marks), marks)
      ensures host == old(host) || host == old(host).(journal := Some(Journal(old(host).conf, active)))
      ensures ok ==> host == old(host).(journal := Some(Journal(old(host).conf, active)))
      ensures !faulty ==> ok
    {
      ok := Try(faulty);
      var renamed: bool := *;
      if ok || renamed { Commit(host.(journal := Some(Journal(host.conf, active)))); }
    }

    method RemoveJournal() returns (ok: bool)
      requires Valid() && (marks.lost || BaselineKnown(host.(journal := None)))
      modifies this`host, this`marks, this`trace
      ensures Valid() && Extends(old(trace)) && Kept(old(marks), marks)
      ensures host == if ok then old(host).(journal := None) else old(host)
      ensures !faults ==> ok
    {
      ok := Try(faults);
      if ok { Commit(host.(journal := None)); }
    }

    /** The same at the end of an undo: this is where a stranded gateway loses its baseline. */
    method UndoJournal(rb: Rollback) returns (ok: bool)
      requires Valid() && Back(host, rb.prev) && (restarts || !Stranded(host, rb))
      requires rb.serviceChanged ==> marks.lost || BaselineKnown(host.(journal := None))
      modifies this`host, this`marks, this`trace
      ensures Valid() && Extends(old(trace)) && marks.ran == old(marks).ran && marks.skips == old(marks).skips
      ensures host == if ok then old(host).(journal := None) else old(host)
      ensures marks.lost <==> old(marks).lost || (ok && Stranded(old(host), rb))
      ensures !undoFaults ==> ok
    {
      ok := Try(undoFaults);
      if ok {
        var h := host.(journal := None);
        Append(Moment(h, Carried(marks, host, h).(lost := marks.lost || Stranded(host, rb)), Undo(rb)));
      }
    }

    /** The same at the end of an apply: this is where a missed start loses the baseline. */
    method FinishJournal() returns (ok: bool)
      requires Valid() && (marks.lost || marks.missed || BaselineKnown(host.(journal := None)))
      modifies this`host, this`marks, this`trace
      ensures Valid() && Extends(old(trace)) && marks.ran == old(marks).ran && marks.skips == old(marks).skips
      ensures host == if ok then old(host).(journal := None) else old(host)
      ensures marks.lost <==> old(marks).lost || (ok && old(marks).missed && old(host).active)
      ensures !ok ==> marks == old(marks)
      ensures !faults ==> ok
    {
      ok := Try(faults);
      if ok {
        var h := host.(journal := None);
        Append(Moment(h, Carried(marks, host, h).(lost := marks.lost || (marks.missed && host.active)), Finished));
      }
    }

    /** The process that comes up has loaded the configuration then on disk. */
    method Restart(faulty: bool) returns (ok: bool)
      requires Valid()
      modifies this`host, this`marks, this`trace, this`probed
      ensures Valid() && Extends(old(trace)) && Kept(old(marks), marks)
      ensures host == old(host).(active := host.active, loaded := host.loaded)
      ensures host.loaded == old(host.loaded) || Runs(host, host.conf)
      ensures host.active ==> Runs(host, host.conf) || (old(host.active) && host.loaded == old(host.loaded))
      ensures ok ==> Runs(host, host.conf)
      ensures old(marks).missed ==> marks.missed || Runs(host, host.conf)
      ensures ok ==> host.active
      ensures !faulty && host.conf.Some? ==> ok
    {
      ok := Try(faulty);
      probed := false;
      var came, stopped: bool := *, *;
      if host.conf.None? {
        ok := false;
        Commit(host.(active := false));
      } else if ok || came {
        var front := host.conf.value.front;
        var h := host.(active := true, loaded := Some(front));
        Append(Moment(h, Carried(marks, host, h).(ran := marks.ran + {front}), Write));
      } else if stopped {
        Commit(host.(active := false));
      }
    }

    /** A start brings a stopped gateway up; one that is up is left as it is, whatever it has loaded. */
    method Start(faulty: bool) returns (ok: bool)
      requires Valid() && (restarts || !Misloaded(host))
      modifies this`host, this`marks, this`trace, this`probed
      ensures Valid() && Extends(old(trace)) && Later(old(marks), marks) && marks.lost == old(marks).lost
      ensures host == old(host).(active := host.active, loaded := host.loaded)
      ensures ok ==> marks.lost || Runs(host, host.conf) || (marks.missed && marks.skips > old(marks).skips)
      ensures !Misloaded(old(host)) ==> Kept(old(marks), marks)
      ensures !Misloaded(old(host)) && host.journal.Some? && ok ==> Runs(host, host.conf)
      ensures ok ==> host.active && host == AfterStart(old(host))
      ensures !faulty && host.conf.Some? ==> ok
    {
      if host.active {
        var skips := marks.skips + if Misloaded(host) then 1 else 0;
        Append(Moment(host, marks.(missed := Misloaded(host), skips := skips), Skip));
        ok := Try(faulty);
      } else {
        ok := Restart(faulty);
      }
    }

    method Stop(faulty: bool) returns (ok: bool)
      requires Valid()
      modifies this`host, this`marks, this`trace, this`probed
      ensures Valid() && Extends(old(trace)) && Kept(old(marks), marks)
      ensures host == old(host).(active := host.active) && (host.active ==> old(host.active))
      ensures ok ==> !host.active
      ensures !faulty ==> ok
    {
      ok := Try(faulty);
      probed := false;
      var stopped: bool := *;
      if ok || stopped { Commit(host.(active := false)); }
    }

    method CheckActive(faulty: bool) returns (a: Activity)
      ensures a.Active? ==> host.active
      ensures a.Inactive? ==> !host.active
      ensures !faulty ==> !a.Unknown?
    {
      var known := Try(faulty);
      return if !known then Unknown else if host.active then Active else Inactive;
    }

    /** The probe; what it found holds until the service is touched again. */
    method CheckReady(faulty: bool) returns (ok: bool)
      modifies this`probed
      ensures ok ==> host.active && probed
      ensures !faulty ==> ok == host.active
    {
      ok := Try(faulty);
      ok := ok && host.active;
      if ok { probed := true; }
    }

    // ----- TLS material -----

    /** One file of the pair being staged; a complete pair is only ever written again as it is. */
    method PutStaged(pair: Pair, f: Files)
      requires Valid() && (Complete(host.files, Generation(pair)) ==> f == host.files[Generation(pair)])
      modifies this`host, this`marks, this`trace
      ensures Valid() && Extends(old(trace)) && Kept(old(marks), marks)
      ensures host == old(host).(files := old(host).files[Generation(pair) := f])
      ensures forall d :: Complete(old(host).files, d) ==> Complete(host.files, d)
    {
      Commit(host.(files := host.files[Generation(pair) := f]));
    }

    /** Writes the certificate, then the key, unless the pair is already there. */
    method StageGeneration(pair: Pair) returns (ok: bool)
      requires Valid()
      modifies this`host, this`marks, this`trace
      ensures Valid() && Extends(old(trace)) && Kept(old(marks), marks)
      ensures host == old(host).(files := host.files)
      ensures forall d :: Complete(old(host).files, d) ==> Complete(host.files, d)
      ensures ok ==> Complete(host.files, Generation(pair))
      ensures !faults ==> ok
    {
      var dir := Generation(pair);
      if dir !in host.files { PutStaged(pair, Files(None, None)); }
      ok := true;
      if !Complete(host.files, dir) { ok := WritePair(pair); }
      if ok { ok := Try(faults); }   // permissions
    }

    method WritePair(pair: Pair) returns (ok: bool)
      requires Valid() && Generation(pair) in host.files && !Complete(host.files, Generation(pair))
      modifies this`host, this`marks, this`trace
      ensures Valid() && Extends(old(trace)) && Kept(old(marks), marks)
      ensures host == old(host).(files := host.files)
      ensures forall d :: Complete(old(host).files, d) ==> Complete(host.files, d)
      ensures ok ==> Complete(host.files, Generation(pair))
      ensures !faults ==> ok
    {
      var dir := Generation(pair);
      ok := Try(faults);
      var renamed: bool := *;
      if ok || renamed { PutStaged(pair, host.files[dir].(cert := Some(pair.cert))); }
      if !ok { return; }
      ok := Try(faults);
      renamed := *;
      if ok || renamed { PutStaged(pair, host.files[dir].(key := Some(pair.key))); }
    }

    /** Removes a directory nothing refers to, possibly only in part. */
    method RemoveDir(dir: Dir, faulty: bool) returns (ok: bool)
      requires Valid() && host.journal.None? && DirOf(host.conf) != Some(dir)
      modifies this`host, this`marks, this`trace
      ensures Valid() && Extends(old(trace)) && Kept(old(marks), marks)
      ensures host == old(host).(files := host.files)
      ensures ok ==> host.files == old(host).files - {dir}
      ensures host.files.Keys <= old(host).files.Keys
      ensures !faulty ==> ok
    {
      ok := Try(faulty);
      var half: bool := *;
      if ok {
        Commit(host.(files := host.files - {dir}));
      } else if half && dir in host.files {
        Commit(host.(files := host.files[dir := host.files[dir].(cert := None)]));
      }
    }

    /** Deletes every generation except the one the configuration names; a failed deletion is only logged. */
    method Prune(faulty: bool) returns (clean: bool)
      requires Valid() && host.journal.None?
      modifies this`host, this`marks, this`trace
      ensures Valid() && Extends(old(trace)) && Kept(old(marks), marks)
      ensures host == old(host).(files := host.files) && host.files.Keys <= old(host).files.Keys
      ensures clean ==> Tidy(host)
      ensures !faulty ==> clean
    {
      clean := Try(faulty);   // list the directories
      if !clean { return; }
      var todo := host.files.Keys;
      while todo != {}
        invariant Valid() && Extends(old(trace)) && Kept(old(marks), marks)
        invariant host == old(host).(files := host.files) && host.files.Keys <= old(host).files.Keys
        invariant clean ==> forall d :: d in host.files ==> d in todo || DirOf(host.conf) == Some(d)
        invariant !faulty ==> clean
        decreases |todo|
      {
        var dir :| dir in todo;
        todo := todo - {dir};
        if Some(dir) != DirOf(host.conf) {
          var ok := RemoveDir(dir, faulty);
          clean := clean && ok;
        }
      }
    }

    // ----- rollback, recovery, finish -----

    /** Puts the previous frontend and gateway back. Success means the undo is complete and the journal gone; the
        journal is never gone before the frontend is back. */
    method Restore(undo: Option<Rollback>) returns (ok: bool)
      requires Valid() && (undo.Some? ==> CanRestore(host, undo.value, restarts))
      modifies this`host, this`marks, this`trace, this`probed
      ensures Valid() && Extends(old(trace)) && Later(old(marks), marks)
      ensures undo.Some? && host.journal.None? ==> Back(host, undo.value.prev)
      ensures ok && undo.Some? ==>
                && host.journal.None?
                && (undo.value.serviceChanged && !undo.value.prevActive ==> !host.active || restarts)
                && (undo.value.serviceChanged && undo.value.prevActive ==> Runs(host, undo.value.prev))
      ensures undo.None? ==> host == old(host) && marks == old(marks)
      ensures undo.Some? && !undoFaults ==> Back(host, undo.value.prev)
      ensures undo.Some? && !undoFaults && !undo.value.serviceChanged ==> ok
      ensures undo.Some? && Calm() && !undo.value.serviceChanged ==>
                host.active == old(host).active && host.loaded == old(host).loaded
      ensures undo.Some? && !undoFaults && ok ==> Tidy(host)
    {
      if undo.None? { return true; }
      ok := Rewind(undo.value);
      if ok { ok := Forget(undo.value); }
    }

    /** The previous configuration, then the previous service state. */
    method Rewind(rb: Rollback) returns (ok: bool)
      requires Valid() && CanRestore(host, rb, restarts)
      modifies this`host, this`marks, this`trace, this`probed
      ensures Valid() && Extends(old(trace)) && Kept(old(marks), marks)
      ensures host.journal == old(host).journal && (ok || host.journal.None? ==> Back(host, rb.prev))
      ensures ok ==> CanRestore(host, rb, restarts)
      ensures ok && rb.serviceChanged && !rb.prevActive ==> !host.active || (restarts && Runs(host, rb.prev))
      ensures ok && rb.serviceChanged && rb.prevActive ==> Runs(host, rb.prev)
      ensures !undoFaults ==> Back(host, rb.prev) && (!rb.serviceChanged ==> ok)
      ensures Calm() && !rb.serviceChanged ==> host.active == old(host).active && host.loaded == old(host).loaded
    {
      Interfere();
      ok := RestoreConf(rb);
      if !ok { return; }
      Interfere();
      if rb.serviceChanged {
        ok := RestoreService(rb.prevActive);
        if !ok { return; }
        Interfere();
      }
    }

    /** Clears the journal and what the undone publication staged. */
    method Forget(rb: Rollback) returns (ok: bool)
      requires Valid() && Back(host, rb.prev) && CanRestore(host, rb, restarts)
      requires rb.serviceChanged ==> marks.lost || BaselineKnown(host.(journal := None))
      modifies this`host, this`marks, this`trace
      ensures Valid() && Extends(old(trace)) && Later(old(marks), marks) && marks.skips == old(marks).skips
      ensures host == old(host).(journal := host.journal, files := host.files)
      ensures ok ==> host.journal.None?
      ensures !undoFaults ==> ok && Tidy(host)
    {
      ok := UndoJournal(rb);
      if !ok { return; }
      if rb.published.Some? && rb.published != rb.prevDir {
        ok := RemoveDir(rb.published.value, undoFaults);
        if !ok { return; }
      }
      var clean := Prune(undoFaults);
    }

    /** The gateway as it was: restarted on the restored configuration, or stopped. */
    method RestoreService(prevActive: bool) returns (ok: bool)
      requires Valid()
      modifies this`host, this`marks, this`trace, this`probed
      ensures Valid() && Extends(old(trace)) && Kept(old(marks), marks)
      ensures SameFiles(old(host), host)
      ensures ok && !prevActive ==> !host.active
      ensures ok && prevActive ==> Runs(host, host.conf) && Usable(host.conf) && probed
      ensures !undoFaults && (prevActive ==> Usable(host.conf)) ==> ok == (host.active == prevActive)
    {
      if prevActive {
        ok := Try(undoFaults);   // the pair of the previous frontend is readable
        ok := ok && Usable(host.conf);
        if !ok { return; }
        ok := Restart(undoFaults);
        if !ok { return; }
        Interfere();
        ok := CheckReady(undoFaults);
      } else {
        ok := Stop(undoFaults);
        if !ok { return; }
        ServiceMoves();
        var a := CheckActive(undoFaults);
        ok := a.Inactive?;
      }
    }

    /** Under the configuration lock: the old frontend line, every other line as it is now. */
    method RestoreConf(rb: Rollback) returns (ok: bool)
      requires Valid() && CanRestore(host, rb, restarts)
      modifies this`host, this`marks, this`trace
      ensures Valid() && Extends(old(trace)) && Kept(old(marks), marks)
      ensures CanRestore(host, rb, restarts) && host == old(host).(conf := host.conf)
      ensures ok ==> Back(host, rb.prev)
      ensures ok && rb.prev.Some? ==> host.conf == Some(RestoredConf(old(host).conf, rb.prev.value))
      ensures !undoFaults ==> ok
    {
      if rb.prev.None? {
        ok := RemoveConf(undoFaults);
      } else {
        ok := Try(undoFaults);   // read the file
        if !ok { return; }
        var previous := RestoredConf(host.conf, rb.prev.value);
        if Some(previous) != host.conf { ok := WriteConf(previous, undoFaults); }
      }
    }

    /** Makes the frontend on disk the running one before anything else may replace it. */
    method Recover() returns (ok: bool)
      requires Valid()
      modifies this`host, this`marks, this`trace, this`probed
      ensures Valid() && Extends(old(trace)) && Later(old(marks), marks)
      ensures ok ==> host.journal.None? && FrontOf(host.conf) == FrontOf(old(host).conf)
      ensures ok ==> host.files == old(host).files
      ensures ok && old(host).journal.Some? ==> Runs(host, host.conf)
      ensures !ok ==> Undone(old(host), host) && (!undoFaults ==> FullyUndone(old(host), host))
      ensures Calm() ==> (ok <==> Recoverable(old(host)))
      ensures Calm() && ok ==> host.active == (old(host).active || old(host).journal.Some?)
    {
      ok := Try(faults);   // read configuration and journal
      if !ok || host.journal.None? { return; }
      var a := CheckActive(faults);
      if a.Unknown? { return false; }
      ok := RecoverPending(a.Active?);
    }

    /** Brings the pending frontend up and drops the journal, or goes back to what the journal names. */
    method RecoverPending(wasActive: bool) returns (ok: bool)
      requires Valid() && host.journal.Some? && (!wasActive ==> !host.active)
      modifies this`host, this`marks, this`trace, this`probed
      ensures Valid() && Extends(old(trace)) && Later(old(marks), marks)
      ensures ok ==> host.journal.None? && FrontOf(host.conf) == FrontOf(old(host).conf)
      ensures ok ==> host.files == old(host).files && Runs(host, host.conf)
      ensures !ok ==> Undone(old(host), host)
      ensures !ok && !undoFaults ==>
                || Back(host, old(host).journal.value.prev)
                || (Runs(host, host.conf) && FrontOf(host.conf) == FrontOf(old(host).conf))
      ensures Calm() ==> (ok <==> Usable(old(host).conf)) && (ok ==> host.active)
    {
      var pending := host.journal.value;
      var rb := Rollback(pending.prev, pending.active, None, None, true);
      ok := Try(faults);   // TLS material, keyring
      ok := ok && Usable(host.conf);
      if ok { ok := BringUp(wasActive); }
      if !ok {
        var restored := Restore(Some(rb));
        return false;
      }
      Interfere();
      ok := Try(faults);   // read the configuration again, now under the lock
      if !ok || host.conf.None? { return false; }
      ok := Rebase();
    }

    /** Restarts a gateway that was up or starts one that was down, on a file that nobody is changing. */
    method BringUp(wasActive: bool) returns (ok: bool)
      requires Valid() && (!wasActive ==> !host.active) && host.journal.Some?
      modifies this`host, this`marks, this`trace, this`probed
      ensures Valid() && Extends(old(trace)) && Kept(old(marks), marks) && SameFiles(old(host), host)
      ensures ok ==> Runs(host, host.conf) && host.active && probed
      ensures Calm() && host.conf.Some? ==> ok
    {
      Interfere();   // the keyring
      if wasActive { ok := Restart(faults); } else { ok := Start(faults); }
      Interfere();
      if ok { ok := CheckReady(faults); }
    }

    /** The journal first describes the frontend that now runs, then goes. */
    method Rebase() returns (ok: bool)
      requires Valid() && Runs(host, host.conf) && host.journal.Some?
      modifies this`host, this`marks, this`trace, this`probed
      ensures Valid() && Extends(old(trace)) && Kept(old(marks), marks)
      ensures FrontOf(host.conf) == FrontOf(old(host).conf) && host.files == old(host).files
      ensures Runs(host, host.conf) && (ok <==> host.journal.None?)
      ensures Calm() ==> ok && host.active == old(host).active
    {
      ok := WriteJournal(true, faults);
      if !ok { return; }
      ServiceMoves();
      ok := RemoveJournal();
    }

    method Finish() returns (ok: bool)
      requires Valid() && (marks.lost || marks.missed || BaselineKnown(host.(journal := None)))
      modifies this`host, this`marks, this`trace
      ensures Valid() && Extends(old(trace)) && Later(old(marks), marks) && marks.skips == old(marks).skips
      ensures marks.lost <==> old(marks).lost || (ok && old(marks).missed && old(host).active)
      ensures ok ==> host == old(host).(journal := None, files := host.files)
      ensures !ok ==> host == old(host) && marks == old(marks)
      ensures !faults ==> ok && Tidy(host)
    {
      ok := FinishJournal();
      if ok { var clean := Prune(faults); }
    }

    // ----- apply -----

    /** The publication itself: the pair, then the journal, then the configuration. */
    method Publish(desired: Frontend, pair: Option<Pair>, wasActive: bool, rendered: Conf)
        returns (ok: bool, undo: Option<Rollback>)
      requires Valid() && host.journal.None?
      requires desired.tls == (if pair.None? then None else Some(Generation(pair.value)))
      requires rendered.front == Some(desired)
      requires wasActive ==> marks.lost || Runs(host, host.conf)
      modifies this`host, this`marks, this`trace, this`probed
      ensures Valid() && Extends(old(trace)) && Kept(old(marks), marks)
      ensures undo.Some? ==>
                undo.value == Rollback(old(host).conf, wasActive, desired.tls, DirOf(old(host).conf), false)
      ensures undo.Some? ==> CanRestore(host, undo.value, restarts)
      ensures undo.None? <==> Published(old(host), desired, pair)
      ensures restarts || (host.active ==> old(host).active)
      ensures Calm() ==> ok && host.active == old(host).active
      ensures ok ==> FrontOf(host.conf) == Some(desired)
      ensures ok && undo.None? ==> host == old(host)
      ensures ok && undo.Some? ==> host.journal == Some(Journal(undo.value.prev, wasActive))
      ensures !ok ==> undo.Some?
    {
      var current := host.conf;
      var changed := FrontOf(current) != Some(desired);
      var materialChanged := pair.Some? && !Complete(host.files, Generation(pair.value));
      if !changed && !materialChanged { return true, None; }
      undo := Some(Rollback(current, wasActive, desired.tls, DirOf(current), false));
      var next := if FrontOf(current).Some? then current.value.(front := Some(desired)) else rendered;
      ok := Stage(undo.value, pair);
      if ok { ok := Switch(undo.value, if changed then Some(next) else None); }
    }

    /** The pair, if there is one, before anything names it. */
    method Stage(rb: Rollback, pair: Option<Pair>) returns (ok: bool)
      requires Valid() && host.journal.None? && host.conf == rb.prev && CanRestore(host, rb, restarts)
      requires !rb.serviceChanged
      modifies this`host, this`marks, this`trace, this`probed
      ensures Valid() && Extends(old(trace)) && Kept(old(marks), marks)
      ensures host.conf == rb.prev && host.journal.None? && CanRestore(host, rb, restarts)
      ensures restarts || (host.active ==> old(host).active)
      ensures ok && pair.Some? ==> Complete(host.files, Generation(pair.value))
      ensures Calm() ==> ok && host.active == old(host).active
    {
      ok := true;
      if pair.Some? { ok := StageGeneration(pair.value); }
      ServiceMoves();
    }

    /** Journal first, then the new configuration if there is one. */
    method Switch(rb: Rollback, next: Option<Conf>) returns (ok: bool)
      requires Valid() && host.journal.None? && host.conf == rb.prev && CanRestore(host, rb, restarts)
      requires !rb.serviceChanged
      requires rb.prevActive && !marks.lost && marks.skips == 0 ==> HasRun(rb.prev, marks.ran)
      requires PairComplete(host.files, next)
      modifies this`host, this`marks, this`trace, this`probed
      ensures Valid() && Extends(old(trace)) && Kept(old(marks), marks)
      ensures CanRestore(host, rb, restarts) && (restarts || (host.active ==> old(host).active))
      ensures ok ==> host.conf == (if next.Some? then next else rb.prev)
      ensures ok ==> host.journal == Some(Journal(rb.prev, rb.prevActive))
      ensures Calm() ==> ok && host.active == old(host).active
    {
      ok := WriteJournal(rb.prevActive, faults);
      if !ok || next.None? { return; }
      ServiceMoves();
      ok := WriteConf(next.value, faults);
    }

    /** Everything an apply does before it takes the lock to publish. */
    method Baseline() returns (ok: bool, wasActive: bool)
      requires Valid()
      modifies this`host, this`marks, this`trace, this`probed
      ensures Valid() && Extends(old(trace)) && Later(old(marks), marks)
      ensures ok ==> host.journal.None? && FrontOf(host.conf) == FrontOf(old(host).conf)
      ensures ok ==> host.files == old(host).files
      ensures ok && wasActive ==> marks.lost || Runs(host, host.conf)
      ensures ok && !wasActive ==> restarts || !host.active
      ensures !ok ==> Undone(old(host), host) && (!undoFaults ==> FullyUndone(old(host), host))
      ensures Calm() ==> (ok <==> Recoverable(old(host))) && (ok ==> host.active == wasActive)
    {
      wasActive := false;
      ok := Recover();
      if !ok { return; }
      Interfere();
      var a := CheckActive(faults);
      if a.Unknown? { return false, false; }
      wasActive := a.Active?;
      ok := Try(faults);   // keyring, rendering
      if !ok { return; }
      Interfere();
      ok := Try(faults);   // read the configuration under the lock
    }

    method Apply(render: Option<Dir> -> (string, bool), pair: Option<Pair>, restart: bool)
        returns (ok: bool, undo: Option<Rollback>)
      requires Valid()
      modifies this`host, this`marks, this`trace, this`probed
      ensures Valid() && Extends(old(trace)) && Later(old(marks), marks)
      ensures ok ==> FrontOf(host.conf) == Some(Desired(render, pair))
      ensures ok && restart ==>
                marks.lost || Runs(host, host.conf) || (marks.missed && marks.skips > old(marks).skips)
      ensures ok && undo.Some? ==> CanRestore(host, undo.value, restarts)
      ensures ok && undo.Some? ==> host.journal == Some(Journal(undo.value.prev, undo.value.prevActive))
      ensures ok && undo.Some? ==> FrontOf(undo.value.prev) == FrontOf(old(host).conf)
      ensures ok && undo.None? ==> host.journal.None? && FrontOf(host.conf) == FrontOf(old(host).conf)
      ensures ok ==> (undo.None? <==> Published(old(host), Desired(render, pair), pair))
      ensures ok && restart ==> host.active && probed
      ensures ok && !restart && undo.None? && !faults ==> Tidy(host)
      ensures !ok ==> undo.None? && Undone(old(host), host) && (!undoFaults ==> FullyUndone(old(host), host))
      ensures Calm() ==> (ok <==> Recoverable(old(host)))
    {
      var desired := Desired(render, pair);
      var wasActive;
      ok, wasActive := Baseline();
      if !ok { return false, None; }
      var monHost: string, runDir: string := *, *;
      ok, undo := Publish(desired, pair, wasActive, Conf(Some(desired), monHost, runDir));
      Interfere();
      ok, undo := Settle(ok, undo, wasActive, restart);
    }

    /** What follows a publication: undo a failed one, bring up a good one, or leave it to a later operation. */
    method Settle(published: bool, rb: Option<Rollback>, wasActive: bool, restart: bool)
        returns (ok: bool, undo: Option<Rollback>)
      requires Valid() && (rb.Some? ==> CanRestore(host, rb.value, restarts))
      requires published ==> (rb.Some? <==> host.journal.Some?)
      requires published && rb.None? && wasActive ==> marks.lost || Runs(host, host.conf)
      requires !published ==> rb.Some?
      requires !wasActive ==> restarts || !host.active
      modifies this`host, this`marks, this`trace, this`probed
      ensures Valid() && Extends(old(trace)) && Later(old(marks), marks)
      ensures ok ==> published && SameUndo(undo, rb, restart)
      ensures ok ==> FrontOf(host.conf) == FrontOf(old(host).conf) && host.journal == old(host).journal
      ensures ok && restart ==>
                marks.lost || Runs(host, host.conf) || (marks.missed && marks.skips > old(marks).skips)
      ensures ok && undo.Some? ==> CanRestore(host, undo.value, restarts)
      ensures !ok ==> undo.None?
      ensures !ok && rb.Some? ==> host.journal.Some? || Back(host, rb.value.prev)
      ensures !ok && rb.None? ==> FrontOf(host.conf) == FrontOf(old(host).conf)
      ensures !ok && rb.Some? && !undoFaults ==> Back(host, rb.value.prev)
      ensures ok && restart ==> host.active && probed
      ensures ok && !restart && undo.None? && !faults ==> Tidy(host)
      ensures Calm() && published && old(host).conf.Some? && (wasActive ==> old(host).active) ==> ok
    {
      ok, undo := published, rb;
      if !ok {
        var restored := Restore(undo);
        undo := None;
      } else if restart {
        ok, undo := Activate(wasActive, undo);
      } else if undo.None? {
        ok := Finish();
      }
    }

    /** Starts a gateway that was down, restarts one that was up if its configuration changed, and waits for it; a
        failure undoes the publication. */
    method Activate(wasActive: bool, published: Option<Rollback>) returns (ok: bool, undo: Option<Rollback>)
      requires Valid() && (!wasActive ==> restarts || !host.active)
      requires published.Some? <==> host.journal.Some?
      requires published.Some? ==> CanRestore(host, published.value, restarts)
      requires published.None? && wasActive ==> marks.lost || Runs(host, host.conf)
      modifies this`host, this`marks, this`trace, this`probed
      ensures Valid() && Extends(old(trace)) && Later(old(marks), marks)
      ensures ok ==> SameFiles(old(host), host)
      ensures ok ==> SameUndo(undo, published, true)
      ensures ok && undo.Some? ==> CanRestore(host, undo.value, restarts)
      ensures ok ==> marks.lost || Runs(host, host.conf) || (marks.missed && marks.skips > old(marks).skips)
      ensures !ok ==> undo.None?
      ensures !ok && published.Some? ==> host.journal.Some? || Back(host, published.value.prev)
      ensures !ok && published.None? ==> FrontOf(host.conf) == FrontOf(old(host).conf)
      ensures !ok && published.Some? && !undoFaults ==> Back(host, published.value.prev)
      ensures ok ==> host.active && probed
      ensures Calm() && old(host).conf.Some? && (wasActive ==> old(host).active) ==> ok
    {
      undo := if published.None? then None else Some(published.value.(serviceChanged := true));
      ok := true;
      if !wasActive {
        ok := Start(faults);
      } else if undo.Some? {
        ok := Restart(faults);
      }
      Interfere();
      if ok { ok := CheckReady(faults); }
      if !ok {
        var restored := Restore(undo);
        undo := None;
      }
    }

    // ----- the operations callers see -----

    /** Enable or update RGW: publish, check, record, finish. On success a journal that could not be cleared names
        the confirmed configuration, or, when rewriting it failed too, the one from before. */
    method Enable(render: Option<Dir> -> (string, bool), material: Material) returns (ok: bool)
      requires Valid()
      modifies this
      ensures Valid() && Extends(old(trace)) && Later(old(marks), marks)
      ensures ok ==> FrontOf(host.conf).Some?
      ensures ok && marks.skips == old(marks).skips ==> marks.lost || Runs(host, host.conf)
      ensures ok && material.Plain? ==> FrontOf(host.conf) == Some(Desired(render, None)) && DirOf(host.conf) == None
      ensures ok && material.Supplied? ==> FrontOf(host.conf) == Some(Desired(render, Some(material.pair)))
      ensures ok && material.Supplied? ==> DirOf(host.conf) == Some(Generation(material.pair))
      // reuse publishes exactly the pair that was in use before, and fails if there was none
      ensures ok && material.Reuse? ==> ReusedPair(old(host)).Some?
      ensures ok && material.Reuse? ==> FrontOf(host.conf) == Some(Desired(render, ReusedPair(old(host))))
      ensures ok && material.Reuse? ==> DirOf(host.conf) == Some(Generation(ReusedPair(old(host)).value))
      ensures ok ==> host.journal.None? || host.journal.value.prev == host.conf
                     || FrontOf(host.journal.value.prev) == FrontOf(old(host).conf)
      ensures !ok ==> Undone(old(host), host) && (!undoFaults ==> FullyUndone(old(host), host))
      ensures Calm() ==> (ok <==> Recoverable(old(host)) && (material.Reuse? ==> DirOf(old(host).conf).Some?))
      ensures Calm() && ok ==> host.active && probed && host.journal.None? && Runs(host, host.conf) && Tidy(host)
      // the record names the frontend on disk, and a failed call leaves it alone
      ensures record == if ok then FrontOf(host.conf) else old(record)
      ensures ok && !undoFaults ==> host.journal.None? || host.journal.value.prev == host.conf
    {
      var pair, undo;
      ok, pair := ChoosePair(material);
      if !ok { return; }
      ok, undo := Apply(render, pair, true);
      if !ok { return; }
      ok := Confirm(Desired(render, pair), undo);
      if ok { Conclude(); }
    }

    /** Recovers first, then takes supplied material, the local pair, or none. */
    method ChoosePair(material: Material) returns (ok: bool, pair: Option<Pair>)
      requires Valid()
      modifies this`host, this`marks, this`trace, this`probed
      ensures Valid() && Extends(old(trace)) && Later(old(marks), marks)
      ensures ok ==> host.journal.None? && FrontOf(host.conf) == FrontOf(old(host).conf)
      ensures ok && material.Plain? ==> pair.None?
      ensures ok && material.Supplied? ==> pair == Some(material.pair)
      ensures ok && material.Reuse? ==> pair.Some? && pair == ReusedPair(old(host))
      ensures !ok ==> Undone(old(host), host) && (!undoFaults ==> FullyUndone(old(host), host))
      ensures Calm() ==> (ok <==> Recoverable(old(host)) && (material.Reuse? ==> DirOf(old(host).conf).Some?))
    {
      pair := None;
      ok := Recover();
      if !ok { return; }
      Interfere();
      if !material.Reuse? {
        return true, if material.Supplied? then Some(material.pair) else None;
      }
      ok := Try(faults);   // read the configuration, load and match the pair
      if !ok || DirOf(host.conf).None? { return false, None; }
      var files := host.files[DirOf(host.conf).value];
      pair := Some(Pair(files.cert.value, files.key.value));
    }

    /** The gateway is still active and its record is committed; otherwise the apply is undone. */
    method Confirm(desired: Frontend, undo: Option<Rollback>) returns (ok: bool)
      requires Valid() && (undo.Some? ==> CanRestore(host, undo.value, restarts))
      modifies this
      ensures Valid() && Extends(old(trace)) && Later(old(marks), marks)
      ensures ok ==> SameFiles(old(host), host) && Kept(old(marks), marks)
      ensures ok && (Runs(old(host), old(host).conf) || old(marks).missed) ==> Runs(host, host.conf) || marks.missed
      ensures ok && Runs(old(host), old(host).conf) ==> Runs(host, host.conf)
      ensures !ok && undo.Some? ==> host.journal.Some? || Back(host, undo.value.prev)
      ensures !ok && undo.None? ==> FrontOf(host.conf) == FrontOf(old(host).conf)
      ensures !ok && undo.Some? && !undoFaults ==> Back(host, undo.value.prev)
      ensures record == if ok then Some(desired) else old(record)
      ensures Calm() && old(host).active ==> ok && host.active && probed == old(probed)
    {
      Interfere();
      var a := CheckActive(faults);
      ok := a.Active?;
      if ok { ok := Record(desired); }
      if ok {
        Interfere();
      } else {
        var restored := Restore(undo);
      }
    }

    /** The database transaction, for a gateway that is up. */
    method Record(desired: Frontend) returns (ok: bool)
      requires host.active
      modifies this`record
      ensures record == if ok then Some(desired) else old(record)
      ensures !faults ==> ok
    {
      ok := Try(faults);   // server certificate, transaction
      if ok { record := Some(desired); }
    }

    /** Finishes a recorded apply, or re-points the journal at what was recorded; neither failure is reported. */
    method Conclude()
      requires Valid() && FrontOf(host.conf).Some? && (marks.lost || marks.missed || Runs(host, host.conf))
      modifies this`host, this`marks, this`trace
      ensures Valid() && Extends(old(trace)) && Later(old(marks), marks) && marks.skips == old(marks).skips
      ensures host == old(host).(journal := host.journal, files := host.files)
      ensures host.journal.None? || host.journal == old(host).journal || host.journal.value.prev == host.conf
      ensures !faults ==> host.journal.None? && Tidy(host)
      ensures !undoFaults ==> host.journal.None? || host.journal.value.prev == host.conf
    {
      var ok := Finish();
      if !ok {
        var readable := Try(undoFaults);
        if readable { var refreshed := WriteJournal(true, undoFaults); }
      }
    }

    /** Recovers first; only a gateway that is up and has TLS configured can rotate. */
    method RequireActiveTls() returns (ok: bool)
      requires Valid()
      modifies this`host, this`marks, this`trace, this`probed
      ensures Valid() && Extends(old(trace)) && Later(old(marks), marks)
      ensures ok ==> host.active && host.journal.None? && DirOf(host.conf).Some?
      ensures ok ==> FrontOf(host.conf) == FrontOf(old(host).conf)
      ensures !ok ==> Undone(old(host), host)
      ensures Calm() ==> (ok <==> Recoverable(old(host)) && (old(host).active || old(host).journal.Some?)
                                  && DirOf(old(host).conf).Some?)
    {
      ok := Recover();
      if !ok { return; }
      Interfere();
      var a := CheckActive(faults);
      ok := Try(faults);   // read the configuration and its ports, list the monitors
      ok := ok && a.Active? && DirOf(host.conf).Some?;
    }

    /** Rotate the certificate now, or leave the restart to a later operation. */
    method UpdateCertificates(render: Option<Dir> -> (string, bool), pair: Pair, restart: bool) returns (ok: bool)
      requires Valid()
      modifies this`host, this`marks, this`trace, this`probed
      ensures Valid() && Extends(old(trace)) && Later(old(marks), marks)
      ensures ok ==> FrontOf(host.conf) == Some(Desired(render, Some(pair)))
      ensures ok ==> DirOf(host.conf) == Some(Generation(pair))
      ensures ok && restart ==> host.journal.None?
      ensures ok && restart && marks.skips == old(marks).skips ==> marks.lost || Runs(host, host.conf)
      ensures !ok ==> Undone(old(host), host)
      ensures Calm() ==> (ok <==> Recoverable(old(host)) && (old(host).active || old(host).journal.Some?)
                                  && DirOf(old(host).conf).Some?)
    {
      ok := RequireActiveTls();
      if !ok { return; }
      var undo;
      ok, undo := Apply(render, Some(pair), restart);
      if !ok || !restart { return; }
      Interfere();
      ok := Finish();
    }

    /** A restart or stop that no operation asked for, between operations. */
    method UncoordinatedService()
      requires Valid()
      modifies this`host, this`marks, this`trace, this`probed
      ensures Valid() && Extends(old(trace))
    {
      var stop: bool := *;
      if stop { var ok := Stop(true); } else { var ok := Restart(true); }
    }

    /** The daemon dies: the writes after some boundary never happen, everything in memory is lost, files and
        gateway stay as that boundary left them. */
    method Crash(since: nat)
      requires Valid() && 0 < since <= |trace|
      modifies this`host, this`marks, this`trace, this`probed
      ensures Valid() && since <= |trace| && trace <= old(trace)
    {
      var at: nat := *;
      if since <= at < |trace| {
        SoundPrefix(trace, restarts, at);
        trace := trace[..at];
        var m := trace[at - 1];
        host, marks, probed := m.host, m.marks, false;
      }
    }
  }

  datatype Material = Plain | Supplied(pair: Pair) | Reuse

  function Desired(render: Option<Dir> -> (string, bool), pair: Option<Pair>): Frontend
  {
    var tls := if pair.None? then None else Some(Generation(pair.value));
    Frontend(render(tls).0, render(tls).1, tls)
  }

  datatype Op =
    | EnableOp(render: Option<Dir> -> (string, bool), material: Material)
    | RotateOp(render: Option<Dir> -> (string, bool), pair: Pair, restart: bool)
    | ServiceOp

  /** Every state at every write boundary of every run, with a crash allowed inside every operation. The pairs are
      always complete. The baseline is always known if restarts stay between operations, and with restarts anywhere
      it is lost exactly by an undo that leaves the service alone while the gateway runs something else, and by the
      finish of an apply whose start met a gateway running something else. */
  method Run(g: Gateway, ops: seq<Op>)
    requires g.Valid()
    modifies g
    ensures g.Valid() && g.Extends(old(g.trace))
    ensures forall i :: 0 <= i < |g.trace| ==> PairsComplete(g.trace[i].host)
    ensures !g.restarts ==> forall i :: 0 <= i < |g.trace| ==> BaselineKnown(g.trace[i].host)
    ensures LostExactly(g.trace)
  {
    for i := 0 to |ops|
      invariant g.Valid() && g.Extends(old(g.trace))
    {
      var since := |g.trace|;
      match ops[i] {
        case EnableOp(render, material) => var ok := g.Enable(render, material);
        case RotateOp(render, pair, restart) => var ok := g.UpdateCertificates(render, pair, restart);
        case ServiceOp => g.UncoordinatedService();
      }
      var crashed: bool := *;
      if crashed { g.Crash(since); }
      g.Interfere();
    }
    SoundLosesExactly(g.trace, g.restarts);
  }

  /** Rollback is exact: the previous frontend, and every other line as the newest writer left it. */
  lemma RestoredConfIsExact(current: Option<Conf>, prev: Conf)
    ensures RestoredConf(current, prev).front == prev.front
    ensures FrontOf(current).Some? ==>
              && RestoredConf(current, prev).monHost == current.value.monHost
              && RestoredConf(current, prev).runDir == current.value.runDir
  {
  }

  /** On every host, an undo that leaves the service alone keeps the baseline exactly if the gateway is not stranded. */
  lemma UndoKeepsBaselineIff(h: Host, rb: Rollback)
    requires !rb.serviceChanged
    ensures BaselineKnown(AfterUndo(h, rb.prev)) <==> !Stranded(h, rb)
  {
    if rb.prev.Some? {
      RestoredConfIsExact(h.conf, rb.prev.value);
    }
  }

  /** A start, as one step. */
  function AfterStart(h: Host): Host
  {
    if h.active || h.conf.None? then h else h.(active := true, loaded := Some(h.conf.value.front))
  }

  /** On every host, starting the gateway and finishing keeps the baseline exactly if the start did not meet a
      misloaded gateway. */
  lemma FinishAfterStartKeepsBaselineIff(h: Host)
    requires h.journal.Some?
    ensures BaselineKnown(AfterStart(h).(journal := None)) <==> !Misloaded(h)
  {
  }

  /** A witness: a gateway that was down at the check comes up on the old frontend before the new one is published,
      and the start that follows does nothing. Had it stayed down, the same start would have loaded the new one. */
  lemma SkippedStartLosesBaseline(prev: Conf, next: Frontend, files: map<Dir, Files>)
    requires prev.front != Some(next)
    ensures var switched := Some(prev.(front := Some(next)));
            var published := Host(switched, Some(Journal(Some(prev), false)), files, false, Some(prev.front));
            && BaselineKnown(AfterStart(published).(journal := None))
            && !BaselineKnown(AfterStart(published.(active := true)).(journal := None))
  {
    var switched := Some(prev.(front := Some(next)));
    var published := Host(switched, Some(Journal(Some(prev), false)), files, false, Some(prev.front));
    FinishAfterStartKeepsBaselineIff(published);
    FinishAfterStartKeepsBaselineIff(published.(active := true));
  }

  /** A witness: a restart between the switch of the configuration and such an undo loses the baseline, which the
      same undo keeps without it. */
  lemma RestartDuringUndoLosesBaseline(prev: Conf, next: Frontend, files: map<Dir, Files>)
    requires prev.front != Some(next)
    ensures var switched := Some(prev.(front := Some(next)));
            var published := Host(switched, Some(Journal(Some(prev), true)), files, true, Some(prev.front));
            && BaselineKnown(AfterUndo(published, Some(prev)))
            && !BaselineKnown(AfterUndo(published.(loaded := Some(Some(next))), Some(prev)))
  {
    var switched := Some(prev.(front := Some(next)));
    var published := Host(switched, Some(Journal(Some(prev), true)), files, true, Some(prev.front));
    var rb := Rollback(Some(prev), true, next.tls, DirOf(Some(prev)), false);
    UndoKeepsBaselineIff(published, rb);
    UndoKeepsBaselineIff(published.(loaded := Some(Some(next))), rb);
  }
}
