/**
 The cluster-wide placement apply lock: one token in a database row, taken and
 released by conditional updates, reclaimed once older than a lease. Members run
 at once, crash, and release late; their clocks differ.
 */
module PlacementLock {
  import opened Common

  /** Unix nanoseconds. */
  type Time = int
  const MINUTE: int := 60_000_000_000
  const LEASE: int := 15 * MINUTE
  const PUT_DEADLINE: int := 10 * MINUTE
  const REFUSAL_WRITE: int := MINUTE / 2
  const DELETE_DEADLINE: int := MINUTE / 2

  /** The longest an apply can work after reading its token: its deadline and one detached refusal write. */
  const WORK: int := PUT_DEADLINE + REFUSAL_WRITE

  /** How far two clocks may differ before a live apply can lose its lock: four and a half minutes. */
  const MARGIN: int := LEASE - WORK

  // ----- the row -----

  predicate Free(row: Time, staleBefore: Time)
  {
    row == 0 || row < staleBefore
  }

  /** The row after the conditional updates that members race with. */
  function AfterAcquire(row: Time, mine: Time, staleBefore: Time): Time
  {
    if Free(row, staleBefore) then mine else row
  }

  function AfterRelease(row: Time, mine: Time): Time
  {
    if row == mine then 0 else row
  }

  class PolicyRow {
    var token: Time

    constructor ()
      ensures token == 0
    {
      token := 0;
    }

    /** One conditional UPDATE: `acquired` is its affected-row count. */
    method TryAcquire(mine: Time, staleBefore: Time) returns (acquired: bool)
      modifies this
      ensures acquired <==> old(token) == 0 || old(token) < staleBefore
      ensures acquired ==> token == mine
      ensures !acquired ==> token == old(token)
      ensures token == AfterAcquire(old(token), mine, staleBefore)
    {
      acquired := token == 0 || token < staleBefore;
      if acquired { token := mine; }
    }

    /** Released only by the token that holds it. */
    method Release(mine: Time) returns (released: bool)
      modifies this
      ensures released <==> old(token) == mine
      ensures old(token) == mine ==> token == 0
      ensures old(token) != mine ==> token == old(token)
      ensures token == AfterRelease(old(token), mine)
    {
      released := token == mine;
      if released { token := 0; }
    }
  }

  // ----- members around the row -----

  datatype Request = Put(policy: nat) | Delete

  /** Refused, crashed and finished attempts are `Over`; `Leaving` still owes its deferred release. */
  datatype Phase = Waiting | Inside(stored: bool) | Leaving | Over
  datatype Attempt = Attempt(started: Time, request: Request, phase: Phase)

  /** `policy` is the stored desired policy, None after a clear. Attempts are known by their tokens. */
  datatype State = State(now: Time, row: Time, policy: Option<nat>, attempts: map<Time, Attempt>)

  datatype Step =
    | Tick(elapsed: nat)
    | Begin(token: Time, request: Request)
    | Acquire(token: Time)
    | Store(token: Time)
    | Leave(token: Time)
    | Release(token: Time)
    | Crash(token: Time)

  function Budget(r: Request): int
  {
    if r.Put? then WORK else DELETE_DEADLINE
  }

  predicate InTime(s: State, a: Attempt)
  {
    s.now <= a.started + Budget(a.request)
  }

  /** Everybody inside obeys its deadline. */
  predicate Punctual(s: State)
  {
    forall t :: t in s.attempts && s.attempts[t].phase.Inside? ==> InTime(s, s.attempts[t])
  }

  predicate InPhase(s: State, t: Time, p: Phase)
  {
    t in s.attempts && s.attempts[t].phase == p
  }

  function Move(s: State, t: Time, p: Phase): State
    requires t in s.attempts
  {
    s.(attempts := s.attempts[t := s.attempts[t].(phase := p)])
  }

  function Wanted(r: Request): Option<nat>
  {
    if r.Put? then Some(r.policy) else None
  }

  /** One step, or None when it is not enabled. A token is the member's clock when it asks: real time plus
      an offset, all offsets lying within a window of width `skew` that starts at `base`. */
  function Exec(s: State, step: Step, base: int, skew: nat): Option<State>
  {
    match step
    case Tick(elapsed) =>
      var later := s.(now := s.now + elapsed);
      if Punctual(later) then Some(later) else None
    case Begin(t, request) =>
      if t != 0 && t !in s.attempts && s.now + base <= t <= s.now + base + skew
      then Some(s.(attempts := s.attempts[t := Attempt(s.now, request, Waiting)])) else None
    case Acquire(t) =>
      if !InPhase(s, t, Waiting) || !InTime(s, s.attempts[t]) then None
      else
        var phase := if Free(s.row, t - LEASE) then Inside(false) else Over;
        Some(Move(s, t, phase).(row := AfterAcquire(s.row, t, t - LEASE)))
    case Store(t) =>
      if !InPhase(s, t, Inside(false)) then None
      else Some(Move(s, t, Inside(true)).(policy := Wanted(s.attempts[t].request)))
    case Leave(t) =>
      if t in s.attempts && s.attempts[t].phase.Inside? then Some(Move(s, t, Leaving)) else None
    case Release(t) =>
      if !InPhase(s, t, Leaving) then None
      else Some(Move(s, t, Over).(row := AfterRelease(s.row, t)))
    case Crash(t) =>
      if t in s.attempts then Some(Move(s, t, Over)) else None
  }

  function RunFrom(s: State, steps: seq<Step>, base: int, skew: nat): Option<State>
    decreases |steps|
  {
    if steps == [] then Some(s)
    else
      var next := Exec(s, steps[0], base, skew);
      if next.None? then None else RunFrom(next.value, steps[1..], base, skew)
  }

  const IDLE := State(0, 0, None, map[])

  // ----- mutual exclusion -----

  predicate IsInside(s: State, t: Time)
  {
    t in s.attempts && s.attempts[t].phase.Inside?
  }

  predicate Exclusive(s: State)
  {
    forall a, b :: a in s.attempts && b in s.attempts && IsInside(s, a) && IsInside(s, b) ==> a == b
  }

  /** What an apply has stored is what is stored for as long as it works. */
  predicate StoredIsApplied(s: State)
  {
    forall t :: t in s.attempts && s.attempts[t].phase == Inside(true) ==> s.policy == Wanted(s.attempts[t].request)
  }

  predicate Invariant(s: State, base: int, skew: nat)
  {
    && Punctual(s)
    && (forall t :: t in s.attempts ==> t != 0 && s.attempts[t].started <= s.now)
    && (forall t :: t in s.attempts ==> s.attempts[t].started + base <= t <= s.attempts[t].started + base + skew)
    && (forall t :: t in s.attempts && IsInside(s, t) ==> s.row == t)
    && StoredIsApplied(s)
  }

  /** A reclaim needs a token a lease younger; the holder has stopped working by then. */
  lemma NobodyInsideAtReclaim(s: State, t: Time, base: int, skew: nat)
    requires skew <= MARGIN && Invariant(s, base, skew)
    requires t in s.attempts && s.attempts[t].phase == Waiting && Free(s.row, t - LEASE)
    ensures forall u :: u in s.attempts ==> !IsInside(s, u)
  {
    forall u | u in s.attempts
      ensures !IsInside(s, u)
    {
      assert IsInside(s, u) ==> s.row == u && InTime(s, s.attempts[u]);
    }
  }

  lemma StepKeepsInvariant(s: State, step: Step, base: int, skew: nat)
    requires skew <= MARGIN && Invariant(s, base, skew) && Exec(s, step, base, skew).Some?
    ensures Invariant(Exec(s, step, base, skew).value, base, skew)
  {
    match step
    case Tick(_) =>
    case Begin(_, _) =>
    case Acquire(t) => AcquireKeepsInvariant(s, t, base, skew);
    case Store(t) => StoreKeepsInvariant(s, t, base, skew);
    case Leave(t) => MoveKeepsInvariant(s, t, Leaving, base, skew);
    case Release(t) => MoveKeepsInvariant(s, t, Over, base, skew);
    case Crash(t) => MoveKeepsInvariant(s, t, Over, base, skew);
  }

  lemma MoveKeepsInvariant(s: State, t: Time, p: Phase, base: int, skew: nat)
    requires Invariant(s, base, skew) && t in s.attempts && !p.Inside?
    ensures Invariant(Move(s, t, p), base, skew)
  {
    var s' := Move(s, t, p);
    assert forall u :: u in s'.attempts && u != t ==> s'.attempts[u] == s.attempts[u];
  }

  lemma AcquireKeepsInvariant(s: State, t: Time, base: int, skew: nat)
    requires skew <= MARGIN && Invariant(s, base, skew) && Exec(s, Acquire(t), base, skew).Some?
    ensures Invariant(Exec(s, Acquire(t), base, skew).value, base, skew)
  {
    if Free(s.row, t - LEASE) {
      NobodyInsideAtReclaim(s, t, base, skew);
      var s' := Exec(s, Acquire(t), base, skew).value;
      assert forall u :: u in s'.attempts && u != t ==> s'.attempts[u] == s.attempts[u] && !IsInside(s, u);
    } else {
      MoveKeepsInvariant(s, t, Over, base, skew);
    }
  }

  lemma StoreKeepsInvariant(s: State, t: Time, base: int, skew: nat)
    requires Invariant(s, base, skew) && Exec(s, Store(t), base, skew).Some?
    ensures Invariant(Exec(s, Store(t), base, skew).value, base, skew)
  {
    var s' := Exec(s, Store(t), base, skew).value;
    assert IsInside(s, t) && s.row == t;
    forall u | u in s.attempts && u != t
      ensures !IsInside(s, u) && s'.attempts[u] == s.attempts[u]
    {
      assert IsInside(s, u) ==> s.row == u;
    }
  }

  lemma {:induction false} RunKeepsInvariant(s: State, steps: seq<Step>, base: int, skew: nat)
    requires skew <= MARGIN && Invariant(s, base, skew) && RunFrom(s, steps, base, skew).Some?
    ensures Invariant(RunFrom(s, steps, base, skew).value, base, skew)
    decreases |steps|
  {
    if steps != [] {
      StepKeepsInvariant(s, steps[0], base, skew);
      RunKeepsInvariant(Exec(s, steps[0], base, skew).value, steps[1..], base, skew);
    }
  }

  /** In every run, whatever members do, at most one apply or clear is inside, and while it works the stored
      policy is the one it stored. */
  lemma MutualExclusion(steps: seq<Step>, base: int, skew: nat)
    requires skew <= MARGIN && RunFrom(IDLE, steps, base, skew).Some?
    ensures var s := RunFrom(IDLE, steps, base, skew).value; Exclusive(s) && StoredIsApplied(s)
  {
    RunKeepsInvariant(IDLE, steps, base, skew);
  }

  // ----- the lock does not stay shut -----

  /** A finished apply frees the lock: whoever asks next gets in at once, whatever its token. */
  lemma ReleasedLockIsFree(s: State, t: Time, u: Time, base: int, skew: nat)
    requires InPhase(s, t, Leaving) && s.row == t
    requires InPhase(s, u, Waiting) && InTime(s, s.attempts[u])
    ensures var released := Exec(s, Release(t), base, skew);
            && released.Some? && released.value.row == 0
            && var after := Exec(released.value, Acquire(u), base, skew);
               after.Some? && IsInside(after.value, u) && after.value.row == u
  {
    assert u in s.attempts && u != t;
  }

  /** A release that comes late, after the lock was reclaimed, leaves the reclaimer's lock and all phases alone. */
  lemma LateReleaseKeepsLock(s: State, t: Time, base: int, skew: nat)
    requires InPhase(s, t, Leaving) && s.row != t
    ensures var released := Exec(s, Release(t), base, skew);
            && released.Some? && released.value.row == s.row
            && forall u :: u in s.attempts && u != t ==> released.value.attempts[u] == s.attempts[u]
  {
  }

  /** A held lock refuses everybody until a lease has passed on the asker's clock, and then gives way: an attempt gets
      in if and only if the row is empty or older than a lease. */
  lemma AcquiresIff(s: State, u: Time, base: int, skew: nat)
    requires InPhase(s, u, Waiting) && InTime(s, s.attempts[u])
    ensures var after := Exec(s, Acquire(u), base, skew);
            && after.Some?
            && (IsInside(after.value, u) <==> s.row == 0 || s.row < u - 15 * MINUTE)
            && after.value.row == if IsInside(after.value, u) then u else s.row
  {
  }

  /** What is stored is what was asked for. */
  lemma StoresTheRequest(s: State, t: Time, base: int, skew: nat)
    requires InPhase(s, t, Inside(false))
    ensures var after := Exec(s, Store(t), base, skew);
            && after.Some? && InPhase(after.value, t, Inside(true)) && after.value.row == s.row
            && (s.attempts[t].request.Put? ==> after.value.policy == Some(s.attempts[t].request.policy))
            && (s.attempts[t].request.Delete? ==> after.value.policy == None)
  {
  }

  /** A member whose clock is a lease ahead of the token in the row gets in beside its holder. */
  lemma Reclaim(s: State, a: Time, b: Time, base: int, skew: nat) returns (s1: State, s2: State)
    requires IsInside(s, a) && s.row == a && a < b - LEASE && b != 0 && b !in s.attempts
    requires s.now + base <= b <= s.now + base + skew
    ensures Exec(s, Begin(b, Put(2)), base, skew) == Some(s1) && Exec(s1, Acquire(b), base, skew) == Some(s2)
    ensures !Exclusive(s2)
  {
    s1 := Exec(s, Begin(b, Put(2)), base, skew).value;
    s2 := Exec(s1, Acquire(b), base, skew).value;
    assert IsInside(s2, a) && IsInside(s2, b) && a != b;
  }

  /** Beyond the margin the lease is too short: a slow clock's live apply is taken for abandoned. */
  lemma MarginIsTight(base: int, skew: nat)
    requires skew > MARGIN
    ensures exists steps :: RunFrom(IDLE, steps, base, skew).Some? && !Exclusive(RunFrom(IDLE, steps, base, skew).value)
  {
    var lead := if base > 0 then 0 else 1 - base;
    var wait := if skew > LEASE then 0 else LEASE - skew + 1;
    var a, b := lead + base, lead + wait + base + skew;
    var steps := [Tick(lead), Begin(a, Put(1)), Acquire(a), Tick(wait), Begin(b, Put(2)), Acquire(b)];
    var s1 := State(lead, 0, None, map[]);
    var s2 := s1.(attempts := map[a := Attempt(lead, Put(1), Waiting)]);
    var s3 := s1.(row := a, attempts := map[a := Attempt(lead, Put(1), Inside(false))]);
    var s4 := s3.(now := lead + wait);
    assert Exec(s1, steps[1], base, skew) == Some(s2);
    assert Exec(s2, steps[2], base, skew).value.attempts == s3.attempts;
    var s5, s6 := Reclaim(s4, a, b, base, skew);
    RunSuffix(steps, [IDLE, s1, s2, s3, s4, s5, s6], 0, base, skew);
    assert steps[0..] == steps;
  }

  lemma {:induction false} RunSuffix(steps: seq<Step>, states: seq<State>, k: nat, base: int, skew: nat)
    requires |states| == |steps| + 1 && k <= |steps|
    requires forall i :: 0 <= i < |steps| ==> Exec(states[i], steps[i], base, skew) == Some(states[i + 1])
    ensures RunFrom(states[k], steps[k..], base, skew) == Some(states[|steps|])
    decreases |steps| - k
  {
    if k < |steps| {
      RunSuffix(steps, states, k + 1, base, skew);
      assert steps[k..][1..] == steps[k + 1..];
    }
  }

  /** The lock excludes in every run exactly when no two clocks differ by more than the margin. */
  lemma ExclusiveIffWithinMargin(base: int, skew: nat)
    ensures (forall steps :: RunFrom(IDLE, steps, base, skew).Some? ==>
               Exclusive(RunFrom(IDLE, steps, base, skew).value))
       <==> skew <= MARGIN
  {
    if skew <= MARGIN {
      forall steps | RunFrom(IDLE, steps, base, skew).Some?
        ensures Exclusive(RunFrom(IDLE, steps, base, skew).value)
      {
        MutualExclusion(steps, base, skew);
      }
    } else {
      MarginIsTight(base, skew);
    }
  }

  // ----- the members' race over the real row -----

  /** Any race of members whose lock steps are the row's conditional updates is a run of the model. */
  method Race(steps: seq<Step>, base: int, skew: nat) returns (s: Option<State>)
    ensures s == RunFrom(IDLE, steps, base, skew)
  {
    var row := new PolicyRow();
    var state := IDLE;
    assert steps[0..] == steps;
    for i := 0 to |steps|
      invariant state.row == row.token
      invariant RunFrom(IDLE, steps, base, skew) == RunFrom(state, steps[i..], base, skew)
    {
      assert steps[i..][0] == steps[i] && steps[i..][1..] == steps[i + 1..];
      var next := Exec(state, steps[i], base, skew);
      if next.None? { return None; }
      match steps[i] {
        case Acquire(t) =>
          var acquired := row.TryAcquire(t, t - LEASE);
          state := Move(state, t, if acquired then Inside(false) else Over).(row := row.token);
        case Release(t) =>
          var released := row.Release(t);
          state := Move(state, t, Over).(row := row.token);
        case _ => state := next.value;
      }
    }
    return Some(state);
  }
}
