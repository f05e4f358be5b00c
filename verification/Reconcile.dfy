/**
 The control-service pass of the placement engine: add first, find out which
 services are viable, then remove, never the last viable one. A Go map of
 booleans is the set of its true keys; its iteration order is whatever `:|`
 picks. Failures of remote calls are `*`.
 */
module Reconcile {
  import opened Common

  datatype Service = Mon | Mgr | Mds

  /** The `control` field of each member named by the policy: None when the field is omitted. */
  type Policy = map<string, Option<bool>>

  /** Which members have, or viably run, each service. */
  type Control = map<Service, set<string>>

  /** What Ceph says of a member's service. */
  type Readiness = (Service, string) -> bool

  predicate Total(c: Control)
  {
    Mon in c && Mgr in c && Mds in c
  }

  /** Named by the policy with control:true. */
  predicate Wanted(policy: Policy, m: string)
  {
    m in policy && policy[m] == Some(true)
  }

  /** Named by the policy with control:false. Absence and omission are not a request to remove. */
  predicate Unwanted(policy: Policy, m: string)
  {
    m in policy && policy[m] == Some(false)
  }

  // ----- viability -----

  predicate HasRemovals(observed: Control, policy: Policy)
  {
    exists s, m :: s in observed && m in observed[s] && Unwanted(policy, m)
  }

  /** An observed service counts as viable when nothing needs guarding, when it is itself to be removed
      (it is never polled and never counts), or when Ceph reports it ready. */
  predicate Viable(observed: Control, policy: Policy, ready: Readiness, s: Service, m: string)
    requires s in observed
  {
    m in observed[s] && (HasRemovals(observed, policy) ==> Unwanted(policy, m) || ready(s, m))
  }

  /** One service's share of the scan: the members worth polling, and whether any is to be removed. */
  method RetainerCandidates(members: set<string>, policy: Policy) returns (candidates: set<string>, removals: bool)
    ensures candidates == set m | m in members && !Unwanted(policy, m)
    ensures removals <==> exists m :: m in members && Unwanted(policy, m)
  {
    candidates, removals := {}, false;
    var todo := members;
    while todo != {}
      invariant todo <= members
      invariant forall m :: m in candidates <==> m in members && m !in todo && !Unwanted(policy, m)
      invariant removals <==> exists m :: m in members && m !in todo && Unwanted(policy, m)
      decreases |todo|
    {
      var m :| m in todo;
      todo := todo - {m};
      if Unwanted(policy, m) { removals := true; } else { candidates := candidates + {m}; }
    }
  }

  /** Results arrive in any order; a candidate that is not ready stops counting. */
  method Poll(s: Service, members: set<string>, candidates: set<string>, ready: Readiness)
      returns (viable: set<string>)
    requires candidates <= members
    ensures viable == set m | m in members && (m in candidates ==> ready(s, m))
  {
    viable := members;
    var todo := candidates;
    while todo != {}
      invariant todo <= candidates
      invariant viable == set m | m in members && (m in candidates - todo ==> ready(s, m))
      decreases |todo|
    {
      var m :| m in todo;
      todo := todo - {m};
      if !ready(s, m) { viable := viable - {m}; }
    }
  }

  method ControlServiceViability(observed: Control, policy: Policy, ready: Readiness) returns (viable: Control)
    requires Total(observed)
    ensures Total(viable)
    ensures forall s, m :: s in observed && s in viable ==> (m in viable[s] <==> Viable(observed, policy, ready, s, m))
  {
    var mon, r1 := RetainerCandidates(observed[Mon], policy);
    var mgr, r2 := RetainerCandidates(observed[Mgr], policy);
    var mds, r3 := RetainerCandidates(observed[Mds], policy);
    assert HasRemovals(observed, policy) <==> r1 || r2 || r3 by {
      if s, m :| s in observed && m in observed[s] && Unwanted(policy, m) {
        match s case Mon => case Mgr => case Mds =>
      }
    }
    if !(r1 || r2 || r3) || mon + mgr + mds == {} {
      forall s, m | s in observed && m in observed[s]
        ensures Viable(observed, policy, ready, s, m)
      {
        assert m in mon || m in mgr || m in mds || Unwanted(policy, m) by {
          match s case Mon => case Mgr => case Mds =>
        }
      }
      return observed;
    }
    var v1 := Poll(Mon, observed[Mon], mon, ready);
    var v2 := Poll(Mgr, observed[Mgr], mgr, ready);
    var v3 := Poll(Mds, observed[Mds], mds, ready);
    viable := map[Mon := v1, Mgr := v2, Mds := v3];
  }

  // ----- the removal pass for one service -----

  function Retainers(members: set<string>, viable: set<string>, policy: Policy): set<string>
  {
    set m | m in members && m in viable && !Unwanted(policy, m)
  }

  function Targets(members: set<string>, policy: Policy): set<string>
  {
    set m | m in members && Unwanted(policy, m)
  }

  method CountRetainers(members: set<string>, viable: set<string>, policy: Policy, target: string)
      returns (retainers: nat)
    requires Unwanted(policy, target)
    ensures retainers == |Retainers(members, viable, policy)|
  {
    retainers := 0;
    var todo := members;
    ghost var counted: set<string> := {};
    while todo != {}
      invariant todo <= members && counted == Retainers(members - todo, viable, policy)
      invariant retainers == |counted|
      decreases |todo|
    {
      var other :| other in todo;
      todo := todo - {other};
      if other != target && other in viable && !Unwanted(policy, other) {
        retainers := retainers + 1;
        counted := counted + {other};
      }
      assert counted == Retainers(members - todo, viable, policy);
    }
    assert members - todo == members;
  }

  /** Members lose the service only if it has a viable retainer; then all targets go, else all are refused. */
  method RemoveTargets(members: set<string>, viable: set<string>, policy: Policy, faults: bool)
      returns (left: set<string>, leftViable: set<string>, refused: set<string>, ok: bool)
    requires viable <= members
    ensures !faults ==> ok
    ensures left <= members && members - left <= Targets(members, policy)
    ensures leftViable == viable * left
    ensures Retainers(left, leftViable, policy) == Retainers(members, viable, policy)
    ensures left != members ==> Retainers(members, viable, policy) != {}
    ensures viable != {} ==> leftViable != {}
    ensures refused <= Targets(members, policy) && (refused != {} ==> left == members)
    ensures ok ==> left == members - (if Retainers(members, viable, policy) == {} then {} else Targets(members, policy))
    ensures ok ==> refused == if Retainers(members, viable, policy) == {} then Targets(members, policy) else {}
  {
    left, leftViable, refused, ok := members, viable, {}, true;
    ghost var keepers := Retainers(members, viable, policy);
    var todo := policy.Keys;
    while todo != {}
      invariant ok
      invariant forall m :: m in left <==> m in members && !(keepers != {} && Unwanted(policy, m) && m !in todo)
      invariant forall m :: m in leftViable <==> m in viable && m in left
      invariant forall m :: m in refused <==> keepers == {} && m in members && Unwanted(policy, m) && m !in todo
      decreases |todo|
    {
      var m :| m in todo;
      todo := todo - {m};
      if Unwanted(policy, m) && m in left {
        var retainers := CountRetainers(left, leftViable, policy, m);
        RetainersStay(members, viable, left, leftViable, policy);
        if retainers == 0 {
          refused := refused + {m};
        } else {
          ok := *;
          ok := ok || !faults;
          if !ok {
            ViableStays(members, viable, left, leftViable, policy);
            return;
          }
          left, leftViable := left - {m}, leftViable - {m};
        }
      }
    }
    RetainersStay(members, viable, left, leftViable, policy);
    ViableStays(members, viable, left, leftViable, policy);
  }

  lemma ViableStays(
      members: set<string>, viable: set<string>, left: set<string>, leftViable: set<string>, policy: Policy)
    requires viable <= members && forall m :: m in leftViable <==> m in viable && m in left
    requires Retainers(left, leftViable, policy) == Retainers(members, viable, policy)
    requires left == members || Retainers(members, viable, policy) != {}
    ensures viable != {} ==> leftViable != {}
  {
    if k :| k in Retainers(left, leftViable, policy) {
      assert k in leftViable;
    } else if v :| v in viable {
      assert v in leftViable;
    }
  }

  /** Removing unwanted members takes nothing from the retainers. */
  lemma RetainersStay(
      members: set<string>, viable: set<string>, left: set<string>, leftViable: set<string>, policy: Policy)
    requires left <= members && forall m :: m in members && m !in left ==> Unwanted(policy, m)
    requires forall m :: m in leftViable <==> m in viable && m in left
    ensures Retainers(left, leftViable, policy) == Retainers(members, viable, policy)
  {
  }

  // ----- add before remove -----

  function WantedMembers(policy: Policy): set<string>
  {
    set m | m in policy && Wanted(policy, m)
  }

  method AddMissing(members: set<string>, policy: Policy, faults: bool) returns (after: set<string>, ok: bool)
    ensures !faults ==> ok
    ensures members <= after <= members + WantedMembers(policy)
    ensures ok ==> after == members + WantedMembers(policy)
  {
    after, ok := members, true;
    var todo := WantedMembers(policy);
    while todo != {}
      invariant ok && todo <= WantedMembers(policy)
      invariant after == members + (WantedMembers(policy) - todo)
      decreases |todo|
    {
      var m :| m in todo;
      if m !in after {
        ok := *;
        if !ok && faults { return; }
        ok := true;
        after := after + {m};
      }
      todo := todo - {m};
    }
  }

  datatype Outcome = Done | AddFailed | RemovalFailed

  /** Everybody who has the service once the adds are in. */
  function Added(observed: Control, policy: Policy, s: Service): set<string>
    requires s in observed
  {
    observed[s] + WantedMembers(policy)
  }

  /** Some member that is not to be removed has the service, ready in Ceph. */
  ghost predicate Guarded(observed: Control, policy: Policy, ready: Readiness, s: Service)
    requires s in observed
  {
    exists k :: k in Added(observed, policy, s) && !Unwanted(policy, k) && ready(s, k)
  }

  /** Nobody lost the service unless it was to be removed, and then a ready member keeps it. */
  ghost predicate KeepsOne(before: set<string>, after: set<string>, policy: Policy, ready: Readiness, s: Service)
  {
    forall m :: m in before && m !in after ==>
      && m in policy && policy[m] == Some(false)
      && exists k :: k in after && (k !in policy || policy[k] != Some(false)) && ready(s, k)
  }

  /** The end state of one service, with no trace of iteration order: all targets gone, or all refused. */
  ghost predicate Settled(
      observed: Control, policy: Policy, ready: Readiness, s: Service, after: set<string>, refused: set<string>)
    requires s in observed
  {
    var all := Added(observed, policy, s);
    if Guarded(observed, policy, ready, s) then after == all - Targets(all, policy) && refused == {}
    else after == all && refused == Targets(all, policy)
  }

  method AddAll(observed: Control, policy: Policy, faults: bool) returns (full: Control, ok: bool)
    requires Total(observed)
    ensures Total(full) && (!faults ==> ok)
    ensures forall s :: s in observed && s in full ==> full[s] <= Added(observed, policy, s)
    ensures forall s :: s in observed && s in full ==> observed[s] <= full[s]
    ensures ok ==> forall s :: s in observed && s in full ==> full[s] == Added(observed, policy, s)
  {
    full := map[Mon := observed[Mon], Mgr := observed[Mgr], Mds := observed[Mds]];
    var mon, mgr, mds;
    mon, ok := AddMissing(observed[Mon], policy, faults);
    full := full[Mon := mon];
    if !ok { return; }
    mgr, ok := AddMissing(observed[Mgr], policy, faults);
    full := full[Mgr := mgr];
    if !ok { return; }
    mds, ok := AddMissing(observed[Mds], policy, faults);
    full := full[Mds := mds];
  }

  method RemoveFrom(
      s: Service, ghost observed: Control, full: Control, viable: Control, policy: Policy, ghost ready: Readiness,
      faults: bool)
      returns (left: set<string>, refused: set<string>, ok: bool)
    requires s in observed && s in full && s in viable && full[s] == Added(observed, policy, s)
    requires forall m :: m in viable[s] <==> Viable(full, policy, ready, s, m)
    ensures KeepsOne(observed[s], left, policy, ready, s) && (!faults ==> ok)
    ensures OnlyWishes(observed[s], left, refused, policy)
    ensures ok ==> Settled(observed, policy, ready, s, left, refused)
    ensures ok ==> Fulfilled(observed[s], left, refused, policy, ready, s)
  {
    GuardedIffRetained(observed, full, viable, policy, ready, s);
    var leftViable;
    left, leftViable, refused, ok := RemoveTargets(full[s], viable[s], policy, faults);
    StillGuarded(observed, full, viable, policy, ready, s, left, leftViable);
    RemovingIsWished(observed, policy, s, left, refused);
    if ok { SettledIsFulfilled(observed, policy, ready, s, left, refused); }
  }

  /** Only explicit wishes change anything: a member the policy leaves out, or names without a wish, keeps exactly what
      it had; a wish for the service never takes it away, a wish against it never adds it, and only that is refused. */
  ghost predicate OnlyWishes(before: set<string>, after: set<string>, refused: set<string>, policy: Policy)
  {
    && (forall m :: m !in policy || policy[m] == None ==> (m in after <==> m in before))
    && (forall m :: m in policy && policy[m] == Some(true) && m in before ==> m in after)
    && (forall m :: m in policy && policy[m] == Some(false) && m in after ==> m in before)
    && (forall m :: m in refused ==> m in policy && policy[m] == Some(false) && m in before)
  }

  /** Every wish for the service is fulfilled. Wishes against it are fulfilled or refused, and none is refused while a
      ready member that may keep the service has it. */
  ghost predicate Fulfilled(
      before: set<string>, after: set<string>, refused: set<string>, policy: Policy, ready: Readiness, s: Service)
  {
    && (forall m :: m in policy && policy[m] == Some(true) ==> m in after)
    && (forall m :: m in policy && policy[m] == Some(false) && m in before ==> (m in after <==> m in refused))
    && (forall k :: k in after && (k !in policy || policy[k] != Some(false)) && ready(s, k) ==> refused == {})
  }

  lemma AddingIsWished(before: set<string>, after: set<string>, policy: Policy)
    requires before <= after <= before + WantedMembers(policy)
    ensures OnlyWishes(before, after, {}, policy)
  {
  }

  lemma RemovingIsWished(
      observed: Control, policy: Policy, s: Service, left: set<string>, refused: set<string>)
    requires s in observed && left <= Added(observed, policy, s)
    requires Added(observed, policy, s) - left <= Targets(Added(observed, policy, s), policy)
    requires refused <= Targets(Added(observed, policy, s), policy)
    ensures OnlyWishes(observed[s], left, refused, policy)
  {
    var all := Added(observed, policy, s);
    forall m | m in all && m !in left
      ensures m in policy && policy[m] == Some(false)
    {
      assert m in all - left;
    }
  }

  lemma SettledIsFulfilled(
      observed: Control, policy: Policy, ready: Readiness, s: Service, left: set<string>, refused: set<string>)
    requires s in observed && Settled(observed, policy, ready, s, left, refused)
    ensures Fulfilled(observed[s], left, refused, policy, ready, s)
  {
  }

  /** The whole control pass: adds, viability, removals. */
  method ReconcileControl(observed: Control, policy: Policy, ready: Readiness, faults: bool)
      returns (after: Control, refused: Control, r: Outcome)
    requires Total(observed)
    ensures Total(after) && Total(refused)
    ensures policy == map[] ==> r == Done && after == observed
    ensures !faults ==> r == Done
    ensures forall s :: Safe(observed, after, refused, policy, ready, s)
    ensures r == AddFailed ==> forall s :: s in observed && s in after ==> observed[s] <= after[s]
    ensures r == Done && policy != map[] ==> forall s :: Complete(observed, after, refused, policy, ready, s)
  {
    refused := map[Mon := {}, Mgr := {}, Mds := {}];
    var ok := true;
    after := observed;
    if policy != map[] { after, ok := AddAll(observed, policy, faults); }
    forall s ensures Safe(observed, after, refused, policy, ready, s) {
      var k := EveryService(s);
      AddingIsWished(observed[s], after[s], policy);
    }
    if policy == map[] { return after, refused, Done; }
    if !ok { return after, refused, AddFailed; }
    var viable := ControlServiceViability(after, policy, ready);
    after, refused, ok := RemoveAll(observed, after, viable, policy, ready, faults);
    r := if ok then Done else RemovalFailed;
  }

  const SERVICES := [Mon, Mgr, Mds]

  lemma EveryService(s: Service) returns (i: nat)
    ensures i < 3 && SERVICES[i] == s
  {
    i := match s case Mon => 0 case Mgr => 1 case Mds => 2;
  }

  /** What every service can rely on, whether or not the pass succeeds. */
  ghost predicate Safe(
      observed: Control, after: Control, refused: Control, policy: Policy, ready: Readiness, s: Service)
  {
    && s in observed && s in after && s in refused
    && OnlyWishes(observed[s], after[s], refused[s], policy)
    && KeepsOne(observed[s], after[s], policy, ready, s)
  }

  ghost predicate Complete(
      observed: Control, after: Control, refused: Control, policy: Policy, ready: Readiness, s: Service)
  {
    && s in observed && s in after && s in refused
    && Settled(observed, policy, ready, s, after[s], refused[s])
    && Fulfilled(observed[s], after[s], refused[s], policy, ready, s)
  }

  /** The removal pass, service by service; the first failure ends it. */
  method RemoveAll(
      ghost observed: Control, full: Control, viable: Control, policy: Policy, ghost ready: Readiness, faults: bool)
      returns (after: Control, refused: Control, ok: bool)
    requires Total(observed) && Total(full) && Total(viable)
    requires forall s :: s in observed && s in full ==> full[s] == Added(observed, policy, s)
    requires forall s, m :: s in full && s in viable ==> (m in viable[s] <==> Viable(full, policy, ready, s, m))
    ensures Total(after) && Total(refused) && (!faults ==> ok)
    ensures forall s :: Safe(observed, after, refused, policy, ready, s)
    ensures ok ==> forall s :: Complete(observed, after, refused, policy, ready, s)
  {
    after, refused, ok := full, map[Mon := {}, Mgr := {}, Mds := {}], true;
    forall s ensures Safe(observed, after, refused, policy, ready, s) {
      var k := EveryService(s);
      AddingIsWished(observed[s], full[s], policy);
    }
    for i := 0 to 3
      invariant ok && Total(after) && Total(refused)
      invariant forall s :: Safe(observed, after, refused, policy, ready, s)
      invariant forall k :: 0 <= k < i ==> Complete(observed, after, refused, policy, ready, SERVICES[k])
    {
      var s := SERVICES[i];
      after, refused, ok := RemoveOne(s, observed, full, viable, after, refused, policy, ready, faults);
      if !ok { return; }
    }
    forall s ensures Complete(observed, after, refused, policy, ready, s) {
      var k := EveryService(s);
    }
  }

  method RemoveOne(
      s: Service, ghost observed: Control, full: Control, viable: Control, after: Control, refused: Control,
      policy: Policy, ghost ready: Readiness, faults: bool)
      returns (next: Control, no: Control, ok: bool)
    requires Total(observed) && Total(full) && Total(viable) && Total(after) && Total(refused)
    requires forall s :: s in observed && s in full ==> full[s] == Added(observed, policy, s)
    requires forall s, m :: s in full && s in viable ==> (m in viable[s] <==> Viable(full, policy, ready, s, m))
    requires forall s :: Safe(observed, after, refused, policy, ready, s)
    ensures Total(next) && Total(no) && (!faults ==> ok)
    ensures forall t :: Safe(observed, next, no, policy, ready, t)
    ensures ok ==> Complete(observed, next, no, policy, ready, s)
    ensures forall t :: t != s && Complete(observed, after, refused, policy, ready, t) ==>
              Complete(observed, next, no, policy, ready, t)
  {
    ghost var k := EveryService(s);
    var left, denied;
    left, denied, ok := RemoveFrom(s, observed, full, viable, policy, ready, faults);
    next, no := after[s := left], refused[s := denied];
    forall t ensures Safe(observed, next, no, policy, ready, t) {
      assert Safe(observed, after, refused, policy, ready, t);
    }
  }

  /** The keep-one count agrees with Ceph wherever a removal is at stake. */
  lemma GuardedIffRetained(
      observed: Control, full: Control, viable: Control, policy: Policy, ready: Readiness, s: Service)
    requires s in observed && s in full && s in viable && full[s] == Added(observed, policy, s)
    requires forall m :: m in viable[s] <==> Viable(full, policy, ready, s, m)
    ensures viable[s] <= full[s]
    ensures Targets(full[s], policy) != {} ==>
              (Guarded(observed, policy, ready, s) <==> Retainers(full[s], viable[s], policy) != {})
  {
    if t :| t in Targets(full[s], policy) {
      assert HasRemovals(full, policy);
      if Guarded(observed, policy, ready, s) {
        var k :| k in full[s] && !Unwanted(policy, k) && ready(s, k);
        assert k in Retainers(full[s], viable[s], policy);
      }
      if k :| k in Retainers(full[s], viable[s], policy) {
        assert ready(s, k) && k in Added(observed, policy, s);
      }
    }
  }

  lemma StillGuarded(observed: Control, full: Control, viable: Control, policy: Policy, ready: Readiness,
                     s: Service, left: set<string>, leftViable: set<string>)
    requires s in observed && s in full && s in viable && full[s] == Added(observed, policy, s)
    requires forall m :: m in viable[s] <==> Viable(full, policy, ready, s, m)
    requires left <= full[s] && full[s] - left <= Targets(full[s], policy)
    requires leftViable == viable[s] * left
    requires Retainers(left, leftViable, policy) == Retainers(full[s], viable[s], policy)
    requires left != full[s] ==> Retainers(full[s], viable[s], policy) != {}
    ensures KeepsOne(observed[s], left, policy, ready, s)
  {
    forall m | m in observed[s] && m !in left
      ensures Unwanted(policy, m) && exists k :: k in left && !Unwanted(policy, k) && ready(s, k)
    {
      assert m in full[s] && m in Targets(full[s], policy);
      assert HasRemovals(full, policy);
      var k :| k in Retainers(left, leftViable, policy);
      assert Viable(full, policy, ready, s, k);
    }
  }
}
