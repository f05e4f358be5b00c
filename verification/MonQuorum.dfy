/**
 Taking a monitor out of the monmap: the guard counts who would still be in
 quorum, the removal command may fail with or without having committed.
 */
module MonQuorum {
  import opened Common

  /** A strict majority of the map. */
  predicate Majority(live: set<string>, members: set<string>)
  {
    live <= members && 2 * |live| > |members|
  }

  predicate Distinct(names: seq<string>)
  {
    forall i, j :: 0 <= i < j < |names| ==> names[i] != names[j]
  }

  function Names(names: seq<string>): set<string>
  {
    set n | n in names
  }

  lemma {:induction false} DistinctCount(names: seq<string>)
    requires Distinct(names)
    ensures |Names(names)| == |names|
  {
    if names != [] {
      var last, rest := names[|names| - 1], names[..|names| - 1];
      DistinctCount(rest);
      assert Names(names) == Names(rest) + {last};
    }
  }

  /** Monitors other than `leaving` that are both in quorum and in the map. */
  function Staying(quorum: seq<string>, members: set<string>, leaving: string): set<string>
  {
    set n | n in quorum && n != leaving && n in members
  }

  method CountStaying(quorum: seq<string>, members: set<string>, leaving: string) returns (count: nat)
    requires Distinct(quorum)
    ensures count == |Staying(quorum, members, leaving)|
  {
    count := 0;
    for i := 0 to |quorum|
      invariant count == |Staying(quorum[..i], members, leaving)|
    {
      assert quorum[..i + 1] == quorum[..i] + [quorum[i]];
      if quorum[i] != leaving && quorum[i] in members {
        assert Staying(quorum[..i + 1], members, leaving) == Staying(quorum[..i], members, leaving) + {quorum[i]};
        count := count + 1;
      } else {
        assert Staying(quorum[..i + 1], members, leaving) == Staying(quorum[..i], members, leaving);
      }
    }
    assert quorum[..|quorum|] == quorum;
  }

  datatype Removal = Absent | Refused | Failed

  /** The committed monmap and the monitors that are up. */
  class Cluster {
    var monmap: seq<string>
    const live: set<string>

    predicate Valid()
      reads this
    {
      Distinct(monmap)
    }

    constructor (monmap: seq<string>, live: set<string>)
      requires Distinct(monmap)
      ensures Valid() && this.monmap == monmap && this.live == live
    {
      this.monmap, this.live := monmap, live;
    }

    /** The monitors that are up would be a majority of the map without `host`. */
    ghost predicate QuorumStays(host: string)
      reads this
    {
      Majority(live * (Names(monmap) - {host}), Names(monmap) - {host})
    }

    /** Some listing of the monitors in quorum: those that are up and in the map. */
    method Quorum() returns (quorum: seq<string>)
      requires Valid()
      ensures Distinct(quorum) && Names(quorum) == live * Names(monmap)
    {
      quorum := [];
      for i := 0 to |monmap|
        invariant Distinct(quorum) && Names(quorum) == live * Names(monmap[..i])
      {
        assert Names(monmap[..i + 1]) == Names(monmap[..i]) + {monmap[i]};
        assert monmap[i] !in Names(monmap[..i]);
        if monmap[i] in live {
          assert Names(quorum + [monmap[i]]) == Names(quorum) + {monmap[i]};
          quorum := quorum + [monmap[i]];
        }
      }
      assert monmap[..|monmap|] == monmap;
    }

    /** Commits the removal or not; `ok` is the command's reply, which faults may lose. */
    method RemoveMon(host: string, faults: bool) returns (ok: bool)
      requires Valid()
      modifies this
      ensures Valid()
      ensures monmap == old(monmap) || (Names(monmap) == Names(old(monmap)) - {host} && host in old(monmap))
      ensures ok ==> host !in monmap
      ensures !faults ==> ok
    {
      ok := *;
      ok := ok || !faults;
      var committed: bool := *;
      if !(ok || committed) { return; }
      for i := 0 to |monmap|
        invariant monmap == old(monmap) && host !in monmap[..i]
      {
        if monmap[i] == host {
          var before := monmap;
          monmap := Without(monmap, i);
          assert before == before[..i] + [host] + before[i + 1..];
          forall n
            ensures n in monmap <==> n in before && n != host
          {
          }
          return;
        }
      }
      assert monmap[..|monmap|] == monmap;
    }

    /** Idempotent removal. It changes the map only if the survivors in quorum are a majority of the new map. */
    method EnsureMonAbsent(host: string, faults: bool) returns (r: Removal)
      requires Valid()
      modifies this
      ensures Valid()
      ensures r == Absent ==> host !in monmap
      ensures old(host !in monmap) && r != Failed ==> r == Absent && monmap == old(monmap)
      ensures monmap == old(monmap) ||
              (Names(monmap) == Names(old(monmap)) - {host} && Majority(live * Names(monmap), Names(monmap)))
      ensures r == Refused ==> host in monmap && monmap == old(monmap) && !QuorumStays(host)
      ensures !faults ==> r == if old(host in monmap && !QuorumStays(host)) then Refused else Absent
    {
      var readable: bool := *;
      if !readable && faults { return Failed; }
      if host !in monmap { return Absent; }
      readable := *;
      if !readable && faults { return Failed; }
      var quorum := Quorum();
      var members := Names(monmap);
      var remaining := |monmap| - 1;
      var required := remaining / 2 + 1;
      var count := CountStaying(quorum, members, host);
      DistinctCount(monmap);
      assert forall n :: n in quorum <==> n in Names(quorum);
      assert Staying(quorum, members, host) == live * (members - {host});
      if count < required { return Refused; }
      var ok := RemoveMon(host, faults);
      if ok { return Absent; }
      readable := *;
      return if readable && host !in monmap then Absent else Failed;
    }
  }

  /** Any run of guarded removals, with lost replies and retries, leaves a live majority of a map that is not empty. */
  method RemoveMany(c: Cluster, hosts: seq<string>)
    requires c.Valid() && Majority(c.live * Names(c.monmap), Names(c.monmap))
    modifies c
    ensures c.Valid() && c.monmap != []
    ensures Majority(c.live * Names(c.monmap), Names(c.monmap))
  {
    for i := 0 to |hosts|
      invariant c.Valid() && Majority(c.live * Names(c.monmap), Names(c.monmap))
    {
      var r := c.EnsureMonAbsent(hosts[i], true);
    }
  }

  /** Any majority before a removal meets any majority after it, so no decision is lost across the change. */
  lemma MajoritiesIntersect(members: set<string>, host: string, before: set<string>, after: set<string>)
    requires host in members && Majority(before, members) && Majority(after, members - {host})
    ensures before * after != {}
  {
    if before * after == {} {
      assert |before + after| == |before| + |after|;
      Contained(before + after, members);
    }
  }

  lemma {:induction false} Contained(a: set<string>, b: set<string>)
    requires a <= b
    ensures |a| <= |b|
  {
    if x :| x in a {
      Contained(a - {x}, b - {x});
    }
  }

  /** One live monitor too few is enough to lose the map: the guard's bound cannot be lowered. */
  lemma GuardIsTight(members: set<string>, host: string, staying: set<string>)
    requires host in members && staying <= members - {host}
    ensures |staying| >= (|members| - 1) / 2 + 1 <==> Majority(staying, members - {host})
  {
  }
}
