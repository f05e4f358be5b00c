/**
 Deleting a service from a node in phases, each of which may fail; a failed
 delete is retried. Every change goes through `Commit`, so the invariant is
 checked at every boundary a crash or an error could leave behind.
 */
module Teardown {
  import opened MonQuorum

  /** Only the control services are listed in a Ceph map. */
  datatype Kind = Mon | Mgr | Mds | Rgw | Plain

  predicate Mapped(kind: Kind)
  {
    kind == Mon || kind == Mgr || kind == Mds
  }

  /** `stopped` records that teardown stopped the daemon. */
  datatype Node = Node(inMap: bool, running: bool, stopped: bool, data: bool, row: bool)

  /** The record goes last, and a monitor leaves the map before its daemon is stopped. */
  predicate Safe(kind: Kind, n: Node)
  {
    && (!n.row ==> !n.running && !n.inMap && !n.data)
    && (n.stopped ==> !n.running)
    && (kind == Mon && n.stopped ==> !n.inMap)
    && (!Mapped(kind) ==> !n.inMap)
  }

  /** What may follow what: data is cleaned only after the daemon is stopped and out of its map, and a manager or a
      metadata server is evicted only after it is stopped. */
  predicate Ordered(kind: Kind, a: Node, b: Node)
  {
    && (a.data && !b.data ==> !a.running && !a.inMap)
    && (kind != Mon && a.inMap && !b.inMap ==> !a.running)
  }

  predicate Finished(n: Node)
  {
    !n.row && !n.running && !n.inMap && !n.data
  }

  class Service {
    const kind: Kind
    const host: string
    var cluster: Cluster
    var node: Node
    var trace: seq<Node>

    ghost predicate Recorded()
      reads this
    {
      && trace != [] && trace[|trace| - 1] == node
      && (forall i :: 0 <= i < |trace| ==> Safe(kind, trace[i]))
      && (forall i, j :: 0 <= i && j == i + 1 < |trace| ==> Ordered(kind, trace[i], trace[j]))
    }

    /** The node's view of a monitor's membership is the monitor map. */
    ghost predicate Valid()
      reads this, cluster
    {
      Recorded() && cluster.Valid() && (kind == Mon ==> node.inMap == (host in cluster.monmap))
    }

    /** The quorum guard's objection: it is a monitor that the remaining quorum cannot do without. */
    ghost predicate Needed()
      reads this, cluster
    {
      kind == Mon && host in cluster.monmap && !cluster.QuorumStays(host)
    }

    /** A placed service: recorded, possibly running, not in a map if its kind has none. */
    constructor (kind: Kind, host: string, cluster: Cluster, running: bool, inMap: bool)
      requires cluster.Valid() && (!Mapped(kind) ==> !inMap) && (kind == Mon ==> inMap == (host in cluster.monmap))
      ensures Valid() && node.row && this.kind == kind && this.host == host && this.cluster == cluster
    {
      this.kind, this.host, this.cluster := kind, host, cluster;
      node := Node(inMap, running, false, true, true);
      trace := [Node(inMap, running, false, true, true)];
    }

    method Commit(n: Node)
      requires Recorded() && Safe(kind, n) && Ordered(kind, node, n)
      modifies this`node, this`trace
      ensures Recorded() && node == n && old(trace) <= trace
    {
      node := n;
      trace := trace + [n];
    }

    /** Between attempts a recorded service may be started again, or die, and other monitors may come, go and fail. A
        removed monitor does not rejoin the map. */
    method Interfere()
      requires Valid()
      modifies this`node, this`trace, this`cluster
      ensures Valid() && old(trace) <= trace && (cluster == old(cluster) || fresh(cluster))
    {
      var monmap: seq<string>, live: set<string> := *, *;
      if Distinct(monmap) && (host in monmap <==> host in cluster.monmap) {
        cluster := new Cluster(monmap, live);
      }
      var start, die: bool := *, *;
      if start && node.row {
        Commit(node.(running := true, stopped := false, inMap := node.inMap || kind == Mgr || kind == Mds));
      } else if die {
        Commit(node.(running := false));
      }
    }

    /** An outcome; without faults every command works. */
    method Try(faults: bool) returns (ok: bool)
      ensures !faults ==> ok
    {
      ok := *;
      ok := ok || !faults;
    }

    /** Leaves the monitor map, if the quorum guard agrees. */
    method EnsureMonAbsent(faults: bool) returns (ok: bool)
      requires Valid() && kind == Mon
      modifies this`node, this`trace, cluster
      ensures Valid() && old(trace) <= trace && node == old(node).(inMap := node.inMap)
      ensures ok ==> !node.inMap
      ensures !faults ==> ok == !old(Needed()) && (!ok ==> Needed())
    {
      var r := cluster.EnsureMonAbsent(host, faults);
      ok := r == Absent;
      if node.inMap != (host in cluster.monmap) {
        Commit(node.(inMap := host in cluster.monmap));
      }
    }

    /** Evicts a stopped manager or metadata server and waits until its map no longer lists it. */
    method EnsureDaemonAbsent(faults: bool) returns (ok: bool)
      requires Valid() && !node.running && kind != Mon
      modifies this`node, this`trace
      ensures Valid() && old(trace) <= trace && node == old(node).(inMap := node.inMap)
      ensures ok ==> !node.inMap
      ensures !faults ==> ok
    {
      ok := Try(faults);
      if !ok || !node.inMap { return; }
      var evicted := Try(faults);
      var aged: bool := *;
      if evicted || aged { Commit(node.(inMap := false)); }
      ok := Try(faults);
      ok := ok && !node.inMap;
    }

    /** A fault-free attempt finishes exactly when the quorum guard has no objection. */
    method DeleteService(faults: bool) returns (ok: bool)
      requires Valid()
      modifies this`node, this`trace, cluster
      ensures Valid() && old(trace) <= trace
      ensures ok ==> Finished(node) && (old(node).row || kind == Rgw)
      ensures node.row || !old(node).row || Finished(node)
      ensures !faults ==> (Finished(node) <==> !old(Needed())) && (Finished(node) || Needed())
      ensures !faults && !old(Needed()) ==> (ok <==> old(node).row || kind == Rgw)
    {
      if Mapped(kind) {
        ok := Try(faults);   // render ceph.conf
        if !ok { return; }
      }
      if kind == Mon {
        ok := EnsureMonAbsent(faults);
        if !ok { return; }
      }
      ok := TakeDown(faults);
    }

    /** What is left once a monitor is out of its map. */
    method TakeDown(faults: bool) returns (ok: bool)
      requires Valid() && (kind == Mon ==> !node.inMap)
      modifies this`node, this`trace
      ensures Valid() && old(trace) <= trace && (kind == Mon ==> !node.inMap)
      ensures ok ==> Finished(node) && (old(node).row || kind == Rgw)
      ensures node.row || !old(node).row || Finished(node)
      ensures !faults ==> Finished(node) && (ok <==> old(node).row || kind == Rgw)
    {
      ok := Try(faults);
      var stopped: bool := *;
      if ok || stopped { Commit(node.(running := false, stopped := true)); }
      if !ok { return; }
      if kind == Mgr || kind == Mds {
        ok := EnsureDaemonAbsent(faults);
        if !ok { return; }
      }
      ok := Try(faults);
      var cleaned: bool := *;
      if ok || cleaned { Commit(node.(data := false)); }
      if !ok { return; }
      ok := Try(faults);
      if !ok { return; }
      if !node.row { return kind == Rgw; }   // a missing record is an error for every other service
      Commit(node.(row := false));
    }
  }

  /** Any number of attempts, each failing anywhere: the trace never shows the record gone early or a monitor
      stopped while in the map, and one attempt without faults then finishes the job unless the service is a monitor
      that the quorum still needs. */
  method RetryUntilDone(s: Service, attempts: nat)
    requires s.Valid()
    modifies s, s.cluster
    ensures s.Valid() && forall i :: 0 <= i < |s.trace| ==> Safe(s.kind, s.trace[i])
    ensures forall i, j :: 0 <= i && j == i + 1 < |s.trace| ==> Ordered(s.kind, s.trace[i], s.trace[j])
    ensures Finished(s.node) <==> !s.Needed()
  {
    for i := 0 to attempts
      invariant s.Valid() && (s.cluster == old(s.cluster) || fresh(s.cluster))
    {
      var ok := s.DeleteService(true);
      s.Interfere();
    }
    var ok := s.DeleteService(false);
  }
}
