/**
 The WAL/DB partition planner: spread one partition per new OSD over the carrier
 disks, predicting the slot number the partitioner will hand out.
 The planner is a method; `PlanRows` is the value it computes, and the lemmas
 below say what that value promises.
 */
module AuxPlanner {
  import opened Common

  /** Sizes are unsigned 64-bit in the source, so sums wrap. */
  const WORD: nat := 0x1_0000_0000_0000_0000

  datatype Partition = Partition(slot: nat, size: nat)
  datatype Disk = Disk(path: string, size: nat, partitions: seq<Partition>)

  /** The planner's running view of one carrier. */
  datatype Carrier = Carrier(path: string, existing: set<nat>, next: nat, count: nat, remaining: nat, reset: bool)

  datatype Row = Row(path: string, slot: nat, size: nat, initGpt: bool, reset: bool)
  datatype Outcome = Outcome(rows: seq<Row>, carriers: seq<Carrier>)
  datatype Plan = Unplanned | Insufficient | Planned(rows: seq<Row>)

  // ----- slots -----

  function Slots(parts: seq<Partition>): set<nat>
  {
    set p | p in parts :: p.slot
  }

  /** Slot numbers start at 1; the partitioner hands out the least vacant one. */
  predicate IsLeastFree(occupied: set<nat>, slot: nat)
  {
    1 <= slot && slot !in occupied && forall k :: 1 <= k < slot ==> k in occupied
  }

  ghost function From(occupied: set<nat>, n: nat): set<nat>
  {
    set k | k in occupied && n <= k
  }

  lemma FromShrinks(occupied: set<nat>, n: nat)
    requires n in occupied
    ensures |From(occupied, n + 1)| < |From(occupied, n)|
  {
    assert From(occupied, n) == From(occupied, n + 1) + {n};
  }

  function NextFree(occupied: set<nat>, n: nat): nat
    decreases |From(occupied, n)|
  {
    if n in occupied then
      FromShrinks(occupied, n);
      NextFree(occupied, n + 1)
    else n
  }

  /** The first vacant slot at or after `n`; everything skipped is occupied. */
  lemma {:induction false} NextFreeSkips(occupied: set<nat>, n: nat)
    ensures n <= NextFree(occupied, n) && NextFree(occupied, n) !in occupied
    ensures forall k :: n <= k < NextFree(occupied, n) ==> k in occupied
    decreases |From(occupied, n)|
  {
    if n in occupied {
      FromShrinks(occupied, n);
      NextFreeSkips(occupied, n + 1);
    }
  }

  method Occupied(parts: seq<Partition>, slot: nat) returns (occupied: bool)
    ensures occupied <==> slot in Slots(parts)
  {
    occupied := false;
    for i := 0 to |parts|
      invariant occupied <==> exists j :: 0 <= j < i && parts[j].slot == slot
    {
      if parts[i].slot == slot {
        occupied := true;
      }
    }
    assert forall p :: p in parts ==> exists j :: 0 <= j < |parts| && parts[j] == p;
  }

  /** The first vacant slot at or after `start`. */
  method SkipOccupied(parts: seq<Partition>, start: nat) returns (next: nat)
    ensures next == NextFree(Slots(parts), start)
  {
    next := start;
    var occupied := Occupied(parts, next);
    while occupied
      invariant occupied <==> next in Slots(parts)
      invariant NextFree(Slots(parts), start) == NextFree(Slots(parts), next)
      decreases |From(Slots(parts), next)|, occupied
    {
      FromShrinks(Slots(parts), next);
      next := next + 1;
      occupied := Occupied(parts, next);
    }
  }

  /** `sfdisk --append` reuses the first vacant slot, not the largest plus one. */
  method NextPartitionNumber(disk: Disk) returns (next: nat)
    ensures IsLeastFree(Slots(disk.partitions), next)
    ensures next == NextFree(Slots(disk.partitions), 1)
  {
    next := SkipOccupied(disk.partitions, 1);
    NextFreeSkips(Slots(disk.partitions), 1);
  }

  // ----- capacity -----

  function SumSizes(parts: seq<Partition>): nat
  {
    if parts == [] then 0 else SumSizes(parts[..|parts| - 1]) + parts[|parts| - 1].size
  }

  /** It is the sum: of one partition its size, of two lists the sum of their sums. */
  lemma {:induction false} SumSizesAdds(a: seq<Partition>, b: seq<Partition>)
    ensures SumSizes(a + b) == SumSizes(a) + SumSizes(b)
    ensures |b| == 1 ==> SumSizes(b) == b[0].size
  {
    if b == [] {
      assert a + b == a;
    } else {
      assert (a + b)[..|a + b| - 1] == a + b[..|b| - 1];
      SumSizesAdds(a, b[..|b| - 1]);
    }
  }

  function UsedBytes(disk: Disk): nat
  {
    var used := SumSizes(disk.partitions) % WORD;
    if used > disk.size then disk.size else used
  }

  method DiskUsedBytes(disk: Disk) returns (used: nat)
    ensures used == UsedBytes(disk)
    ensures used <= disk.size
  {
    used := 0;
    for i := 0 to |disk.partitions|
      invariant used == SumSizes(disk.partitions[..i]) % WORD
    {
      assert disk.partitions[..i + 1][..i] == disk.partitions[..i];
      used := (used + disk.partitions[i].size) % WORD;
    }
    assert disk.partitions[..|disk.partitions|] == disk.partitions;
    if used > disk.size {
      used := disk.size;
    }
  }

  function Start(disk: Disk, resets: set<string>): Carrier
  {
    if disk.path in resets then Carrier(disk.path, {}, 1, 0, disk.size, true)
    else Carrier(disk.path, Slots(disk.partitions), NextFree(Slots(disk.partitions), 1),
                 |disk.partitions|, disk.size - UsedBytes(disk), false)
  }

  function StartAll(disks: seq<Disk>, resets: set<string>): (cs: seq<Carrier>)
    ensures |cs| == |disks|
    ensures forall i :: 0 <= i < |disks| ==> cs[i] == Start(disks[i], resets)
  {
    seq(|disks|, i requires 0 <= i < |disks| => Start(disks[i], resets))
  }

  // ----- the greedy rule -----

  /** Fewer partitions first, then the smaller device path. */
  predicate Better(a: Carrier, b: Carrier)
  {
    a.count < b.count || (a.count == b.count && Less(a.path, b.path))
  }

  function Best(cs: seq<Carrier>, size: nat, k: nat): (best: Option<nat>)
    requires k <= |cs|
    ensures best.Some? ==> best.value < k && size <= cs[best.value].remaining
  {
    if k == 0 then None
    else
      var b := Best(cs, size, k - 1);
      if cs[k - 1].remaining < size then b
      else if b.None? || Better(cs[k - 1], cs[b.value]) then Some(k - 1)
      else b
  }

  function RowOn(c: Carrier, size: nat): Row
  {
    Row(c.path, c.next, size, c.count == 0, c.reset)
  }

  function Place(c: Carrier, size: nat): Carrier
    requires size <= c.remaining
  {
    c.(remaining := c.remaining - size, count := c.count + 1, next := NextFree(c.existing, c.next + 1), reset := false)
  }

  function Placed(cs: seq<Carrier>, b: nat, size: nat): (after: seq<Carrier>)
    requires b < |cs| && size <= cs[b].remaining
    ensures |after| == |cs|
  {
    cs[b := Place(cs[b], size)]
  }

  function PlanRows(cs: seq<Carrier>, osds: nat, size: nat): (r: Option<Outcome>)
    ensures r.Some? ==> |r.value.rows| == osds && |r.value.carriers| == |cs|
    decreases osds
  {
    if osds == 0 then Some(Outcome([], cs))
    else
      var b := Best(cs, size, |cs|);
      if b.None? then None
      else Prepend([RowOn(cs[b.value], size)], PlanRows(Placed(cs, b.value, size), osds - 1, size))
  }

  function Prepend(rows: seq<Row>, r: Option<Outcome>): Option<Outcome>
  {
    if r.None? then None else Some(Outcome(rows + r.value.rows, r.value.carriers))
  }

  lemma PrependTwice(a: seq<Row>, b: seq<Row>, r: Option<Outcome>)
    ensures Prepend(a, Prepend(b, r)) == Prepend(a + b, r)
  {
    if r.Some? {
      assert a + (b + r.value.rows) == (a + b) + r.value.rows;
    }
  }

  lemma PrependNothing(r: Option<Outcome>)
    ensures Prepend([], r) == r
  {
    if r.Some? {
      assert [] + r.value.rows == r.value.rows;
    }
  }

  lemma OneMoreRow(rows: seq<Row>, cs: seq<Carrier>, osds: nat, size: nat, b: nat)
    requires osds > 0 && Best(cs, size, |cs|) == Some(b)
    ensures Prepend(rows, PlanRows(cs, osds, size))
         == Prepend(rows + [RowOn(cs[b], size)], PlanRows(Placed(cs, b, size), osds - 1, size))
  {
    PrependTwice(rows, [RowOn(cs[b], size)], PlanRows(Placed(cs, b, size), osds - 1, size));
  }

  lemma NoMoreRows(rows: seq<Row>, cs: seq<Carrier>, size: nat)
    ensures Prepend(rows, PlanRows(cs, 0, size)) == Some(Outcome(rows, cs))
  {
    assert rows + [] == rows;
  }

  method StartStates(disks: seq<Disk>, resets: set<string>) returns (states: seq<Carrier>)
    ensures states == StartAll(disks, resets)
  {
    states := [];
    for i := 0 to |disks|
      invariant |states| == i
      invariant forall j :: 0 <= j < i ==> states[j] == Start(disks[j], resets)
    {
      var disk := disks[i];
      var used := DiskUsedBytes(disk);
      var next := NextPartitionNumber(disk);
      var count, remaining, existing := |disk.partitions|, 0, Slots(disk.partitions);
      var reset := disk.path in resets;
      if reset {
        remaining, next, count, existing := disk.size, 1, 0, {};
      } else if disk.size > used {
        remaining := disk.size - used;
      }
      states := states + [Carrier(disk.path, existing, next, count, remaining, reset)];
    }
  }

  method ChooseCarrier(states: seq<Carrier>, size: nat) returns (choice: int)
    ensures choice == -1 <==> Best(states, size, |states|) == None
    ensures choice != -1 ==> 0 <= choice < |states| && Best(states, size, |states|) == Some(choice)
  {
    choice := -1;
    for idx := 0 to |states|
      invariant choice == -1 <==> Best(states, size, idx) == None
      invariant choice != -1 ==> 0 <= choice < idx && Best(states, size, idx) == Some(choice)
    {
      if states[idx].remaining >= size {
        if choice == -1 || states[idx].count < states[choice].count ||
           (states[idx].count == states[choice].count && Less(states[idx].path, states[choice].path)) {
          choice := idx;
        }
      }
    }
  }

  method PlanAuxiliaryPartitions(osds: nat, disks: seq<Disk>, resets: set<string>, size: nat) returns (plan: Plan)
    ensures plan.Unplanned? <==> osds == 0 || disks == []
    ensures osds != 0 && disks != [] ==> plan == PlanOf(PlanRows(StartAll(disks, resets), osds, size))
    ensures plan.Planned? ==> |plan.rows| == osds
    ensures plan.Planned? && DistinctDisks(disks) && AllMeasured(disks, resets) ==>
              GoodPlan(disks, resets, size, plan.rows)
    ensures size > 0 && AllMeasured(disks, resets) ==>
              (plan.Insufficient? <==> osds != 0 && disks != [] && FreePlaces(disks, resets, size) < osds)
  {
    if osds == 0 || disks == [] {
      return Unplanned;
    }
    var states := StartStates(disks, resets);
    plan := PlaceAll(states, osds, size);
    if AllMeasured(disks, resets) {
      if size > 0 { InsufficientIff(disks, resets, osds, size); }
      if plan.Planned? && DistinctDisks(disks) { PlanIsGood(disks, resets, osds, size); }
    }
  }

  function PlanOf(r: Option<Outcome>): Plan
  {
    if r.None? then Insufficient else Planned(r.value.rows)
  }

  /** Places one partition after the other, each on the carrier that is best at that moment. */
  method PlaceAll(carriers: seq<Carrier>, osds: nat, size: nat) returns (plan: Plan)
    ensures plan == PlanOf(PlanRows(carriers, osds, size))
  {
    var states := carriers;
    ghost var goal := PlanRows(states, osds, size);
    var rows: seq<Row> := [];
    PrependNothing(goal);
    for i := 0 to osds
      invariant Prepend(rows, PlanRows(states, osds - i, size)) == goal
    {
      var choice := ChooseCarrier(states, size);
      if choice == -1 {
        return Insufficient;
      }
      var row := Row(states[choice].path, states[choice].next, size, states[choice].count == 0, states[choice].reset);
      OneMoreRow(rows, states, osds - i, size, choice);
      assert row == RowOn(states[choice], size);
      rows := rows + [row];
      states := Placed(states, choice, size);
    }
    NoMoreRows(rows, states, size);
    return Planned(rows);
  }

  /** The first row of a plan and the plan for the rest. */
  lemma FirstRow(cs: seq<Carrier>, osds: nat, size: nat) returns (b: nat, rest: Outcome)
    requires osds > 0 && PlanRows(cs, osds, size).Some?
    ensures Best(cs, size, |cs|) == Some(b) && b < |cs| && size <= cs[b].remaining
    ensures PlanRows(Placed(cs, b, size), osds - 1, size) == Some(rest)
    ensures var o := PlanRows(cs, osds, size).value;
            && o.rows == [RowOn(cs[b], size)] + rest.rows
            && o.rows[1..] == rest.rows
            && o.carriers == rest.carriers
  {
    b := Best(cs, size, |cs|).value;
    rest := PlanRows(Placed(cs, b, size), osds - 1, size).value;
  }

  // ----- the choice is the best carrier with room -----

  lemma BetterTransitive(a: Carrier, b: Carrier, c: Carrier)
    requires Better(a, b) && Better(b, c)
    ensures Better(a, c)
  {
    if a.count == b.count == c.count {
      LessTransitive(a.path, b.path, c.path);
    }
  }

  lemma {:induction false} BestIsBest(cs: seq<Carrier>, size: nat, k: nat, i: nat)
    requires i < k <= |cs| && size <= cs[i].remaining
    ensures Best(cs, size, k).Some?
    ensures !Better(cs[i], cs[Best(cs, size, k).value])
    ensures var b := cs[Best(cs, size, k).value];
            b.count < cs[i].count || (b.count == cs[i].count && !Less(cs[i].path, b.path))
  {
    var last := cs[k - 1];
    if i == k - 1 {
      LessIrreflexive(last.path);
    } else {
      BestIsBest(cs, size, k - 1, i);
      var b := cs[Best(cs, size, k - 1).value];
      if Better(last, b) && Better(cs[i], last) {
        BetterTransitive(cs[i], last, b);
      }
    }
  }

  // ----- optimality -----

  function Capacity(cs: seq<Carrier>, size: nat): nat
    requires size > 0
  {
    if cs == [] then 0 else cs[0].remaining / size + Capacity(cs[1..], size)
  }

  lemma OneFewer(bytes: nat, size: nat)
    requires 0 < size <= bytes
    ensures (bytes - size) / size == bytes / size - 1
  {
    QuotientUnique(bytes - size, size, bytes / size - 1, bytes % size);
  }

  lemma QuotientUnique(a: int, d: nat, q: int, m: nat)
    requires m < d && a == q * d + m
    ensures a / d == q
  {
    var q', m' := a / d, a % d;
    assert q' * d + m' == q * d + m;
    assert (q' - q) * d == m - m' && (q - q') * d == m' - m;
    if q' > q {
      AtLeast(q' - q, d);
    } else if q' < q {
      AtLeast(q - q', d);
    }
  }

  lemma AtLeast(n: nat, d: nat)
    requires n >= 1
    ensures n * d >= d
  {
  }

  lemma {:induction false} CapacityUpdate(cs: seq<Carrier>, size: nat, i: nat)
    requires size > 0 && i < |cs| && size <= cs[i].remaining
    ensures Capacity(Placed(cs, i, size), size) == Capacity(cs, size) - 1
  {
    var after := Placed(cs, i, size);
    if i == 0 {
      assert after[1..] == cs[1..];
      OneFewer(cs[0].remaining, size);
    } else {
      assert after[1..] == Placed(cs[1..], i - 1, size);
      CapacityUpdate(cs[1..], size, i - 1);
    }
  }

  lemma {:induction false} NoRoomNoCapacity(cs: seq<Carrier>, size: nat)
    requires size > 0 && forall i :: 0 <= i < |cs| ==> cs[i].remaining < size
    ensures Capacity(cs, size) == 0
  {
    if cs != [] {
      NoRoomNoCapacity(cs[1..], size);
    }
  }

  /** The greedy planner fails exactly when the carriers cannot hold that many partitions. */
  lemma {:induction false} PlannerIsOptimal(cs: seq<Carrier>, osds: nat, size: nat)
    requires size > 0
    ensures PlanRows(cs, osds, size).None? <==> Capacity(cs, size) < osds
    decreases osds
  {
    if osds != 0 {
      var b := Best(cs, size, |cs|);
      if b.None? {
        forall i | 0 <= i < |cs|
          ensures cs[i].remaining < size
        {
          if size <= cs[i].remaining {
            BestIsBest(cs, size, |cs|, i);
          }
        }
        NoRoomNoCapacity(cs, size);
      } else {
        CapacityUpdate(cs, size, b.value);
        PlannerIsOptimal(Placed(cs, b.value, size), osds - 1, size);
      }
    }
  }

  /** An assignment sends the partition of each OSD to some carrier; `LoadOf` counts those sent to carrier `i`. */
  function LoadOf(to: seq<nat>, i: nat): nat
  {
    multiset(to)[i]
  }

  predicate Assigns(cs: seq<Carrier>, to: seq<nat>)
  {
    forall k :: 0 <= k < |to| ==> to[k] < |cs|
  }

  /** No carrier gets more than it has room for. */
  predicate Fits(cs: seq<Carrier>, size: nat, to: seq<nat>)
  {
    forall i :: 0 <= i < |cs| ==> LoadOf(to, i) * size <= cs[i].remaining
  }

  function LoadBelow(to: seq<nat>, n: nat): nat
  {
    if n == 0 then 0 else LoadBelow(to, n - 1) + LoadOf(to, n - 1)
  }

  lemma {:induction false} LoadsAddUp(to: seq<nat>, n: nat)
    requires forall k :: 0 <= k < |to| ==> to[k] < n
    ensures LoadBelow(to, n) == |to|
  {
    if to == [] {
      NothingBelow(n);
    } else {
      var init, last := to[..|to| - 1], to[|to| - 1];
      assert to == init + [last];
      LoadsAddUp(init, n);
      OneMoreBelow(init, last, n);
    }
  }

  lemma {:induction false} NothingBelow(n: nat)
    ensures LoadBelow([], n) == 0
  {
    if n > 0 { NothingBelow(n - 1); }
  }

  lemma {:induction false} OneMoreBelow(to: seq<nat>, x: nat, n: nat)
    ensures LoadBelow(to + [x], n) == LoadBelow(to, n) + if x < n then 1 else 0
  {
    if n > 0 {
      OneMoreBelow(to, x, n - 1);
      assert multiset(to + [x]) == multiset(to) + multiset{x};
    }
  }

  lemma {:induction false} CapacityAppend(cs: seq<Carrier>, c: Carrier, size: nat)
    requires size > 0
    ensures Capacity(cs + [c], size) == Capacity(cs, size) + c.remaining / size
  {
    if cs == [] {
      assert ([] + [c])[1..] == [];
    } else {
      assert (cs + [c])[1..] == cs[1..] + [c];
      CapacityAppend(cs[1..], c, size);
    }
  }

  lemma LoadBound(load: nat, size: nat, bytes: nat)
    requires size > 0 && load * size <= bytes
    ensures load <= bytes / size
  {
    var q, r := bytes / size, bytes % size;
    assert bytes == q * size + r;
    if load > q {
      assert (load - q) * size == load * size - q * size;
      AtLeast(load - q, size);
    }
  }

  lemma {:induction false} LoadWithinCapacity(cs: seq<Carrier>, size: nat, to: seq<nat>, n: nat)
    requires size > 0 && n <= |cs| && Fits(cs, size, to)
    ensures LoadBelow(to, n) <= Capacity(cs[..n], size)
  {
    if n > 0 {
      LoadWithinCapacity(cs, size, to, n - 1);
      assert cs[..n] == cs[..n - 1] + [cs[n - 1]];
      CapacityAppend(cs[..n - 1], cs[n - 1], size);
      LoadBound(LoadOf(to, n - 1), size, cs[n - 1].remaining);
    }
  }

  /** Any assignment that fits has at most as many rows as the carriers' capacity. */
  lemma AssignmentWithinCapacity(cs: seq<Carrier>, size: nat, to: seq<nat>)
    requires size > 0 && Assigns(cs, to) && Fits(cs, size, to)
    ensures |to| <= Capacity(cs, size)
  {
    LoadsAddUp(to, |cs|);
    LoadWithinCapacity(cs, size, to, |cs|);
    assert cs[..|cs|] == cs;
  }

  /** Where the planner fails, no assignment whatever fits. */
  lemma FailureMeansNoAssignment(cs: seq<Carrier>, osds: nat, size: nat, to: seq<nat>)
    requires size > 0 && PlanRows(cs, osds, size).None? && |to| == osds && Assigns(cs, to)
    ensures !Fits(cs, size, to)
  {
    PlannerIsOptimal(cs, osds, size);
    if Fits(cs, size, to) {
      AssignmentWithinCapacity(cs, size, to);
    }
  }

  // ----- accounting, per carrier -----

  function RowsOn(rows: seq<Row>, path: string): nat
  {
    if rows == [] then 0 else (if rows[0].path == path then 1 else 0) + RowsOn(rows[1..], path)
  }

  function BytesOn(rows: seq<Row>, path: string): nat
  {
    if rows == [] then 0 else (if rows[0].path == path then rows[0].size else 0) + BytesOn(rows[1..], path)
  }

  predicate DistinctPaths(cs: seq<Carrier>)
  {
    forall i, j :: 0 <= i < j < |cs| ==> cs[i].path != cs[j].path
  }

  /** Every planned byte is taken from the carrier's remaining space, and never more than there is. */
  lemma {:induction false} PlannedBytesFit(cs: seq<Carrier>, osds: nat, size: nat, i: nat)
    requires DistinctPaths(cs) && i < |cs|
    requires PlanRows(cs, osds, size).Some?
    ensures var o := PlanRows(cs, osds, size).value;
            && o.carriers[i].remaining == cs[i].remaining - BytesOn(o.rows, cs[i].path)
            && o.carriers[i].count == cs[i].count + RowsOn(o.rows, cs[i].path)
            && o.carriers[i].path == cs[i].path
    decreases osds
  {
    if osds != 0 {
      var b, rest := FirstRow(cs, osds, size);
      PlannedBytesFit(Placed(cs, b, size), osds - 1, size, i);
      assert i != b ==> cs[i].path != cs[b].path;
    }
  }

  /** Rows are spread evenly: whoever got one is at most one ahead of whoever could still take one. */
  lemma {:induction false} PlannerIsBalanced(cs: seq<Carrier>, osds: nat, size: nat, i: nat, j: nat)
    requires DistinctPaths(cs) && i < |cs| && j < |cs|
    requires PlanRows(cs, osds, size).Some?
    requires RowsOn(PlanRows(cs, osds, size).value.rows, cs[i].path) > 0
    requires size <= PlanRows(cs, osds, size).value.carriers[j].remaining
    ensures var o := PlanRows(cs, osds, size).value;
            o.carriers[i].count <= o.carriers[j].count + 1
    decreases osds
  {
    var b, rest := FirstRow(cs, osds, size);
    if RowsOn(rest.rows, cs[i].path) > 0 {
      PlannerIsBalanced(Placed(cs, b, size), osds - 1, size, i, j);
    } else {
      assert cs[b].path == cs[i].path && b == i;
      PlannedBytesFit(cs, osds, size, i);
      PlannedBytesFit(cs, osds, size, j);
      BestIsBest(cs, size, |cs|, j);
    }
  }

  // ----- the planned slot is the one the partitioner will hand out -----

  /** What is on the carrier once `occupied` reflects its table and the earlier rows. */
  predicate Tracks(c: Carrier, occupied: set<nat>)
  {
    && IsLeastFree(occupied, c.next)
    && c.existing <= occupied
    && forall k :: k in occupied ==> k < c.next || k in c.existing
  }

  lemma PlaceTracks(c: Carrier, occupied: set<nat>, size: nat)
    requires Tracks(c, occupied) && size <= c.remaining
    ensures Tracks(Place(c, size), occupied + {c.next})
  {
    NextFreeSkips(c.existing, c.next + 1);
  }

  lemma RowsOnPrefix(row: Row, rest: seq<Row>, k: nat, path: string)
    requires 0 < k <= |rest| + 1
    ensures RowsOn(([row] + rest)[..k], path) == (if row.path == path then 1 else 0) + RowsOn(rest[..k - 1], path)
  {
    assert ([row] + rest)[..k] == [row] + rest[..k - 1];
    assert ([row] + rest[..k - 1])[1..] == rest[..k - 1];
  }

  /** Reset is asked only by a carrier's first row, and GPT initialisation only by the first row of an empty one. */
  lemma {:induction false} FlagsOnFirstRowOnly(cs: seq<Carrier>, osds: nat, size: nat, i: nat, k: nat)
    requires DistinctPaths(cs) && i < |cs|
    requires PlanRows(cs, osds, size).Some? && k < osds
    requires PlanRows(cs, osds, size).value.rows[k].path == cs[i].path
    ensures var rows := PlanRows(cs, osds, size).value.rows;
            && (rows[k].reset <==> cs[i].reset && RowsOn(rows[..k], cs[i].path) == 0)
            && (rows[k].initGpt <==> cs[i].count == 0 && RowsOn(rows[..k], cs[i].path) == 0)
    decreases osds
  {
    var b, rest := FirstRow(cs, osds, size);
    if k == 0 {
      assert b == i;
    } else {
      assert PlanRows(cs, osds, size).value.rows[k] == rest.rows[k - 1];
      assert Placed(cs, b, size)[i].path == cs[i].path;
      FlagsOnFirstRowOnly(Placed(cs, b, size), osds - 1, size, i, k - 1);
      RowsOnPrefix(RowOn(cs[b], size), rest.rows, k, cs[i].path);
      assert b != i ==> cs[b].path != cs[i].path;
    }
  }

  lemma StartTracks(disk: Disk, resets: set<string>)
    ensures var c := Start(disk, resets); Tracks(c, c.existing)
  {
    NextFreeSkips(Slots(disk.partitions), 1);
  }

  // ----- the plan in terms of the disks -----

  predicate DistinctDisks(disks: seq<Disk>)
  {
    forall i, j :: 0 <= i < j < |disks| ==> disks[i].path != disks[j].path
  }

  /** The bytes a new partition may take; a reset frees the whole disk. */
  function FreeBytes(d: Disk, resets: set<string>): nat
  {
    if d.path in resets then d.size
    else if SumSizes(d.partitions) >= d.size then 0
    else d.size - SumSizes(d.partitions)
  }

  /** The partitions that count when carriers are compared. */
  function InUse(d: Disk, resets: set<string>): nat
  {
    if d.path in resets then 0 else |d.partitions|
  }

  /** The 64-bit sum of the partition sizes tells the truth about a disk of this size. */
  predicate Measured(d: Disk)
  {
    SumSizes(d.partitions) < 0x1_0000_0000_0000_0000
    || d.size <= SumSizes(d.partitions) % 0x1_0000_0000_0000_0000
  }

  predicate AllMeasured(disks: seq<Disk>, resets: set<string>)
  {
    forall i :: 0 <= i < |disks| ==> disks[i].path in resets || Measured(disks[i])
  }

  /** The planner's view of the free space is right exactly for such disks. */
  lemma RemainingIsFreeIff(d: Disk, resets: set<string>)
    requires d.size < 0x1_0000_0000_0000_0000
    ensures Start(d, resets).remaining == FreeBytes(d, resets) <==> d.path in resets || Measured(d) || d.size == 0
  {
  }

  lemma MeasuredRemaining(d: Disk, resets: set<string>)
    requires d.path in resets || Measured(d)
    ensures Start(d, resets).remaining == FreeBytes(d, resets) && Start(d, resets).count == InUse(d, resets)
  {
  }

  /** A witness: two partitions of half the word wrap to nothing, and the disk looks empty. */
  lemma WrappedSizesLookFree()
    ensures var d := Disk("sdb", 100, [Partition(1, WORD / 2), Partition(2, WORD / 2)]);
            FreeBytes(d, {}) == 0 && Start(d, {}).remaining == 100
  {
    var p, q := Partition(1, WORD / 2), Partition(2, WORD / 2);
    SumSizesAdds([p], [q]);
    SumSizesAdds([], [p]);
    assert [p] + [q] == [p, q] && [] + [p] == [p] && SumSizes([]) == 0;
  }

  /** How many partitions of this size the disks can take. */
  function FreePlaces(disks: seq<Disk>, resets: set<string>, size: nat): nat
    requires size > 0
  {
    if disks == [] then 0 else FreeBytes(disks[0], resets) / size + FreePlaces(disks[1..], resets, size)
  }

  lemma {:induction false} CapacityIsFreePlaces(disks: seq<Disk>, resets: set<string>, size: nat)
    requires size > 0 && AllMeasured(disks, resets)
    ensures Capacity(StartAll(disks, resets), size) == FreePlaces(disks, resets, size)
  {
    if disks != [] {
      MeasuredRemaining(disks[0], resets);
      assert StartAll(disks, resets)[1..] == StartAll(disks[1..], resets);
      CapacityIsFreePlaces(disks[1..], resets, size);
    }
  }

  lemma InsufficientIff(disks: seq<Disk>, resets: set<string>, osds: nat, size: nat)
    requires size > 0 && AllMeasured(disks, resets)
    ensures PlanRows(StartAll(disks, resets), osds, size).None? <==> FreePlaces(disks, resets, size) < osds
  {
    PlannerIsOptimal(StartAll(disks, resets), osds, size);
    CapacityIsFreePlaces(disks, resets, size);
  }

  function SlotsOn(rows: seq<Row>, path: string): set<nat>
  {
    set k | 0 <= k < |rows| && rows[k].path == path :: rows[k].slot
  }

  /** Row `k` on disk `d`: the next least free slot, with the flags of a first row. */
  predicate RowIsNext(d: Disk, resets: set<string>, size: nat, rows: seq<Row>, k: nat)
    requires k < |rows|
  {
    && rows[k].size == size
    && (rows[k].reset <==> d.path in resets && RowsOn(rows[..k], d.path) == 0)
    && (rows[k].initGpt <==> (d.path in resets || d.partitions == []) && RowsOn(rows[..k], d.path) == 0)
    && IsLeastFree((if d.path in resets then {} else Slots(d.partitions)) + SlotsOn(rows[..k], d.path), rows[k].slot)
  }

  /** When row `k` was placed, disk `e` had no room left, or `d` had fewer partitions, or as many and a path that is not
      larger. */
  predicate ChosenOver(d: Disk, e: Disk, resets: set<string>, size: nat, rows: seq<Row>, k: nat)
    requires k <= |rows|
  {
    var i, j := InUse(d, resets) + RowsOn(rows[..k], d.path), InUse(e, resets) + RowsOn(rows[..k], e.path);
    || FreeBytes(e, resets) < BytesOn(rows[..k], e.path) + size
    || i < j || (i == j && !Less(e.path, d.path))
  }

  /** What a plan is, row by row; this leaves no choice. */
  ghost predicate GoodPlan(disks: seq<Disk>, resets: set<string>, size: nat, rows: seq<Row>)
  {
    && (forall k :: 0 <= k < |rows| ==> exists i :: 0 <= i < |disks| && disks[i].path == rows[k].path)
    && (forall k, i :: 0 <= k < |rows| && 0 <= i < |disks| && disks[i].path == rows[k].path ==>
          RowIsNext(disks[i], resets, size, rows, k))
    && (forall k, i, j :: 0 <= k < |rows| && 0 <= i < |disks| && 0 <= j < |disks| && disks[i].path == rows[k].path ==>
          ChosenOver(disks[i], disks[j], resets, size, rows, k))
    && (forall i :: 0 <= i < |disks| && disks[i].path in resets ==> BytesOn(rows, disks[i].path) <= disks[i].size)
    && (forall i :: 0 <= i < |disks| && disks[i].path !in resets && SumSizes(disks[i].partitions) <= disks[i].size ==>
          SumSizes(disks[i].partitions) + BytesOn(rows, disks[i].path) <= disks[i].size)
  }

  lemma {:induction false} RowNames(cs: seq<Carrier>, osds: nat, size: nat, k: nat) returns (i: nat)
    requires PlanRows(cs, osds, size).Some? && k < osds
    ensures i < |cs| && PlanRows(cs, osds, size).value.rows[k].path == cs[i].path
    ensures PlanRows(cs, osds, size).value.rows[k].size == size
    decreases osds
  {
    var b, rest := FirstRow(cs, osds, size);
    if k == 0 {
      i := b;
    } else {
      i := RowNames(Placed(cs, b, size), osds - 1, size, k - 1);
    }
  }

  lemma SlotsOnPrefix(row: Row, rest: seq<Row>, k: nat, path: string)
    requires 0 < k <= |rest| + 1
    ensures SlotsOn(([row] + rest)[..k], path)
         == (if row.path == path then {row.slot} else {}) + SlotsOn(rest[..k - 1], path)
  {
    var all := ([row] + rest)[..k];
    assert all == [row] + rest[..k - 1];
    forall x
      ensures x in SlotsOn(all, path) <==> (row.path == path && x == row.slot) || x in SlotsOn(rest[..k - 1], path)
    {
      if x in SlotsOn(rest[..k - 1], path) {
        var i :| 0 <= i < k - 1 && rest[..k - 1][i].path == path && rest[..k - 1][i].slot == x;
        assert all[i + 1] == rest[i];
      }
      if x in SlotsOn(all, path) {
        var i :| 0 <= i < |all| && all[i].path == path && all[i].slot == x;
        if i > 0 { assert rest[..k - 1][i - 1] == all[i]; }
      }
      if row.path == path && x == row.slot { assert all[0] == row; }
    }
  }

  /** Row `k` takes the least slot free beside the table and the earlier rows. */
  predicate TakesLeast(occupied: set<nat>, rows: seq<Row>, k: nat)
    requires k < |rows|
  {
    IsLeastFree(occupied + SlotsOn(rows[..k], rows[k].path), rows[k].slot)
  }

  lemma {:induction false} PlannedSlotIsLeast(
      cs: seq<Carrier>, osds: nat, size: nat, rows: seq<Row>, i: nat, k: nat, occupied: set<nat>)
    requires DistinctPaths(cs) && i < |cs| && Tracks(cs[i], occupied)
    requires PlanRows(cs, osds, size).Some? && rows == PlanRows(cs, osds, size).value.rows
    requires k < |rows| && rows[k].path == cs[i].path
    ensures TakesLeast(occupied, rows, k)
    decreases osds
  {
    var b, rest := FirstRow(cs, osds, size);
    assert b != i ==> cs[b].path != cs[i].path;
    if k == 0 {
      assert occupied + SlotsOn(rows[..0], cs[i].path) == occupied;
    } else {
      var now := if b == i then occupied + {cs[i].next} else occupied;
      if b == i { PlaceTracks(cs[i], occupied, size); }
      PlannedSlotIsLeast(Placed(cs, b, size), osds - 1, size, rest.rows, i, k - 1, now);
      LeastAfterRow(occupied, RowOn(cs[b], size), rest.rows, k);
    }
  }

  lemma LeastAfterRow(occupied: set<nat>, row: Row, rest: seq<Row>, k: nat)
    requires 0 < k <= |rest|
    requires TakesLeast(if row.path == rest[k - 1].path then occupied + {row.slot} else occupied, rest, k - 1)
    ensures TakesLeast(occupied, [row] + rest, k)
  {
    var path := rest[k - 1].path;
    SlotsOnPrefix(row, rest, k, path);
    var now := if row.path == path then occupied + {row.slot} else occupied;
    assert now + SlotsOn(rest[..k - 1], path) == occupied + SlotsOn(([row] + rest)[..k], path);
  }

  lemma BytesOnPrefix(row: Row, rest: seq<Row>, k: nat, path: string)
    requires 0 < k <= |rest| + 1
    ensures BytesOn(([row] + rest)[..k], path)
         == (if row.path == path then row.size else 0) + BytesOn(rest[..k - 1], path)
  {
    assert ([row] + rest)[..k] == [row] + rest[..k - 1];
    assert ([row] + rest[..k - 1])[1..] == rest[..k - 1];
  }

  /** When row `k` is placed, carrier `d` has no room left, or `c` comes before it. */
  predicate Beats(c: Carrier, d: Carrier, size: nat, rows: seq<Row>, k: nat)
    requires k <= |rows|
  {
    var mine, other := c.count + RowsOn(rows[..k], c.path), d.count + RowsOn(rows[..k], d.path);
    || d.remaining < BytesOn(rows[..k], d.path) + size
    || mine < other || (mine == other && !Less(d.path, c.path))
  }

  /** What a carrier has become once a row was placed on this or another carrier. */
  function AfterRow(c: Carrier, row: Row): Carrier
    requires row.path == c.path ==> row.size <= c.remaining
  {
    if row.path == c.path then Place(c, row.size) else c
  }

  lemma BeatsAfterRow(c: Carrier, d: Carrier, size: nat, row: Row, rest: seq<Row>, k: nat)
    requires 0 < k <= |rest| + 1
    requires (row.path == c.path ==> row.size <= c.remaining) && (row.path == d.path ==> row.size <= d.remaining)
    requires Beats(AfterRow(c, row), AfterRow(d, row), size, rest, k - 1)
    ensures Beats(c, d, size, [row] + rest, k)
  {
    RowsOnPrefix(row, rest, k, c.path);
    RowsOnPrefix(row, rest, k, d.path);
    BytesOnPrefix(row, rest, k, d.path);
  }

  lemma FirstChoice(cs: seq<Carrier>, size: nat, i: nat, j: nat, rows: seq<Row>)
    requires i < |cs| && j < |cs| && Best(cs, size, |cs|) == Some(i)
    ensures Beats(cs[i], cs[j], size, rows, 0)
  {
    if size <= cs[j].remaining { BestIsBest(cs, size, |cs|, j); }
  }

  /** At every row the chosen carrier beats every other one that has room then. */
  lemma {:induction false} PlannedChoice(
      cs: seq<Carrier>, osds: nat, size: nat, rows: seq<Row>, i: nat, j: nat, k: nat)
    requires DistinctPaths(cs) && i < |cs| && j < |cs|
    requires PlanRows(cs, osds, size).Some? && rows == PlanRows(cs, osds, size).value.rows
    requires k < |rows| && rows[k].path == cs[i].path
    ensures Beats(cs[i], cs[j], size, rows, k)
    decreases osds
  {
    var b, rest := FirstRow(cs, osds, size);
    assert b != i ==> cs[b].path != cs[i].path;
    assert b != j ==> cs[b].path != cs[j].path;
    if k == 0 {
      FirstChoice(cs, size, i, j, rows);
    } else {
      var after := Placed(cs, b, size);
      PlaceKeepsPaths(cs, b, size);
      assert after[i] == AfterRow(cs[i], RowOn(cs[b], size)) && after[j] == AfterRow(cs[j], RowOn(cs[b], size));
      assert rest.rows[k - 1].path == after[i].path;
      PlannedChoice(after, osds - 1, size, rest.rows, i, j, k - 1);
      BeatsAfterRow(cs[i], cs[j], size, RowOn(cs[b], size), rest.rows, k);
    }
  }

  lemma DistinctCarriers(disks: seq<Disk>, resets: set<string>)
    requires DistinctDisks(disks)
    ensures DistinctPaths(StartAll(disks, resets))
  {
  }

  lemma RowIsGood(disks: seq<Disk>, resets: set<string>, osds: nat, size: nat, rows: seq<Row>, k: nat, i: nat)
    requires DistinctDisks(disks) && PlanRows(StartAll(disks, resets), osds, size).Some?
    requires rows == PlanRows(StartAll(disks, resets), osds, size).value.rows
    requires k < |rows| && i < |disks| && disks[i].path == rows[k].path
    ensures RowIsNext(disks[i], resets, size, rows, k)
  {
    var cs := StartAll(disks, resets);
    DistinctCarriers(disks, resets);
    StartTracks(disks[i], resets);
    PlannedSlotIsLeast(cs, osds, size, rows, i, k, cs[i].existing);
    FlagsOnFirstRowOnly(cs, osds, size, i, k);
    var named := RowNames(cs, osds, size, k);
  }

  lemma ChoiceIsGood(
      disks: seq<Disk>, resets: set<string>, osds: nat, size: nat, rows: seq<Row>, k: nat, i: nat, j: nat)
    requires DistinctDisks(disks) && AllMeasured(disks, resets)
    requires PlanRows(StartAll(disks, resets), osds, size).Some?
    requires rows == PlanRows(StartAll(disks, resets), osds, size).value.rows
    requires k < |rows| && i < |disks| && disks[i].path == rows[k].path && j < |disks|
    ensures ChosenOver(disks[i], disks[j], resets, size, rows, k)
  {
    DistinctCarriers(disks, resets);
    MeasuredRemaining(disks[i], resets);
    MeasuredRemaining(disks[j], resets);
    PlannedChoice(StartAll(disks, resets), osds, size, rows, i, j, k);
  }

  lemma PlanIsGood(disks: seq<Disk>, resets: set<string>, osds: nat, size: nat)
    requires DistinctDisks(disks) && AllMeasured(disks, resets)
    requires PlanRows(StartAll(disks, resets), osds, size).Some?
    ensures GoodPlan(disks, resets, size, PlanRows(StartAll(disks, resets), osds, size).value.rows)
  {
    var cs := StartAll(disks, resets);
    var rows := PlanRows(cs, osds, size).value.rows;
    DistinctCarriers(disks, resets);
    forall k | 0 <= k < |rows|
      ensures exists i :: 0 <= i < |disks| && disks[i].path == rows[k].path
    {
      var i := RowNames(cs, osds, size, k);
      assert disks[i].path == rows[k].path;
    }
    forall k, i | 0 <= k < |rows| && 0 <= i < |disks| && disks[i].path == rows[k].path
      ensures RowIsNext(disks[i], resets, size, rows, k)
    {
      RowIsGood(disks, resets, osds, size, rows, k, i);
    }
    forall k, i, j | 0 <= k < |rows| && 0 <= i < |disks| && 0 <= j < |disks| && disks[i].path == rows[k].path
      ensures ChosenOver(disks[i], disks[j], resets, size, rows, k)
    {
      ChoiceIsGood(disks, resets, osds, size, rows, k, i, j);
    }
    forall i | 0 <= i < |disks|
      ensures BytesOn(rows, disks[i].path) <= FreeBytes(disks[i], resets)
    {
      MeasuredRemaining(disks[i], resets);
      PlannedBytesFit(cs, osds, size, i);
    }
  }

  // ----- executing a plan -----

  /** A carrier's on-disk table, reduced to the slots in use. */
  datatype Table = NoTable | Gpt(slots: set<nat>)

  /** One planned row against the disk, every command succeeding; None is a refusal. */
  function ExecuteRow(table: Table, row: Row): Option<Table>
  {
    if !row.reset && row.initGpt && table.Gpt? && table.slots != {} then None
    else
      var ready := if row.initGpt || row.reset then Gpt({}) else table;
      if ready.NoTable? || !IsLeastFree(ready.slots, row.slot) then None
      else Some(Gpt(ready.slots + {row.slot}))
  }

  function ExecuteRows(tables: map<string, Table>, rows: seq<Row>): Option<map<string, Table>>
  {
    if rows == [] then Some(tables)
    else if rows[0].path !in tables then None
    else
      var after := ExecuteRow(tables[rows[0].path], rows[0]);
      if after.None? then None else ExecuteRows(tables[rows[0].path := after.value], rows[1..])
  }

  /** The planner's view of a carrier agrees with the disk. */
  predicate Agrees(c: Carrier, table: Table)
  {
    && (c.reset ==> c.count == 0)
    && (c.count == 0 ==> c.existing == {} && c.next == 1 && (c.reset || table.NoTable? || table.slots == {}))
    && (c.count != 0 ==> table.Gpt? && Tracks(c, table.slots))
  }

  predicate AllAgree(cs: seq<Carrier>, tables: map<string, Table>)
  {
    forall i :: 0 <= i < |cs| ==> cs[i].path in tables && Agrees(cs[i], tables[cs[i].path])
  }

  /** Inventory read from the disk: every listed partition is there and nothing else is. */
  predicate InventoryMatches(disk: Disk, table: Table)
  {
    if disk.partitions == [] then table.NoTable? || table.slots == {}
    else table == Gpt(Slots(disk.partitions))
  }

  lemma InventoryAgrees(disk: Disk, resets: set<string>, table: Table)
    requires disk.path in resets || InventoryMatches(disk, table)
    ensures Agrees(Start(disk, resets), table)
  {
    if disk.path !in resets {
      StartTracks(disk, resets);
      if disk.partitions == [] {
        assert Slots(disk.partitions) == {};
      }
    }
  }

  lemma ExecuteFirstRow(c: Carrier, table: Table, size: nat)
    requires Agrees(c, table) && size <= c.remaining
    ensures var t := ExecuteRow(table, RowOn(c, size));
            && t.Some? && t.value.Gpt?
            && t.value.slots == (if c.count == 0 then {} else table.slots) + {c.next}
            && Agrees(Place(c, size), t.value)
  {
    var before := if c.count == 0 then {} else table.slots;
    assert IsLeastFree(before, c.next);
    PlaceTracks(c, before, size);
  }

  ghost predicate Keeps(before: Table, after: Table)
  {
    before.Gpt? ==> after.Gpt? && before.slots <= after.slots
  }

  /** The planner refines the partitioner: run in order, every row passes the slot check made against
      the disk, no row wipes a partition that an earlier row made, and a carrier not marked for reset
      keeps everything it had. */
  lemma {:induction false} PlanExecutes(cs: seq<Carrier>, osds: nat, size: nat, tables: map<string, Table>)
    requires DistinctPaths(cs) && AllAgree(cs, tables)
    requires PlanRows(cs, osds, size).Some?
    ensures var o := PlanRows(cs, osds, size).value;
            var end := ExecuteRows(tables, o.rows);
            && end.Some? && end.value.Keys == tables.Keys
            && AllAgree(o.carriers, end.value)
            && (forall i :: 0 <= i < |cs| && !cs[i].reset ==> Keeps(tables[cs[i].path], end.value[cs[i].path]))
            && (forall k :: 0 <= k < osds ==>
                  && o.rows[k].path in end.value && end.value[o.rows[k].path].Gpt?
                  && o.rows[k].slot in end.value[o.rows[k].path].slots)
    decreases osds
  {
    if osds != 0 {
      var b, rest := FirstRow(cs, osds, size);
      var c, after, o := cs[b], Placed(cs, b, size), PlanRows(cs, osds, size).value;
      ExecuteFirstRow(c, tables[c.path], size);
      var tables' := tables[c.path := ExecuteRow(tables[c.path], RowOn(c, size)).value];
      PlanExecutes(after, osds - 1, size, tables');
      var end := ExecuteRows(tables', rest.rows).value;
      assert Keeps(tables'[after[b].path], end[after[b].path]);
      forall k | 0 <= k < osds
        ensures o.rows[k].path in end && end[o.rows[k].path].Gpt? && o.rows[k].slot in end[o.rows[k].path].slots
      {
        if k > 0 {
          assert o.rows[k] == rest.rows[k - 1];
        }
      }
      forall i | 0 <= i < |cs| && !cs[i].reset
        ensures Keeps(tables[cs[i].path], end[cs[i].path])
      {
        assert after[i].path == cs[i].path && !after[i].reset;
        assert Keeps(tables'[after[i].path], end[after[i].path]);
      }
    }
  }

  // ----- the plan does not depend on the order the carriers are listed in -----

  lemma SameChoice(cs: seq<Carrier>, ds: seq<Carrier>, size: nat)
    requires DistinctPaths(cs) && DistinctPaths(ds) && multiset(cs) == multiset(ds)
    ensures var b, d := Best(cs, size, |cs|), Best(ds, size, |ds|);
            && (b.Some? <==> d.Some?)
            && (b.Some? ==> cs[b.value] == ds[d.value])
  {
    var b, d := Best(cs, size, |cs|), Best(ds, size, |ds|);
    if b.Some? {
      assert cs[b.value] in multiset(ds);
      var j :| 0 <= j < |ds| && ds[j] == cs[b.value];
      BestIsBest(ds, size, |ds|, j);
    }
    if d.Some? {
      assert ds[d.value] in multiset(cs);
      var i :| 0 <= i < |cs| && cs[i] == ds[d.value];
      BestIsBest(cs, size, |cs|, i);
      LessTotal(cs[b.value].path, ds[d.value].path);
    }
  }

  lemma PlaceKeepsPaths(cs: seq<Carrier>, b: nat, size: nat)
    requires DistinctPaths(cs) && b < |cs| && size <= cs[b].remaining
    ensures DistinctPaths(Placed(cs, b, size))
    ensures multiset(Placed(cs, b, size)) == multiset(cs) - multiset{cs[b]} + multiset{Place(cs[b], size)}
  {
  }

  lemma SamePlaced(cs: seq<Carrier>, ds: seq<Carrier>, b: nat, d: nat, size: nat)
    requires DistinctPaths(cs) && DistinctPaths(ds) && multiset(cs) == multiset(ds)
    requires b < |cs| && d < |ds| && cs[b] == ds[d] && size <= cs[b].remaining
    ensures DistinctPaths(Placed(cs, b, size)) && DistinctPaths(Placed(ds, d, size))
    ensures multiset(Placed(cs, b, size)) == multiset(Placed(ds, d, size))
  {
    PlaceKeepsPaths(cs, b, size);
    PlaceKeepsPaths(ds, d, size);
  }

  lemma PlanStep(cs: seq<Carrier>, osds: nat, size: nat)
    requires osds > 0
    ensures var b := Best(cs, size, |cs|);
            PlanRows(cs, osds, size) ==
              if b.None? then None
              else Prepend([RowOn(cs[b.value], size)], PlanRows(Placed(cs, b.value, size), osds - 1, size))
  {
  }

  predicate SameRows(p: Option<Outcome>, q: Option<Outcome>)
  {
    (p.Some? <==> q.Some?) && (p.Some? ==> p.value.rows == q.value.rows)
  }

  lemma {:induction false} SamePlanPermuted(cs: seq<Carrier>, ds: seq<Carrier>, osds: nat, size: nat)
    requires DistinctPaths(cs) && DistinctPaths(ds) && multiset(cs) == multiset(ds)
    ensures SameRows(PlanRows(cs, osds, size), PlanRows(ds, osds, size))
    decreases osds
  {
    if osds != 0 {
      SameChoice(cs, ds, size);
      PlanStep(cs, osds, size);
      PlanStep(ds, osds, size);
      var b, d := Best(cs, size, |cs|), Best(ds, size, |ds|);
      if b.Some? {
        SamePlaced(cs, ds, b.value, d.value, size);
        SamePlanPermuted(Placed(cs, b.value, size), Placed(ds, d.value, size), osds - 1, size);
      }
    }
  }

  lemma StartWithout(disks: seq<Disk>, resets: set<string>, j: nat)
    requires j < |disks|
    ensures StartAll(Without(disks, j), resets) == Without(StartAll(disks, resets), j)
  {
  }

  lemma {:induction false} StartPermuted(disks: seq<Disk>, others: seq<Disk>, resets: set<string>)
    requires multiset(disks) == multiset(others)
    ensures multiset(StartAll(disks, resets)) == multiset(StartAll(others, resets))
    decreases |disks|
  {
    if disks == [] {
      assert |multiset(others)| == 0;
      assert others == [];
    } else {
      assert disks[0] in multiset(others);
      var j :| 0 <= j < |others| && others[j] == disks[0];
      MultisetWithout(disks, 0);
      MultisetWithout(others, j);
      StartPermuted(Without(disks, 0), Without(others, j), resets);
      var s, t := StartAll(disks, resets), StartAll(others, resets);
      StartWithout(disks, resets, 0);
      StartWithout(others, resets, j);
      MultisetWithout(s, 0);
      MultisetWithout(t, j);
    }
  }

  /** The whole plan, or its failure, is the same for every listing order of the same carriers. */
  lemma PlanIgnoresListingOrder(disks: seq<Disk>, others: seq<Disk>, resets: set<string>, osds: nat, size: nat)
    requires multiset(disks) == multiset(others)
    requires DistinctPaths(StartAll(disks, resets)) && DistinctPaths(StartAll(others, resets))
    ensures var p, q := PlanRows(StartAll(disks, resets), osds, size), PlanRows(StartAll(others, resets), osds, size);
            && (p.Some? <==> q.Some?)
            && (p.Some? ==> p.value.rows == q.value.rows)
  {
    StartPermuted(disks, others, resets);
    SamePlanPermuted(StartAll(disks, resets), StartAll(others, resets), osds, size);
  }
}
