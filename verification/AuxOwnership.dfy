/**
 Creating, recording and cleaning up generated WAL/DB partitions on shared
 carriers. Commands may fail at any point; `*` is an outcome the source does not
 decide. The question is whether a partition recorded by UUID in an OSD's
 manifest can be destroyed by anything but that OSD's own cleanup.
 */
module AuxOwnership {
  import opened Common
  import opened AuxPlanner

  type Uuid = nat
  type Gpt = Option<map<nat, Uuid>>
  type Tables = map<string, Gpt>

  datatype Kind = Wal | Db
  datatype Entry = Entry(parent: string, slot: nat, uuid: Option<Uuid>)
  datatype Manifest = Manifest(wal: Option<Entry>, db: Option<Entry>)

  /** `RollbackFailed` is the source's "manual cleanup required". */
  datatype Creation = Created(uuid: Uuid) | Refused | RolledBack | RollbackFailed

  predicate Holds(tables: Tables, path: string, slot: nat, uuid: Uuid)
  {
    path in tables && tables[path].Some? && slot in tables[path].value && tables[path].value[slot] == uuid
  }

  predicate SlotFree(tables: Tables, path: string, slot: nat)
  {
    path in tables && tables[path].Some? ==> slot !in tables[path].value
  }

  function Erased(tables: Tables, path: string, slot: nat): Tables
  {
    if path in tables && tables[path].Some? then tables[path := Some(tables[path].value - {slot})] else tables
  }

  function Appended(tables: Tables, path: string, slot: nat, uuid: Uuid): Tables
    requires path in tables && tables[path].Some?
  {
    tables[path := Some(tables[path].value[slot := uuid])]
  }

  /** Nothing outside `path` changed, and on `path` nothing but `slot`. */
  ghost predicate OnlySlot(before: Tables, after: Tables, path: string, slot: nat)
  {
    forall p: string, s: nat, u: Uuid :: p != path || s != slot ==>
      (Holds(after, p, s, u) <==> Holds(before, p, s, u))
  }

  ghost predicate OnlyCarrier(before: Tables, after: Tables, path: string)
  {
    forall p: string, s: nat, u: Uuid :: p != path ==> (Holds(after, p, s, u) <==> Holds(before, p, s, u))
  }

  ghost predicate UuidsBelow(tables: Tables, bound: Uuid)
  {
    forall p: string, s: nat, u: Uuid :: Holds(tables, p, s, u) ==> u < bound
  }

  predicate SameAt(before: Tables, after: Tables, path: string)
  {
    (path in before <==> path in after) && (path in before ==> after[path] == before[path])
  }

  /** Every other disk is exactly as it was. */
  ghost predicate Elsewhere(before: Tables, after: Tables, paths: set<string>)
  {
    forall p: string :: p !in paths ==> SameAt(before, after, p)
  }

  /** A table as the planner's partitioner sees it. */
  function ViewOf(g: Gpt): Table
  {
    if g.None? then NoTable else Table.Gpt(g.value.Keys)
  }

  function Views(tables: Tables): map<string, Table>
  {
    map p | p in tables :: ViewOf(tables[p])
  }

  /** The row can be carried out on its carrier as it is. */
  predicate CanRun(tables: Tables, row: Option<Row>)
  {
    row.Some? ==> row.value.path in tables && ExecuteRow(ViewOf(tables[row.value.path]), row.value).Some?
  }

  /** The row has been carried out, as the partitioner would. */
  predicate Ran(before: Tables, after: Tables, row: Option<Row>)
  {
    row.Some? ==>
      && row.value.path in before && row.value.path in after
      && ExecuteRow(ViewOf(before[row.value.path]), row.value) == Some(ViewOf(after[row.value.path]))
  }

  function RowPath(row: Option<Row>): set<string>
  {
    if row.None? then {} else {row.value.path}
  }

  function EntryPath(e: Option<Entry>): set<string>
  {
    if e.None? then {} else {e.value.parent}
  }

  /** Nothing new appeared. */
  ghost predicate Shrinks(before: Tables, after: Tables)
  {
    forall p: string, s: nat, u: Uuid :: Holds(after, p, s, u) ==> Holds(before, p, s, u)
  }

  /** Nothing new appeared, except perhaps one partition. */
  ghost predicate ShrinksBut(before: Tables, after: Tables, e: Option<Entry>)
  {
    forall p: string, s: nat, u: Uuid ::
      Holds(after, p, s, u) && Some(Entry(p, s, Some(u))) != e ==> Holds(before, p, s, u)
  }

  /** The recorded partition is not there any more, as far as its carrier can be reached. */
  predicate Gone(tables: Tables, attached: set<string>, e: Option<Entry>)
  {
    e.Some? && e.value.uuid.Some? && e.value.parent in attached ==>
      !Holds(tables, e.value.parent, e.value.slot, e.value.uuid.value)
  }

  predicate Identified(m: Manifest)
  {
    (m.wal.Some? ==> m.wal.value.uuid.Some?) && (m.db.Some? ==> m.db.value.uuid.Some?)
  }

  lemma ShrinksBelow(before: Tables, after: Tables, bound: Uuid)
    requires Shrinks(before, after) && UuidsBelow(before, bound)
    ensures UuidsBelow(after, bound)
  {
  }

  lemma AppendBelow(tables: Tables, path: string, slot: nat, uuid: Uuid)
    requires path in tables && tables[path].Some? && UuidsBelow(tables, uuid)
    ensures UuidsBelow(Appended(tables, path, slot, uuid), uuid + 1)
  {
    forall p: string, s: nat, u: Uuid | Holds(Appended(tables, path, slot, uuid), p, s, u)
      ensures u < uuid + 1
    {
      if p != path || s != slot {
        assert Holds(tables, p, s, u);
      }
    }
  }

  type Manifests = map<nat, Manifest>
  type Links = map<(nat, Kind), string>

  function EntryOf(manifests: Manifests, osd: nat, kind: Kind): Option<Entry>
  {
    if osd !in manifests then None
    else if kind.Wal? then manifests[osd].wal else manifests[osd].db
  }

  function UuidOf(manifests: Manifests, osd: nat, kind: Kind): Option<Uuid>
  {
    var e := EntryOf(manifests, osd, kind);
    if e.None? then None else e.value.uuid
  }

  /** The OSD directories: manifests and device links, and which records their own OSD has begun to clean up. */
  datatype Books = Books(manifests: Manifests, links: Links, begun: set<(nat, Kind)>)

  /** A record that its own OSD has not begun to clean up. */
  predicate Recorded(b: Books, osd: nat, kind: Kind)
  {
    UuidOf(b.manifests, osd, kind).Some? && (osd, kind) !in b.begun
  }

  /** The same for an OSD that has its device link too: the manifest is written first, the link later. */
  predicate Live(b: Books, osd: nat, kind: Kind)
  {
    Recorded(b, osd, kind) && (osd, kind) in b.links
  }

  predicate HoldsRecord(tables: Tables, b: Books, osd: nat, kind: Kind)
    requires UuidOf(b.manifests, osd, kind).Some?
  {
    var e := EntryOf(b.manifests, osd, kind).value;
    Holds(tables, e.parent, e.slot, e.uuid.value)
  }

  /** The carrier holds the recorded partition, and the OSD's device link names the carrier. */
  predicate Secured(tables: Tables, b: Books, osd: nat, kind: Kind)
    requires Live(b, osd, kind)
  {
    HoldsRecord(tables, b, osd, kind) && b.links[(osd, kind)] == EntryOf(b.manifests, osd, kind).value.parent
  }

  ghost predicate AllSecured(tables: Tables, b: Books)
  {
    forall o, k :: Live(b, o, k) ==> Secured(tables, b, o, k)
  }

  ghost predicate DistinctRecords(manifests: Manifests, bound: Uuid)
  {
    && (forall o, k :: UuidOf(manifests, o, k).Some? ==> UuidOf(manifests, o, k).value < bound)
    && (forall o, k, o', k' :: UuidOf(manifests, o, k).Some? && UuidOf(manifests, o', k') == UuidOf(manifests, o, k)
          ==> o == o' && k == k')
  }

  /** No live record lies on the carrier. */
  ghost predicate Unrecorded(b: Books, path: string)
  {
    forall o, k :: Live(b, o, k) ==> EntryOf(b.manifests, o, k).value.parent != path
  }

  /** The directories of the OSDs below `bound` are as they were, and nothing recorded is gone. */
  ghost predicate KeptBooks(b: Books, c: Books, bound: nat)
  {
    && b.begun <= c.begun && (forall r :: r in c.begun && r !in b.begun ==> r.0 >= bound)
    && (forall o :: o < bound ==> (o in c.manifests <==> o in b.manifests))
    && (forall o :: o in b.manifests ==> o in c.manifests && c.manifests[o] == b.manifests[o])
    && (forall r: (nat, Kind) :: r.0 < bound ==> (r in c.links <==> r in b.links))
    && (forall r :: r in b.links ==> r in c.links && c.links[r] == b.links[r])
  }

  lemma KeptTransitive(b: Books, c: Books, d: Books, n: nat, m: nat)
    ensures n <= m && KeptBooks(b, c, n) && KeptBooks(c, d, m) ==> KeptBooks(b, d, n)
  {
  }

  /** Carrier eligibility: whether the disk may carry partitions, and whether it is reset first. */
  function Disposition(hasData: bool, blank: bool, hasAux: bool, wipe: bool, pristine: bool): (bool, bool)
  {
    if hasData then (false, false)
    else if blank then
      if hasAux then (false, false)
      else if wipe then (true, true)
      else (pristine, false)
    else if hasAux then (true, false)
    else (wipe, wipe)
  }

  /** Some disk at this path would be reset under a wipe request. */
  predicate ResetPermitted(links: Links, path: string, blank: bool, pristine: bool)
  {
    Disposition(false, blank, path in links.Values, true, pristine) == (true, true)
  }

  ghost predicate RecordsSurviveReset(tables: Tables, b: Books, path: string)
  {
    forall o, k :: Recorded(b, o, k) ==> HoldsRecord(tables[path := Some(map[])], b, o, k)
  }

  /** The eligibility rule looks at device links, never at manifests. With a wipe requested, every reset it
      permits keeps every record exactly when each record's carrier is named by some link. */
  lemma ResetsKeepRecordsIff(tables: Tables, b: Books)
    requires forall o, k :: Recorded(b, o, k) ==> HoldsRecord(tables, b, o, k)
    ensures (forall p, blank, pristine :: p in tables && ResetPermitted(b.links, p, blank, pristine)
               ==> RecordsSurviveReset(tables, b, p))
       <==> (forall o, k :: Recorded(b, o, k) ==> EntryOf(b.manifests, o, k).value.parent in b.links.Values)
  {
    if o, k :| Recorded(b, o, k) && EntryOf(b.manifests, o, k).value.parent !in b.links.Values {
      var e := EntryOf(b.manifests, o, k).value;
      assert HoldsRecord(tables, b, o, k);
      assert ResetPermitted(b.links, e.parent, false, false);
      assert !HoldsRecord(tables[e.parent := Some(map[])], b, o, k);
      assert !RecordsSurviveReset(tables, b, e.parent);
    } else {
      forall p, blank, pristine | p in tables && ResetPermitted(b.links, p, blank, pristine)
        ensures RecordsSurviveReset(tables, b, p)
      {
        forall o, k | Recorded(b, o, k)
          ensures HoldsRecord(tables[p := Some(map[])], b, o, k)
        {
          assert HoldsRecord(tables, b, o, k);
          assert EntryOf(b.manifests, o, k).value.parent != p;
        }
      }
    }
  }

  /** An add that died between its manifest and its device link: a later wipe takes the carrier for unused. */
  lemma LinklessRecordCanBeReset()
    ensures exists tables: Tables, b: Books, path: string ::
              && Recorded(b, 0, Wal) && HoldsRecord(tables, b, 0, Wal)
              && ResetPermitted(b.links, path, false, false) && !RecordsSurviveReset(tables, b, path)
  {
    var tables: Tables := map["sdb" := Some(map[1 := 7])];
    var b := Books(map[0 := Manifest(Some(Entry("sdb", 1, Some(7))), None)], map[], {});
    assert EntryOf(b.manifests, 0, Wal) == Some(Entry("sdb", 1, Some(7)));
    assert Recorded(b, 0, Wal) && HoldsRecord(tables, b, 0, Wal);
    assert !HoldsRecord(tables["sdb" := Some(map[])], b, 0, Wal);
    assert !RecordsSurviveReset(tables, b, "sdb");
    assert ResetPermitted(b.links, "sdb", false, false);
  }

  /** A carrier without an OSD link has no live record: this is what makes a reset safe. */
  lemma UnlinkedIsUnrecorded(tables: Tables, b: Books, path: string)
    requires AllSecured(tables, b) && path !in b.links.Values
    ensures Unrecorded(b, path)
  {
    forall o, k | Live(b, o, k)
      ensures EntryOf(b.manifests, o, k).value.parent != path
    {
      assert Secured(tables, b, o, k);
      assert b.links[(o, k)] in b.links.Values;
    }
  }

  lemma SecuredElsewhere(before: Tables, after: Tables, b: Books, path: string)
    requires AllSecured(before, b) && Unrecorded(b, path) && OnlyCarrier(before, after, path)
    ensures AllSecured(after, b)
  {
    forall o, k | Live(b, o, k)
      ensures Secured(after, b, o, k)
    {
      assert Secured(before, b, o, k);
    }
  }

  /** The member's disks, OSD directories and the identities handed out so far. */
  class Member {
    const faults: bool
    const undoFaults: bool
    var tables: Tables
    var attached: set<string>
    var manifests: map<nat, Manifest>
    var links: map<(nat, Kind), string>
    var nextUuid: Uuid
    var nextOsd: nat
    ghost var begun: set<(nat, Kind)>

    ghost function Directories(): Books
      reads this
    {
      Books(manifests, links, begun)
    }

    ghost predicate Valid()
      reads this
    {
      && UuidsBelow(tables, nextUuid)
      && DistinctRecords(manifests, nextUuid)
      && AllSecured(tables, Directories())
      && (forall o :: o in manifests ==> o < nextOsd)
      && (forall r :: r in links ==> r.0 < nextOsd)
      && (forall r :: r in begun ==> r.0 < nextOsd)
    }

    /** Without `faults` every command works and no carrier is unplugged; without `undoFaults` the same holds while a
        failed step is undone, and the daemon lives to undo it. */
    constructor (tables: Tables, attached: set<string>, nextUuid: Uuid, faults: bool, undoFaults: bool)
      requires UuidsBelow(tables, nextUuid)
      ensures Valid() && this.tables == tables && manifests == map[] && begun == {}
      ensures this.faults == faults && this.undoFaults == undoFaults
    {
      this.faults, this.undoFaults := faults, undoFaults;
      this.tables := tables;
      this.attached := attached;
      this.nextUuid := nextUuid;
      manifests, links, nextOsd, begun := map[], map[], 0, {};
    }

    method Try(faulty: bool) returns (ok: bool)
      ensures !faulty ==> ok
    {
      ok := *;
      ok := ok || !faulty;
    }

    /** Kernel entry first, then the table, then the kernel entry again: each may fail. */
    method DeletePartition(parent: string, slot: nat, faulty: bool) returns (ok: bool)
      modifies this`tables
      ensures tables == old(tables) || tables == Erased(old(tables), parent, slot)
      ensures ok ==> tables == Erased(old(tables), parent, slot)
      ensures Shrinks(old(tables), tables)
      ensures !faulty ==> ok
    {
      ok := Try(faulty);
      if !ok { return; }
      ok := Try(faulty);
      var written: bool := *;
      if ok || written {
        tables := Erased(tables, parent, slot);
      }
      if !ok { return; }
      ok := Try(faulty);
    }

    /** Deletes the recorded partition only when its UUID matches the record. */
    method CleanupDevice(entry: Option<Entry>, faulty: bool) returns (ok: bool)
      modifies this`tables, this`attached
      ensures tables == old(tables) ||
              (entry.Some? && entry.value.uuid.Some?
               && Holds(old(tables), entry.value.parent, entry.value.slot, entry.value.uuid.value)
               && tables == Erased(old(tables), entry.value.parent, entry.value.slot))
      ensures Shrinks(old(tables), tables) && attached <= old(attached)
      ensures ok && entry.Some? && entry.value.parent in attached && entry.value.uuid.Some? ==>
                !Holds(tables, entry.value.parent, entry.value.slot, entry.value.uuid.value)
      ensures Elsewhere(old(tables), tables, EntryPath(entry))
      ensures entry.Some? && entry.value.parent !in old(attached) ==> tables == old(tables)
      ensures entry.None? || entry.value.parent !in attached ==> ok
      ensures !faulty ==> attached == old(attached) && (entry.None? || entry.value.uuid.Some? ==> ok)
    {
      if entry.None? { return true; }
      var e := entry.value;
      var unplugged: bool := *;
      if faulty && unplugged { attached := attached - {e.parent}; }
      if e.parent !in attached { return true; }
      var reachable := Try(faulty);   // stat, mapper close, lock, table read
      if !reachable {
        unplugged := *;
        if faulty && unplugged { attached := attached - {e.parent}; }
        return e.parent !in attached;
      }
      if e.parent !in tables || tables[e.parent].None? || e.slot !in tables[e.parent].value {
        ok := Try(faulty);   // only a stale kernel entry is left to remove
        return ok;
      }
      if e.uuid.None? { return false; }
      if tables[e.parent].value[e.slot] != e.uuid.value { return true; }
      ok := DeletePartition(e.parent, e.slot, faulty);
      if !ok {
        unplugged := *;
        if unplugged { attached := attached - {e.parent}; }
        ok := e.parent !in attached;
      }
    }

    /** Resets or labels the carrier as planned and checks the planned slot against the disk. */
    method PrepareCarrier(row: Row) returns (ready: bool)
      modifies this`tables
      ensures Shrinks(old(tables), tables) && OnlyCarrier(old(tables), tables, row.path)
      ensures !row.reset ==> Shrinks(tables, old(tables))
      ensures ready ==> row.path in tables && tables[row.path].Some?
      ensures ready ==> IsLeastFree(tables[row.path].value.Keys, row.slot)
      ensures Elsewhere(old(tables), tables, {row.path})
      ensures ready ==> row.path in old(tables)
      ensures ready ==> ExecuteRow(ViewOf(old(tables)[row.path]), row)
                        == Some(Table.Gpt(tables[row.path].value.Keys + {row.slot}))
      ensures !faults ==> (ready <==> CanRun(old(tables), Some(row)))
    {
      ready := Try(faults);   // lock and table read
      if !ready || row.path !in tables { return false; }
      assert tables[row.path].Some? ==> (tables[row.path].value == map[] <==> tables[row.path].value.Keys == {});
      if row.reset {
        ready := Try(faults);
        var wiped: bool := *;
        if ready || wiped { tables := tables[row.path := None]; }
        if !ready { return; }
      } else if row.initGpt && tables[row.path].Some? && tables[row.path].value != map[] {
        return false;
      }
      if row.initGpt || row.reset {
        ready := Try(faults);
        var labelled: bool := *;
        if ready || labelled { tables := tables[row.path := Some(map[])]; }
        if !ready { return; }
        assert tables[row.path].value.Keys == {};
      }
      if tables[row.path].None? || !IsLeastFree(tables[row.path].value.Keys, row.slot) { return false; }
      ready := Try(faults);   // a stale kernel entry that stays busy refuses the slot
    }

    /** Appends into the checked slot; a step that fails afterwards deletes the new partition again. */
    method AppendPartition(row: Row) returns (r: Creation)
      requires UuidsBelow(tables, nextUuid)
      requires row.path in tables && tables[row.path].Some? && row.slot !in tables[row.path].value
      modifies this`tables, this`attached, this`nextUuid
      ensures UuidsBelow(tables, nextUuid) && old(nextUuid) <= nextUuid
      ensures OnlySlot(old(tables), tables, row.path, row.slot)
      ensures forall u: Uuid :: u < old(nextUuid) ==> !Holds(tables, row.path, row.slot, u)
      ensures r.Created? ==> old(nextUuid) <= r.uuid < nextUuid && Holds(tables, row.path, row.slot, r.uuid)
      ensures r.RolledBack? && row.path in attached ==> SlotFree(tables, row.path, row.slot)
      ensures r.Created? ==> tables == Appended(old(tables), row.path, row.slot, r.uuid)
      ensures Elsewhere(old(tables), tables, {row.path})
      ensures (!faults ==> r.Created? && attached == old(attached)) && (!undoFaults ==> !r.RollbackFailed?)
    {
      var ok := Try(faults);
      var appended: bool := *;
      if ok || appended {
        AppendBelow(tables, row.path, row.slot, nextUuid);
        tables := Appended(tables, row.path, row.slot, nextUuid);
        nextUuid := nextUuid + 1;
      }
      if !ok { return Refused; }
      ghost var made := tables;
      ok := Try(faults);   // read back, UUID present, size exact, kernel told
      if !ok {
        ok := DeletePartition(row.path, row.slot, undoFaults);
        ShrinksBelow(made, tables, nextUuid);
        return if ok then RolledBack else RollbackFailed;
      }
      var uuid := tables[row.path].value[row.slot];
      var appeared := Try(faults);
      if appeared { return Created(uuid); }
      ok := CleanupDevice(Some(Entry(row.path, row.slot, Some(uuid))), undoFaults);
      ShrinksBelow(made, tables, nextUuid);
      return if ok then RolledBack else RollbackFailed;
    }

    /** Creates one planned partition under the carrier lock. */
    method CreatePlanned(row: Row) returns (r: Creation)
      requires UuidsBelow(tables, nextUuid)
      modifies this`tables, this`attached, this`nextUuid
      ensures UuidsBelow(tables, nextUuid) && old(nextUuid) <= nextUuid
      ensures OnlyCarrier(old(tables), tables, row.path)
      ensures !row.reset ==> OnlySlot(old(tables), tables, row.path, row.slot)
      ensures !row.reset ==> forall u: Uuid :: u < old(nextUuid) ==>
                (Holds(old(tables), row.path, row.slot, u) <==> Holds(tables, row.path, row.slot, u))
      ensures r.Created? ==> old(nextUuid) <= r.uuid < nextUuid && Holds(tables, row.path, row.slot, r.uuid)
      ensures r.RolledBack? && row.path in attached ==> SlotFree(tables, row.path, row.slot)
      ensures Elsewhere(old(tables), tables, {row.path})
      ensures r.Created? ==> Ran(old(tables), tables, Some(row))
      ensures r.Created? ==> ShrinksBut(old(tables), tables, Some(Entry(row.path, row.slot, Some(r.uuid))))
      ensures !faults && CanRun(old(tables), Some(row)) ==> r.Created?
      ensures !faults ==> (r.Created? || Shrinks(old(tables), tables)) && attached == old(attached)
      ensures !undoFaults ==> !r.RollbackFailed?
    {
      var ready := PrepareCarrier(row);
      ShrinksBelow(old(tables), tables, nextUuid);
      if !ready { return Refused; }
      ghost var slots := tables[row.path].value.Keys;
      r := AppendPartition(row);
      assert r.Created? ==> tables[row.path].value.Keys == slots + {row.slot};
    }

    /** Best effort after a failed add: only the partitions this add generated are touched. */
    method CleanupEntries(m: Manifest) returns (ok: bool)
      modifies this`tables, this`attached
      ensures OnlyUuids(old(tables), tables, RecordUuid(m.wal), RecordUuid(m.db))
      ensures Elsewhere(old(tables), tables, EntryPath(m.wal) + EntryPath(m.db))
      ensures ok ==> Gone(tables, attached, m.wal) && Gone(tables, attached, m.db)
      ensures !undoFaults && Identified(m) ==> ok && attached == old(attached)
    {
      ok := CleanupDevice(m.wal, undoFaults);
      if !ok { return; }
      ok := CleanupDevice(m.db, undoFaults);
    }

    /** What an add may do to the OSD directories: those of earlier OSDs stay as they are. */
    twostate predicate EarlierKept()
      reads this
    {
      old(nextOsd) <= nextOsd && KeptBooks(old(Directories()), Directories(), old(nextOsd))
    }

    /** One plan row: make the partitions, then the OSD; undo both when a later step fails. The daemon may die
        anywhere, which leaves the undo undone. */
    method AddOsd(walRow: Option<Row>, dbRow: Option<Row>) returns (ok: bool, ghost m: Manifest)
      requires Valid()
      requires walRow.Some? && walRow.value.reset ==> Unrecorded(Directories(), walRow.value.path)
      requires dbRow.Some? && dbRow.value.reset ==> Unrecorded(Directories(), dbRow.value.path)
      requires walRow.Some? && dbRow.Some? ==> walRow.value.path != dbRow.value.path
      modifies this
      ensures Valid() && EarlierKept()
      ensures forall o :: o in manifests && o !in old(manifests) ==> RecordsOnly(manifests[o], walRow, dbRow)
      ensures ok ==> AddedOne(Directories(), old(nextOsd), Wal, walRow)
      ensures ok ==> AddedOne(Directories(), old(nextOsd), Db, dbRow)
      ensures Elsewhere(old(tables), tables, RowPath(walRow) + RowPath(dbRow))
      ensures ok ==> nextOsd == old(nextOsd) + 1 && Ran(old(tables), tables, walRow) && Ran(old(tables), tables, dbRow)
      ensures !faults && CanRun(old(tables), walRow) && CanRun(old(tables), dbRow) ==> ok
      ensures !ok && !undoFaults ==> manifests == old(manifests) && links == old(links)
      ensures walRow.None? && dbRow.None? ==> manifests == old(manifests)
      ensures !ok && !undoFaults ==> Gone(tables, attached, m.wal) && Gone(tables, attached, m.db)
      ensures !ok && !faults && !undoFaults && RowPath(walRow) <= old(attached) ==> Shrinks(old(tables), tables)
    {
      var made;
      ok, made := Generate(walRow, dbRow);
      m := made;
      if !ok { return; }
      ok := Try(faults);   // stable path, disk record
      if !ok {
        UndoGenerated(made);
        return;
      }
      ok := Install(made);
    }

    /** The partitions of one row. What was made before a failure is deleted again. */
    method Generate(walRow: Option<Row>, dbRow: Option<Row>) returns (ok: bool, m: Manifest)
      requires Valid()
      requires walRow.Some? && walRow.value.reset ==> Unrecorded(Directories(), walRow.value.path)
      requires dbRow.Some? && dbRow.value.reset ==> Unrecorded(Directories(), dbRow.value.path)
      requires walRow.Some? && dbRow.Some? ==> walRow.value.path != dbRow.value.path
      modifies this`tables, this`attached, this`nextUuid
      ensures Valid()
      ensures ok ==> Fresh(m) && Matches(m.wal, walRow) && Matches(m.db, dbRow)
      ensures Elsewhere(old(tables), tables, RowPath(walRow) + RowPath(dbRow))
      ensures ok ==> Ran(old(tables), tables, walRow) && Ran(old(tables), tables, dbRow)
      ensures !faults && CanRun(old(tables), walRow) && CanRun(old(tables), dbRow) ==> ok
      ensures !ok && !undoFaults ==> Gone(tables, attached, m.wal) && Gone(tables, attached, m.db)
      ensures !ok && !faults && !undoFaults && RowPath(walRow) <= old(attached) ==> Shrinks(old(tables), tables)
    {
      m := Manifest(None, None);
      ok := Try(faults);   // list the disks
      if !ok { return; }
      var wal, db;
      ok, wal := CreateEntry(walRow);
      if !ok { return; }
      m := Manifest(wal, None);
      ghost var before := tables;
      ok, db := CreateEntry(dbRow);
      assert wal.Some? ==> SameAt(before, tables, wal.value.parent);
      if !ok {
        UndoGenerated(m);
        return;
      }
      m := Manifest(wal, db);
    }

    /** The partition of a row, if there is a row. */
    method CreateEntry(row: Option<Row>) returns (ok: bool, e: Option<Entry>)
      requires Valid()
      requires row.Some? && row.value.reset ==> Unrecorded(Directories(), row.value.path)
      modifies this`tables, this`attached, this`nextUuid
      ensures Valid() && Elsewhere(old(tables), tables, RowPath(row)) && old(nextUuid) <= nextUuid
      ensures ok ==> Matches(e, row) && Ran(old(tables), tables, row) && Unlisted(manifests, RecordUuid(e))
      ensures ok && e.Some? ==> Exists(e.value) && old(nextUuid) <= e.value.uuid.value
      ensures !faults && CanRun(old(tables), row) ==> ok
      ensures !faults ==> attached == old(attached)
      ensures !faults && !ok ==> Shrinks(old(tables), tables)
      ensures ok ==> ShrinksBut(old(tables), tables, e)
    {
      if row.None? { return true, None; }
      var r := CreateSafely(row.value);
      if !r.Created? { return false, None; }
      return true, Some(Entry(row.value.path, row.value.slot, Some(r.uuid)));
    }

    /** Partitions that exist and that no manifest lists yet. */
    ghost predicate Fresh(m: Manifest)
      reads this
    {
      && Unlisted(manifests, RecordUuid(m.wal)) && Unlisted(manifests, RecordUuid(m.db))
      && (RecordUuid(m.wal).Some? ==> RecordUuid(m.wal) != RecordUuid(m.db))
      && (m.wal.Some? ==> Exists(m.wal.value)) && (m.db.Some? ==> Exists(m.db.value))
    }

    ghost predicate Exists(e: Entry)
      reads this
    {
      e.uuid.Some? && e.uuid.value < nextUuid && Holds(tables, e.parent, e.slot, e.uuid.value)
    }

    /** Creation never endangers a recorded partition, whatever fails. */
    method CreateSafely(row: Row) returns (r: Creation)
      requires Valid()
      requires row.reset ==> Unrecorded(Directories(), row.path)
      modifies this`tables, this`attached, this`nextUuid
      ensures Valid() && old(nextUuid) <= nextUuid
      ensures r.Created? ==> old(nextUuid) <= r.uuid < nextUuid && Holds(tables, row.path, row.slot, r.uuid)
      ensures Elsewhere(old(tables), tables, {row.path})
      ensures r.Created? ==> Ran(old(tables), tables, Some(row))
      ensures r.Created? ==> ShrinksBut(old(tables), tables, Some(Entry(row.path, row.slot, Some(r.uuid))))
      ensures !faults && CanRun(old(tables), Some(row)) ==> r.Created?
      ensures !faults && !r.Created? ==> Shrinks(old(tables), tables)
      ensures !faults ==> attached == old(attached)
    {
      r := CreatePlanned(row);
      if row.reset {
        SecuredElsewhere(old(tables), tables, Directories(), row.path);
      } else {
        SecuredThroughCreate(old(tables), tables, Directories(), row, old(nextUuid));
      }
    }

    method UndoGenerated(m: Manifest)
      requires Valid() && NotLive(Directories(), RecordUuid(m.wal)) && NotLive(Directories(), RecordUuid(m.db))
      modifies this`tables, this`attached
      ensures Valid() && Elsewhere(old(tables), tables, EntryPath(m.wal) + EntryPath(m.db))
      ensures Shrinks(old(tables), tables)
      ensures !undoFaults && Identified(m) ==>
                Gone(tables, attached, m.wal) && Gone(tables, attached, m.db) && attached == old(attached)
    {
      var ok := CleanupEntries(m);
      SecuredThroughUndo(old(tables), tables, Directories(), m);
    }

    /** The new OSD's directory: the manifest, then the device links, then everything else. */
    method Install(m: Manifest) returns (ok: bool)
      requires Valid() && Fresh(m)
      modifies this
      ensures Valid() && EarlierKept() && nextOsd == old(nextOsd) + 1
      ensures forall o :: o in manifests && o !in old(manifests) ==> manifests[o] == m
      ensures ok ==> Installed(old(nextOsd), m) && tables == old(tables)
      ensures Elsewhere(old(tables), tables, EntryPath(m.wal) + EntryPath(m.db))
      ensures !faults ==> ok
      ensures m == Manifest(None, None) ==> manifests == old(manifests)
      ensures !ok && !undoFaults ==> manifests == old(manifests) && links == old(links)
      ensures !ok && !undoFaults ==> Gone(tables, attached, m.wal) && Gone(tables, attached, m.db)
    {
      var osd := nextOsd;
      nextOsd := nextOsd + 1;
      ok := Fill(osd, m);
      if ok { ok := Try(faults); }   // start, topology, failure domain
      var dies: bool := *;
      ghost var filled := Directories();
      if !ok && !(undoFaults && dies) {
        OthersStayUnlike(old(manifests), manifests, osd, m);
        Revert(osd, m);
      }
      OwnDirectoryOnly(old(Directories()), filled, Directories(), osd, m);
    }

    /** The manifest lists exactly these partitions, and each is live. */
    ghost predicate Installed(osd: nat, m: Manifest)
      reads this
    {
      && EntryOf(manifests, osd, Wal) == m.wal && EntryOf(manifests, osd, Db) == m.db
      && (m.wal.Some? ==> Live(Directories(), osd, Wal)) && (m.db.Some? ==> Live(Directories(), osd, Db))
    }

    method Fill(osd: nat, m: Manifest) returns (ok: bool)
      requires Valid() && Fresh(m) && osd + 1 == nextOsd && osd !in manifests
      requires forall k :: (osd, k) !in links && (osd, k) !in begun
      modifies this`manifests, this`links
      ensures Valid() && (manifests == old(manifests) || manifests == old(manifests)[osd := m])
      ensures forall r: (nat, Kind) :: r.0 != osd ==> (r in links <==> r in old(links))
      ensures forall r :: r in old(links) ==> r in links && links[r] == old(links)[r]
      ensures ok ==> Installed(osd, m)
      ensures m == Manifest(None, None) ==> manifests == old(manifests)
      ensures !faults ==> ok
    {
      ok := Try(faults);   // directory, data disk, key files
      if !ok || m == Manifest(None, None) { return; }
      ok := Try(faults);
      if !ok { return; }
      WriteManifest(osd, m);
      if m.wal.Some? {
        ok := Try(faults);
        if !ok { return; }
        Link(osd, Wal, m.wal.value);
      }
      if m.db.Some? {
        ok := Try(faults);
        if !ok { return; }
        Link(osd, Db, m.db.value);
      }
    }

    /** The manifest alone makes no record live. */
    method WriteManifest(osd: nat, m: Manifest)
      requires Valid() && Fresh(m) && osd + 1 == nextOsd && osd !in manifests
      requires forall k :: (osd, k) !in links && (osd, k) !in begun
      modifies this`manifests
      ensures Valid() && manifests == old(manifests)[osd := m]
    {
      manifests := manifests[osd := m];
      forall o, k
        ensures UuidOf(manifests, o, k) == if o == osd then RecordUuid(if k == Wal then m.wal else m.db)
                                           else UuidOf(old(manifests), o, k)
      {
      }
      forall o: nat, k: Kind | Live(Directories(), o, k)
        ensures Secured(tables, Directories(), o, k)
      {
        assert Live(old(Directories()), o, k) && Secured(tables, old(Directories()), o, k);
      }
    }

    method Link(osd: nat, kind: Kind, e: Entry)
      requires Valid() && osd < nextOsd && EntryOf(manifests, osd, kind) == Some(e) && Exists(e)
      modifies this`links
      ensures Valid() && links == old(links)[(osd, kind) := e.parent]
    {
      links := links[(osd, kind) := e.parent];
      forall o: nat, k: Kind | Live(Directories(), o, k)
        ensures Secured(tables, Directories(), o, k)
      {
        if (o, k) != (osd, kind) {
          assert Live(old(Directories()), o, k) && Secured(tables, old(Directories()), o, k);
        }
      }
    }

    /** A failed add removes the OSD directory, possibly only in part, and then its own partitions. */
    method Revert(osd: nat, m: Manifest)
      requires Valid() && osd < nextOsd && OthersUnlike(manifests, osd, m)
      modifies this`tables, this`attached, this`manifests, this`links, this`begun
      ensures Valid() && begun == old(begun) + {(osd, Wal), (osd, Db)}
      ensures manifests == old(manifests) || manifests == old(manifests) - {osd}
      ensures forall r: (nat, Kind) :: r.0 != osd ==> (r in links <==> r in old(links))
      ensures forall r :: r in links ==> r in old(links) && links[r] == old(links)[r]
      ensures Elsewhere(old(tables), tables, EntryPath(m.wal) + EntryPath(m.db))
      ensures !undoFaults ==> manifests == old(manifests) - {osd} && links == old(links) - {(osd, Wal), (osd, Db)}
      ensures !undoFaults && Identified(m) ==> Gone(tables, attached, m.wal) && Gone(tables, attached, m.db)
    {
      RemoveDirectory(osd);
      ClosedIsNotLive(old(manifests), Directories(), osd, m);
      UndoGenerated(m);
    }

    method RemoveDirectory(osd: nat)
      requires Valid() && osd < nextOsd
      modifies this`manifests, this`links, this`begun
      ensures Valid() && begun == old(begun) + {(osd, Wal), (osd, Db)}
      ensures manifests == old(manifests) || manifests == old(manifests) - {osd}
      ensures forall r: (nat, Kind) :: r.0 != osd ==> (r in links <==> r in old(links))
      ensures forall r :: r in links ==> r in old(links) && links[r] == old(links)[r]
      ensures !undoFaults ==> manifests == old(manifests) - {osd} && links == old(links) - {(osd, Wal), (osd, Db)}
    {
      ghost var before := Directories();
      var manifestGone := Try(undoFaults);
      var walGone := Try(undoFaults);
      var dbGone := Try(undoFaults);
      begun := begun + {(osd, Wal), (osd, Db)};
      if manifestGone { manifests := manifests - {osd}; }
      var lost := (if walGone then {(osd, Wal)} else {}) + (if dbGone then {(osd, Db)} else {});
      assert (forall r :: r in lost ==> r.0 == osd) && (!undoFaults ==> lost == {(osd, Wal), (osd, Db)});
      links := links - lost;
      KeptWhenClosed(tables, before, Directories(), osd);
      DropManifest(before.manifests, manifests, nextUuid, osd);
    }

    /** Row `i` of both kinds. What later rows rely on stays as it was. */
    method AddRow(walRows: seq<Row>, dbRows: seq<Row>, i: nat) returns (ok: bool)
      requires Valid()
      requires ResetsFirst(walRows) && ResetsFirst(dbRows) && DisjointPaths(walRows, dbRows)
      requires ResetsAreFree(Directories(), walRows, i) && ResetsAreFree(Directories(), dbRows, i)
      modifies this
      ensures Valid() && EarlierKept() && Elsewhere(old(tables), tables, PathsOf(walRows) + PathsOf(dbRows))
      ensures ok ==> nextOsd == old(nextOsd) + 1
      ensures ok ==> AddedOne(Directories(), old(nextOsd), Wal, RowAt(walRows, i))
      ensures ok ==> AddedOne(Directories(), old(nextOsd), Db, RowAt(dbRows, i))
      ensures ok ==> ResetsAreFree(Directories(), walRows, i + 1) && ResetsAreFree(Directories(), dbRows, i + 1)
      ensures RestRuns(old(tables), walRows, i) && RestRuns(old(tables), dbRows, i) ==>
                && (!faults ==> ok)
                && (ok ==> RestRuns(tables, walRows, i + 1) && RestRuns(tables, dbRows, i + 1))
    {
      ghost var t, b, n := tables, Directories(), nextOsd;
      RowIsNow(walRows, i, t, b);
      RowIsNow(dbRows, i, t, b);
      NextPathsApart(walRows, dbRows, i);
      ghost var made;
      ok, made := AddOsd(RowAt(walRows, i), RowAt(dbRows, i));
      ResetsStayFree(b, Directories(), n, walRows, dbRows, i);
      RestStillRuns(t, tables, walRows, dbRows, i);
      RestStillRuns(t, tables, dbRows, walRows, i);
    }

    /** Runs a whole plan row by row and stops at the first failure; `done` rows were carried out. */
    method ExecutePlan(walRows: seq<Row>, dbRows: seq<Row>, osds: nat) returns (done: nat)
      requires Valid()
      requires walRows == [] || |walRows| == osds
      requires dbRows == [] || |dbRows| == osds
      requires ResetsFirst(walRows) && ResetsFirst(dbRows) && DisjointPaths(walRows, dbRows)
      requires ResetsAreFree(Directories(), walRows, 0) && ResetsAreFree(Directories(), dbRows, 0)
      modifies this
      ensures Valid() && EarlierKept() && done <= osds
      ensures Elsewhere(old(tables), tables, PathsOf(walRows) + PathsOf(dbRows))
      ensures Added(Directories(), old(nextOsd), walRows, dbRows, done) && nextOsd >= old(nextOsd) + done
      ensures !faults && RestRuns(old(tables), walRows, 0) && RestRuns(old(tables), dbRows, 0) ==> done == osds
    {
      ghost var feasible := RestRuns(tables, walRows, 0) && RestRuns(tables, dbRows, 0);
      done := 0;
      while done < osds
        invariant done <= osds && Valid() && EarlierKept() && nextOsd == old(nextOsd) + done
        invariant Elsewhere(old(tables), tables, PathsOf(walRows) + PathsOf(dbRows))
        invariant Added(Directories(), old(nextOsd), walRows, dbRows, done)
        invariant feasible ==> RestRuns(tables, walRows, done) && RestRuns(tables, dbRows, done)
        invariant ResetsAreFree(Directories(), walRows, done) && ResetsAreFree(Directories(), dbRows, done)
      {
        ghost var t, b, n := tables, Directories(), nextOsd;
        var ok := AddRow(walRows, dbRows, done);
        KeptTransitive(old(Directories()), b, Directories(), old(nextOsd), n);
        ElsewhereTransitive(old(tables), t, tables, PathsOf(walRows) + PathsOf(dbRows));
        AddedStays(b, Directories(), old(nextOsd), n, walRows, dbRows, done);
        if !ok { return; }
        AddedNext(Directories(), old(nextOsd), walRows, dbRows, done);
        done := done + 1;
      }
    }

    /** Keeps exactly the eligible carriers, and marks exactly those to be reset; an unreadable one is an error. A disk
        that backs OSD data is never kept. A blank disk must be unused and pristine or wiped, another one must already
        carry partitions of ours or be wiped; and what is wiped is exactly what carries none of ours. */
    method SelectCarriers(matched: seq<Disk>, dataPaths: set<string>, wipe: bool, pristine: string -> bool)
        returns (ok: bool, eligible: seq<Disk>, resets: set<string>)
      ensures ok ==> forall d :: d in eligible <==> Accepted(matched, dataPaths, links.Values, wipe, pristine, d)
      ensures ok ==> forall p :: p in resets <==> Wiped(matched, dataPaths, links.Values, wipe, p)
      ensures ok ==> (forall d :: d in eligible ==> d.path !in dataPaths) && resets !! dataPaths
      ensures ok && !wipe ==> resets == {}
      ensures ok ==> eligible == KeptDisks(matched, dataPaths, links.Values, wipe, pristine)
      ensures ok ==> resets == ResetPaths(matched, dataPaths, links.Values, wipe, pristine)
      ensures ok && DistinctDisks(matched) ==> DistinctDisks(eligible)
      ensures !faults ==> ok
    {
      ok, eligible, resets := true, [], {};
      for i := 0 to |matched|
        invariant ok && eligible == KeptDisks(matched[..i], dataPaths, links.Values, wipe, pristine)
        invariant resets == ResetPaths(matched[..i], dataPaths, links.Values, wipe, pristine)
      {
        ok := Try(faults);
        if !ok { return; }
        var d := matched[i];
        assert matched[..i + 1][..i] == matched[..i];
        var (accept, reset) :=
          Disposition(d.path in dataPaths, d.partitions == [], d.path in links.Values, wipe, pristine(d.path));
        if accept {
          eligible := eligible + [d];
          if reset { resets := resets + {d.path}; }
        }
      }
      assert matched[..|matched|] == matched;
      forall d ensures d in eligible <==> Accepted(matched, dataPaths, links.Values, wipe, pristine, d) {
        KeptIff(matched, dataPaths, links.Values, wipe, pristine, d);
      }
      forall p ensures p in resets <==> Wiped(matched, dataPaths, links.Values, wipe, p) {
        ResetIff(matched, dataPaths, links.Values, wipe, pristine, p);
      }
      if DistinctDisks(matched) { KeptDistinct(matched, dataPaths, links.Values, wipe, pristine); }
    }

    /** The disks that an add with this request may use. */
    function Carriers(r: Request, dataPaths: set<string>, pristine: string -> bool): seq<Disk>
      reads this
    {
      KeptDisks(r.matched, dataPaths, links.Values, r.wipe, pristine)
    }

    function Resets(r: Request, dataPaths: set<string>, pristine: string -> bool): set<string>
      reads this
    {
      ResetPaths(r.matched, dataPaths, links.Values, r.wipe, pristine)
    }

    /** The disks that an add with this request may use have room, and the inventory told the truth about them. */
    ghost predicate Serves(r: Request, osds: nat, dataPaths: set<string>, pristine: string -> bool)
      reads this
    {
      Suits(tables, Carriers(r, dataPaths, pristine), Resets(r, dataPaths, pristine), r.size, osds)
    }

    /** A DSL add: choose carriers, refuse overlapping sets, plan, execute. No disk that backs OSD data or is about to
        is touched; a refusal touches nothing; and without faults, with room, no overlap and a true inventory, every OSD
        is added. */
    method AddDisks(osdPaths: seq<string>, wal: Request, db: Request, dataPaths: set<string>, pristine: string -> bool)
        returns (planned: bool, done: nat, ghost walRows: seq<Row>, ghost dbRows: seq<Row>)
      requires Valid() && DistinctDisks(wal.matched) && DistinctDisks(db.matched)
      modifies this
      ensures Valid() && EarlierKept()
      ensures Added(Directories(), old(nextOsd), walRows, dbRows, done)
      ensures planned && osdPaths != [] ==>
                && PlanFor(old(Carriers(wal, dataPaths, pristine)), old(Resets(wal, dataPaths, pristine)), wal.size,
                           |osdPaths|, walRows)
                && PlanFor(old(Carriers(db, dataPaths, pristine)), old(Resets(db, dataPaths, pristine)), db.size,
                           |osdPaths|, dbRows)
      ensures forall p :: p in dataPaths || p in osdPaths ==> SameAt(old(tables), tables, p)
      ensures !planned ==> tables == old(tables) && manifests == old(manifests) && links == old(links) && done == 0
      ensures && !faults && old(Serves(wal, |osdPaths|, dataPaths, pristine))
              && old(Serves(db, |osdPaths|, dataPaths, pristine))
              && old(Apart(Carriers(wal, dataPaths, pristine), Carriers(db, dataPaths, pristine), osdPaths))
              ==> planned && done == |osdPaths|
    {
      done, walRows, dbRows := 0, [], [];
      if |osdPaths| == 0 { return true, 0, [], []; }
      var walDisks, walResets, dbDisks, dbResets;
      planned, walDisks, walResets := SelectCarriers(wal.matched, dataPaths, wal.wipe, pristine);
      if !planned { return; }
      planned, dbDisks, dbResets := SelectCarriers(db.matched, dataPaths, db.wipe, pristine);
      if !planned { return; }
      planned := RefuseOverlaps(walDisks, dbDisks, osdPaths);
      if !planned { return; }
      planned, done, walRows, dbRows :=
        PlanAndExecute(|osdPaths|, walDisks, walResets, wal.size, dbDisks, dbResets, db.size);
      forall p | p in dataPaths || p in osdPaths
        ensures SameAt(old(tables), tables, p)
      {
        NoDiskThere(walDisks, p);
        NoDiskThere(dbDisks, p);
      }
    }

    /** The three refusals. */
    method RefuseOverlaps(walDisks: seq<Disk>, dbDisks: seq<Disk>, osdPaths: seq<string>) returns (ok: bool)
      ensures ok <==> Apart(walDisks, dbDisks, osdPaths)
    {
      if exists d :: d in walDisks && d.path in osdPaths { return false; }
      if exists d :: d in dbDisks && d.path in osdPaths { return false; }
      if exists d :: d in walDisks && exists e :: e in dbDisks && d.path == e.path { return false; }
      return true;
    }

    method PlanAndExecute(osds: nat, walDisks: seq<Disk>, walResets: set<string>, walSize: nat,
                          dbDisks: seq<Disk>, dbResets: set<string>, dbSize: nat)
        returns (planned: bool, done: nat, walRows: seq<Row>, dbRows: seq<Row>)
      requires Valid() && osds > 0 && DistinctDisks(walDisks) && DistinctDisks(dbDisks)
      requires forall d, e :: d in walDisks && e in dbDisks ==> d.path != e.path
      requires forall p :: p in walResets || p in dbResets ==> p !in links.Values
      modifies this
      ensures Valid() && EarlierKept()
      ensures planned ==> PlanFor(walDisks, walResets, walSize, osds, walRows)
      ensures planned ==> PlanFor(dbDisks, dbResets, dbSize, osds, dbRows)
      ensures Added(Directories(), old(nextOsd), walRows, dbRows, done)
      ensures Elsewhere(old(tables), tables, DiskPaths(walDisks) + DiskPaths(dbDisks))
      ensures !planned ==> tables == old(tables) && manifests == old(manifests) && links == old(links) && done == 0
      ensures && !faults && Suits(old(tables), walDisks, walResets, walSize, osds)
              && Suits(old(tables), dbDisks, dbResets, dbSize, osds)
              ==> planned && done == osds
    {
      done, dbRows := 0, [];
      planned, walRows := PlanKind(osds, walDisks, walResets, walSize);
      if !planned { return; }
      planned, dbRows := PlanKind(osds, dbDisks, dbResets, dbSize);
      if !planned { return; }
      DisjointRows(walRows, dbRows, walDisks, dbDisks);
      done := ExecutePlan(walRows, dbRows, osds);
    }

    /** The rows for one kind; none if there is no carrier for it. */
    method PlanKind(osds: nat, disks: seq<Disk>, resets: set<string>, size: nat) returns (ok: bool, rows: seq<Row>)
      requires Valid() && osds > 0 && DistinctDisks(disks)
      requires forall p :: p in resets ==> p !in links.Values
      ensures ok ==> PlanFor(disks, resets, size, osds, rows) && ResetsFirst(rows)
      ensures ok ==> PathsOf(rows) <= DiskPaths(disks)
      ensures ok ==> ResetsAreFree(Directories(), rows, 0)
      ensures Suits(tables, disks, resets, size, osds) ==> ok && RestRuns(tables, rows, 0)
    {
      rows := [];
      var plan := PlanAuxiliaryPartitions(osds, disks, resets, size);
      if plan.Insufficient? { return false, []; }
      if plan.Unplanned? { return true, []; }
      rows := plan.rows;
      PlanResetsFirst(disks, resets, osds, size);
      forall k | 0 <= k < |rows| && rows[k].reset
        ensures Unrecorded(Directories(), rows[k].path)
      {
        assert rows[k] in rows;
        UnlinkedIsUnrecorded(tables, Directories(), rows[k].path);
      }
      if Suits(tables, disks, resets, size, osds) {
        SuitedPlanRuns(tables, disks, resets, size, osds);
        assert Rest(rows, 0) == rows;
      }
      return true, rows;
    }

    /** Cleans WAL, rewrites the manifest, cleans DB, rewrites it again; stops at the first failure. */
    method CleanupManifest(osd: nat) returns (ok: bool)
      requires Valid() && osd < nextOsd
      modifies this`tables, this`attached, this`manifests, this`begun
      ensures Valid()
      ensures forall o, k :: o != osd ==> EntryOf(manifests, o, k) == EntryOf(old(manifests), o, k)
      ensures old(begun) <= begun && forall r :: r in begun && r !in old(begun) ==> r.0 == osd
      // whatever partition of this OSD is still there is still listed
      ensures forall k :: var e := EntryOf(old(manifests), osd, k);
                e.Some? && e.value.uuid.Some? && e.value.parent in attached
                && Holds(tables, e.value.parent, e.value.slot, e.value.uuid.value)
                ==> EntryOf(manifests, osd, k) == e
      ensures ok ==> forall k :: EntryOf(manifests, osd, k).None?
      ensures !faults && (forall k :: EntryOf(old(manifests), osd, k).Some? ==> UuidOf(old(manifests), osd, k).Some?)
              ==> ok
      ensures forall k :: EntryOf(manifests, osd, k) != EntryOf(old(manifests), osd, k) ==> (osd, k) in begun
    {
      ok := Try(faults);   // read and parse the manifest
      if !ok { return; }
      if osd !in manifests { return true; }
      ok := CleanupKind(osd, Wal);
      if !ok { return; }
      ok := CleanupKind(osd, Db);
    }

    method CleanupKind(osd: nat, kind: Kind) returns (ok: bool)
      requires Valid() && osd < nextOsd
      modifies this`tables, this`attached, this`manifests, this`begun
      ensures Valid()
      ensures forall o: nat, k: Kind :: (o, k) != (osd, kind) ==>
                EntryOf(manifests, o, k) == EntryOf(old(manifests), o, k)
      ensures begun == old(begun) + {(osd, kind)} || (begun == old(begun) && manifests == old(manifests))
      ensures var e := EntryOf(old(manifests), osd, kind);
              e.Some? && e.value.uuid.Some? && e.value.parent in attached
              && Holds(tables, e.value.parent, e.value.slot, e.value.uuid.value)
              ==> EntryOf(manifests, osd, kind) == e
      ensures ok ==> EntryOf(manifests, osd, kind).None?
      ensures attached <= old(attached) && Shrinks(old(tables), tables)
      ensures !faults && (EntryOf(old(manifests), osd, kind).Some? ==> UuidOf(old(manifests), osd, kind).Some?) ==> ok
    {
      var e := EntryOf(manifests, osd, kind);
      if e.None? { return true; }
      begun := begun + {(osd, kind)};
      ok := CleanupDevice(e, faults);
      ShrinksBelow(old(tables), tables, nextUuid);
      SecuredThroughOwnCleanup(old(tables), tables, old(Directories()), Directories(), osd, kind, e.value);
      if !ok { return; }
      ok := Try(faults);   // the manifest rewrite, an atomic rename
      if ok {
        var m := if kind.Wal? then manifests[osd].(wal := None) else manifests[osd].(db := None);
        var rest := if m == Manifest(None, None) then manifests - {osd} else manifests[osd := m];
        DropEntry(tables, Directories(), rest, nextUuid, osd, kind);
        manifests := rest;
      }
    }

    /** Removal of one OSD as far as generated partitions go. */
    method RemoveOsd(osd: nat)
      requires Valid() && osd < nextOsd
      modifies this
      ensures Valid()
      ensures forall o, k :: o != osd ==> EntryOf(manifests, o, k) == EntryOf(old(manifests), o, k)
      ensures old(begun) <= begun && forall r :: r in begun && r !in old(begun) ==> r.0 == osd
      ensures forall r: (nat, Kind) :: r.0 != osd && r in old(links) ==> r in links
      ensures forall k :: EntryOf(manifests, osd, k) != EntryOf(old(manifests), osd, k) ==> (osd, k) in begun
      // the directory goes only after every partition has been dealt with
      ensures links == old(links) || forall k :: EntryOf(manifests, osd, k).None?
      ensures !faults && (forall k :: EntryOf(old(manifests), osd, k).Some? ==> UuidOf(old(manifests), osd, k).Some?)
              ==> forall k :: EntryOf(manifests, osd, k).None? && (osd, k) !in links
    {
      var reached := Try(faults);   // an earlier removal step may fail
      if !reached { return; }
      var ok := CleanupManifest(osd);
      if !ok { return; }
      ok := Try(faults);   // remove the OSD directory: its links go with it
      if ok {
        ghost var before := Directories();
        links := links - {(osd, Wal), (osd, Db)};
        KeptWhileOthersGo(tables, before, Directories());
        forall k ensures (osd, k) !in links {
          assert k == Wal || k == Db;
        }
      }
    }
  }

  /** One kind of partition in a DSL add: the disks the expression matched, and what was asked of them. */
  datatype Request = Request(matched: seq<Disk>, wipe: bool, size: nat)

  datatype Op =
    | Add(osdPaths: seq<string>, wal: Request, db: Request, dataPaths: set<string>, pristine: string -> bool)
    | Remove(osd: nat)

  /** Any sequence of adds (wiping or not, failing or dying anywhere) and removals on shared carriers: a live record's
      partition is still in its carrier's table unless its own OSD was removed. */
  method Run(m: Member, ops: seq<Op>)
    requires m.Valid()
    requires forall i :: 0 <= i < |ops| && ops[i].Add? ==>
               DistinctDisks(ops[i].wal.matched) && DistinctDisks(ops[i].db.matched)
    modifies m
    ensures m.Valid()
    ensures forall o, k :: Live(old(m.Directories()), o, k) && !Removes(ops, o) ==>
              && Live(m.Directories(), o, k) && HoldsRecord(m.tables, m.Directories(), o, k)
              && EntryOf(m.manifests, o, k) == EntryOf(old(m.manifests), o, k)
  {
    for i := 0 to |ops|
      invariant m.Valid()
      invariant forall o, k :: Live(old(m.Directories()), o, k) && !Removes(ops, o) ==>
                  Live(m.Directories(), o, k) && EntryOf(m.manifests, o, k) == EntryOf(old(m.manifests), o, k)
    {
      ghost var before := m.Directories();
      match ops[i] {
        case Add(osdPaths, wal, db, dataPaths, pristine) =>
          var planned, done, walRows, dbRows := m.AddDisks(osdPaths, wal, db, dataPaths, pristine);
        case Remove(osd) =>
          if osd < m.nextOsd { m.RemoveOsd(osd); }
      }
      forall o, k | Live(old(m.Directories()), o, k) && !Removes(ops, o)
        ensures Live(m.Directories(), o, k) && EntryOf(m.manifests, o, k) == EntryOf(old(m.manifests), o, k)
      {
        assert Live(before, o, k);
      }
    }
    forall o, k | Live(old(m.Directories()), o, k) && !Removes(ops, o)
      ensures HoldsRecord(m.tables, m.Directories(), o, k)
    {
      assert Secured(m.tables, m.Directories(), o, k);
    }
  }

  predicate Removes(ops: seq<Op>, osd: nat)
  {
    exists i :: 0 <= i < |ops| && ops[i].Remove? && ops[i].osd == osd
  }

  function RecordUuid(e: Option<Entry>): Option<Uuid>
  {
    if e.None? then None else e.value.uuid
  }

  /** No manifest lists this identity. */
  ghost predicate Unlisted(manifests: Manifests, uuid: Option<Uuid>)
  {
    uuid.Some? ==> forall o, k :: UuidOf(manifests, o, k) != uuid
  }

  /** No live record has this identity. */
  ghost predicate NotLive(b: Books, uuid: Option<Uuid>)
  {
    uuid.Some? ==> forall o, k :: Live(b, o, k) ==> UuidOf(b.manifests, o, k) != uuid
  }

  predicate Unlike(uuid: Option<Uuid>, m: Manifest)
  {
    uuid.Some? ==> uuid != RecordUuid(m.wal) && uuid != RecordUuid(m.db)
  }

  /** Nobody else's record has one of these identities. */
  ghost predicate OthersUnlike(manifests: Manifests, osd: nat, m: Manifest)
  {
    forall o, k :: o != osd ==> Unlike(UuidOf(manifests, o, k), m)
  }

  lemma OthersStayUnlike(before: Manifests, after: Manifests, osd: nat, m: Manifest)
    requires Unlisted(before, RecordUuid(m.wal)) && Unlisted(before, RecordUuid(m.db))
    requires after == before || after == before[osd := m]
    ensures OthersUnlike(after, osd, m)
  {
    forall o: nat, k: Kind | o != osd
      ensures Unlike(UuidOf(after, o, k), m)
    {
      assert UuidOf(after, o, k) == UuidOf(before, o, k);
    }
  }

  /** A directory that is filled, and perhaps taken down again, leaves all earlier ones alone. */
  lemma OwnDirectoryOnly(before: Books, filled: Books, after: Books, osd: nat, m: Manifest)
    requires osd !in before.manifests && (forall k :: (osd, k) !in before.links) && filled.begun == before.begun
    requires filled.manifests == before.manifests || filled.manifests == before.manifests[osd := m]
    requires forall r: (nat, Kind) :: r.0 != osd ==> (r in filled.links <==> r in before.links)
    requires forall r :: r in before.links ==> r in filled.links && filled.links[r] == before.links[r]
    requires after.manifests == filled.manifests || after.manifests == filled.manifests - {osd}
    requires after.begun == filled.begun || after.begun == filled.begun + {(osd, Wal), (osd, Db)}
    requires forall r: (nat, Kind) :: r.0 != osd ==> (r in after.links <==> r in filled.links)
    requires forall r :: r in after.links ==> r in filled.links && after.links[r] == filled.links[r]
    ensures KeptBooks(before, after, osd)
    ensures forall o :: o in after.manifests && o !in before.manifests ==> after.manifests[o] == m
    ensures after.manifests == filled.manifests - {osd} ==> after.manifests == before.manifests
    ensures after.links == filled.links - {(osd, Wal), (osd, Db)} ==> after.links == before.links
  {
    assert forall r: (nat, Kind) :: r.1 == Wal || r.1 == Db;
    forall r | r in before.links
      ensures r in after.links && after.links[r] == before.links[r]
    {
      assert r == (r.0, r.1);
    }
  }

  lemma ClosedIsNotLive(before: Manifests, b: Books, osd: nat, m: Manifest)
    requires OthersUnlike(before, osd, m) && (b.manifests == before || b.manifests == before - {osd})
    requires (osd, Wal) in b.begun && (osd, Db) in b.begun
    ensures NotLive(b, RecordUuid(m.wal)) && NotLive(b, RecordUuid(m.db))
  {
    forall o: nat, k: Kind | Live(b, o, k)
      ensures Unlike(UuidOf(b.manifests, o, k), m)
    {
      assert k == Wal || k == Db;
      assert UuidOf(b.manifests, o, k) == UuidOf(before, o, k);
    }
  }

  /** Closing the books of one OSD and dropping any part of them leaves the others secured. */
  lemma KeptWhenClosed(tables: Tables, before: Books, after: Books, osd: nat)
    requires AllSecured(tables, before)
    requires before.begun + {(osd, Wal), (osd, Db)} <= after.begun
    requires after.manifests == before.manifests || after.manifests == before.manifests - {osd}
    requires forall r :: r in after.links ==> r in before.links && after.links[r] == before.links[r]
    ensures AllSecured(tables, after)
  {
    forall o: nat, k: Kind | Live(after, o, k)
      ensures Secured(tables, after, o, k)
    {
      assert k == Wal || k == Db;
      assert o != osd && EntryOf(after.manifests, o, k) == EntryOf(before.manifests, o, k);
      assert Live(before, o, k) && Secured(tables, before, o, k);
    }
  }

  lemma DropManifest(before: Manifests, after: Manifests, bound: Uuid, osd: nat)
    requires DistinctRecords(before, bound) && (after == before || after == before - {osd})
    ensures DistinctRecords(after, bound)
  {
    assert forall o, k :: UuidOf(after, o, k).Some? ==> UuidOf(after, o, k) == UuidOf(before, o, k);
  }

  /** Records that stay live stay secured. */
  lemma KeptWhileOthersGo(tables: Tables, before: Books, after: Books)
    requires AllSecured(tables, before)
    requires forall o, k :: Live(after, o, k) ==> Live(before, o, k)
    requires forall o, k :: Live(after, o, k) ==> EntryOf(after.manifests, o, k) == EntryOf(before.manifests, o, k)
    requires forall r :: r in after.links ==> r in before.links && after.links[r] == before.links[r]
    ensures AllSecured(tables, after)
  {
    forall o: nat, k: Kind | Live(after, o, k)
      ensures Secured(tables, after, o, k)
    {
      assert Secured(tables, before, o, k);
    }
  }

  ghost predicate OnlyUuids(before: Tables, after: Tables, a: Option<Uuid>, b: Option<Uuid>)
  {
    && (forall p: string, s: nat, u: Uuid :: Holds(after, p, s, u) ==> Holds(before, p, s, u))
    && (forall p: string, s: nat, u: Uuid ::
          Holds(before, p, s, u) && Some(u) != a && Some(u) != b ==> Holds(after, p, s, u))
  }

  /** The entry is the partition that the row planned. */
  predicate Matches(e: Option<Entry>, row: Option<Row>)
  {
    if row.None? then e.None? else e.Some? && e.value.parent == row.value.path && e.value.slot == row.value.slot
  }

  ghost predicate RecordsOnly(m: Manifest, walRow: Option<Row>, dbRow: Option<Row>)
  {
    && (m.wal.Some? ==> walRow.Some? && m.wal.value.parent == walRow.value.path)
    && (m.db.Some? ==> dbRow.Some? && m.db.value.parent == dbRow.value.path)
  }

  lemma SecuredThroughCreate(before: Tables, after: Tables, b: Books, row: Row, bound: Uuid)
    requires AllSecured(before, b) && DistinctRecords(b.manifests, bound)
    requires OnlySlot(before, after, row.path, row.slot)
    requires forall u: Uuid :: u < bound ==>
               (Holds(before, row.path, row.slot, u) <==> Holds(after, row.path, row.slot, u))
    ensures AllSecured(after, b)
  {
    forall o, k | Live(b, o, k)
      ensures Secured(after, b, o, k)
    {
      assert Secured(before, b, o, k);
      assert UuidOf(b.manifests, o, k).value < bound;
    }
  }

  lemma SecuredThroughUndo(before: Tables, after: Tables, b: Books, m: Manifest)
    requires AllSecured(before, b)
    requires OnlyUuids(before, after, RecordUuid(m.wal), RecordUuid(m.db))
    requires NotLive(b, RecordUuid(m.wal)) && NotLive(b, RecordUuid(m.db))
    ensures AllSecured(after, b)
  {
    forall o, k | Live(b, o, k)
      ensures Secured(after, b, o, k)
    {
      assert Secured(before, b, o, k);
      assert UuidOf(b.manifests, o, k) == EntryOf(b.manifests, o, k).value.uuid;
    }
  }

  function PathsOf(rows: seq<Row>): set<string>
  {
    set k | 0 <= k < |rows| :: rows[k].path
  }

  function DiskPaths(disks: seq<Disk>): set<string>
  {
    set k | 0 <= k < |disks| :: disks[k].path
  }

  /** The rows from number `i` on, and the row with that number, if the kind has rows at all. */
  function Rest(rows: seq<Row>, i: nat): seq<Row>
  {
    if i <= |rows| then rows[i..] else []
  }

  function RowAt(rows: seq<Row>, i: nat): Option<Row>
  {
    if i < |rows| then Some(rows[i]) else None
  }

  ghost predicate RestRuns(tables: Tables, rows: seq<Row>, i: nat)
  {
    ExecuteRows(Views(tables), Rest(rows, i)).Some?
  }

  /** The disks have room and are as the inventory says. */
  ghost predicate Suits(tables: Tables, disks: seq<Disk>, resets: set<string>, size: nat, osds: nat)
  {
    && size > 0 && AllMeasured(disks, resets)
    && (disks != [] ==> osds <= FreePlaces(disks, resets, size))
    && (forall d :: d in disks ==>
          d.path in tables && (d.path in resets || InventoryMatches(d, ViewOf(tables[d.path]))))
  }

  /** One good row for each OSD, unless there is no disk for this kind at all. */
  ghost predicate PlanFor(disks: seq<Disk>, resets: set<string>, size: nat, osds: nat, rows: seq<Row>)
  {
    && (disks == [] ==> rows == [])
    && (disks != [] ==> |rows| == osds && (AllMeasured(disks, resets) ==> GoodPlan(disks, resets, size, rows)))
  }

  /** No disk is wanted twice. */
  ghost predicate Apart(wal: seq<Disk>, db: seq<Disk>, osdPaths: seq<string>)
  {
    && (forall d :: d in wal || d in db ==> d.path !in osdPaths)
    && (forall d, e :: d in wal && e in db ==> d.path != e.path)
  }

  lemma DisjointRows(walRows: seq<Row>, dbRows: seq<Row>, walDisks: seq<Disk>, dbDisks: seq<Disk>)
    requires PathsOf(walRows) <= DiskPaths(walDisks) && PathsOf(dbRows) <= DiskPaths(dbDisks)
    requires forall d, e :: d in walDisks && e in dbDisks ==> d.path != e.path
    ensures DisjointPaths(walRows, dbRows)
  {
    forall r, q | r in walRows && q in dbRows
      ensures r.path != q.path
    {
      var i :| 0 <= i < |walRows| && walRows[i] == r;
      var j :| 0 <= j < |dbRows| && dbRows[j] == q;
      assert r.path in PathsOf(walRows) && q.path in PathsOf(dbRows);
      var d :| 0 <= d < |walDisks| && walDisks[d].path == r.path;
      var e :| 0 <= e < |dbDisks| && dbDisks[e].path == q.path;
      assert walDisks[d] in walDisks && dbDisks[e] in dbDisks;
    }
  }

  lemma NoDiskThere(disks: seq<Disk>, path: string)
    requires forall d :: d in disks ==> d.path != path
    ensures path !in DiskPaths(disks)
  {
  }

  lemma DiskPathsGrow(disks: seq<Disk>, d: Disk)
    ensures DiskPaths(disks + [d]) == DiskPaths(disks) + {d.path}
  {
    forall p
      ensures p in DiskPaths(disks + [d]) <==> p in DiskPaths(disks) || p == d.path
    {
      if p in DiskPaths(disks) {
        var k :| 0 <= k < |disks| && disks[k].path == p;
        assert (disks + [d])[k].path == p;
      }
      assert (disks + [d])[|disks|] == d;
    }
  }

  /** Matched, backing no OSD data; if blank, unused and pristine or to be wiped; if not, already carrying partitions of
      ours or to be wiped. */
  ghost predicate Accepted(
      matched: seq<Disk>, dataPaths: set<string>, linked: set<string>, wipe: bool, pristine: string -> bool, d: Disk)
  {
    && d in matched && d.path !in dataPaths
    && (d.partitions == [] ==> d.path !in linked && (wipe || pristine(d.path)))
    && (d.partitions != [] ==> d.path in linked || wipe)
  }

  /** Matched, backing no OSD data, carrying nothing of ours, and the wipe was asked for. */
  ghost predicate Wiped(matched: seq<Disk>, dataPaths: set<string>, linked: set<string>, wipe: bool, path: string)
  {
    wipe && path !in linked && path !in dataPaths && path in DiskPaths(matched)
  }

  lemma {:induction false} KeptIff(
      matched: seq<Disk>, dataPaths: set<string>, linked: set<string>, wipe: bool, pristine: string -> bool, d: Disk)
    ensures d in KeptDisks(matched, dataPaths, linked, wipe, pristine) <==>
              Accepted(matched, dataPaths, linked, wipe, pristine, d)
  {
    if matched != [] {
      var init, last := matched[..|matched| - 1], matched[|matched| - 1];
      assert matched == init + [last];
      KeptIff(init, dataPaths, linked, wipe, pristine, d);
    }
  }

  lemma {:induction false} ResetIff(
      matched: seq<Disk>, dataPaths: set<string>, linked: set<string>, wipe: bool, pristine: string -> bool,
      path: string)
    ensures path in ResetPaths(matched, dataPaths, linked, wipe, pristine) <==>
              Wiped(matched, dataPaths, linked, wipe, path)
  {
    if matched != [] {
      var init, last := matched[..|matched| - 1], matched[|matched| - 1];
      assert matched == init + [last];
      ResetIff(init, dataPaths, linked, wipe, pristine, path);
      assert DiskPaths(matched) == DiskPaths(init) + {last.path} by { DiskPathsGrow(init, last); }
    }
  }

  lemma {:induction false} KeptDistinct(
      matched: seq<Disk>, dataPaths: set<string>, linked: set<string>, wipe: bool, pristine: string -> bool)
    requires DistinctDisks(matched)
    ensures DistinctDisks(KeptDisks(matched, dataPaths, linked, wipe, pristine))
  {
    if matched != [] {
      var init, last := matched[..|matched| - 1], matched[|matched| - 1];
      KeptDistinct(init, dataPaths, linked, wipe, pristine);
      var kept := KeptDisks(init, dataPaths, linked, wipe, pristine);
      forall k | 0 <= k < |kept|
        ensures kept[k].path != last.path
      {
        KeptIff(init, dataPaths, linked, wipe, pristine, kept[k]);
        assert kept[k] in kept;
        var i :| 0 <= i < |init| && init[i] == kept[k];
      }
    }
  }

  function ResetPaths(
      matched: seq<Disk>, dataPaths: set<string>, linked: set<string>, wipe: bool, pristine: string -> bool)
      : set<string>
  {
    if matched == [] then {}
    else
      var d := matched[|matched| - 1];
      var (accept, reset) :=
        Disposition(d.path in dataPaths, d.partitions == [], d.path in linked, wipe, pristine(d.path));
      ResetPaths(matched[..|matched| - 1], dataPaths, linked, wipe, pristine) + if accept && reset then {d.path} else {}
  }

  /** The carriers an add keeps, in the order in which they were matched. */
  function KeptDisks(
      matched: seq<Disk>, dataPaths: set<string>, linked: set<string>, wipe: bool, pristine: string -> bool): seq<Disk>
  {
    if matched == [] then []
    else
      var d := matched[|matched| - 1];
      var (accept, reset) :=
        Disposition(d.path in dataPaths, d.partitions == [], d.path in linked, wipe, pristine(d.path));
      KeptDisks(matched[..|matched| - 1], dataPaths, linked, wipe, pristine) + if accept then [d] else []
  }

  lemma SuitedPlanRuns(tables: Tables, disks: seq<Disk>, resets: set<string>, size: nat, osds: nat)
    requires DistinctDisks(disks) && disks != [] && osds > 0 && Suits(tables, disks, resets, size, osds)
    ensures PlanRows(StartAll(disks, resets), osds, size).Some?
    ensures ExecuteRows(Views(tables), PlanRows(StartAll(disks, resets), osds, size).value.rows).Some?
  {
    InsufficientIff(disks, resets, osds, size);
    DistinctCarriers(disks, resets);
    var cs := StartAll(disks, resets);
    forall i | 0 <= i < |cs|
      ensures cs[i].path in Views(tables) && Agrees(cs[i], Views(tables)[cs[i].path])
    {
      assert disks[i] in disks;
      InventoryAgrees(disks[i], resets, ViewOf(tables[disks[i].path]));
    }
    PlanExecutes(cs, osds, size, Views(tables));
  }

  /** The resets that are still to come hit carriers without a live record. */
  ghost predicate ResetsAreFree(b: Books, rows: seq<Row>, i: nat)
  {
    forall k :: i <= k < |rows| && rows[k].reset ==> Unrecorded(b, rows[k].path)
  }

  lemma RowIsNow(rows: seq<Row>, i: nat, tables: Tables, b: Books)
    ensures i < |rows| ==> Rest(rows, i)[0] == rows[i] && Rest(rows, i)[1..] == Rest(rows, i + 1)
    ensures RowPath(RowAt(rows, i)) <= PathsOf(rows)
    ensures RestRuns(tables, rows, i) ==> CanRun(tables, RowAt(rows, i))
    ensures ResetsAreFree(b, rows, i) && i < |rows| && rows[i].reset ==> Unrecorded(b, rows[i].path)
  {
  }

  lemma NextPathsApart(walRows: seq<Row>, dbRows: seq<Row>, i: nat)
    requires DisjointPaths(walRows, dbRows)
    ensures i < |walRows| && i < |dbRows| ==> walRows[i].path != dbRows[i].path
  {
  }

  lemma ElsewhereTransitive(a: Tables, b: Tables, c: Tables, paths: set<string>)
    ensures Elsewhere(a, b, paths) && Elsewhere(b, c, paths) ==> Elsewhere(a, c, paths)
  {
    forall p: string | p !in paths && Elsewhere(a, b, paths) && Elsewhere(b, c, paths)
      ensures SameAt(a, c, p)
    {
      assert SameAt(a, b, p) && SameAt(b, c, p);
    }
  }

  /** The OSD has the row's partition recorded and live, or no partition of the kind if there is no row. */
  predicate AddedOne(b: Books, osd: nat, kind: Kind, row: Option<Row>)
  {
    Matches(EntryOf(b.manifests, osd, kind), row) && (row.Some? ==> Live(b, osd, kind))
  }

  /** The first `n` rows have become OSDs, from `first` on. */
  ghost predicate Added(b: Books, first: nat, walRows: seq<Row>, dbRows: seq<Row>, n: nat)
  {
    forall k: nat :: k < n ==>
      AddedOne(b, first + k, Wal, RowAt(walRows, k)) && AddedOne(b, first + k, Db, RowAt(dbRows, k))
  }

  lemma AddedStays(b: Books, c: Books, first: nat, bound: nat, walRows: seq<Row>, dbRows: seq<Row>, n: nat)
    ensures Added(b, first, walRows, dbRows, n) && KeptBooks(b, c, bound) && first + n <= bound ==>
              Added(c, first, walRows, dbRows, n)
  {
    forall k: nat | k < n && Added(b, first, walRows, dbRows, n) && KeptBooks(b, c, bound) && first + n <= bound
      ensures AddedOne(c, first + k, Wal, RowAt(walRows, k)) && AddedOne(c, first + k, Db, RowAt(dbRows, k))
    {
      assert AddedOne(b, first + k, Wal, RowAt(walRows, k)) && AddedOne(b, first + k, Db, RowAt(dbRows, k));
      KeptEntry(b, c, bound, first + k, Wal);
      KeptEntry(b, c, bound, first + k, Db);
    }
  }

  lemma KeptEntry(b: Books, c: Books, bound: nat, osd: nat, kind: Kind)
    requires KeptBooks(b, c, bound) && osd < bound
    ensures EntryOf(c.manifests, osd, kind) == EntryOf(b.manifests, osd, kind)
    ensures Live(b, osd, kind) ==> Live(c, osd, kind)
  {
    assert (osd, kind).0 < bound;
  }

  lemma AddedNext(b: Books, first: nat, walRows: seq<Row>, dbRows: seq<Row>, n: nat)
    ensures && Added(b, first, walRows, dbRows, n)
            && AddedOne(b, first + n, Wal, RowAt(walRows, n)) && AddedOne(b, first + n, Db, RowAt(dbRows, n))
            ==> Added(b, first, walRows, dbRows, n + 1)
  {
  }

  lemma ResetsStayFree(b: Books, c: Books, bound: nat, walRows: seq<Row>, dbRows: seq<Row>, i: nat)
    requires ResetsFirst(walRows) && ResetsFirst(dbRows) && DisjointPaths(walRows, dbRows)
    requires ResetsAreFree(b, walRows, i) && ResetsAreFree(b, dbRows, i)
    requires KeptBooks(b, c, bound) && forall o :: o in b.manifests ==> o < bound
    requires forall o :: o in c.manifests && o !in b.manifests ==>
               RecordsOnly(c.manifests[o], RowAt(walRows, i), RowAt(dbRows, i))
    ensures ResetsAreFree(c, walRows, i + 1) && ResetsAreFree(c, dbRows, i + 1)
  {
    forall k | i + 1 <= k < |walRows| && walRows[k].reset
      ensures Unrecorded(c, walRows[k].path)
    {
      assert walRows[i].path != walRows[k].path;
      assert i < |dbRows| ==> walRows[k] in walRows && dbRows[i] in dbRows;
      StillUnrecorded(b, c, bound, walRows[k].path, RowAt(walRows, i), RowAt(dbRows, i));
    }
    forall k | i + 1 <= k < |dbRows| && dbRows[k].reset
      ensures Unrecorded(c, dbRows[k].path)
    {
      assert dbRows[i].path != dbRows[k].path;
      assert i < |walRows| ==> dbRows[k] in dbRows && walRows[i] in walRows;
      StillUnrecorded(b, c, bound, dbRows[k].path, RowAt(walRows, i), RowAt(dbRows, i));
    }
  }

  /** What becomes of the rows of a plan depends only on their own carriers. */
  lemma {:induction false} RunsAlike(a: map<string, Table>, b: map<string, Table>, rows: seq<Row>)
    requires forall k :: 0 <= k < |rows| ==> (rows[k].path in a <==> rows[k].path in b)
    requires forall k :: 0 <= k < |rows| && rows[k].path in a ==> a[rows[k].path] == b[rows[k].path]
    ensures ExecuteRows(a, rows).Some? <==> ExecuteRows(b, rows).Some?
  {
    if rows != [] && rows[0].path in a {
      var after := ExecuteRow(a[rows[0].path], rows[0]);
      if after.Some? {
        RunsAlike(a[rows[0].path := after.value], b[rows[0].path := after.value], rows[1..]);
      }
    }
  }

  /** Carrying out row `i` of both kinds leaves the rest of each plan as feasible as it was. */
  lemma RestStillRuns(before: Tables, after: Tables, rows: seq<Row>, others: seq<Row>, i: nat)
    requires Elsewhere(before, after, RowPath(RowAt(rows, i)) + RowPath(RowAt(others, i)))
    requires forall r, q :: r in rows && q in others ==> r.path != q.path
    ensures RestRuns(before, rows, i) && Ran(before, after, RowAt(rows, i)) ==> RestRuns(after, rows, i + 1)
  {
    var rest := Rest(rows, i + 1);
    RowIsNow(rows, i, before, Books(map[], map[], {}));
    if i < |rows| && RestRuns(before, rows, i) && Ran(before, after, RowAt(rows, i)) {
      var path := rows[i].path;
      var middle := Views(before)[path := ViewOf(after[path])];
      assert ExecuteRows(middle, rest).Some?;
      forall k | 0 <= k < |rest|
        ensures rest[k].path in middle <==> rest[k].path in Views(after)
        ensures rest[k].path in middle ==> middle[rest[k].path] == Views(after)[rest[k].path]
      {
        assert rest[k] == rows[i + 1 + k];
        assert i < |others| ==> others[i] in others && rest[k].path != others[i].path;
        if rest[k].path != path { assert SameAt(before, after, rest[k].path); }
      }
      RunsAlike(middle, Views(after), rest);
    }
  }

  /** A resetting row is the first of its carrier. */
  ghost predicate ResetsFirst(rows: seq<Row>)
  {
    forall i, j :: 0 <= i < j < |rows| && rows[j].reset ==> rows[i].path != rows[j].path
  }

  ghost predicate DisjointPaths(a: seq<Row>, b: seq<Row>)
  {
    forall r, q :: r in a && q in b ==> r.path != q.path
  }

  lemma {:induction false} NoneOn(rows: seq<Row>, path: string)
    requires RowsOn(rows, path) == 0
    ensures forall i :: 0 <= i < |rows| ==> rows[i].path != path
  {
    if rows != [] {
      NoneOn(rows[1..], path);
      assert forall i :: 0 < i < |rows| ==> rows[i] == rows[1..][i - 1];
    }
  }

  lemma {:induction false} RowsNameCarriers(cs: seq<Carrier>, osds: nat, size: nat, k: nat) returns (i: nat)
    requires PlanRows(cs, osds, size).Some? && k < osds
    ensures i < |cs| && PlanRows(cs, osds, size).value.rows[k].path == cs[i].path
    decreases osds
  {
    var b, rest := FirstRow(cs, osds, size);
    if k == 0 {
      i := b;
    } else {
      i := RowsNameCarriers(Placed(cs, b, size), osds - 1, size, k - 1);
    }
  }

  /** What the planner promises the executor: reset only where asked, and only before anything else on the carrier. */
  lemma PlanResetsFirst(disks: seq<Disk>, resets: set<string>, osds: nat, size: nat)
    requires DistinctDisks(disks) && PlanRows(StartAll(disks, resets), osds, size).Some?
    ensures var rows := PlanRows(StartAll(disks, resets), osds, size).value.rows;
            && ResetsFirst(rows)
            && (forall r :: r in rows ==> exists d :: d in disks && d.path == r.path)
            && (forall r :: r in rows && r.reset ==> r.path in resets)
  {
    var cs := StartAll(disks, resets);
    var rows := PlanRows(cs, osds, size).value.rows;
    forall k | 0 <= k < osds
      ensures exists d :: d in disks && d.path == rows[k].path
      ensures rows[k].reset ==> rows[k].path in resets && forall j :: 0 <= j < k ==> rows[j].path != rows[k].path
    {
      var i := RowsNameCarriers(cs, osds, size, k);
      assert disks[i].path == rows[k].path;
      FlagsOnFirstRowOnly(cs, osds, size, i, k);
      if rows[k].reset {
        NoneOn(rows[..k], cs[i].path);
        assert forall j :: 0 <= j < k ==> rows[..k][j] == rows[j];
      }
    }
  }

  lemma StillUnrecorded(before: Books, after: Books, first: nat, path: string, walRow: Option<Row>, dbRow: Option<Row>)
    requires Unrecorded(before, path) && before.begun <= after.begun
    requires forall o :: o in before.manifests ==> o in after.manifests && after.manifests[o] == before.manifests[o]
    requires forall o :: o in before.manifests ==> o < first
    requires forall r: (nat, Kind) :: r.0 < first && r in after.links ==> r in before.links
    requires forall o :: o in after.manifests && o !in before.manifests ==>
               RecordsOnly(after.manifests[o], walRow, dbRow)
    requires walRow.Some? ==> walRow.value.path != path
    requires dbRow.Some? ==> dbRow.value.path != path
    ensures Unrecorded(after, path)
  {
    forall o: nat, k: Kind | Live(after, o, k)
      ensures EntryOf(after.manifests, o, k).value.parent != path
    {
      if o in before.manifests {
        assert (o, k).0 < first;
        assert Live(before, o, k);
      }
    }
  }

  lemma SecuredThroughOwnCleanup(before: Tables, after: Tables, b: Books, c: Books, osd: nat, kind: Kind, e: Entry)
    requires AllSecured(before, b) && c == b.(begun := b.begun + {(osd, kind)})
    requires EntryOf(b.manifests, osd, kind) == Some(e)
    requires forall o, k, o', k' ::
               UuidOf(b.manifests, o, k).Some? && UuidOf(b.manifests, o', k') == UuidOf(b.manifests, o, k)
               ==> o == o' && k == k'
    requires after == before ||
             (e.uuid.Some? && Holds(before, e.parent, e.slot, e.uuid.value)
              && after == Erased(before, e.parent, e.slot))
    ensures AllSecured(after, c)
  {
    forall o, k | Live(c, o, k)
      ensures Secured(after, c, o, k)
    {
      assert Live(b, o, k) && Secured(before, b, o, k);
      assert UuidOf(b.manifests, osd, kind) == e.uuid;
      var mine := EntryOf(b.manifests, o, k).value;
      assert UuidOf(b.manifests, o, k) == mine.uuid;
      assert mine.uuid != e.uuid;
    }
  }

  lemma DropEntry(tables: Tables, b: Books, after: Manifests, bound: Uuid, osd: nat, kind: Kind)
    requires AllSecured(tables, b) && DistinctRecords(b.manifests, bound)
    requires forall o: nat, k: Kind :: (o, k) != (osd, kind) ==> EntryOf(after, o, k) == EntryOf(b.manifests, o, k)
    requires EntryOf(after, osd, kind).None?
    ensures AllSecured(tables, b.(manifests := after)) && DistinctRecords(after, bound)
  {
    forall o, k
      ensures UuidOf(after, o, k).Some? ==> EntryOf(after, o, k) == EntryOf(b.manifests, o, k)
      ensures UuidOf(after, o, k).Some? ==> UuidOf(after, o, k) == UuidOf(b.manifests, o, k)
    {
    }
    forall o, k | Live(b.(manifests := after), o, k)
      ensures Secured(tables, b.(manifests := after), o, k)
    {
      assert Live(b, o, k) && Secured(tables, b, o, k);
    }
  }
}
