/**
 Has a zone caught up with its peer? The verdict counts incremental shards; this module compares the count with
 the per-shard meaning it stands for.
 */
module SyncVerdict {
  import opened Common

  const SYNC := "sync"
  const INCREMENTAL_STATE: int := 1
  const INCREMENTAL_STATUS := "incremental-sync"

  datatype SyncInfo = SyncInfo(status: string, numShards: int, period: string)
  datatype MetadataShard = MetadataShard(key: int, state: int, marker: string)
  datatype DataShard = DataShard(key: int, status: string, marker: string)

  datatype Verdict = Verdict(
    caughtUp: bool, behind: seq<int>, fullSync: int, periodMismatch: bool, peerLogUnavailable: bool)

  /** What both kinds of marker have in common. */
  datatype Shard = Shard(key: int, incremental: bool, marker: string)

  function OfMetadata(m: MetadataShard): Shard
  {
    Shard(m.key, m.state == INCREMENTAL_STATE, m.marker)
  }

  function OfData(d: DataShard): Shard
  {
    Shard(d.key, d.status == INCREMENTAL_STATUS, d.marker)
  }

  function MetadataView(markers: seq<MetadataShard>): (r: seq<Shard>)
    ensures |r| == |markers| && forall i :: 0 <= i < |r| ==> r[i] == OfMetadata(markers[i])
  {
    seq(|markers|, i requires 0 <= i < |markers| => OfMetadata(markers[i]))
  }

  function DataView(markers: seq<DataShard>): (r: seq<Shard>)
    ensures |r| == |markers| && forall i :: 0 <= i < |r| ==> r[i] == OfData(markers[i])
  {
    seq(|markers|, i requires 0 <= i < |markers| => OfData(markers[i]))
  }

  /** A response's shard keys do not contradict its shard count. */
  predicate KeysInRange(numShards: int, keys: seq<int>)
  {
    numShards >= 0 && forall i :: 0 <= i < |keys| ==> 0 <= keys[i] < numShards
  }

  method ValidateSyncShards(numShards: int, keys: seq<int>) returns (ok: bool)
    ensures ok <==> KeysInRange(numShards, keys)
  {
    if numShards < 0 { return false; }
    if numShards == 0 && |keys| > 0 {
      assert !(0 <= keys[0] < numShards);
      return false;
    }
    for i := 0 to |keys|
      invariant forall j :: 0 <= j < i ==> 0 <= keys[j] < numShards
    {
      if keys[i] < 0 || keys[i] >= numShards { return false; }
    }
    return true;
  }

  /** An incremental shard whose peer reports a log head beyond its marker. */
  predicate Behind(s: Shard, log: seq<string>)
  {
    s.incremental && 0 <= s.key < |log| && Less(s.marker, log[s.key])
  }

  function BehindKeys(shards: seq<Shard>, log: seq<string>): seq<int>
  {
    if shards == [] then []
    else
      var before := BehindKeys(shards[..|shards| - 1], log);
      var s := shards[|shards| - 1];
      if Behind(s, log) then before + [s.key] else before
  }

  function CountIncremental(shards: seq<Shard>): nat
  {
    if shards == [] then 0
    else CountIncremental(shards[..|shards| - 1]) + if shards[|shards| - 1].incremental then 1 else 0
  }

  function Compare(info: SyncInfo, shards: seq<Shard>, log: seq<string>): Verdict
  {
    var behind := BehindKeys(shards, log);
    var missing := info.numShards - CountIncremental(shards);
    var fullSync := if missing < 0 then 0 else missing;
    Verdict(info.status == SYNC && behind == [] && fullSync == 0, behind, fullSync, false, false)
  }

  const NO_VERDICT := Verdict(false, [], 0, false, false)

  /** A missing log means the fetch failed. */
  method MetadataVerdict(info: SyncInfo, markers: seq<MetadataShard>, log: Option<seq<string>>, period: string)
    returns (v: Verdict)
    ensures v.periodMismatch <==> info.period != "" && period != "" && info.period != period
    ensures v.peerLogUnavailable <==> !v.periodMismatch && log.None?
    ensures v.periodMismatch ==> v == NO_VERDICT.(periodMismatch := true)
    ensures v.peerLogUnavailable ==> v == NO_VERDICT.(peerLogUnavailable := true)
    ensures !v.periodMismatch && log.Some? ==> v == Compare(info, MetadataView(markers), log.value)
  {
    v := NO_VERDICT;
    if info.period != "" && period != "" && info.period != period {
      return v.(periodMismatch := true);
    }
    if log.None? {
      return v.(peerLogUnavailable := true);
    }
    var numIncremental := 0;
    var heads := log.value;
    ghost var view := MetadataView(markers);
    for i := 0 to |markers|
      invariant v == NO_VERDICT.(behind := BehindKeys(view[..i], heads))
      invariant numIncremental == CountIncremental(view[..i])
    {
      assert view[..i + 1][..i] == view[..i];
      var shard := markers[i];
      if shard.state != INCREMENTAL_STATE { continue; }
      numIncremental := numIncremental + 1;
      if 0 <= shard.key < |heads| && Less(shard.marker, heads[shard.key]) {
        v := v.(behind := v.behind + [shard.key]);
      }
    }
    assert view[..|markers|] == view;
    v := v.(fullSync := info.numShards - numIncremental);
    if v.fullSync < 0 { v := v.(fullSync := 0); }
    v := v.(caughtUp := info.status == SYNC && |v.behind| == 0 && v.fullSync == 0);
  }

  method DataVerdict(info: SyncInfo, markers: seq<DataShard>, log: Option<seq<string>>) returns (v: Verdict)
    ensures v.peerLogUnavailable <==> log.None?
    ensures log.None? ==> v == NO_VERDICT.(peerLogUnavailable := true)
    ensures log.Some? ==> v == Compare(info, DataView(markers), log.value)
  {
    v := NO_VERDICT;
    if log.None? {
      return v.(peerLogUnavailable := true);
    }
    var numIncremental := 0;
    var heads := log.value;
    ghost var view := DataView(markers);
    for i := 0 to |markers|
      invariant v == NO_VERDICT.(behind := BehindKeys(view[..i], heads))
      invariant numIncremental == CountIncremental(view[..i])
    {
      assert view[..i + 1][..i] == view[..i];
      var shard := markers[i];
      if shard.status != INCREMENTAL_STATUS { continue; }
      numIncremental := numIncremental + 1;
      if 0 <= shard.key < |heads| && Less(shard.marker, heads[shard.key]) {
        v := v.(behind := v.behind + [shard.key]);
      }
    }
    assert view[..|markers|] == view;
    v := v.(fullSync := info.numShards - numIncremental);
    if v.fullSync < 0 { v := v.(fullSync := 0); }
    v := v.(caughtUp := info.status == SYNC && |v.behind| == 0 && v.fullSync == 0);
  }

  // ------------------------------------------------------------------ the meaning, shard by shard

  function Keys(shards: seq<Shard>): (r: seq<int>)
    ensures |r| == |shards| && forall i :: 0 <= i < |shards| ==> r[i] == shards[i].key
  {
    seq(|shards|, i requires 0 <= i < |shards| => shards[i].key)
  }

  /** What `ValidateSyncShards` accepts. */
  predicate InRange(info: SyncInfo, shards: seq<Shard>)
  {
    KeysInRange(info.numShards, Keys(shards))
  }

  predicate IncrementalAt(shards: seq<Shard>, key: int)
  {
    exists i :: 0 <= i < |shards| && shards[i].incremental && shards[i].key == key
  }

  /** Every shard of the zone is past its first copy and none is behind a head its peer reported. */
  predicate Level(info: SyncInfo, shards: seq<Shard>, log: seq<string>)
  {
    && info.status == SYNC
    && (forall k :: 0 <= k < info.numShards ==> IncrementalAt(shards, k))
    && (forall i :: 0 <= i < |shards| && shards[i].incremental && 0 <= shards[i].key < |log| ==>
          !Less(shards[i].marker, log[shards[i].key]))
  }

  function IncrementalKeys(shards: seq<Shard>): set<int>
  {
    set i | 0 <= i < |shards| && shards[i].incremental :: shards[i].key
  }

  predicate DistinctKeys(shards: seq<Shard>)
  {
    forall i, j :: 0 <= i < j < |shards| ==> shards[i].key != shards[j].key
  }

  lemma KeysGrow(shards: seq<Shard>)
    requires shards != []
    ensures var s := shards[|shards| - 1]; var before := IncrementalKeys(shards[..|shards| - 1]);
            IncrementalKeys(shards) == if s.incremental then before + {s.key} else before
  {
    var s := shards[|shards| - 1];
    var init := shards[..|shards| - 1];
    forall k | k in IncrementalKeys(init) ensures k in IncrementalKeys(shards) {
      var i :| 0 <= i < |init| && init[i].incremental && init[i].key == k;
      assert shards[i] == init[i];
    }
    forall k | k in IncrementalKeys(shards) ensures k in IncrementalKeys(init) || (s.incremental && k == s.key) {
      var i :| 0 <= i < |shards| && shards[i].incremental && shards[i].key == k;
      if i < |init| { assert init[i] == shards[i]; }
    }
    if s.incremental { assert s.key in IncrementalKeys(shards); }
  }

  /** The counter never undercounts, and counts exactly when no key repeats. */
  lemma {:induction false} CountIsKeys(shards: seq<Shard>)
    ensures |IncrementalKeys(shards)| <= CountIncremental(shards)
    ensures DistinctKeys(shards) ==> |IncrementalKeys(shards)| == CountIncremental(shards)
  {
    if shards != [] {
      var init := shards[..|shards| - 1];
      CountIsKeys(init);
      KeysGrow(shards);
    }
  }

  function Range(n: nat): (r: set<int>)
    ensures forall k :: k in r <==> 0 <= k < n
    ensures |r| == n
  {
    if n == 0 then {} else Range(n - 1) + {n - 1}
  }

  lemma KeysWithin(info: SyncInfo, shards: seq<Shard>)
    requires InRange(info, shards)
    ensures IncrementalKeys(shards) <= Range(info.numShards)
  {
    forall k | k in IncrementalKeys(shards) ensures k in Range(info.numShards) {
      var i :| 0 <= i < |shards| && shards[i].incremental && shards[i].key == k;
      assert Keys(shards)[i] == k;
    }
  }

  lemma SubsetCardinality(a: set<int>, b: set<int>)
    requires a <= b
    ensures |a| <= |b|
    ensures |a| == |b| <==> a == b
  {
    assert b == a + (b - a);
    if |b - a| == 0 { assert b - a == {}; }
  }

  /** Pigeonhole: in-range keys cover every shard exactly when there are as many of them as shards. */
  lemma CoveredIffEnoughKeys(info: SyncInfo, shards: seq<Shard>)
    requires InRange(info, shards)
    ensures (forall k :: 0 <= k < info.numShards ==> IncrementalAt(shards, k))
            <==> |IncrementalKeys(shards)| >= info.numShards
  {
    var keys, all := IncrementalKeys(shards), Range(info.numShards);
    KeysWithin(info, shards);
    SubsetCardinality(keys, all);
    forall k ensures k in keys <==> IncrementalAt(shards, k) {
    }
    if forall k :: 0 <= k < info.numShards ==> IncrementalAt(shards, k) {
      assert all <= keys;
    }
  }

  lemma {:induction false} NoneBehindIffEmpty(shards: seq<Shard>, log: seq<string>)
    ensures BehindKeys(shards, log) == [] <==> forall i :: 0 <= i < |shards| ==> !Behind(shards[i], log)
  {
    if shards != [] {
      var init := shards[..|shards| - 1];
      NoneBehindIffEmpty(init, log);
      forall i | 0 <= i < |init| ensures init[i] == shards[i] {}
    }
  }

  /** The fault of counting entries: repeated keys make up for a shard that is missing. */
  predicate RepeatsHideAMissingShard(info: SyncInfo, shards: seq<Shard>)
  {
    |IncrementalKeys(shards)| < info.numShards <= CountIncremental(shards)
  }

  /** For validated keys the verdict never misses a zone that is level, and says so of one that is not exactly
      when repeated keys hide a missing shard. */
  lemma CaughtUpIff(info: SyncInfo, shards: seq<Shard>, log: seq<string>)
    requires InRange(info, shards)
    ensures Level(info, shards, log) ==> Compare(info, shards, log).caughtUp
    ensures Compare(info, shards, log).caughtUp && !Level(info, shards, log)
            <==> info.status == SYNC && BehindKeys(shards, log) == [] && RepeatsHideAMissingShard(info, shards)
  {
    CountIsKeys(shards);
    CoveredIffEnoughKeys(info, shards);
    NoneBehindIffEmpty(shards, log);
  }

  /** With distinct keys the counting shortcut is the per-shard meaning. */
  lemma CaughtUpIsLevel(info: SyncInfo, shards: seq<Shard>, log: seq<string>)
    requires InRange(info, shards) && DistinctKeys(shards)
    ensures Compare(info, shards, log).caughtUp <==> Level(info, shards, log)
  {
    CaughtUpIff(info, shards, log);
    CountIsKeys(shards);
  }

  /** Validation lets a repeated key through, and then two entries for shard 0 stand in for shard 1. */
  lemma RepeatedKeyReadsAsCaughtUp()
    ensures
      var info := SyncInfo(SYNC, 2, "");
      var shards := [Shard(0, true, "1_5"), Shard(0, true, "1_5")];
      InRange(info, shards) && Compare(info, shards, ["1_5", "1_9"]).caughtUp && !IncrementalAt(shards, 1)
  {
    var info := SyncInfo(SYNC, 2, "");
    var s := Shard(0, true, "1_5");
    var shards := [s, s];
    var log := ["1_5", "1_9"];
    assert shards[..1] == [s] && [s][..0] == [];
    LessIrreflexive("1_5");
    assert !Behind(s, log);
    assert BehindKeys([s][..0], log) == [] && CountIncremental([s][..0]) == 0;
    assert [s][|[s]| - 1] == s;
    assert CountIncremental([s]) == 1;
    assert BehindKeys([s], log) == BehindKeys([s][..0], log);
  }

  /** The reported shards, in the order of the response, are those behind; with distinct keys each is listed once. */
  lemma {:induction false} BehindListed(shards: seq<Shard>, log: seq<string>, k: int)
    ensures k in BehindKeys(shards, log)
       <==> exists i :: 0 <= i < |shards| && shards[i].key == k && shards[i].incremental
                        && 0 <= k < |log| && Less(shards[i].marker, log[k])
    ensures DistinctKeys(shards) ==> multiset(BehindKeys(shards, log))[k] <= 1
  {
    if shards != [] {
      var init := shards[..|shards| - 1];
      var s := shards[|shards| - 1];
      BehindListed(init, log, k);
      if k in BehindKeys(init, log) {
        var i :| 0 <= i < |init| && init[i].key == k && Behind(init[i], log);
        assert shards[i] == init[i];
      }
      if i :| 0 <= i < |shards| && shards[i].key == k && Behind(shards[i], log) && i < |init| {
        assert init[i] == shards[i];
      }
    }
  }

  /** The shards reported as still copying, for distinct keys: those of the zone with no incremental marker. */
  lemma FullSyncIsTheRest(info: SyncInfo, shards: seq<Shard>, log: seq<string>)
    requires InRange(info, shards) && DistinctKeys(shards)
    ensures Compare(info, shards, log).fullSync == |Range(info.numShards) - IncrementalKeys(shards)|
  {
    CountIsKeys(shards);
    var keys, all := IncrementalKeys(shards), Range(info.numShards);
    KeysWithin(info, shards);
    assert all == keys + (all - keys);
  }
}
