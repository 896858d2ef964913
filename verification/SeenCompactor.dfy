/** Choosing which of the fingerprints that were seen to forget, by number and by age. */
module SeenCompactor {
  import opened Wrappers
  import opened Sorting

  /** A fingerprint at its place in the list. Times count from the earliest one there is. */
  datatype FingerprintRecord = FingerprintRecord(fingerprint: string, index: int, seenAt: Option<nat>)
  {
    function Time(): nat {
      if seenAt.Some? then seenAt.value else 0
    }
  }

  predicate Newer(a: FingerprintRecord, b: FingerprintRecord) {
    a.Time() > b.Time() || (a.Time() == b.Time() && a.index > b.index)
  }

  predicate Earlier(a: FingerprintRecord, b: FingerprintRecord) {
    a.index < b.index
  }

  /** Records as they come from a list: each has its own place. */
  ghost predicate Placed(records: seq<FingerprintRecord>) {
    forall i, j | 0 <= i < j < |records| :: records[i].index < records[j].index
  }

  function SetOf(records: seq<FingerprintRecord>): set<FingerprintRecord> {
    set r | r in records
  }

  lemma PlacedOrders(s: set<FingerprintRecord>, records: seq<FingerprintRecord>)
    requires Placed(records) && forall r | r in s :: r in records
    ensures Orders(Newer, s) && Orders(Earlier, s)
  {
    forall a, b | a in s && b in s && a != b ensures a.index != b.index {
      var i :| 0 <= i < |records| && records[i] == a;
      var j :| 0 <= j < |records| && records[j] == b;
      assert i < j || j < i;
    }
  }

  lemma {:induction false} PlacedCount(records: seq<FingerprintRecord>)
    requires Placed(records)
    ensures |SetOf(records)| == |records|
  {
    if records != [] {
      var n := |records| - 1;
      PlacedCount(records[..n]);
      assert records[n] !in SetOf(records[..n]);
      assert SetOf(records) == SetOf(records[..n]) + {records[n]};
    }
  }

  /** The fingerprints among the newest records, as many as the limit allows. */
  function NewestFingerprints(newestFirst: seq<FingerprintRecord>, max: int): set<string> {
    set r | r in newestFirst[..if AtLeastOne(max) < |newestFirst| then AtLeastOne(max) else |newestFirst|] ::
        r.fingerprint
  }

  /** A record is dropped when a limit speaks against it and no limit speaks for it. */
  predicate ShouldDrop(r: FingerprintRecord, maxCount: Option<int>, cutoff: Option<int>, countKeep: set<string>) {
    var counted := maxCount.Some? && r.fingerprint in countKeep;
    var young := cutoff.Some? && (r.seenAt.None? || r.seenAt.value >= cutoff.value);
    (maxCount.Some? || cutoff.Some?) && !counted && !young
  }

  datatype Split = Split(keep: map<string, FingerprintRecord>, drop: map<string, FingerprintRecord>)

  function SplitBy(records: seq<FingerprintRecord>, maxCount: Option<int>, cutoff: Option<int>,
                   countKeep: set<string>): (s: Split)
    ensures forall f | f in s.keep :: s.keep[f] in records && s.keep[f].fingerprint == f
    ensures forall f | f in s.drop :: s.drop[f] in records && s.drop[f].fingerprint == f
  {
    if records == [] then Split(map[], map[])
    else
      var r := records[|records| - 1];
      var before := SplitBy(records[..|records| - 1], maxCount, cutoff, countKeep);
      if ShouldDrop(r, maxCount, cutoff, countKeep) then before.(drop := before.drop[r.fingerprint := r])
      else before.(keep := before.keep[r.fingerprint := r])
  }

  /** The newest record is kept if nothing else is. */
  function Rescued(s: Split, newest: FingerprintRecord): Split {
    if s.keep == map[] && s.drop != map[] then Split(map[newest.fingerprint := newest], s.drop - {newest.fingerprint})
        else s
  }

  function RecordsNewer(records: seq<FingerprintRecord>, r: FingerprintRecord): set<FingerprintRecord> {
    Preceding(SetOf(records), Newer, r)
  }

  ghost function NewestFirst(records: seq<FingerprintRecord>): (newest: seq<FingerprintRecord>)
    requires Placed(records)
    ensures |newest| == |SetOf(records)| && forall r :: r in newest <==> r in records
  {
    PlacedOrders(SetOf(records), records);
    SortedBy(SetOf(records), Newer)
  }

  ghost function CountKeep(records: seq<FingerprintRecord>, maxCount: Option<int>): set<string>
    requires Placed(records)
  {
    if maxCount.Some? then NewestFingerprints(NewestFirst(records), maxCount.value) else {}
  }

  /** The split that SplitRecords returns, by fingerprint. */
  ghost function SplitOf(records: seq<FingerprintRecord>, maxCount: Option<int>, cutoff: Option<int>): Split
    requires Placed(records) && records != []
  {
    assert records[0] in NewestFirst(records);
    Rescued(SplitBy(records, maxCount, cutoff, CountKeep(records, maxCount)), NewestFirst(records)[0])
  }

  /** The records by what speaks for and against each of them. */
  method SplitByReasons(records: seq<FingerprintRecord>, maxCount: Option<int>, cutoff: Option<int>,
                        countKeep: set<string>)
    returns (kept: map<string, FingerprintRecord>, dropped: map<string, FingerprintRecord>)
    ensures Split(kept, dropped) == SplitBy(records, maxCount, cutoff, countKeep)
  {
    kept, dropped := map[], map[];
    for i := 0 to |records|
      invariant Split(kept, dropped) == SplitBy(records[..i], maxCount, cutoff, countKeep)
    {
      var r := records[i];
      assert records[..i + 1][..i] == records[..i];
      var keepReasons, dropReasons := 0, 0;
      if maxCount.Some? {
        if r.fingerprint in countKeep {
          keepReasons := keepReasons + 1;
        } else {
          dropReasons := dropReasons + 1;
        }
      }
      if cutoff.Some? {
        if r.seenAt.None? || r.seenAt.value >= cutoff.value {
          keepReasons := keepReasons + 1;
        } else {
          dropReasons := dropReasons + 1;
        }
      }
      if maxCount.None? && cutoff.None? {
        keepReasons := keepReasons + 1;
      }
      if dropReasons > 0 && keepReasons == 0 {
        dropped := dropped[r.fingerprint := r];
      } else {
        kept := kept[r.fingerprint := r];
      }
    }
    assert records[..|records|] == records;
  }

  method SplitRecords(records: seq<FingerprintRecord>, maxCount: Option<int>, cutoff: Option<int>)
    returns (keep: seq<FingerprintRecord>, drop: seq<FingerprintRecord>)
    requires Placed(records)
    ensures records == [] ==> keep == [] && drop == []
    ensures records != [] ==>
      var split := SplitOf(records, maxCount, cutoff);
      && Orders(Earlier, split.keep.Values) && keep == SortedBy(split.keep.Values, Earlier)
      && Orders(Earlier, split.drop.Values) && drop == SortedBy(split.drop.Values, Earlier)
  {
    if records == [] {
      return [], [];
    }
    PlacedOrders(SetOf(records), records);
    var newestFirst := SortedBy(SetOf(records), Newer);
    assert records[0] in newestFirst;
    var countKeep := {};
    if maxCount.Some? {
      countKeep := NewestFingerprints(newestFirst, maxCount.value);
    }
    var kept, dropped := SplitByReasons(records, maxCount, cutoff, countKeep);
    ghost var split := Split(kept, dropped);
    if kept == map[] && dropped != map[] {
      var rescue := newestFirst[0];
      kept := kept[rescue.fingerprint := rescue];
      dropped := dropped - {rescue.fingerprint};
    }
    assert Split(kept, dropped) == Rescued(split, newestFirst[0]);
    PlacedOrders(kept.Values, records);
    PlacedOrders(dropped.Values, records);
    keep, drop := SortedBy(kept.Values, Earlier), SortedBy(dropped.Values, Earlier);
  }

  /** The kept and the dropped ones are listed in the order of their places. */
  lemma ListedInPlace(chosen: set<FingerprintRecord>, i: nat, j: nat)
    requires Orders(Earlier, chosen) && i < j < |chosen|
    ensures SortedBy(chosen, Earlier)[i].index < SortedBy(chosen, Earlier)[j].index
  {
    SortedAscends(chosen, Earlier, i, j);
  }

  // ----- fingerprints that are all different -----

  ghost predicate Different(records: seq<FingerprintRecord>) {
    forall i, j | 0 <= i < j < |records| :: records[i].fingerprint != records[j].fingerprint
  }

  lemma LastDiffers(records: seq<FingerprintRecord>)
    requires Different(records) && records != []
    ensures Different(records[..|records| - 1])
    ensures forall other | other in records[..|records| - 1] :: other.fingerprint != records[|records| - 1].fingerprint
  {
  }

  lemma {:induction false} SplitValues(records: seq<FingerprintRecord>, maxCount: Option<int>, cutoff: Option<int>,
                                       countKeep: set<string>, r: FingerprintRecord)
    requires Different(records)
    ensures var s := SplitBy(records, maxCount, cutoff, countKeep);
      && (r in s.keep.Values <==> r in records && !ShouldDrop(r, maxCount, cutoff, countKeep))
      && (r in s.drop.Values <==> r in records && ShouldDrop(r, maxCount, cutoff, countKeep))
  {
    if records != [] {
      var n := |records| - 1;
      var last, before := records[n], SplitBy(records[..n], maxCount, cutoff, countKeep);
      LastDiffers(records);
      SplitValues(records[..n], maxCount, cutoff, countKeep, r);
      FreshEntry(before.keep, records[..n], last);
      FreshEntry(before.drop, records[..n], last);
      assert r in records <==> r in records[..n] || r == last;
    }
  }

  lemma FreshEntry(m: map<string, FingerprintRecord>, records: seq<FingerprintRecord>, r: FingerprintRecord)
    requires forall f | f in m :: m[f] in records && m[f].fingerprint == f
    requires forall other | other in records :: other.fingerprint != r.fingerprint
    ensures m[r.fingerprint := r].Values == m.Values + {r}
  {
    var m' := m[r.fingerprint := r];
    assert r.fingerprint !in m && r.fingerprint in m';
    forall f | f in m ensures m[f] in m'.Values {
      assert m'[f] == m[f];
    }
  }

  /** The count limit speaks for the records that fewer than the limit are newer than. */
  lemma CountKeepIff(records: seq<FingerprintRecord>, max: int, r: FingerprintRecord)
    requires Placed(records) && Different(records) && r in records
    ensures r.fingerprint in CountKeep(records, Some(max)) <==> |RecordsNewer(records, r)| < AtLeastOne(max)
  {
    PlacedOrders(SetOf(records), records);
    var newest := NewestFirst(records);
    var k := if AtLeastOne(max) < |newest| then AtLeastOne(max) else |newest|;
    AmongFirstIff(SetOf(records), Newer, k, r);
    if other :| other in newest[..k] && other.fingerprint == r.fingerprint {
      SameFingerprint(records, other, r);
    }
    PlacedCount(records);
    RankBelow(records, r);
  }

  lemma SameFingerprint(records: seq<FingerprintRecord>, a: FingerprintRecord, b: FingerprintRecord)
    requires Different(records) && a in records && b in records && a.fingerprint == b.fingerprint
    ensures a == b
  {
    var i :| 0 <= i < |records| && records[i] == a;
    var j :| 0 <= j < |records| && records[j] == b;
    assert i == j || i < j || j < i;
  }

  /** Every given limit speaks against the record. */
  ghost predicate Condemned(records: seq<FingerprintRecord>, maxCount: Option<int>, cutoff: Option<int>,
                            r: FingerprintRecord) {
    && (maxCount.Some? || cutoff.Some?)
    && (maxCount.Some? ==> |RecordsNewer(records, r)| >= AtLeastOne(maxCount.value))
    && (cutoff.Some? ==> r.seenAt.Some? && r.seenAt.value < cutoff.value)
  }

  /** The newest record, when all of them are condemned. */
  ghost predicate IsRescued(records: seq<FingerprintRecord>, maxCount: Option<int>, cutoff: Option<int>,
                            r: FingerprintRecord) {
    (forall other | other in records :: Condemned(records, maxCount, cutoff, other)) && RecordsNewer(records, r) == {}
  }

  lemma FirstIsNewest(records: seq<FingerprintRecord>, r: FingerprintRecord)
    requires Placed(records) && r in records
    ensures NewestFirst(records) != [] && (NewestFirst(records)[0] == r <==> RecordsNewer(records, r) == {})
  {
    PlacedOrders(SetOf(records), records);
    AmongFirstIff(SetOf(records), Newer, 1, r);
    var newest := NewestFirst(records);
    assert newest[..1] == [newest[0]];
  }

  /**
   With different fingerprints: what is kept and what is dropped are all the records, none of them in both; a record
   is dropped exactly when every limit given speaks against it and it is not the newest of records that are all
   condemned; and something is always kept.
   */
  lemma DroppedIff(records: seq<FingerprintRecord>, maxCount: Option<int>, cutoff: Option<int>, r: FingerprintRecord)
    requires Placed(records) && Different(records) && r in records
    ensures var split := SplitOf(records, maxCount, cutoff);
      && split.keep != map[]
      && (r in split.drop.Values <==>
          Condemned(records, maxCount, cutoff, r) && !IsRescued(records, maxCount, cutoff, r))
      && (r in split.keep.Values <==> r !in split.drop.Values)
  {
    var countKeep := CountKeep(records, maxCount);
    var before := SplitBy(records, maxCount, cutoff, countKeep);
    forall other | other in records
      ensures ShouldDrop(other, maxCount, cutoff, countKeep) <==> Condemned(records, maxCount, cutoff, other)
      ensures other in before.keep.Values <==> !Condemned(records, maxCount, cutoff, other)
      ensures other in before.drop.Values <==> Condemned(records, maxCount, cutoff, other)
    {
      SplitValues(records, maxCount, cutoff, countKeep, other);
      if maxCount.Some? {
        CountKeepIff(records, maxCount.value, other);
      }
    }
    FirstIsNewest(records, r);
    var newest := NewestFirst(records)[0];
    if before.keep == map[] {
      assert before.keep.Values == {};
      RemovedEntry(before.drop, newest);
      assert before.drop != map[] by {
        assert r in before.drop.Values;
      }
    } else {
      var f :| f in before.keep;
      assert before.keep[f] in before.keep.Values;
    }
  }

  lemma RemovedEntry(m: map<string, FingerprintRecord>, r: FingerprintRecord)
    requires (forall f | f in m :: m[f].fingerprint == f) && r in m.Values
    ensures (m - {r.fingerprint}).Values == m.Values - {r}
  {
    var m' := m - {r.fingerprint};
    forall f | f in m && f != r.fingerprint ensures m[f] in m'.Values {
      assert f in m';
    }
  }

  lemma {:induction false} DistinctCount<T>(xs: seq<T>)
    requires forall i, j | 0 <= i < j < |xs| :: xs[i] != xs[j]
    ensures |set x | x in xs| == |xs|
  {
    if xs != [] {
      var n := |xs| - 1;
      DistinctCount(xs[..n]);
      assert xs[n] !in xs[..n];
      assert (set x | x in xs) == (set x | x in xs[..n]) + {xs[n]};
    }
  }

  lemma KeptUnderCount(records: seq<FingerprintRecord>, max: int, r: FingerprintRecord)
    requires Placed(records) && Different(records) && r in records
    ensures r in SplitOf(records, Some(max), None).keep.Values <==> |RecordsNewer(records, r)| < AtLeastOne(max)
  {
    DroppedIff(records, Some(max), None, r);
  }

  lemma NewestAre(records: seq<FingerprintRecord>, k: nat)
    requires Placed(records) && k <= |records|
    ensures k <= |NewestFirst(records)| && |SetOf(NewestFirst(records)[..k])| == k
    ensures forall r | r in records :: r in NewestFirst(records)[..k] <==> |RecordsNewer(records, r)| < k
  {
    var newest := NewestFirst(records);
    PlacedOrders(SetOf(records), records);
    PlacedCount(records);
    forall r | r in records ensures r in newest[..k] <==> |RecordsNewer(records, r)| < k {
      AmongFirstIff(SetOf(records), Newer, k, r);
    }
    forall i, j | 0 <= i < j < k ensures newest[..k][i] != newest[..k][j] {
      SortedIsDistinct(SetOf(records), Newer, i, j);
    }
    DistinctCount(newest[..k]);
  }

  /** Under a count limit alone the newest records are kept, as many as the limit says and never none. */
  lemma CountLimitKeeps(records: seq<FingerprintRecord>, max: int)
    requires Placed(records) && Different(records) && records != []
    ensures var keep := SplitOf(records, Some(max), None).keep.Values;
      && |keep| == (if AtLeastOne(max) < |records| then AtLeastOne(max) else |records|)
      && forall r | r in records :: r in keep <==> |RecordsNewer(records, r)| < AtLeastOne(max)
  {
    var keep := SplitOf(records, Some(max), None).keep.Values;
    var k := if AtLeastOne(max) < |records| then AtLeastOne(max) else |records|;
    NewestAre(records, k);
    var chosen := SetOf(NewestFirst(records)[..k]);
    forall r | r in records
      ensures r in keep <==> |RecordsNewer(records, r)| < AtLeastOne(max)
      ensures r in keep <==> r in chosen
    {
      KeptUnderCount(records, max, r);
      RankBelow(records, r);
    }
    forall r ensures r in keep <==> r in chosen {
      if r in chosen {
        assert r in NewestFirst(records);
      }
    }
    assert keep == chosen;
  }

  lemma RankBelow(records: seq<FingerprintRecord>, r: FingerprintRecord)
    requires Placed(records) && r in records
    ensures |RecordsNewer(records, r)| < |records|
  {
    PlacedCount(records);
    var newer := RecordsNewer(records, r);
    SubsetCardinality(newer + {r}, SetOf(records));
    assert r !in newer;
  }

  /**
   Of a record that is kept and one that is dropped by a count limit alone, the dropped one is the older. Without a
   time it is as old as can be.
   */
  lemma DroppedIsOlder(records: seq<FingerprintRecord>, max: int, kept: FingerprintRecord, dropped: FingerprintRecord)
    requires Placed(records) && Different(records) && kept in records && dropped in records
    requires kept in SplitOf(records, Some(max), None).keep.Values
    requires dropped in SplitOf(records, Some(max), None).drop.Values
    ensures var before, after := if dropped.seenAt.Some? then dropped.seenAt.value else 0,
                                 if kept.seenAt.Some? then kept.seenAt.value else 0;
      before < after || (before == after && dropped.index < kept.index)
  {
    KeptUnderCount(records, max, kept);
    KeptUnderCount(records, max, dropped);
    DroppedIff(records, Some(max), None, dropped);
    if Newer(dropped, kept) {
      NewerHasFewer(records, dropped, kept);
    } else {
      PlacedOrders(SetOf(records), records);
      assert kept in SetOf(records) && dropped in SetOf(records);
    }
  }

  lemma NewerHasFewer(records: seq<FingerprintRecord>, a: FingerprintRecord, b: FingerprintRecord)
    requires Placed(records) && a in records && b in records && Newer(a, b)
    ensures |RecordsNewer(records, a)| < |RecordsNewer(records, b)|
  {
    PlacedOrders(SetOf(records), records);
    var above := RecordsNewer(records, a) + {a};
    SubsetCardinality(above, RecordsNewer(records, b));
  }
}
