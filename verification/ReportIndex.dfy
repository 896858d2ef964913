/** The index of generated reports: an append-only log of which readers see the latest record of each report. */
module ReportIndex {
  import opened Wrappers
  import opened Sorting

  datatype IndexRecord = IndexRecord(
    id: string,
    generatedAt: string,
    createdAt: string,
    reportType: string,
    fingerprint: string,
    path: string)
  {
    function SortKey(): (string, string) {
      (if generatedAt != "" then generatedAt else createdAt, id)
    }
  }

  predicate Newer(a: IndexRecord, b: IndexRecord) {
    PairBefore(b.SortKey(), a.SortKey())
  }

  /** The last record of each report, by its id; records without an id are passed over. */
  function Latest(log: seq<IndexRecord>): (latest: map<string, IndexRecord>)
    ensures forall id | id in latest :: latest[id].id == id != ""
  {
    if log == [] then map[]
    else
      var record := log[|log| - 1];
      var before := Latest(log[..|log| - 1]);
      if record.id == "" then before else before[record.id := record]
  }

  ghost predicate ById(latest: map<string, IndexRecord>) {
    forall id | id in latest :: latest[id].id == id != ""
  }

  lemma NewerOrders(latest: map<string, IndexRecord>)
    requires ById(latest)
    ensures Orders(Newer, latest.Values)
  {
    forall a, b | Newer(a, b) ensures !Newer(b, a) {
      PairBeforeIsOrder(b.SortKey(), a.SortKey(), a.SortKey());
    }
    forall a, b, c | Newer(a, b) && Newer(b, c) ensures Newer(a, c) {
      PairBeforeIsOrder(c.SortKey(), b.SortKey(), a.SortKey());
    }
    forall a, b | a in latest.Values && b in latest.Values ensures a == b || Newer(a, b) || Newer(b, a) {
      PairBeforeIsOrder(a.SortKey(), b.SortKey(), b.SortKey());
      assert a.SortKey() == b.SortKey() ==> a.id == b.id;
    }
  }

  /** The latest records, newest first. */
  function RowsOf(latest: map<string, IndexRecord>): seq<IndexRecord>
    requires ById(latest)
  {
    NewerOrders(latest);
    SortedBy(latest.Values, Newer)
  }

  function Reversed<T>(xs: seq<T>): (r: seq<T>)
    ensures |r| == |xs|
  {
    seq(|xs|, i requires 0 <= i < |xs| => xs[|xs| - 1 - i])
  }

  /** The part of the rows a caller asks for. */
  function Page(rows: seq<IndexRecord>, offset: int, limit: Option<int>): seq<IndexRecord> {
    var rest := if offset <= 0 then rows else if offset < |rows| then rows[offset..] else [];
    match limit
    case None => rest
    case Some(n) => if n <= 0 then [] else if n < |rest| then rest[..n] else rest
  }

  class ReportIndexStore {
    var log: seq<IndexRecord>

    constructor (log: seq<IndexRecord>)
      ensures this.log == log
    {
      this.log := log;
    }

    method RegisterReport(record: IndexRecord)
      modifies this
      ensures log == old(log) + [record]
    {
      log := log + [record];
    }

    method Reports(offset: int, limit: Option<int>) returns (rows: seq<IndexRecord>)
      ensures rows == Page(RowsOf(Latest(log)), offset, limit)
    {
      var latest: map<string, IndexRecord> := map[];
      for i := 0 to |log|
        invariant latest == Latest(log[..i])
      {
        assert log[..i + 1][..i] == log[..i];
        if log[i].id != "" {
          latest := latest[log[i].id := log[i]];
        }
      }
      assert log[..|log|] == log;
      rows := Page(RowsOf(latest), offset, limit);
    }

    method Compact() returns (rows: seq<IndexRecord>)
      modifies this
      ensures rows == RowsOf(Latest(old(log))) && log == Compacted(old(log))
    {
      rows := Reports(0, None);
      log := Reversed(rows);
    }
  }

  function Compacted(log: seq<IndexRecord>): seq<IndexRecord> {
    Reversed(RowsOf(Latest(log)))
  }

  lemma {:induction false} LatestOfSum(left: seq<IndexRecord>, right: seq<IndexRecord>)
    ensures Latest(left + right) == Latest(left) + Latest(right)
  {
    if right == [] {
      assert left + right == left;
    } else {
      var n := |right| - 1;
      assert (left + right)[..|left + right| - 1] == left + right[..n];
      LatestOfSum(left, right[..n]);
    }
  }

  lemma {:induction false} LatestOfDistinct(log: seq<IndexRecord>)
    requires forall i, j | 0 <= i < j < |log| :: log[i].id != log[j].id
    requires forall r | r in log :: r.id != ""
    ensures Latest(log).Values == set r | r in log
  {
    if log != [] {
      var n := |log| - 1;
      var record, before := log[n], Latest(log[..n]);
      LatestOfDistinct(log[..n]);
      assert log[n] in log;
      forall id | id in before ensures id != record.id {
        assert before[id] in before.Values;
      }
      assert (set r | r in log) == (set r | r in log[..n]) + {record};
      assert Latest(log).Values == before.Values + {record} by {
        assert Latest(log) == before[record.id := record];
        assert record.id in Latest(log);
        forall id | id in before ensures before[id] in Latest(log).Values {
          assert Latest(log)[id] == before[id];
        }
      }
    }
  }

  /** Two maps by id with the same records are the same map. */
  lemma SameRecordsSameMap(a: map<string, IndexRecord>, b: map<string, IndexRecord>)
    requires ById(a) && ById(b) && a.Values == b.Values
    ensures a == b
  {
    forall id | id in a ensures id in b && a[id] == b[id] {
      assert a[id] in b.Values;
    }
    forall id | id in b ensures id in a {
      assert b[id] in a.Values;
    }
  }

  lemma RowsDistinct(latest: map<string, IndexRecord>, i: nat, j: nat)
    requires ById(latest) && i < j < |RowsOf(latest)|
    ensures RowsOf(latest)[i].id != RowsOf(latest)[j].id
  {
    NewerOrders(latest);
    SortedIsDistinct(latest.Values, Newer, i, j);
    assert RowsOf(latest)[i] in latest.Values && RowsOf(latest)[j] in latest.Values;
  }

  lemma RowsAre(latest: map<string, IndexRecord>)
    requires ById(latest)
    ensures |RowsOf(latest)| == |latest.Values| && forall r :: r in RowsOf(latest) <==> r in latest.Values
  {
    NewerOrders(latest);
  }

  lemma ReversedHolds<T>(xs: seq<T>, x: T)
    ensures x in Reversed(xs) <==> x in xs
  {
    if i :| 0 <= i < |xs| && xs[i] == x {
      assert Reversed(xs)[|xs| - 1 - i] == x;
    }
  }

  lemma CompactedDistinct(log: seq<IndexRecord>, i: nat, j: nat)
    requires i < j < |Compacted(log)|
    ensures Compacted(log)[i].id != Compacted(log)[j].id
  {
    var n := |RowsOf(Latest(log))|;
    RowsDistinct(Latest(log), n - 1 - j, n - 1 - i);
  }

  lemma CompactedAre(log: seq<IndexRecord>)
    ensures |Compacted(log)| == |Latest(log).Values| && (set r | r in Compacted(log)) == Latest(log).Values
  {
    RowsAre(Latest(log));
    forall r ensures r in Compacted(log) <==> r in Latest(log).Values {
      ReversedHolds(RowsOf(Latest(log)), r);
    }
  }

  /** Compaction keeps the latest record of every report, once. */
  lemma CompactKeepsLatest(log: seq<IndexRecord>)
    ensures Latest(Compacted(log)) == Latest(log) && |Compacted(log)| == |Latest(log).Values|
  {
    var compacted := Compacted(log);
    CompactedAre(log);
    forall i, j | 0 <= i < j < |compacted| ensures compacted[i].id != compacted[j].id {
      CompactedDistinct(log, i, j);
    }
    forall r | r in compacted ensures r.id != "" {
      assert r in Latest(log).Values;
    }
    LatestOfDistinct(compacted);
    SameRecordsSameMap(Latest(compacted), Latest(log));
  }

  /** A page is the rows from the offset on, as many as the limit allows and there are. */
  lemma PageIs(rows: seq<IndexRecord>, offset: int, limit: Option<int>)
    ensures var page, from := Page(rows, offset, limit), if offset < 0 then 0 else offset;
      && (|page| > 0 ==> from + |page| <= |rows|)
      && (forall k | 0 <= k < |page| :: from + k < |rows| && page[k] == rows[from + k])
      && (limit.None? ==> |page| == if from < |rows| then |rows| - from else 0)
      && (limit.Some? && limit.value <= 0 ==> page == [])
      && (limit.Some? && limit.value > 0 ==>
          |page| == if from + limit.value <= |rows| then limit.value else if from < |rows| then |rows| - from else 0)
  {
  }

  /** When a report was made: the time of its generation, or else of its creation. */
  function MadeAt(r: IndexRecord): string {
    if r.generatedAt == "" then r.createdAt else r.generatedAt
  }

  /** Rows come newest first, and where the times are equal the greater id first. */
  lemma RowsNewestFirst(latest: map<string, IndexRecord>, i: nat, j: nat)
    requires ById(latest) && i < j < |RowsOf(latest)|
    ensures var first, second := RowsOf(latest)[i], RowsOf(latest)[j];
      Before(MadeAt(second), MadeAt(first)) || (MadeAt(second) == MadeAt(first) && Before(second.id, first.id))
  {
    NewerOrders(latest);
    SortedAscends(latest.Values, Newer, i, j);
  }

  /** The record a reader sees for an id is the last one registered with it. */
  lemma {:induction false} LatestIsLast(log: seq<IndexRecord>, id: string)
    requires id != ""
    ensures id in Latest(log) <==> exists r :: r in log && r.id == id
    ensures id in Latest(log) ==> exists i ::
      0 <= i < |log| && log[i] == Latest(log)[id] && forall j | i < j < |log| :: log[j].id != id
  {
    if log != [] {
      var n := |log| - 1;
      LatestIsLast(log[..n], id);
      assert log == log[..n] + [log[n]];
      if log[n].id == id {
        assert log[n] in log;
      } else if id in Latest(log[..n]) {
        var i :| 0 <= i < n && log[..n][i] == Latest(log[..n])[id] && forall j | i < j < n :: log[..n][j].id != id;
        assert log[i] == Latest(log)[id];
        forall j | i < j < |log| ensures log[j].id != id {
          assert j < n ==> log[j] == log[..n][j];
        }
      }
    }
  }

  /** Readers cannot tell a compacted index from the original, whatever is registered afterwards. */
  lemma CompactionIsInvisible(log: seq<IndexRecord>, more: seq<IndexRecord>)
    ensures RowsOf(Latest(Compacted(log) + more)) == RowsOf(Latest(log + more))
  {
    CompactKeepsLatest(log);
    LatestOfSum(log, more);
    LatestOfSum(Compacted(log), more);
  }
}
