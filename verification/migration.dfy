/**
 * The one-off migration that moves every stored health-points record to the
 * 12-point ceiling (responses-api-server/migrate_health_points.py). The table
 * is the sequence of records the query returns; the database failure that
 * the script catches is the parameter `commitSucceeds`.
 */
module Migration {
  import opened HealthPoints

  /** The ceiling the migration installs. */
  const TargetMax: int := 12

  /** What the loop body does to one record. */
  function MigrateRecord(r: Record): (r': Record)
    ensures r'.maxPoints == TargetMax
    ensures r.maxPoints == TargetMax ==> r' == r
    ensures r.maxPoints != TargetMax ==>
      && r'.current == (if r.current > TargetMax then TargetMax else r.current)
      && r'.lastQueryAt == r.lastQueryAt && r'.lastRegenAt == r.lastRegenAt
    ensures Valid(r) ==> Valid(r')
  {
    if r.maxPoints != TargetMax then
      r.(maxPoints := TargetMax, current := if r.current > TargetMax then TargetMax else r.current)
    else r
  }

  /** Number of records whose ceiling is not yet 12, counted over a prefix-closed definition. */
  function CountNeedingUpdate(records: seq<Record>): nat {
    if records == [] then 0
    else CountNeedingUpdate(records[..|records| - 1]) + (if records[|records| - 1].maxPoints != TargetMax then 1 else 0)
  }

  /** The count is exactly the number of positions whose ceiling differs from 12. */
  lemma {:induction false} CountNeedingUpdateIsCardinality(records: seq<Record>)
    ensures CountNeedingUpdate(records) == |set i | 0 <= i < |records| && records[i].maxPoints != TargetMax|
  {
    if records != [] {
      var n := |records| - 1;
      var front := records[..n];
      CountNeedingUpdateIsCardinality(front);
      var a := set i | 0 <= i < |front| && front[i].maxPoints != TargetMax;
      var b := set i | 0 <= i < |records| && records[i].maxPoints != TargetMax;
      if records[n].maxPoints != TargetMax {
        assert b == a + {n};
      } else {
        assert b == a;
      }
    }
  }

  /**
   * `migrate_health_points()`: the records as stored afterwards, the number of
   * users updated, and the returned success flag. A failed commit rolls back
   * to the original records and reports False.
   */
  method MigrateHealthPoints(records: seq<Record>, commitSucceeds: bool)
      returns (stored: seq<Record>, updatedCount: nat, success: bool)
    ensures success == commitSucceeds
    ensures !success ==> stored == records
    ensures success ==> |stored| == |records|
    ensures success ==> forall i :: 0 <= i < |stored| ==> stored[i].maxPoints == TargetMax
    ensures success ==> forall i :: 0 <= i < |records| && records[i].maxPoints == TargetMax ==> stored[i] == records[i]
    ensures success ==> forall i :: 0 <= i < |records| && records[i].maxPoints != TargetMax ==>
      stored[i].current == (if records[i].current > TargetMax then TargetMax else records[i].current)
    ensures success ==> forall i :: 0 <= i < |records| && Valid(records[i]) ==> Valid(stored[i])
    ensures updatedCount == CountNeedingUpdate(records)
  {
    var migrated: seq<Record> := [];
    updatedCount := 0;
    var i := 0;
    while i < |records|
      invariant 0 <= i <= |records|
      invariant |migrated| == i
      invariant forall j :: 0 <= j < i ==> migrated[j] == MigrateRecord(records[j])
      invariant updatedCount == CountNeedingUpdate(records[..i])
    {
      assert records[..i + 1][..i] == records[..i];
      if records[i].maxPoints != TargetMax {
        updatedCount := updatedCount + 1;
      }
      migrated := migrated + [MigrateRecord(records[i])];
      i := i + 1;
    }
    assert records[..i] == records;
    if commitSucceeds {
      stored, success := migrated, true;
    } else {
      stored, success := records, false;
    }
  }

  /** Running the migration a second time changes nothing and updates no one. */
  lemma MigrateRecordIdempotent(r: Record)
    ensures MigrateRecord(MigrateRecord(r)) == MigrateRecord(r)
  {
  }
}
