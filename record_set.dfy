/** The change batch built from the device table (create_record_set). */
module RecordSet {

  /** One row of the device table; the columns Company, Gateway, url and
      ipaddress.  A cell that is absent reads as the empty string. */
  datatype DeviceRow = DeviceRow(company: string, gateway: string, url: string, ipaddress: string)

  datatype ResourceRecord = ResourceRecord(value: string)

  datatype ResourceRecordSet = ResourceRecordSet(
    resourceRecords: seq<ResourceRecord>, recordType: string, name: string, ttl: nat)

  datatype Change = Change(action: string, recordSet: ResourceRecordSet)

  datatype ChangeBatch = ChangeBatch(changes: seq<Change>, comment: string)

  const Upsert := "UPSERT"
  /** An IPv4 host address record (RFC 1035, section 3.2.2). */
  const TypeA := "A"
  const RecordTtl := 300
  const BatchComment := "Upserting all device aliases"

  /** `x['url'] and x['ipaddress']`: both cells non-empty. */
  predicate Complete(row: DeviceRow)
  {
    row.url != [] && row.ipaddress != []
  }

  /** The rows that get a change, in table order. */
  function Included(rows: seq<DeviceRow>): (inc: seq<DeviceRow>)
    ensures |inc| <= |rows|
    ensures forall row :: row in inc <==> row in rows && Complete(row)
  {
    if rows == [] then []
    else
      var last := rows[|rows| - 1];
      assert rows == rows[..|rows| - 1] + [last];
      Included(rows[..|rows| - 1]) + if Complete(last) then [last] else []
  }

  /** The UPSERT change built for one row. */
  function ChangeFor(row: DeviceRow, urlBase: string): Change
  {
    Change(Upsert, ResourceRecordSet([ResourceRecord(row.ipaddress)], TypeA, row.url + urlBase, RecordTtl))
  }

  /** What a change for `row` must look like. */
  predicate UpsertsRow(c: Change, row: DeviceRow, urlBase: string)
  {
    && c.action == Upsert
    && c.recordSet.recordType == TypeA
    && c.recordSet.ttl == RecordTtl
    && c.recordSet.resourceRecords == [ResourceRecord(row.ipaddress)]
    && c.recordSet.name == row.url + urlBase
  }

  function ChangesFor(inc: seq<DeviceRow>, urlBase: string): (cs: seq<Change>)
    ensures |cs| == |inc|
    ensures forall k :: 0 <= k < |cs| ==> cs[k] == ChangeFor(inc[k], urlBase)
  {
    seq(|inc|, k requires 0 <= k < |inc| => ChangeFor(inc[k], urlBase))
  }

  /** The batch create_record_set returns: one change per complete row, in row
      order, under the fixed comment. */
  function RecordSetFor(rows: seq<DeviceRow>, urlBase: string): (batch: ChangeBatch)
    ensures batch.comment == BatchComment
    ensures |batch.changes| == |Included(rows)|
    ensures forall k :: 0 <= k < |batch.changes| ==> UpsertsRow(batch.changes[k], Included(rows)[k], urlBase)
  {
    ChangeBatch(ChangesFor(Included(rows), urlBase), BatchComment)
  }

  /** The loop of create_record_set: append one change per complete row. */
  method CreateRecordSet(rows: seq<DeviceRow>, urlBase: string) returns (batch: ChangeBatch)
    ensures batch == RecordSetFor(rows, urlBase)
  {
    var changes: seq<Change> := [];
    var i := 0;
    while i < |rows|
      invariant 0 <= i <= |rows|
      invariant changes == ChangesFor(Included(rows[..i]), urlBase)
    {
      var x := rows[i];
      assert rows[..i + 1][..i] == rows[..i];
      if x.url != [] && x.ipaddress != [] {
        changes := changes + [ChangeFor(x, urlBase)];
      }
      i := i + 1;
    }
    assert rows[..i] == rows;
    batch := ChangeBatch(changes, BatchComment);
  }

  /** Row order is kept: the rows included from a table are those included from
      its first part followed by those included from the rest. */
  lemma {:induction false} IncludedConcat(a: seq<DeviceRow>, b: seq<DeviceRow>)
    ensures Included(a + b) == Included(a) + Included(b)
    decreases |b|
  {
    if b == [] {
      assert a + b == a;
    } else {
      var last := b[|b| - 1];
      assert (a + b)[..|a + b| - 1] == a + b[..|b| - 1];
      IncludedConcat(a, b[..|b| - 1]);
    }
  }

  /** Positions of the complete rows. */
  function CompleteIndices(rows: seq<DeviceRow>): set<nat>
  {
    set i: nat | i < |rows| && Complete(rows[i])
  }

  /** Extending a table by one row adds that row's position to the complete
      positions exactly when the row is complete. */
  lemma CompleteIndicesStep(rows: seq<DeviceRow>)
    requires rows != []
    ensures var n := |rows| - 1;
      && n !in CompleteIndices(rows[..n])
      && CompleteIndices(rows) == CompleteIndices(rows[..n]) + if Complete(rows[n]) then {n} else {}
  {
    var n := |rows| - 1;
    var init := rows[..n];
    var added := if Complete(rows[n]) then {n} else {};
    forall j: nat | j < |rows|
      ensures j in CompleteIndices(rows) <==> j in CompleteIndices(init) + added
    {
      if j < n {
        assert rows[j] == init[j];
      }
    }
  }

  /** As many rows are kept as there are complete positions. */
  lemma {:induction false} IncludedCount(rows: seq<DeviceRow>)
    ensures |Included(rows)| == |CompleteIndices(rows)|
    decreases |rows|
  {
    if rows != [] {
      var n := |rows| - 1;
      IncludedCount(rows[..n]);
      CompleteIndicesStep(rows);
    }
  }

  /** One change per complete row: the batch is exactly as long as there are
      complete rows in the table. */
  lemma ChangeCountIsCompleteRowCount(rows: seq<DeviceRow>, urlBase: string)
    ensures |RecordSetFor(rows, urlBase).changes| == |CompleteIndices(rows)|
  {
    IncludedCount(rows);
  }

  /** A row gets a change in the batch (an UPSERT carrying its name and its
      address) exactly when both its url and its ipaddress are non-empty. */
  lemma ChangeIffComplete(rows: seq<DeviceRow>, urlBase: string, i: nat)
    requires i < |rows|
    ensures Complete(rows[i]) <==>
      exists k :: 0 <= k < |RecordSetFor(rows, urlBase).changes| && UpsertsRow(RecordSetFor(rows, urlBase).changes[k], rows[i], urlBase)
  {
    var batch := RecordSetFor(rows, urlBase);
    var inc := Included(rows);
    var row := rows[i];
    if Complete(row) {
      assert row in inc;
      var k :| 0 <= k < |inc| && inc[k] == row;
      assert UpsertsRow(batch.changes[k], row, urlBase);
    }
    forall k | 0 <= k < |batch.changes| && UpsertsRow(batch.changes[k], row, urlBase)
      ensures Complete(row)
    {
      var other := inc[k];
      assert UpsertsRow(batch.changes[k], other, urlBase);
      assert other in inc;
      assert other.url + urlBase == row.url + urlBase;
      assert other.url == (other.url + urlBase)[..|other.url|];
      assert row.url == (row.url + urlBase)[..|row.url|];
      assert [ResourceRecord(other.ipaddress)] == [ResourceRecord(row.ipaddress)];
    }
  }

  /** A row with an empty ipaddress is dropped from a two-row table. */
  lemma RecordSetExample()
    ensures
      var batch := RecordSetFor([DeviceRow("", "", "dev1", "10.0.0.1"), DeviceRow("", "", "dev2", "")], ".lan");
      |batch.changes| == 1 && batch.changes[0].recordSet.name == "dev1.lan"
  {
    var rows := [DeviceRow("", "", "dev1", "10.0.0.1"), DeviceRow("", "", "dev2", "")];
    assert rows[..1] == [rows[0]];
    assert Included(rows) == [rows[0]];
    assert "dev1" + ".lan" == "dev1.lan";
  }
}
