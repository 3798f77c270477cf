/**
 * The importer that fills the service directory (portscanner/parser.go):
 * it reads the IANA service-name CSV, skips the header row and every record
 * whose service name or port number is empty, and appends one row per
 * remaining record to the `services` table. CSV decoding and SQLite access
 * are abstracted: the records arrive as a sequence of string fields and the
 * table is a sequence of rows.
 */
module ServiceImport {

  /** One row of the `services` table; every column is TEXT. */
  datatype Row = Row(serviceName: string, portNumber: string, transportProtocol: string)

  /** One CSV record: its fields in column order. */
  type Record = seq<string>

  /** Every record carries the three columns the importer reads. */
  predicate WellFormed(data: seq<Record>) {
    forall i | 0 <= i < |data| :: |data[i]| >= 3
  }

  /** A record is imported unless its service name or port number is empty. */
  predicate Kept(record: Record)
    requires |record| >= 3
  {
    record[0] != "" && record[1] != ""
  }

  /** The row a record becomes: its first three fields. */
  function RowOf(record: Record): Row
    requires |record| >= 3
  {
    Row(record[0], record[1], record[2])
  }

  /**
   * The position of the first record with fewer than three fields, or the
   * number of records when every record has at least three.
   */
  function FirstShort(data: seq<Record>): (n: nat)
    ensures n <= |data|
    ensures WellFormed(data[..n])
    ensures n < |data| ==> |data[n]| < 3
    ensures forall i | 0 <= i < |data| && |data[i]| < 3 :: n <= i
    ensures n == |data| <==> WellFormed(data)
  {
    if data == [] then 0
    else if |data[0]| < 3 then 0
    else
      var k := FirstShort(data[1..]);
      assert data[..k + 1] == [data[0]] + data[1..][..k];
      k + 1
  }

  /** The rows the import loop appends for the given data records, in order. */
  function ImportedRows(data: seq<Record>): (rows: seq<Row>)
    requires WellFormed(data)
    ensures |rows| <= |data|
    ensures forall k | 0 <= k < |rows| :: rows[k].serviceName != "" && rows[k].portNumber != ""
  {
    if data == [] then []
    else
      var last := data[|data| - 1];
      ImportedRows(data[..|data| - 1]) + (if Kept(last) then [RowOf(last)] else [])
  }

  /** One more record adds its row when it is kept, and nothing otherwise. */
  lemma ImportStep(data: seq<Record>, i: int)
    requires 0 <= i < |data| && WellFormed(data[..i]) && |data[i]| >= 3
    ensures WellFormed(data[..i + 1])
    ensures ImportedRows(data[..i + 1]) == ImportedRows(data[..i]) + (if Kept(data[i]) then [RowOf(data[i])] else [])
  {
    assert data[..i + 1] == data[..i] + [data[i]];
    assert data[..i + 1][..i] == data[..i];
  }

  /** Importing two batches one after the other appends their rows in that order. */
  lemma {:induction false} ImportedRowsAppend(a: seq<Record>, b: seq<Record>)
    requires WellFormed(a) && WellFormed(b)
    ensures WellFormed(a + b)
    ensures ImportedRows(a + b) == ImportedRows(a) + ImportedRows(b)
    decreases |b|
  {
    if b != [] {
      var b' := b[..|b| - 1];
      assert (a + b)[..|a + b| - 1] == a + b';
      ImportedRowsAppend(a, b');
    } else {
      assert a + b == a;
    }
  }

  /**
   * A kept record's row comes right after the rows of the records before it,
   * which open the table unchanged.
   */
  lemma ImportedRowsAt(data: seq<Record>, i: int)
    requires WellFormed(data)
    requires 0 <= i < |data| && Kept(data[i])
    ensures WellFormed(data[..i])
    ensures var rows, pre := ImportedRows(data), ImportedRows(data[..i]);
      |pre| < |rows| && rows[|pre|] == RowOf(data[i]) && pre == rows[..|pre|]
  {
    var before, tail := data[..i], data[i + 1..];
    assert data == before + ([data[i]] + tail);
    assert ImportedRows([data[i]]) == [RowOf(data[i])] by {
      assert [data[i]][..0] == [];
    }
    ImportedRowsAppend([data[i]], tail);
    ImportedRowsAppend(before, [data[i]] + tail);
  }

  /** Every imported row comes from a kept record, so its name and port are non-empty. */
  lemma {:induction false} ImportedRowsSound(data: seq<Record>, row: Row)
    requires WellFormed(data)
    requires row in ImportedRows(data)
    ensures exists i | 0 <= i < |data| :: Kept(data[i]) && RowOf(data[i]) == row
    ensures row.serviceName != "" && row.portNumber != ""
    decreases |data|
  {
    var init := data[..|data| - 1];
    var last := data[|data| - 1];
    if row in ImportedRows(init) {
      ImportedRowsSound(init, row);
      var i :| 0 <= i < |init| && Kept(init[i]) && RowOf(init[i]) == row;
      assert data[i] == init[i];
    } else {
      assert Kept(last) && row == RowOf(last);
    }
  }

  /** Every kept record is imported. */
  lemma {:induction false} ImportedRowsComplete(data: seq<Record>, i: int)
    requires WellFormed(data)
    requires 0 <= i < |data| && Kept(data[i])
    ensures RowOf(data[i]) in ImportedRows(data)
    decreases |data|
  {
    var init := data[..|data| - 1];
    if i < |data| - 1 {
      assert init[i] == data[i];
      ImportedRowsComplete(init, i);
    }
  }

  /** The persistent `services` table. */
  class ServicesTable {
    var rows: seq<Row>

    /** A fresh database: `CREATE TABLE IF NOT EXISTS` creates an empty table. */
    constructor ()
      ensures rows == []
    {
      rows := [];
    }

    /** `INSERT INTO services ... VALUES (?, ?, ?)`: appends one row. */
    method Insert(serviceName: string, portNumber: string, transportProtocol: string)
      modifies this
      ensures rows == old(rows) + [Row(serviceName, portNumber, transportProtocol)]
    {
      rows := rows + [Row(serviceName, portNumber, transportProtocol)];
    }

    /**
     * The import loop. `records[0]` is the header and is skipped; so is any
     * record with an empty service name or port number; the others are
     * appended in order. Rows already in the table are kept, so a second run
     * appends duplicates. Slicing off the header of an empty file, or reading
     * the third field of a shorter record, panics: the result is then false
     * and the rows inserted before the panic stay in the table.
     */
    method ImportRecords(records: seq<Record>) returns (completed: bool)
      modifies this
      ensures records == [] ==> !completed && rows == old(rows)
      ensures records != [] ==>
        var n := FirstShort(records[1..]);
        rows == old(rows) + ImportedRows(records[1..][..n]) && (completed <==> n == |records| - 1)
    {
      if records == [] {
        return false;
      }
      var data := records[1..];
      ghost var n := FirstShort(data);
      for i := 0 to |data|
        invariant i <= n && WellFormed(data[..i])
        invariant rows == old(rows) + ImportedRows(data[..i])
      {
        var record := data[i];
        if |record| < 3 {
          assert records[1..][..n] == data[..i];
          return false;
        }
        ImportStep(data, i);
        var serviceName := record[0];
        var portNumber := record[1];
        var transportProtocol := record[2];
        if serviceName == "" || portNumber == "" {
          continue;
        }
        Insert(serviceName, portNumber, transportProtocol);
      }
      assert records[1..][..n] == data;
      return true;
    }
  }
}
