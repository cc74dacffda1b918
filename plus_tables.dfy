/**
 * The downstream (PLUS) side of the reconciliation job: the imported
 * serial-number table `物料扫码-SN库`, the incoming table `物料扫码-库存` and
 * the outgoing table `物料扫码-出库`, each a sequence of rows; the point
 * queries by order code as filters; the delete and the bulk insert of
 * imported rows; and a write transaction that stages its changes on a copy of
 * the imported table and publishes them only when it commits.
 */
module PlusTables {
  import opened Wrappers
  import opened Mes

  /** One row of the imported serial-number table. */
  datatype SnRow = SnRow(orderCode: string, invCode: string, code: string,
                         source: string, enteredBy: string, enteredAt: string)

  /** One row of the incoming or the outgoing table; only the order code and the serial code are read. */
  datatype MovementRow = MovementRow(orderCode: string, code: string)

  /** The three downstream tables at one moment. */
  datatype Tables = Tables(imported: seq<SnRow>, incoming: seq<MovementRow>, outgoing: seq<MovementRow>)

  /** Import source and entered-by written on every reimported row ("robot"). */
  const Robot: string := "机器人"

  /** The imported rows whose order code is `orderCode`, in table order. */
  function RowsFor(rows: seq<SnRow>, orderCode: string): (r: seq<SnRow>)
    ensures |r| <= |rows|
    ensures forall k :: 0 <= k < |r| ==> r[k].orderCode == orderCode
  {
    if rows == [] then []
    else if rows[0].orderCode == orderCode then [rows[0]] + RowsFor(rows[1..], orderCode)
    else RowsFor(rows[1..], orderCode)
  }

  /** The filter keeps exactly the rows of the order code. */
  lemma {:induction false} RowsForMembers(rows: seq<SnRow>, orderCode: string)
    ensures forall row :: row in RowsFor(rows, orderCode) <==> row in rows && row.orderCode == orderCode
  {
    if rows != [] {
      RowsForMembers(rows[1..], orderCode);
      assert rows == [rows[0]] + rows[1..];
    }
  }

  /** The `SN码` column of the rows, in table order. */
  function SnCodes(rows: seq<SnRow>): seq<string>
  {
    seq(|rows|, k requires 0 <= k < |rows| => rows[k].code)
  }

  /** The imported-barcodes query: the serial codes imported against `orderCode`, one per row. */
  function ImportedCodes(rows: seq<SnRow>, orderCode: string): (r: seq<string>)
    ensures |r| == |RowsFor(rows, orderCode)|
  {
    SnCodes(RowsFor(rows, orderCode))
  }

  /** The imported-barcodes query returns exactly the codes of the rows held against the order code. */
  lemma ImportedCodesMembers(rows: seq<SnRow>, orderCode: string)
    ensures forall c :: c in ImportedCodes(rows, orderCode) <==>
              exists row :: row in rows && row.orderCode == orderCode && row.code == c
  {
    var kept := RowsFor(rows, orderCode);
    RowsForMembers(rows, orderCode);
    forall c ensures c in SnCodes(kept) <==> exists row :: row in kept && row.code == c {
      if c in SnCodes(kept) {
        var k :| 0 <= k < |kept| && SnCodes(kept)[k] == c;
        assert kept[k] in kept;
      }
      if exists row :: row in kept && row.code == c {
        var row :| row in kept && row.code == c;
        var k :| 0 <= k < |kept| && kept[k] == row;
        assert SnCodes(kept)[k] == c;
      }
    }
  }

  /** The incoming- and outgoing-barcodes queries: the serial codes held against `orderCode`. */
  function MovementCodes(rows: seq<MovementRow>, orderCode: string): (r: seq<string>)
    ensures |r| <= |rows|
    ensures r == [] <==> forall row :: row in rows ==> row.orderCode != orderCode
  {
    if rows == [] then []
    else if rows[0].orderCode == orderCode then [rows[0].code] + MovementCodes(rows[1..], orderCode)
    else MovementCodes(rows[1..], orderCode)
  }

  /** The movement queries return exactly the codes of the rows held against the order code. */
  lemma {:induction false} MovementCodesMembers(rows: seq<MovementRow>, orderCode: string)
    ensures forall c :: c in MovementCodes(rows, orderCode) <==>
              exists row :: row in rows && row.orderCode == orderCode && row.code == c
  {
    if rows != [] {
      MovementCodesMembers(rows[1..], orderCode);
      assert rows == [rows[0]] + rows[1..];
      forall c | exists row :: row in rows && row.orderCode == orderCode && row.code == c
        ensures c in MovementCodes(rows, orderCode)
      {
        var row :| row in rows && row.orderCode == orderCode && row.code == c;
        if row != rows[0] {
          assert row in rows[1..];
        }
      }
    }
  }

  /**
   * DELETE ... WHERE order code = `orderCode`: no row of that order code is
   * left, and the number of rows removed is the number the order code held.
   */
  function DeleteOrder(rows: seq<SnRow>, orderCode: string): (r: seq<SnRow>)
    ensures forall k :: 0 <= k < |r| ==> r[k].orderCode != orderCode
    ensures |r| + |RowsFor(rows, orderCode)| == |rows|
  {
    if rows == [] then []
    else if rows[0].orderCode == orderCode then DeleteOrder(rows[1..], orderCode)
    else [rows[0]] + DeleteOrder(rows[1..], orderCode)
  }

  /** The delete keeps every row of every other order code. */
  lemma {:induction false} DeleteOrderMembers(rows: seq<SnRow>, orderCode: string)
    ensures forall row :: row in DeleteOrder(rows, orderCode) <==> row in rows && row.orderCode != orderCode
  {
    if rows != [] {
      DeleteOrderMembers(rows[1..], orderCode);
      assert rows == [rows[0]] + rows[1..];
    }
  }

  /** The parameter rows of the bulk insert: one row per barcode, stamped as entered by the robot at `now`. */
  function NewRows(orderCode: string, invCode: string, barcodes: seq<Barcode>, now: string): (rows: seq<SnRow>)
    ensures |rows| == |barcodes|
    ensures forall row :: row in rows ==>
              row.orderCode == orderCode && row.invCode == invCode
              && row.source == Robot && row.enteredBy == Robot && row.enteredAt == now
    ensures forall k :: 0 <= k < |rows| ==> rows[k].code == barcodes[k].code
  {
    seq(|barcodes|, k requires 0 <= k < |barcodes| => SnRow(orderCode, invCode, barcodes[k].code, Robot, Robot, now))
  }

  lemma {:induction false} RowsForAppend(a: seq<SnRow>, b: seq<SnRow>, orderCode: string)
    ensures RowsFor(a + b, orderCode) == RowsFor(a, orderCode) + RowsFor(b, orderCode)
  {
    if a == [] {
      assert a + b == b;
    } else {
      assert (a + b)[0] == a[0] && (a + b)[1..] == a[1..] + b;
      RowsForAppend(a[1..], b, orderCode);
    }
  }

  /** After the delete, the order code holds no row and every other order code keeps its rows, in order. */
  lemma {:induction false} RowsForAfterDelete(rows: seq<SnRow>, orderCode: string, other: string)
    ensures RowsFor(DeleteOrder(rows, orderCode), other) == if other == orderCode then [] else RowsFor(rows, other)
  {
    if rows != [] {
      RowsForAfterDelete(rows[1..], orderCode, other);
      if rows[0].orderCode != orderCode {
        RowsForAppend([rows[0]], DeleteOrder(rows[1..], orderCode), other);
      }
    }
  }

  lemma {:induction false} RowsForNewRows(orderCode: string, invCode: string, barcodes: seq<Barcode>, now: string, other: string)
    ensures RowsFor(NewRows(orderCode, invCode, barcodes, now), other) ==
              if other == orderCode then NewRows(orderCode, invCode, barcodes, now) else []
  {
    if barcodes != [] {
      var rows := NewRows(orderCode, invCode, barcodes, now);
      assert rows[1..] == NewRows(orderCode, invCode, barcodes[1..], now);
      RowsForNewRows(orderCode, invCode, barcodes[1..], now, other);
    }
  }

  /**
   * Delete followed by insert replaces the order code's rows by exactly the
   * new rows, in barcode order, and leaves every other order code's rows alone.
   */
  lemma ReplaceOrder(rows: seq<SnRow>, orderCode: string, invCode: string, barcodes: seq<Barcode>, now: string, other: string)
    ensures var after := DeleteOrder(rows, orderCode) + NewRows(orderCode, invCode, barcodes, now);
              && RowsFor(after, orderCode) == NewRows(orderCode, invCode, barcodes, now)
              && ImportedCodes(after, orderCode) == BarcodeCodes(barcodes)
              && (other != orderCode ==> RowsFor(after, other) == RowsFor(rows, other))
  {
    var added := NewRows(orderCode, invCode, barcodes, now);
    RowsForAppend(DeleteOrder(rows, orderCode), added, orderCode);
    RowsForAfterDelete(rows, orderCode, orderCode);
    RowsForNewRows(orderCode, invCode, barcodes, now, orderCode);
    RowsForAppend(DeleteOrder(rows, orderCode), added, other);
    RowsForAfterDelete(rows, orderCode, other);
    RowsForNewRows(orderCode, invCode, barcodes, now, other);
    assert [] + added == added;
  }

  /** The errors opening the transaction connection, writing on it or committing it can raise. */
  datatype WriteError = ConnectError | DeleteError | InsertError | CommitError

  /** The downstream database: the three tables, read by the job's autocommit connection. */
  class Database {
    var imported: seq<SnRow>
    var incoming: seq<MovementRow>
    var outgoing: seq<MovementRow>

    constructor (imported: seq<SnRow>, incoming: seq<MovementRow>, outgoing: seq<MovementRow>)
      ensures this.imported == imported && this.incoming == incoming && this.outgoing == outgoing
    {
      this.imported := imported;
      this.incoming := incoming;
      this.outgoing := outgoing;
    }

    function State(): Tables
      reads this
    {
      Tables(imported, incoming, outgoing)
    }
  }

  /**
   * A write transaction on a separate, non-autocommit connection. Its writes go
   * to `staged`, a copy of the imported table taken when it begins; the
   * database sees them only when `Commit` assigns the copy back. Dropping the
   * transaction without committing is the rollback.
   */
  class Transaction {
    const db: Database
    var staged: seq<SnRow>

    constructor Begin(db: Database)
      ensures this.db == db && staged == db.imported
    {
      this.db := db;
      staged := db.imported;
    }

    /** Deletes every staged row of the order code and returns how many there were; `fails` models a database error. */
    method Delete(orderCode: string, fails: bool) returns (r: Result<nat, WriteError>)
      modifies this
      ensures r == if fails then Failure(DeleteError) else Success(|RowsFor(old(staged), orderCode)|)
      ensures staged == if fails then old(staged) else DeleteOrder(old(staged), orderCode)
    {
      if fails {
        return Failure(DeleteError);
      }
      var count := |RowsFor(staged, orderCode)|;
      staged := DeleteOrder(staged, orderCode);
      r := Success(count);
    }

    /**
     * Appends one staged row per barcode and returns the cursor's row count;
     * `fails` models a database error. With no parameter rows the bulk insert
     * executes nothing and the row count keeps its initial value -1.
     */
    method Insert(orderCode: string, invCode: string, barcodes: seq<Barcode>, now: string, fails: bool)
      returns (r: Result<int, WriteError>)
      modifies this
      ensures r == if fails then Failure(InsertError) else Success(if barcodes == [] then -1 else |barcodes|)
      ensures staged == if fails then old(staged) else old(staged) + NewRows(orderCode, invCode, barcodes, now)
    {
      if fails {
        return Failure(InsertError);
      }
      var params := NewRows(orderCode, invCode, barcodes, now);
      if params == [] {
        return Success(-1);
      }
      staged := staged + params;
      r := Success(|params|);
    }

    /**
     * Publishes the staged imported table; the other two tables are not
     * touched. `fails` models a database error, which publishes nothing.
     */
    method Commit(fails: bool) returns (r: Result<(), WriteError>)
      modifies db`imported
      ensures r == if fails then Failure(CommitError) else Success(())
      ensures db.imported == if fails then old(db.imported) else staged
    {
      if fails {
        return Failure(CommitError);
      }
      db.imported := staged;
      r := Success(());
    }
  }
}
