/**
 * The reconciliation loop of the serial-number job. For every recently
 * updated MES batch it extracts the order code, compares the batch's barcodes
 * with the codes PLUS has imported for that order, and passes three guards in
 * turn (count mismatch, equal code sets, inventory movement). A batch that
 * survives them is reimported in a write transaction: every imported row of
 * the order code is deleted, one row per MES barcode is inserted, and the
 * transaction commits. A failure while connecting, deleting, inserting or
 * committing leaves the imported table as it was and ends the run.
 *
 * `Step` and `RunSpec` are the specification; `ProcessBatch` and `RunBatches`
 * are the loop over the `Database` object and are proved against them.
 */
module Reconcile {
  import opened Wrappers
  import opened Mes
  import opened OrderCode
  import opened PlusTables

  /**
   * Everything the job learns about one batch from outside: the batch record,
   * its non-deleted barcodes, the wall-clock time the insert stamps, and
   * the error the database raises while connecting, deleting, inserting or
   * committing, if any (the database errors are not under the job's control).
   */
  datatype BatchInput = BatchInput(batch: Batch, barcodes: seq<Barcode>, now: string, fault: Option<WriteError>)

  /** How a batch ended when no exception was raised. */
  datatype Outcome = CountMismatch | SameCodes | MovementLocked | Reimported(deleted: nat, inserted: nat)

  /** The state after a run: the tables, the outcome of every batch finished, and the error that ended it early. */
  datatype RunResult = RunResult(tables: Tables, outcomes: seq<Outcome>, failure: Option<WriteError>)

  /**
   * The collection as a set, as Python's `set(...)` builds it: order and
   * duplicates are forgotten, so the set never has more elements than the list.
   */
  function CodeSet(codes: seq<string>): (s: set<string>)
    ensures |s| <= |codes|
  {
    SetOfListBound(codes);
    set c | c in codes
  }

  lemma {:induction false} SetOfListBound(codes: seq<string>)
    ensures |set c | c in codes| <= |codes|
  {
    if codes != [] {
      SetOfListBound(codes[1..]);
      assert (set c | c in codes) == {codes[0]} + (set c | c in codes[1..]);
    }
  }

  function OrderOf(input: BatchInput): string
  {
    ExtractOrderNumber(input.batch.orderCode)
  }

  /** Some incoming or outgoing row is held against the order code. */
  predicate Moved(t: Tables, orderCode: string)
  {
    MovementCodes(t.incoming, orderCode) != [] || MovementCodes(t.outgoing, orderCode) != []
  }

  /** All three guards let the batch through to the write transaction. */
  predicate PassesGuards(t: Tables, input: BatchInput)
  {
    var mes := BarcodeCodes(input.barcodes);
    var plus := ImportedCodes(t.imported, OrderOf(input));
    |mes| == |plus| && CodeSet(mes) != CodeSet(plus) && !Moved(t, OrderOf(input))
  }

  /** The tables after a committed reimport of the batch. */
  function Replaced(t: Tables, input: BatchInput): Tables
  {
    var oc := OrderOf(input);
    t.(imported := DeleteOrder(t.imported, oc) + NewRows(oc, input.batch.invCode, input.barcodes, input.now))
  }

  /** One pass of the loop body over one batch: its outcome and the tables after it, or the error it raised. */
  function Step(t: Tables, input: BatchInput): (r: Result<(Outcome, Tables), WriteError>)
    ensures r.Failure? ==> input.fault == Some(r.error)
    ensures r.Success? ==> r.value.1.incoming == t.incoming && r.value.1.outgoing == t.outgoing
    ensures r.Success? && !r.value.0.Reimported? ==> r.value.1 == t
  {
    var oc := OrderOf(input);
    var mes := BarcodeCodes(input.barcodes);
    var plus := ImportedCodes(t.imported, oc);
    if |mes| != |plus| then Success((CountMismatch, t))
    else if CodeSet(mes) == CodeSet(plus) then Success((SameCodes, t))
    else if Moved(t, oc) then Success((MovementLocked, t))
    else if input.fault.Some? then Failure(input.fault.value)
    else Success((Reimported(|RowsFor(t.imported, oc)|, |input.barcodes|), Replaced(t, input)))
  }

  /** The whole loop: batches in the given order, stopping at the first error. */
  function RunSpec(t: Tables, inputs: seq<BatchInput>): (r: RunResult)
    ensures |r.outcomes| <= |inputs|
    ensures r.failure.None? ==> |r.outcomes| == |inputs|
    decreases |inputs|
  {
    if inputs == [] then RunResult(t, [], None)
    else match Step(t, inputs[0])
      case Failure(e) => RunResult(t, [], Some(e))
      case Success(step) =>
        var rest := RunSpec(step.1, inputs[1..]);
        RunResult(rest.tables, [step.0] + rest.outcomes, rest.failure)
  }

  /** Count guard: different numbers of MES and PLUS codes skip the batch and change no table. */
  lemma CountGuard(t: Tables, input: BatchInput)
    requires |input.barcodes| != |ImportedCodes(t.imported, OrderOf(input))|
    ensures Step(t, input) == Success((CountMismatch, t))
  {
  }

  /** Equality guard: equal counts and equal code sets skip the batch and change no table. */
  lemma EqualityGuard(t: Tables, input: BatchInput)
    requires |input.barcodes| == |ImportedCodes(t.imported, OrderOf(input))|
    requires CodeSet(BarcodeCodes(input.barcodes)) == CodeSet(ImportedCodes(t.imported, OrderOf(input)))
    ensures Step(t, input) == Success((SameCodes, t))
  {
  }

  /**
   * Movement lock: once an incoming or outgoing row exists for the order
   * code, the batch changes no table whatever the code sets are, and when the
   * first two guards let it through it is reported as locked.
   */
  lemma MovementLock(t: Tables, input: BatchInput)
    requires (exists row :: row in t.incoming && row.orderCode == OrderOf(input))
          || (exists row :: row in t.outgoing && row.orderCode == OrderOf(input))
    ensures Step(t, input).Success? && Step(t, input).value.1 == t
    ensures (|input.barcodes| == |ImportedCodes(t.imported, OrderOf(input))|
               && CodeSet(BarcodeCodes(input.barcodes)) != CodeSet(ImportedCodes(t.imported, OrderOf(input))))
              ==> Step(t, input).value.0 == MovementLocked
  {
    assert Moved(t, OrderOf(input));
  }

  /** A batch writes exactly when it passes the three guards, and then it commits exactly when no write raises. */
  lemma WritesOnlyWhenSafe(t: Tables, input: BatchInput)
    ensures Step(t, input).Failure? <==> PassesGuards(t, input) && input.fault.Some?
    ensures (Step(t, input).Success? && Step(t, input).value.0.Reimported?) <==>
              PassesGuards(t, input) && input.fault.None?
    ensures !(PassesGuards(t, input) && input.fault.None?) ==>
              Step(t, input).Failure? || Step(t, input).value.1 == t
  {
  }

  /** A batch that reports a reimport passed every guard, raised nothing, and left the replaced tables. */
  lemma ReimportedStep(t: Tables, input: BatchInput)
    requires Step(t, input).Success? && Step(t, input).value.0.Reimported?
    ensures PassesGuards(t, input) && input.fault.None?
    ensures Step(t, input).value ==
              (Reimported(|RowsFor(t.imported, OrderOf(input))|, |input.barcodes|), Replaced(t, input))
  {
  }

  /**
   * A reimported batch has at least one barcode: with none, PLUS must hold none
   * either and the equality guard skips. So the insert's row count of -1 for an
   * empty parameter list never reaches a reimport outcome.
   */
  lemma ReimportHasBarcodes(t: Tables, input: BatchInput)
    requires Step(t, input).Success? && Step(t, input).value.0.Reimported?
    ensures |input.barcodes| > 0 && Step(t, input).value.0.inserted == |input.barcodes|
  {
    ReimportedStep(t, input);
  }

  /**
   * Full replace: after a committed reimport the order code holds exactly one
   * robot-entered row per MES barcode, in MES order; the counts reported are
   * the rows the order code held before and the barcodes inserted; other
   * order codes and the incoming and outgoing tables are unchanged.
   */
  lemma FullReplace(t: Tables, input: BatchInput, other: string)
    requires Step(t, input).Success? && Step(t, input).value.0.Reimported?
    ensures var oc := OrderOf(input);
            var (o, after) := Step(t, input).value;
              && RowsFor(after.imported, oc) == NewRows(oc, input.batch.invCode, input.barcodes, input.now)
              && (forall k :: 0 <= k < |input.barcodes| ==>
                    RowsFor(after.imported, oc)[k] ==
                      SnRow(oc, input.batch.invCode, input.barcodes[k].code, Robot, Robot, input.now))
              && ImportedCodes(after.imported, oc) == BarcodeCodes(input.barcodes)
              && o.inserted == |input.barcodes|
              && o.deleted == |RowsFor(t.imported, oc)|
              && (other != oc ==> RowsFor(after.imported, other) == RowsFor(t.imported, other))
              && after.incoming == t.incoming && after.outgoing == t.outgoing
  {
    ReimportedStep(t, input);
    ReplaceOrder(t.imported, OrderOf(input), input.batch.invCode, input.barcodes, input.now, other);
  }

  /**
   * Idempotence: the same batch run again right after a committed reimport is
   * skipped by the equality guard, whatever the new time and faults.
   */
  lemma RerunIsSkipped(t: Tables, input: BatchInput, again: BatchInput)
    requires Step(t, input).Success? && Step(t, input).value.0.Reimported?
    requires again.batch == input.batch && again.barcodes == input.barcodes
    ensures Step(Step(t, input).value.1, again) == Success((SameCodes, Step(t, input).value.1))
  {
    ReimportedStep(t, input);
    var after := Replaced(t, input);
    ReplaceOrder(t.imported, OrderOf(input), input.batch.invCode, input.barcodes, input.now, OrderOf(input));
    assert ImportedCodes(after.imported, OrderOf(again)) == BarcodeCodes(again.barcodes);
  }

  /**
   * A run ends either after every batch or at the first batch whose write
   * raised; in the second case the tables are exactly those the failing batch
   * started from (its transaction was never committed) and no later batch ran.
   */
  lemma {:induction false} RunStopsAtFailure(t: Tables, inputs: seq<BatchInput>)
    ensures var r := RunSpec(t, inputs);
              && |r.outcomes| <= |inputs|
              && (r.failure.None? ==> |r.outcomes| == |inputs|)
              && (r.failure.Some? ==>
                    |r.outcomes| < |inputs| && Step(r.tables, inputs[|r.outcomes|]) == Failure(r.failure.value))
    decreases |inputs|
  {
    if inputs != [] {
      var s := Step(t, inputs[0]);
      RunSpecCons(t, inputs, s);
      if s.Success? {
        RunStopsAtFailure(s.value.1, inputs[1..]);
        var rest := RunSpec(s.value.1, inputs[1..]);
        if rest.failure.Some? {
          assert inputs[|rest.outcomes| + 1] == inputs[1..][|rest.outcomes|];
        }
      }
    }
  }

  /** The job never writes the incoming and outgoing tables. */
  lemma {:induction false} RunKeepsMovementTables(t: Tables, inputs: seq<BatchInput>)
    ensures RunSpec(t, inputs).tables.incoming == t.incoming
    ensures RunSpec(t, inputs).tables.outgoing == t.outgoing
    decreases |inputs|
  {
    if inputs != [] {
      match Step(t, inputs[0])
      case Failure(e) =>
      case Success(step) =>
        RunKeepsMovementTables(step.1, inputs[1..]);
    }
  }

  /** A batch leaves the imported rows of every other order code as they were. */
  lemma StepFrame(t: Tables, input: BatchInput, other: string)
    requires Step(t, input).Success?
    requires OrderOf(input) != other
    ensures RowsFor(Step(t, input).value.1.imported, other) == RowsFor(t.imported, other)
  {
    if Step(t, input).value.0.Reimported? {
      FullReplace(t, input, other);
    }
  }

  /**
   * A run touches only order codes of batches it reimported: the imported
   * rows of an order code that no batch of the run maps to are unchanged.
   */
  lemma {:induction false} RunFrame(t: Tables, inputs: seq<BatchInput>, other: string)
    requires forall k :: 0 <= k < |inputs| ==> OrderOf(inputs[k]) != other
    ensures RowsFor(RunSpec(t, inputs).tables.imported, other) == RowsFor(t.imported, other)
    decreases |inputs|
  {
    if inputs != [] {
      var s := Step(t, inputs[0]);
      if s.Success? {
        StepFrame(t, inputs[0], other);
        var tail := inputs[1..];
        forall k | 0 <= k < |tail| ensures OrderOf(tail[k]) != other {
          assert tail[k] == inputs[k + 1];
        }
        RunFrame(s.value.1, tail, other);
      }
    }
  }

  /** A batch of item INV-1 with the given id and raw order string, written without a database error. */
  function LineBatch(bcId: int, order: string, barcodes: seq<Barcode>): BatchInput
  {
    BatchInput(Batch(bcId, "T-1", "INV-1", "item", order), barcodes, "2024-01-01 00:00:00", None)
  }

  function ScenarioBatch(barcodes: seq<Barcode>): BatchInput
  {
    LineBatch(1, "ORD-5", barcodes)
  }

  function ImportedRow(code: string): SnRow
  {
    SnRow("ORD-5", "INV-1", code, "manual", "clerk", "2023-12-31 00:00:00")
  }

  /**
   * Upstream A1, A2, A3 against A1, A2 imported for ORD-5 with no movement:
   * the counts differ, so the batch is skipped and nothing is rewritten.
   */
  lemma ScenarioCountMismatch()
    ensures var t := Tables([ImportedRow("A1"), ImportedRow("A2")], [], []);
            var input := ScenarioBatch([Barcode(11, "A1"), Barcode(12, "A2"), Barcode(13, "A3")]);
              Step(t, input) == Success((CountMismatch, t))
  {
    ExampleAlreadyCode();
  }

  lemma ScenarioCodesDiffer()
    ensures CodeSet(["A1", "A2", "A3"]) != CodeSet(["A1", "A2", "A9"])
  {
    assert "A3" !in ["A1", "A2", "A9"];
    assert "A3" in CodeSet(["A1", "A2", "A3"]);
  }

  lemma ScenarioGuards(t: Tables, input: BatchInput)
    requires t == Tables([ImportedRow("A1"), ImportedRow("A2"), ImportedRow("A9")], [], [])
    requires input == ScenarioBatch([Barcode(11, "A1"), Barcode(12, "A2"), Barcode(13, "A3")])
    ensures OrderOf(input) == "ORD-5" && |RowsFor(t.imported, "ORD-5")| == 3 && PassesGuards(t, input)
    ensures BarcodeCodes(input.barcodes) == ["A1", "A2", "A3"]
  {
    ExampleAlreadyCode();
    var rows := t.imported;
    assert RowsFor(rows[2..], "ORD-5") == rows[2..];
    assert RowsFor(rows[1..], "ORD-5") == rows[1..];
    assert RowsFor(rows, "ORD-5") == rows;
    assert ImportedCodes(rows, "ORD-5") == ["A1", "A2", "A9"];
    assert BarcodeCodes(input.barcodes) == ["A1", "A2", "A3"];
    ScenarioCodesDiffer();
    assert !Moved(t, "ORD-5");
  }

  /**
   * Upstream A1, A2, A3 against A1, A2, A9 imported for ORD-5 with no
   * movement: three rows are deleted, three inserted, and ORD-5 then holds
   * exactly A1, A2, A3.
   */
  lemma ScenarioReplace(t: Tables, input: BatchInput)
    requires t == Tables([ImportedRow("A1"), ImportedRow("A2"), ImportedRow("A9")], [], [])
    requires input == ScenarioBatch([Barcode(11, "A1"), Barcode(12, "A2"), Barcode(13, "A3")])
    ensures Step(t, input) == Success((Reimported(3, 3), Replaced(t, input)))
    ensures ImportedCodes(Replaced(t, input).imported, "ORD-5") == ["A1", "A2", "A3"]
  {
    ScenarioGuards(t, input);
    WritesOnlyWhenSafe(t, input);
    ReimportedStep(t, input);
    FullReplace(t, input, "ORD-5");
    assert ImportedCodes(Replaced(t, input).imported, OrderOf(input)) == BarcodeCodes(input.barcodes);
  }

  /** One imported ORD-5 row whose code differs from the batch's single barcode: the batch swaps it for a robot row. */
  lemma SingleRowSwap(t: Tables, input: BatchInput, row: SnRow, b: Barcode)
    requires t == Tables([row], [], [])
    requires OrderOf(input) == "ORD-5" && input.batch.invCode == "INV-1"
    requires input.barcodes == [b] && input.fault.None?
    requires row.orderCode == "ORD-5" && row.code != b.code
    ensures Step(t, input) ==
              Success((Reimported(1, 1), Tables([SnRow("ORD-5", "INV-1", b.code, Robot, Robot, input.now)], [], [])))
  {
    ExampleAlreadyCode();
    assert RowsFor(t.imported[1..], "ORD-5") == [];
    assert RowsFor(t.imported, "ORD-5") == [row];
    assert ImportedCodes(t.imported, "ORD-5") == [row.code];
    assert BarcodeCodes(input.barcodes) == [b.code];
    assert row.code !in CodeSet([b.code]);
    assert !Moved(t, "ORD-5");
    assert DeleteOrder(t.imported, "ORD-5") == [];
    assert NewRows("ORD-5", "INV-1", [b], input.now) == [SnRow("ORD-5", "INV-1", b.code, Robot, Robot, input.now)];
    assert OrderOf(input) == "ORD-5" && PassesGuards(t, input);
    assert Replaced(t, input) == Tables([SnRow("ORD-5", "INV-1", b.code, Robot, Robot, input.now)], [], []);
  }

  /**
   * Idempotence holds per batch only. Two batches of one run whose order
   * strings map to the same order code (the split lines ORD-5-1-1 and
   * ORD-5-1-2), with as many barcodes as PLUS holds
   * but different codes, overwrite each other: the first run reimports both,
   * and a second run with no upstream change reimports both again.
   */
  lemma RerunRewritesSharedOrder(t: Tables, inputs: seq<BatchInput>)
    requires t == Tables([ImportedRow("A9")], [], [])
    requires inputs == [LineBatch(1, "ORD-5-1-1", [Barcode(1, "A1")]), LineBatch(2, "ORD-5-1-2", [Barcode(2, "A2")])]
    ensures RunSpec(t, inputs).outcomes == [Reimported(1, 1), Reimported(1, 1)]
    ensures RunSpec(RunSpec(t, inputs).tables, inputs).outcomes == [Reimported(1, 1), Reimported(1, 1)]
  {
    ExampleSplitLines();
    assert OrderOf(inputs[0]) == "ORD-5" && OrderOf(inputs[1]) == "ORD-5";
    var now := inputs[0].now;
    var t1 := Tables([SnRow("ORD-5", "INV-1", "A1", Robot, Robot, now)], [], []);
    var t2 := Tables([SnRow("ORD-5", "INV-1", "A2", Robot, Robot, now)], [], []);
    SingleRowSwap(t, inputs[0], ImportedRow("A9"), Barcode(1, "A1"));
    SingleRowSwap(t1, inputs[1], t1.imported[0], Barcode(2, "A2"));
    SingleRowSwap(t2, inputs[0], t2.imported[0], Barcode(1, "A1"));
    TwoBatchRun(t, inputs, t1, t2);
    TwoBatchRun(t2, inputs, t1, t2);
  }

  /** A run of two batches that both reimport ends with the second batch's tables and both outcomes. */
  lemma TwoBatchRun(t: Tables, inputs: seq<BatchInput>, mid: Tables, last: Tables)
    requires |inputs| == 2
    requires Step(t, inputs[0]) == Success((Reimported(1, 1), mid))
    requires Step(mid, inputs[1]) == Success((Reimported(1, 1), last))
    ensures RunSpec(t, inputs) == RunResult(last, [Reimported(1, 1), Reimported(1, 1)], None)
  {
    assert inputs[1..][0] == inputs[1] && inputs[1..][1..] == [];
    RunSpecCons(t, inputs, Step(t, inputs[0]));
    RunSpecCons(mid, inputs[1..], Step(mid, inputs[1]));
  }


  /**
   * The loop body over the live database. The guards read the imported,
   * incoming and outgoing tables; a batch that passes them is rewritten in a
   * transaction whose staged copy reaches the database only at commit.
   */
  method ProcessBatch(db: Database, input: BatchInput) returns (r: Result<Outcome, WriteError>)
    modifies db
    ensures var s := Step(old(db.State()), input);
              && (s.Success? ==> r == Success(s.value.0) && db.State() == s.value.1)
              && (s.Failure? ==> r == Failure(s.error) && db.State() == old(db.State()))
  {
    var orderCode := ExtractOrderNumber(input.batch.orderCode);
    var mesCodes := BarcodeCodes(input.barcodes);
    var plusCodes := ImportedCodes(db.imported, orderCode);
    if |mesCodes| != |plusCodes| {
      return Success(CountMismatch);
    }
    if CodeSet(mesCodes) == CodeSet(plusCodes) {
      return Success(SameCodes);
    }
    var incoming := MovementCodes(db.incoming, orderCode);
    var outgoing := MovementCodes(db.outgoing, orderCode);
    if incoming != [] || outgoing != [] {
      return Success(MovementLocked);
    }
    if input.fault.Some? && input.fault.value.ConnectError? {
      return Failure(ConnectError);
    }
    var txn := new Transaction.Begin(db);
    var deleted := txn.Delete(orderCode, input.fault.Some? && input.fault.value.DeleteError?);
    if deleted.Failure? {
      return Failure(deleted.error);
    }
    var inserted := txn.Insert(orderCode, input.batch.invCode, input.barcodes, input.now, input.fault.Some? && input.fault.value.InsertError?);
    if inserted.Failure? {
      return Failure(inserted.error);
    }
    var committed := txn.Commit(input.fault.Some? && input.fault.value.CommitError?);
    if committed.Failure? {
      return Failure(committed.error);
    }
    r := Success(Reimported(deleted.value, inserted.value));
  }

  /** One batch of the run: the first batch's step, then the rest of the run from the tables it left. */
  lemma RunSpecCons(t: Tables, inputs: seq<BatchInput>, s: Result<(Outcome, Tables), WriteError>)
    requires inputs != [] && s == Step(t, inputs[0])
    ensures s.Failure? ==> RunSpec(t, inputs) == RunResult(t, [], Some(s.error))
    ensures s.Success? ==>
              var rest := RunSpec(s.value.1, inputs[1..]);
              RunSpec(t, inputs) == RunResult(rest.tables, [s.value.0] + rest.outcomes, rest.failure)
  {
  }

  /** The loop over the recent batches; an error raised by a batch ends it. */
  method RunBatches(db: Database, inputs: seq<BatchInput>) returns (outcomes: seq<Outcome>, failure: Option<WriteError>)
    modifies db
    ensures var r := RunSpec(old(db.State()), inputs);
              db.State() == r.tables && outcomes == r.outcomes && failure == r.failure
  {
    outcomes := [];
    var i := 0;
    while i < |inputs|
      invariant 0 <= i <= |inputs|
      invariant var rest := RunSpec(db.State(), inputs[i..]);
                  RunSpec(old(db.State()), inputs) == RunResult(rest.tables, outcomes + rest.outcomes, rest.failure)
    {
      assert inputs[i..][0] == inputs[i] && inputs[i..][1..] == inputs[i + 1..];
      ghost var before := db.State();
      RunSpecCons(before, inputs[i..], Step(before, inputs[i]));
      var r := ProcessBatch(db, inputs[i]);
      if r.Failure? {
        return outcomes, Some(r.error);
      }
      outcomes := outcomes + [r.value];
      i := i + 1;
    }
    assert inputs[i..] == [];
    failure := None;
  }
}
