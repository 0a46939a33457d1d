/**
 The execution_steps table: one row per traced step, inserted as queued and
 overwritten in place. `history` keeps every value the status column has held.
 */
module StepTrace {
  import opened Wrappers
  import opened Json
  import opened Plans

  datatype Status = Queued | Running | Succeeded | Failed | Skipped

  datatype Row = Row(stepKey: Key, history: seq<Status>, response: Option<Value>, error: Option<string>)

  /** What a row shows of its step: its statuses, and the response or the error that came with the last one. */
  datatype Entry = Entry(history: seq<Status>, response: Option<Value>, error: Option<string>)

  function NewRow(key: Key): Row {
    Row(key, [Queued], None, None)
  }

  function RowOf(key: Key, e: Entry): Row {
    Row(key, e.history, e.response, e.error)
  }

  /** What the table holds after `UPDATE ... WHERE execution_step_id = id`. */
  function Overwritten(rows: seq<Row>, id: nat, row: Row -> Row): seq<Row> {
    if id < |rows| then rows[id := row(rows[id])] else rows
  }

  /** Row ids are positions: the fresh uuid of an insert is the next position. */
  class ExecutionSteps {
    var rows: seq<Row>

    constructor ()
      ensures rows == []
    {
      rows := [];
    }

    method CreateStepRun(key: Key) returns (id: nat)
      modifies this
      ensures id == |old(rows)| && rows == old(rows) + [NewRow(key)]
    {
      id := |rows|;
      rows := rows + [NewRow(key)];
    }

    method MarkRunning(id: nat)
      modifies this
      ensures rows == Overwritten(old(rows), id, (r: Row) => r.(history := r.history + [Running]))
    {
      if id < |rows| {
        rows := rows[id := rows[id].(history := rows[id].history + [Running])];
      }
    }

    method MarkSuccess(id: nat, response: Value)
      modifies this
      ensures rows == Overwritten(old(rows), id,
                                  (r: Row) => r.(history := r.history + [Succeeded], response := Some(response)))
    {
      if id < |rows| {
        rows := rows[id := rows[id].(history := rows[id].history + [Succeeded], response := Some(response))];
      }
    }

    method MarkFailed(id: nat, error: string)
      modifies this
      ensures rows == Overwritten(old(rows), id,
                                  (r: Row) => r.(history := r.history + [Failed], error := Some(error)))
    {
      if id < |rows| {
        rows := rows[id := rows[id].(history := rows[id].history + [Failed], error := Some(error))];
      }
    }

    method MarkSkipped(id: nat, reason: string)
      modifies this
      ensures rows == Overwritten(old(rows), id,
                                  (r: Row) => r.(history := r.history + [Skipped], error := Some(reason)))
    {
      if id < |rows| {
        rows := rows[id := rows[id].(history := rows[id].history + [Skipped], error := Some(reason))];
      }
    }
  }

  /**
   What a step's row comes to show, by how its executor ended. A failed result or
   an unknown kind is marked; an exception of the executor is not, and leaves the
   row running.
   */
  function EntryOf(step: Step, o: Outcome): Entry {
    match o
    case Output(v) => Entry([Queued, Running, Succeeded], Some(v), None)
    case FailedResult(m) => Entry([Queued, Running, Failed], None, Some(m))
    case UnknownKind => Entry([Queued, Running, Failed], None, Some(ErrorText(step, o)))
    case Raised(_) => STARTED
  }

  const SKIP_REASON := "dependency failed"
  const SKIPPED := Entry([Queued, Skipped], None, Some(SKIP_REASON))
  const STARTED := Entry([Queued, Running], None, None)

  function Entries(keys: set<Key>, e: Entry): map<Key, Entry> {
    map k | k in keys :: e
  }

  /**
   Beyond the rows `before`, the table holds exactly one row for each key of
   `expected`, at position `rowOf`, with the expected contents, and nothing else.
   */
  ghost predicate RowsMatch(
      before: seq<Row>, rows: seq<Row>, rowOf: map<Key, nat>, expected: map<Key, Entry>)
  {
    && |before| <= |rows| && rows[..|before|] == before
    && rowOf.Keys == expected.Keys
    && (forall k :: k in rowOf ==>
          |before| <= rowOf[k] < |rows| && rows[rowOf[k]] == RowOf(k, expected[k]))
    && (forall i :: |before| <= i < |rows| ==> rows[i].stepKey in rowOf && rowOf[rows[i].stepKey] == i)
  }

  lemma InsertMatches(
      before: seq<Row>, rows: seq<Row>, rowOf: map<Key, nat>, expected: map<Key, Entry>, k: Key, e: Entry)
    requires RowsMatch(before, rows, rowOf, expected) && k !in expected
    ensures RowsMatch(before, rows + [RowOf(k, e)], rowOf[k := |rows|], expected[k := e])
  {
    var rows' := rows + [RowOf(k, e)];
    assert rows'[..|before|] == rows[..|before|];
    forall i | |before| <= i < |rows'|
      ensures rows'[i].stepKey in rowOf[k := |rows|] && rowOf[k := |rows|][rows'[i].stepKey] == i
    {
      assert i < |rows| ==> rows'[i] == rows[i];
    }
  }

  lemma OverwriteMatches(
      before: seq<Row>, rows: seq<Row>, rowOf: map<Key, nat>, expected: map<Key, Entry>, k: Key, e: Entry)
    requires RowsMatch(before, rows, rowOf, expected) && k in rowOf
    ensures RowsMatch(before, rows[rowOf[k] := RowOf(k, e)], rowOf, expected[k := e])
  {
    var rows' := rows[rowOf[k] := RowOf(k, e)];
    assert rows'[..|before|] == rows[..|before|];
    forall j | j in rowOf
      ensures rows'[rowOf[j]] == RowOf(j, expected[k := e][j])
    {
      assert j != k ==> rowOf[j] != rowOf[k];
    }
  }
}
