/**
 * The statement building of database.py: the SET clause and parameter list of
 * `update_batch_task`, the value `add_history` stores for the result data, and the
 * positional mapping of selected batch-task rows to dictionaries.
 *
 * SQLite itself (connections, execution, row ids, timestamps) is not modelled: the statement
 * text and its parameters are the result, and selected rows are inputs.
 */
module Database {
  import opened Wrappers
  import opened PySemantics
  import opened JsonValues

  /** A value bound to a `?` placeholder or read from a column. */
  datatype SqlValue = SqlInt(i: int) | SqlText(s: string) | SqlNull

  // ---------------------------------------------------------------------------
  // update_batch_task
  // ---------------------------------------------------------------------------

  /** The optional columns of `update_batch_task`, in the order it tests them. */
  const UpdatableColumns: seq<string> := ["completed_count", "success_count", "status", "result_file", "finish_time"]

  /** The clause appended last, whatever else is updated. */
  const TouchClause: string := "update_time = CURRENT_TIMESTAMP"

  /** `f"{column} = ?"`. */
  function Clause(column: string): string {
    column + " = ?"
  }

  /** The arguments of `update_batch_task` in column order, `None` where the caller passed none. */
  function UpdateArguments(completedCount: Option<int>, successCount: Option<int>, status: Option<string>,
                           resultFile: Option<string>, finishTime: Option<string>): (r: seq<Option<SqlValue>>)
    ensures |r| == |UpdatableColumns|
  {
    [ if completedCount.Some? then Some(SqlInt(completedCount.value)) else None,
      if successCount.Some? then Some(SqlInt(successCount.value)) else None,
      if status.Some? then Some(SqlText(status.value)) else None,
      if resultFile.Some? then Some(SqlText(resultFile.value)) else None,
      if finishTime.Some? then Some(SqlText(finishTime.value)) else None ]
  }

  /** The clauses for the columns whose argument is not `None`, in column order. */
  function PresentClauses(columns: seq<string>, args: seq<Option<SqlValue>>): seq<string>
    requires |columns| == |args|
  {
    if |args| == 0 then []
    else
      var n := |args| - 1;
      PresentClauses(columns[..n], args[..n]) + (if args[n].Some? then [Clause(columns[n])] else [])
  }

  /** The arguments that are not `None`, in column order. */
  function PresentValues(args: seq<Option<SqlValue>>): seq<SqlValue> {
    if |args| == 0 then []
    else
      var n := |args| - 1;
      PresentValues(args[..n]) + (if args[n].Some? then [args[n].value] else [])
  }

  /** The number of arguments that are not `None`. */
  function PresentCount(args: seq<Option<SqlValue>>): nat {
    if |args| == 0 then 0 else PresentCount(args[..|args| - 1]) + (if args[|args| - 1].Some? then 1 else 0)
  }

  /**
   * Each present argument gives exactly its column's clause and its value, in column order:
   * a clause per present argument and a value per clause.
   */
  lemma {:induction false} PresentSpec(columns: seq<string>, args: seq<Option<SqlValue>>)
    requires |columns| == |args|
    ensures |PresentClauses(columns, args)| == |PresentValues(args)| == PresentCount(args)
    ensures forall c :: c in PresentClauses(columns, args) ==>
      exists i :: 0 <= i < |args| && args[i].Some? && c == Clause(columns[i])
    ensures forall i :: 0 <= i < |args| && args[i].Some? ==>
      Clause(columns[i]) in PresentClauses(columns, args) && args[i].value in PresentValues(args)
  {
    PresentLengths(columns, args);
    if |args| > 0 {
      var n := |args| - 1;
      PresentSpec(columns[..n], args[..n]);
      forall c | c in PresentClauses(columns, args)
        ensures exists i :: 0 <= i < |args| && args[i].Some? && c == Clause(columns[i])
      {
        if c in PresentClauses(columns[..n], args[..n]) {
          var i :| 0 <= i < n && args[..n][i].Some? && c == Clause(columns[..n][i]);
          assert args[i].Some? && c == Clause(columns[i]);
        } else {
          assert args[n].Some? && c == Clause(columns[n]);
        }
      }
      forall i | 0 <= i < |args| && args[i].Some?
        ensures Clause(columns[i]) in PresentClauses(columns, args) && args[i].value in PresentValues(args)
      {
        if i < n {
          assert args[..n][i] == args[i] && columns[..n][i] == columns[i];
        }
      }
    }
  }

  /** As many clauses as values, one per present argument. */
  lemma {:induction false} PresentLengths(columns: seq<string>, args: seq<Option<SqlValue>>)
    requires |columns| == |args|
    ensures |PresentClauses(columns, args)| == |PresentValues(args)| == PresentCount(args)
  {
    if |args| > 0 {
      PresentLengths(columns[..|args| - 1], args[..|args| - 1]);
    }
  }

  /** One more argument extends the clauses and values of the arguments before it. */
  lemma PresentSnoc(columns: seq<string>, args: seq<Option<SqlValue>>, k: nat)
    requires |columns| == |args| && k < |args|
    ensures PresentClauses(columns[..k + 1], args[..k + 1]) ==
      PresentClauses(columns[..k], args[..k]) + (if args[k].Some? then [Clause(columns[k])] else [])
    ensures PresentValues(args[..k + 1]) == PresentValues(args[..k]) + (if args[k].Some? then [args[k].value] else [])
  {
    assert columns[..k + 1][..k] == columns[..k];
    assert args[..k + 1][..k] == args[..k];
  }

  /** The SET clauses: one per present argument, then the timestamp clause. */
  function SetClauses(args: seq<Option<SqlValue>>): seq<string>
    requires |args| == |UpdatableColumns|
  {
    PresentClauses(UpdatableColumns, args) + [TouchClause]
  }

  /** The statement text of `update_batch_task`. */
  function UpdateStatement(args: seq<Option<SqlValue>>): string
    requires |args| == |UpdatableColumns|
  {
    StatementHead + Join(SetClauses(args), ClauseSeparator) + StatementTail
  }

  /** The number of occurrences of `c` in `s`. */
  function CountChar(s: string, c: char): nat {
    if |s| == 0 then 0 else (if s[0] == c then 1 else 0) + CountChar(s[1..], c)
  }

  lemma {:induction false} CountCharAppend(a: string, b: string, c: char)
    ensures CountChar(a + b, c) == CountChar(a, c) + CountChar(b, c)
  {
    if |a| > 0 {
      CountCharAppend(a[1..], b, c);
      assert (a + b)[1..] == a[1..] + b;
    } else {
      assert a + b == b;
    }
  }

  lemma {:induction false} CountCharAbsent(s: string, c: char)
    requires c !in s
    ensures CountChar(s, c) == 0
  {
    if |s| > 0 {
      CountCharAbsent(s[1..], c);
    }
  }

  /** The number of occurrences of `c` over all the parts. */
  function CountInParts(parts: seq<string>, c: char): nat {
    if |parts| == 0 then 0 else CountChar(parts[0], c) + CountInParts(parts[1..], c)
  }

  /** A separator without `c` adds no occurrence of `c` to a join. */
  lemma {:induction false} CountCharJoin(parts: seq<string>, sep: string, c: char)
    requires c !in sep
    ensures CountChar(Join(parts, sep), c) == CountInParts(parts, c)
  {
    if |parts| > 1 {
      CountCharJoin(parts[1..], sep, c);
      CountCharAppend(parts[0] + sep, Join(parts[1..], sep), c);
      CountCharAppend(parts[0], sep, c);
      CountCharAbsent(sep, c);
    } else if |parts| == 1 {
      assert CountInParts(parts[1..], c) == 0;
    }
  }

  lemma {:induction false} CountInPartsAppend(a: seq<string>, b: seq<string>, c: char)
    ensures CountInParts(a + b, c) == CountInParts(a, c) + CountInParts(b, c)
  {
    if |a| > 0 {
      CountInPartsAppend(a[1..], b, c);
      assert (a + b)[1..] == a[1..] + b;
    } else {
      assert a + b == b;
    }
  }

  /** Every present clause holds exactly one placeholder. */
  lemma {:induction false} PlaceholdersInClauses(columns: seq<string>, args: seq<Option<SqlValue>>)
    requires |columns| == |args|
    requires forall i :: 0 <= i < |columns| ==> '?' !in columns[i]
    ensures CountInParts(PresentClauses(columns, args), '?') == PresentCount(args)
  {
    if |args| > 0 {
      var n := |args| - 1;
      PlaceholdersInClauses(columns[..n], args[..n]);
      var last := if args[n].Some? then [Clause(columns[n])] else [];
      CountInPartsAppend(PresentClauses(columns[..n], args[..n]), last, '?');
      if args[n].Some? {
        CountCharAppend(columns[n], " = ?", '?');
        CountCharAppend(" = ", "?", '?');
        assert " = ?" == " = " + "?";
        CountCharAbsent(columns[n], '?');
        assert '?' !in " = ";
        CountCharAbsent(" = ", '?');
        assert CountInParts(last, '?') == CountChar(Clause(columns[n]), '?') + CountInParts([], '?');
      }
    }
  }

  const StatementHead: string := "UPDATE batch_task_history SET "
  const StatementTail: string := " WHERE task_name = ?"
  const ClauseSeparator: string := ", "

  /** The fixed text around the clauses holds no placeholder but the final one. */
  lemma FixedTextPlaceholders()
    ensures CountChar(StatementHead, '?') == 0
    ensures CountChar(StatementTail, '?') == 1
    ensures CountChar(TouchClause, '?') == 0
    ensures '?' !in ClauseSeparator
    ensures forall i :: 0 <= i < |UpdatableColumns| ==> '?' !in UpdatableColumns[i]
  {
    HeadHasNoPlaceholder();
    TailHasOnePlaceholder();
    TouchHasNoPlaceholder();
    ColumnsHaveNoPlaceholder();
    SeparatorHasNoPlaceholder();
  }

  lemma SeparatorHasNoPlaceholder()
    ensures '?' !in ClauseSeparator
  {
  }

  lemma HeadHasNoPlaceholder()
    ensures CountChar(StatementHead, '?') == 0
  {
    assert '?' !in StatementHead;
    CountCharAbsent(StatementHead, '?');
  }

  lemma TailHasOnePlaceholder()
    ensures CountChar(StatementTail, '?') == 1
  {
    var condition := " WHERE task_name = ";
    assert StatementTail == condition + "?";
    assert '?' !in condition;
    CountCharAbsent(condition, '?');
    CountCharAppend(condition, "?", '?');
  }

  lemma TouchHasNoPlaceholder()
    ensures CountChar(TouchClause, '?') == 0
  {
    assert '?' !in TouchClause;
    CountCharAbsent(TouchClause, '?');
  }

  lemma ColumnsHaveNoPlaceholder()
    ensures forall i :: 0 <= i < |UpdatableColumns| ==> '?' !in UpdatableColumns[i]
  {
    assert '?' !in UpdatableColumns[0];
    assert '?' !in UpdatableColumns[1];
    assert '?' !in UpdatableColumns[2];
    assert '?' !in UpdatableColumns[3];
    assert '?' !in UpdatableColumns[4];
  }

  /** The placeholders of `head + sep.join(parts) + tail`, for a separator without any. */
  lemma {:induction false} CountInStatement(head: string, parts: seq<string>, sep: string, tail: string, c: char)
    requires c !in sep
    ensures CountChar(head + Join(parts, sep) + tail, c) == CountChar(head, c) + CountInParts(parts, c) + CountChar(tail, c)
  {
    CountCharJoin(parts, sep, c);
    CountCharAppend(head + Join(parts, sep), tail, c);
    CountCharAppend(head, Join(parts, sep), c);
  }

  /** The placeholders of the clause list: one per present clause and none in the last. */
  lemma {:induction false} CountInClauses(clauses: seq<string>, last: string, c: char)
    ensures CountInParts(clauses + [last], c) == CountInParts(clauses, c) + CountChar(last, c)
  {
    CountInPartsAppend(clauses, [last], c);
    assert [last][1..] == [];
  }

  /** The statement has exactly as many `?` placeholders as parameters are bound. */
  lemma PlaceholdersMatchParameters(args: seq<Option<SqlValue>>)
    requires |args| == |UpdatableColumns|
    ensures CountChar(UpdateStatement(args), '?') == |PresentValues(args)| + 1
  {
    FixedTextPlaceholders();
    PresentLengths(UpdatableColumns, args);
    StatementPlaceholders(StatementHead, UpdatableColumns, args, TouchClause, ClauseSeparator, StatementTail, '?');
  }

  /** The placeholder count of a statement built from present clauses, for any fixed text. */
  lemma StatementPlaceholders(head: string, columns: seq<string>, args: seq<Option<SqlValue>>, last: string,
                              sep: string, tail: string, c: char)
    requires |columns| == |args|
    requires forall i :: 0 <= i < |columns| ==> c !in columns[i]
    requires c !in sep && CountChar(head, c) == 0 && CountChar(last, c) == 0 && CountChar(tail, c) == 1
    requires c == '?'
    ensures CountChar(head + Join(PresentClauses(columns, args) + [last], sep) + tail, c) == PresentCount(args) + 1
  {
    PlaceholdersInClauses(columns, args);
    CountInClauses(PresentClauses(columns, args), last, c);
    CountInStatement(head, PresentClauses(columns, args) + [last], sep, tail, c);
  }

  /**
   * `update_batch_task`: the statement and its parameters, built by appending a clause and a
   * value for each argument that is not `None` (so 0 and "" still update their column).
   */
  method UpdateBatchTask(taskName: SqlValue, completedCount: Option<int>, successCount: Option<int>,
                         status: Option<string>, resultFile: Option<string>, finishTime: Option<string>)
    returns (sql: string, params: seq<SqlValue>)
    ensures var args := UpdateArguments(completedCount, successCount, status, resultFile, finishTime);
      && sql == UpdateStatement(args)
      && params == PresentValues(args) + [taskName]
    ensures CountChar(sql, '?') == |params|
  {
    var args := UpdateArguments(completedCount, successCount, status, resultFile, finishTime);
    var updates: seq<string> := [];
    params := [];
    BuiltStart(UpdatableColumns, args);
    BuiltStep(UpdatableColumns, args, 0, updates, params, completedCount.Some?, Clause(UpdatableColumns[0]), if completedCount.Some? then SqlInt(completedCount.value) else SqlNull);
    if completedCount.Some? {
      updates := updates + [Clause(UpdatableColumns[0])];
      params := params + [SqlInt(completedCount.value)];
    }
    BuiltStep(UpdatableColumns, args, 1, updates, params, successCount.Some?, Clause(UpdatableColumns[1]), if successCount.Some? then SqlInt(successCount.value) else SqlNull);
    if successCount.Some? {
      updates := updates + [Clause(UpdatableColumns[1])];
      params := params + [SqlInt(successCount.value)];
    }
    BuiltStep(UpdatableColumns, args, 2, updates, params, status.Some?, Clause(UpdatableColumns[2]), if status.Some? then SqlText(status.value) else SqlNull);
    if status.Some? {
      updates := updates + [Clause(UpdatableColumns[2])];
      params := params + [SqlText(status.value)];
    }
    BuiltStep(UpdatableColumns, args, 3, updates, params, resultFile.Some?, Clause(UpdatableColumns[3]), if resultFile.Some? then SqlText(resultFile.value) else SqlNull);
    if resultFile.Some? {
      updates := updates + [Clause(UpdatableColumns[3])];
      params := params + [SqlText(resultFile.value)];
    }
    BuiltStep(UpdatableColumns, args, 4, updates, params, finishTime.Some?, Clause(UpdatableColumns[4]), if finishTime.Some? then SqlText(finishTime.value) else SqlNull);
    if finishTime.Some? {
      updates := updates + [Clause(UpdatableColumns[4])];
      params := params + [SqlText(finishTime.value)];
    }
    BuiltAll(UpdatableColumns, args, updates, params);
    updates := updates + [TouchClause];
    params := params + [taskName];
    sql := StatementHead + Join(updates, ClauseSeparator) + StatementTail;
    PlaceholdersMatchParameters(args);
  }

  /** The clauses and values appended for the first `k` arguments. */
  ghost predicate Built(columns: seq<string>, args: seq<Option<SqlValue>>, k: nat, updates: seq<string>, params: seq<SqlValue>)
    requires |args| == |columns| && k <= |args|
  {
    updates == PresentClauses(columns[..k], args[..k]) && params == PresentValues(args[..k])
  }

  /** Nothing is appended before the first test. */
  lemma BuiltStart(columns: seq<string>, args: seq<Option<SqlValue>>)
    requires |args| == |columns|
    ensures Built(columns, args, 0, [], [])
  {
    assert columns[..0] == [] && args[..0] == [];
  }

  /**
   * One test of `update_batch_task`: appending the clause and value of argument `k` when it is
   * present turns those of the first `k` arguments into those of the first `k + 1`.
   */
  lemma BuiltStep(columns: seq<string>, args: seq<Option<SqlValue>>, k: nat, updates: seq<string>,
                  params: seq<SqlValue>, present: bool, clause: string, value: SqlValue)
    requires |args| == |columns| && k < |args|
    requires Built(columns, args, k, updates, params)
    requires present == args[k].Some? && clause == Clause(columns[k]) && (present ==> value == args[k].value)
    ensures Built(columns, args, k + 1, if present then updates + [clause] else updates,
                  if present then params + [value] else params)
  {
    PresentSnoc(columns, args, k);
  }

  /** After the last test, the appended clauses and values are those of all the arguments. */
  lemma BuiltAll(columns: seq<string>, args: seq<Option<SqlValue>>, updates: seq<string>, params: seq<SqlValue>)
    requires |args| == |columns|
    requires Built(columns, args, |args|, updates, params)
    ensures updates == PresentClauses(columns, args) && params == PresentValues(args)
  {
    assert columns[..|args|] == columns && args[..|args|] == args;
  }

  /** Zero and the empty string are values, not absent arguments: both still produce their clause. */
  lemma FalsyValuesStillUpdate()
    ensures var args := UpdateArguments(Some(0), None, Some(""), None, None);
      SetClauses(args) == [Clause("completed_count"), Clause("status"), TouchClause]
      && PresentValues(args) == [SqlInt(0), SqlText("")]
  {
    var args := UpdateArguments(Some(0), None, Some(""), None, None);
    PresentSnoc(UpdatableColumns, args, 0);
    PresentSnoc(UpdatableColumns, args, 1);
    PresentSnoc(UpdatableColumns, args, 2);
    PresentSnoc(UpdatableColumns, args, 3);
    PresentSnoc(UpdatableColumns, args, 4);
    assert args[..0] == [] && UpdatableColumns[..0] == [];
    assert args[..5] == args && UpdatableColumns[..5] == UpdatableColumns;
  }

  // ---------------------------------------------------------------------------
  // add_history
  // ---------------------------------------------------------------------------

  /**
   * The `result_data` column `add_history` writes: the data when it is truthy, NULL (`None`)
   * otherwise, so an empty list or dict is stored as NULL.
   */
  function StoredResultData(resultData: Json): (r: Option<Json>)
    ensures r.None? <==> !Truthy(resultData)
    ensures r.Some? ==> r.value == resultData
  {
    if Truthy(resultData) then Some(resultData) else None
  }

  // ---------------------------------------------------------------------------
  // Batch-task rows
  // ---------------------------------------------------------------------------

  /** The eleven columns selected by `get_batch_tasks` and `get_batch_task_detail`, and the keys they map to. */
  const BatchTaskKeys: seq<string> := ["id", "task_name", "task_type", "total_count", "completed_count",
    "success_count", "status", "result_file", "create_time", "update_time", "finish_time"]

  /** The dictionary literal built from one selected row: key i holds `row[i]`. */
  function RowToDict(row: seq<SqlValue>): map<string, SqlValue>
    requires |row| == |BatchTaskKeys|
  {
    map["id" := row[0], "task_name" := row[1], "task_type" := row[2], "total_count" := row[3],
        "completed_count" := row[4], "success_count" := row[5], "status" := row[6],
        "result_file" := row[7], "create_time" := row[8], "update_time" := row[9], "finish_time" := row[10]]
  }

  /** The row read back from a dictionary in key order. */
  function DictToRow(d: map<string, SqlValue>): seq<SqlValue>
    requires forall i :: 0 <= i < |BatchTaskKeys| ==> BatchTaskKeys[i] in d
  {
    seq(|BatchTaskKeys|, i requires 0 <= i < |BatchTaskKeys| => d[BatchTaskKeys[i]])
  }

  /** The mapping is positional and loses nothing: exactly the eleven keys, the i-th holding column i. */
  lemma RowToDictSpec(row: seq<SqlValue>)
    requires |row| == |BatchTaskKeys|
    ensures RowToDict(row).Keys == set k | k in BatchTaskKeys
    ensures forall i :: 0 <= i < |BatchTaskKeys| ==> RowToDict(row)[BatchTaskKeys[i]] == row[i]
    ensures DictToRow(RowToDict(row)) == row
  {
    var d := RowToDict(row);
    forall i | 0 <= i < |BatchTaskKeys| ensures BatchTaskKeys[i] in d && d[BatchTaskKeys[i]] == row[i] {
    }
  }

  /** The loop of `get_batch_tasks`: one dictionary per row, in row order. */
  method RowsToDicts(rows: seq<seq<SqlValue>>) returns (taskList: seq<map<string, SqlValue>>)
    requires forall j :: 0 <= j < |rows| ==> |rows[j]| == |BatchTaskKeys|
    ensures |taskList| == |rows|
    ensures forall j :: 0 <= j < |rows| ==> taskList[j] == RowToDict(rows[j])
  {
    taskList := [];
    var j := 0;
    while j < |rows|
      invariant 0 <= j <= |rows|
      invariant |taskList| == j
      invariant forall k :: 0 <= k < j ==> taskList[k] == RowToDict(rows[k])
    {
      taskList := taskList + [RowToDict(rows[j])];
      j := j + 1;
    }
  }

  /** `get_batch_task_detail`: the row's dictionary, or `None` when no row matched. */
  function TaskDetail(row: Option<seq<SqlValue>>): (r: Option<map<string, SqlValue>>)
    requires row.Some? ==> |row.value| == |BatchTaskKeys|
    ensures r.Some? <==> row.Some?
    ensures r.Some? ==> forall i :: 0 <= i < |BatchTaskKeys| ==> BatchTaskKeys[i] in r.value
    ensures r.Some? ==> DictToRow(r.value) == row.value
  {
    if row.Some? then (RowToDictSpec(row.value); Some(RowToDict(row.value))) else None
  }
}
