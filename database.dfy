/** The test-database helpers (backend/src/utils/database.ts): the completion latch that
    turns the callbacks of a batch of statements into one settled result, the statement
    lists of `clearTables`, `seedData` and `seedTestData`, and the fixed seed data.

    A statement's callback is modelled by its error argument (`None` for success). The
    callbacks of a batch arrive in some order chosen by the database; that order is a
    parameter (`arrivals`), one entry per statement. */
module TestDatabase {
  import opened Wrappers
  import opened Js

  /** `QueryResult` without `data`: success, or the first error. */
  datatype QueryResult = QueryResult(success: bool, error: Option<string>)

  // ---------------------------------------------------------------------------
  // The completion latch of `executeQueries` and `seedData`

  /** The variables the callbacks share, and the value the promise settled with. */
  datatype Latch = Latch(completed: nat, hasError: bool, settled: Option<QueryResult>)

  const Fresh := Latch(0, false, None)

  /** `resolve`: a promise keeps the first value it is resolved with. */
  function Resolve(settled: Option<QueryResult>, r: QueryResult): (s: Option<QueryResult>)
    ensures s.Some?
    ensures settled.Some? ==> s == settled
  {
    if settled.None? then Some(r) else settled
  }

  /** One callback with error `err`, in a batch of `total` statements. */
  function Step(l: Latch, total: nat, err: Option<string>): (r: Latch)
    ensures r.hasError <==> l.hasError || err.Some?
    ensures r.completed == l.completed + (if err.Some? && !l.hasError then 0 else 1)
    ensures l.settled.Some? ==> r.settled == l.settled
    ensures r.settled.Some? && l.settled.None? ==>
              r.settled == Some(QueryResult(false, err)) || (r.completed == total && r.settled == Some(QueryResult(true, None)))
  {
    if err.Some? && !l.hasError then Latch(l.completed, true, Resolve(l.settled, QueryResult(false, err)))
    else
      var c := l.completed + 1;
      Latch(c, l.hasError, if c == total && !l.hasError then Resolve(l.settled, QueryResult(true, None)) else l.settled)
  }

  /** The latch after the callbacks `arrivals`, in that order. */
  function Run(total: nat, arrivals: seq<Option<string>>): (r: Latch)
    ensures r.hasError <==> !AllSucceeded(arrivals)
    ensures r.completed <= |arrivals|
  {
    if arrivals == [] then Fresh
    else Step(Run(total, arrivals[..|arrivals| - 1]), total, arrivals[|arrivals| - 1])
  }

  /** No callback reported an error. */
  predicate AllSucceeded(arrivals: seq<Option<string>>) {
    forall i :: 0 <= i < |arrivals| ==> arrivals[i].None?
  }

  /** The error of the earliest callback that reported one. */
  function FirstError(arrivals: seq<Option<string>>): (r: Option<string>)
    ensures r.None? <==> AllSucceeded(arrivals)
    ensures r.Some? ==> exists i :: 0 <= i < |arrivals| && arrivals[i] == r && AllSucceeded(arrivals[..i])
  {
    if arrivals == [] then None
    else
      var init := arrivals[..|arrivals| - 1];
      var first := FirstError(init);
      if first.Some? then
        assert forall i :: 0 <= i < |init| ==> arrivals[..i] == init[..i];
        first
      else
        assert init == arrivals[..|arrivals| - 1];
        arrivals[|arrivals| - 1]
  }

  /** What the latch holds after some of a batch's callbacks: an error is latched by the
      first failing callback and settles the promise with it; without error, the promise
      settles with success exactly when every statement has called back. */
  lemma {:induction false} RunState(total: nat, arrivals: seq<Option<string>>)
    requires 1 <= total && |arrivals| <= total
    ensures var l := Run(total, arrivals);
            (l.hasError <==> !AllSucceeded(arrivals)) &&
            l.completed == |arrivals| - (if l.hasError then 1 else 0) &&
            (l.hasError ==> l.settled == Some(QueryResult(false, FirstError(arrivals)))) &&
            (!l.hasError ==> l.settled == if |arrivals| == total then Some(QueryResult(true, None)) else None)
  {
    if arrivals != [] {
      var init := arrivals[..|arrivals| - 1];
      var last := arrivals[|arrivals| - 1];
      RunState(total, init);
      assert forall i :: 0 <= i < |init| ==> init[i] == arrivals[i];
      assert AllSucceeded(arrivals) <==> AllSucceeded(init) && last.None?;
      assert Run(total, arrivals) == Step(Run(total, init), total, last);
    }
  }

  /** Once settled, later callbacks change neither the outcome nor, after an error, the
      error reported. */
  lemma SettledOnce(total: nat, earlier: seq<Option<string>>, later: seq<Option<string>>)
    requires 1 <= total && |earlier| + |later| <= total
    requires Run(total, earlier).settled.Some?
    ensures Run(total, earlier + later).settled == Run(total, earlier).settled
  {
    RunState(total, earlier);
    RunState(total, earlier + later);
    if AllSucceeded(earlier) {
      assert later == [] && earlier + later == earlier;
    } else {
      FirstErrorOfPrefix(earlier, later);
    }
  }

  lemma FirstErrorOfPrefix(earlier: seq<Option<string>>, later: seq<Option<string>>)
    requires !AllSucceeded(earlier)
    ensures FirstError(earlier + later) == FirstError(earlier)
  {
    var all := earlier + later;
    var i :| 0 <= i < |earlier| && earlier[i] == FirstError(earlier) && AllSucceeded(earlier[..i]);
    var j :| 0 <= j < |all| && all[j] == FirstError(all) && AllSucceeded(all[..j]);
    assert all[i] == earlier[i];
    if j < i {
      assert all[j] == earlier[j] && earlier[..i][j] == earlier[j];
    } else if i < j {
      assert all[..j][i] == all[i];
    }
  }

  /** Success does not depend on the order the callbacks arrive in. */
  lemma SuccessIgnoresOrder(a: seq<Option<string>>, b: seq<Option<string>>)
    requires multiset(a) == multiset(b)
    ensures AllSucceeded(a) <==> AllSucceeded(b)
  {
    if !AllSucceeded(a) {
      var i :| 0 <= i < |a| && a[i].Some?;
      assert a[i] in multiset(b);
    }
    if !AllSucceeded(b) {
      var i :| 0 <= i < |b| && b[i].Some?;
      assert b[i] in multiset(a);
    }
  }

  /** Once every statement of a batch has called back, the promise has settled, and
      whether it settled with success does not depend on the order of the callbacks. */
  lemma RunSuccessIgnoresOrder(total: nat, a: seq<Option<string>>, b: seq<Option<string>>)
    requires 1 <= total && |a| == total && multiset(a) == multiset(b)
    ensures Run(total, a).settled.Some? && Run(total, b).settled.Some?
    ensures Run(total, a).settled.value.success == Run(total, b).settled.value.success
    ensures Run(total, a).settled.value.success <==> AllSucceeded(a)
  {
    assert |b| == |multiset(b)| == |multiset(a)| == |a|;
    RunState(total, a);
    RunState(total, b);
    SuccessIgnoresOrder(a, b);
  }

  /** The counters shared by the callbacks of one batch. */
  class CompletionLatch {
    const total: nat
    var completed: nat
    var hasError: bool
    /** The value the promise has been resolved with, if any. */
    var settled: Option<QueryResult>
    /** The callbacks so far, in arrival order. */
    ghost var arrived: seq<Option<string>>

    function State(): Latch
      reads this
    {
      Latch(completed, hasError, settled)
    }

    ghost predicate Valid()
      reads this
    {
      |arrived| <= total && State() == Run(total, arrived)
    }

    constructor (total: nat)
      ensures Valid() && this.total == total && arrived == []
    {
      this.total := total;
      completed := 0;
      hasError := false;
      settled := None;
      arrived := [];
    }

    /** The callback passed to `db.run` for one statement. */
    method Callback(err: Option<string>)
      requires Valid() && |arrived| < total
      modifies this
      ensures Valid() && arrived == old(arrived) + [err]
    {
      arrived := arrived + [err];
      assert arrived[..|arrived| - 1] == old(arrived);
      if err.Some? && !hasError {
        hasError := true;
        if settled.None? {
          settled := Some(QueryResult(false, err));
        }
        return;
      }
      completed := completed + 1;
      if completed == total && !hasError {
        if settled.None? {
          settled := Some(QueryResult(true, None));
        }
      }
    }
  }

  /** `executeQueries`: runs every statement and settles once all have called back or one
      has failed; an empty batch succeeds at once. */
  method ExecuteQueries(queries: seq<string>, arrivals: seq<Option<string>>) returns (r: QueryResult)
    requires |arrivals| == |queries|
    ensures r.success <==> AllSucceeded(arrivals)
    ensures r.error == FirstError(arrivals)
  {
    r := Settle(|queries|, arrivals);
  }

  /** The latch over `total` statements fed with `arrivals`, read once all have arrived. */
  method Settle(total: nat, arrivals: seq<Option<string>>) returns (r: QueryResult)
    requires |arrivals| == total
    ensures r.success <==> AllSucceeded(arrivals)
    ensures r.error == FirstError(arrivals)
  {
    if total == 0 {
      return QueryResult(true, None);
    }
    var latch := new CompletionLatch(total);
    var i := 0;
    while i < |arrivals|
      invariant 0 <= i <= |arrivals|
      invariant latch.Valid() && latch.total == total && latch.arrived == arrivals[..i]
    {
      latch.Callback(arrivals[i]);
      assert arrivals[..i + 1] == arrivals[..i] + [arrivals[i]];
      i := i + 1;
    }
    assert arrivals[..i] == arrivals;
    RunState(total, arrivals);
    r := latch.settled.value;
  }

  // ---------------------------------------------------------------------------
  // clearTables

  function DeleteAll(table: string): string {
    "DELETE FROM " + table
  }

  function ResetSequence(table: string): string {
    "DELETE FROM sqlite_sequence WHERE name='" + table + "'"
  }

  /** `clearTables`: every table emptied in the given order, then every table's
      AUTOINCREMENT counter reset in the same order, as one batch. */
  method ClearTables(tables: seq<string>, arrivals: seq<Option<string>>) returns (queries: seq<string>, r: QueryResult)
    requires |arrivals| == 2 * |tables|
    ensures |queries| == 2 * |tables|
    ensures forall i :: 0 <= i < |tables| ==>
              queries[i] == DeleteAll(tables[i]) && queries[|tables| + i] == ResetSequence(tables[i])
    ensures r.success <==> AllSucceeded(arrivals)
    ensures r.error == FirstError(arrivals)
  {
    queries := [];
    var i := 0;
    while i < |tables|
      invariant 0 <= i <= |tables| && |queries| == i
      invariant forall k :: 0 <= k < i ==> queries[k] == DeleteAll(tables[k])
    {
      queries := queries + [DeleteAll(tables[i])];
      i := i + 1;
    }
    i := 0;
    while i < |tables|
      invariant 0 <= i <= |tables| && |queries| == |tables| + i
      invariant forall k :: 0 <= k < |tables| ==> queries[k] == DeleteAll(tables[k])
      invariant forall k :: 0 <= k < i ==> queries[|tables| + k] == ResetSequence(tables[k])
    {
      queries := queries + [ResetSequence(tables[i])];
      i := i + 1;
    }
    r := ExecuteQueries(queries, arrivals);
  }

  // ---------------------------------------------------------------------------
  // seedData and seedTestData

  /** A column value of the seed rows: a string or a number. */
  datatype SqlValue = Text(s: string) | Int(n: int)

  /** A row object as its entries, in key insertion order (`Object.keys`/`Object.values`). */
  type Row = seq<(string, SqlValue)>

  /** `SeedData`: a table name and the rows to insert into it. */
  datatype SeedTable = SeedTable(table: string, rows: seq<Row>)

  function Columns(row: Row): (r: seq<string>)
    ensures |r| == |row|
  {
    seq(|row|, i requires 0 <= i < |row| => row[i].0)
  }

  function Values(row: Row): (r: seq<SqlValue>)
    ensures |r| == |row|
  {
    seq(|row|, i requires 0 <= i < |row| => row[i].1)
  }

  /** `Object.keys(row).map(() => '?')`. */
  function Placeholders(row: Row): (r: seq<string>)
    ensures |r| == |row|
  {
    seq(|row|, i requires 0 <= i < |row| => "?")
  }

  /** Pairs keys with values again. */
  function Zip(keys: seq<string>, values: seq<SqlValue>): (r: Row)
    requires |keys| == |values|
    ensures |r| == |keys|
  {
    seq(|keys|, i requires 0 <= i < |keys| => (keys[i], values[i]))
  }

  /** The columns, the placeholders and the values line up: one `?` per column, and the
      i-th value belongs to the i-th column. */
  lemma ColumnsValuesRoundTrip(row: Row)
    ensures |Placeholders(row)| == |Columns(row)| == |Values(row)|
    ensures forall i :: 0 <= i < |row| ==> Placeholders(row)[i] == "?"
    ensures Zip(Columns(row), Values(row)) == row
  {
    assert forall i :: 0 <= i < |row| ==> Zip(Columns(row), Values(row))[i] == row[i];
  }

  /** A statement as `db.run` receives it. */
  datatype Statement = Statement(sql: string, values: seq<SqlValue>)

  /** The parameterised INSERT of `seedData` for one row. */
  function RowInsert(table: string, row: Row): Statement {
    Statement("INSERT INTO " + table + " (" + Join(Columns(row), ", ") + ") VALUES (" +
              Join(Placeholders(row), ", ") + ")", Values(row))
  }

  /** The number of rows over all tables (`total` in `seedData`). */
  function RowCount(seed: seq<SeedTable>): nat {
    if seed == [] then 0 else RowCount(seed[..|seed| - 1]) + |seed[|seed| - 1].rows|
  }

  function TableInserts(t: SeedTable): (r: seq<Statement>)
    ensures |r| == |t.rows|
  {
    seq(|t.rows|, j requires 0 <= j < |t.rows| => RowInsert(t.table, t.rows[j]))
  }

  /** The statements `seedData` issues: table by table, row by row. */
  function Inserts(seed: seq<SeedTable>): (r: seq<Statement>)
    ensures |r| == RowCount(seed)
  {
    if seed == [] then [] else Inserts(seed[..|seed| - 1]) + TableInserts(seed[|seed| - 1])
  }

  /** Row `j` of table `t` is inserted by statement number `RowCount(seed[..t]) + j`. */
  lemma {:induction false} InsertPosition(seed: seq<SeedTable>, t: nat, j: nat)
    requires t < |seed| && j < |seed[t].rows|
    ensures RowCount(seed[..t]) + j < |Inserts(seed)|
    ensures Inserts(seed)[RowCount(seed[..t]) + j] == RowInsert(seed[t].table, seed[t].rows[j])
  {
    var init := seed[..|seed| - 1];
    if t < |seed| - 1 {
      InsertPosition(init, t, j);
      assert init[..t] == seed[..t];
      assert init[t] == seed[t];
    } else {
      assert seed[..t] == init;
    }
  }

  /** `seedData`: counts the rows, issues one INSERT per row, and settles once every
      INSERT has called back or one has failed; with no rows it succeeds at once. */
  method SeedData(seed: seq<SeedTable>, arrivals: seq<Option<string>>) returns (statements: seq<Statement>, r: QueryResult)
    requires |arrivals| == RowCount(seed)
    ensures statements == Inserts(seed)
    ensures r.success <==> AllSucceeded(arrivals)
    ensures r.error == FirstError(arrivals)
  {
    var total := 0;
    var i := 0;
    while i < |seed|
      invariant 0 <= i <= |seed| && total == RowCount(seed[..i])
    {
      assert seed[..i + 1][..i] == seed[..i];
      total := total + |seed[i].rows|;
      i := i + 1;
    }
    assert seed[..i] == seed;
    statements := [];
    i := 0;
    while i < |seed|
      invariant 0 <= i <= |seed| && statements == Inserts(seed[..i])
    {
      var j := 0;
      ghost var before := statements;
      while j < |seed[i].rows|
        invariant 0 <= j <= |seed[i].rows|
        invariant statements == before + TableInserts(seed[i])[..j]
      {
        statements := statements + [RowInsert(seed[i].table, seed[i].rows[j])];
        assert TableInserts(seed[i])[..j + 1] == TableInserts(seed[i])[..j] + [TableInserts(seed[i])[j]];
        j := j + 1;
      }
      assert TableInserts(seed[i])[..j] == TableInserts(seed[i]);
      assert seed[..i + 1][..i] == seed[..i];
      i := i + 1;
    }
    assert seed[..i] == seed;
    r := Settle(total, arrivals);
  }

  /** A value as `seedTestData` writes it into the SQL text: strings between single
      quotes, numbers as `String(n)`. */
  function Literal(v: SqlValue): string {
    match v
    case Text(s) => "'" + s + "'"
    case Int(n) => NumberToString(n)
  }

  /** A string literal holds the string between two quotes; a number below 10^21 reads
      back as itself. */
  lemma LiteralReadsBack(v: SqlValue)
    ensures v.Text? ==> |Literal(v)| == |v.s| + 2 && Literal(v)[0] == '\'' &&
                        Literal(v)[|Literal(v)| - 1] == '\'' && Literal(v)[1..|Literal(v)| - 1] == v.s
    ensures v.Int? && -ExponentThreshold < v.n < ExponentThreshold ==> ParseInt(Literal(v)) == Some(v.n)
  {
    if v.Int? && -ExponentThreshold < v.n < ExponentThreshold {
      ParseIntOfDecimal(v.n);
    }
  }

  function Literals(row: Row): (r: seq<string>)
    ensures |r| == |row|
  {
    seq(|row|, i requires 0 <= i < |row| => Literal(row[i].1))
  }

  /** The literal INSERT of `seedTestData` for one row. */
  function LiteralInsert(table: string, row: Row): (r: string)
    ensures StartsWith(r, "INSERT OR IGNORE INTO " + table + " (")
    ensures r[|r| - 1] == ')'
  {
    "INSERT OR IGNORE INTO " + table + " (" + Join(Columns(row), ", ") + ") VALUES (" +
    Join(Literals(row), ", ") + ")"
  }

  /** The literal INSERT is the parameterised one with `OR IGNORE` after `INSERT` and the
      list of `?` marks replaced by the list of literals; the table and columns are shared. */
  lemma LiteralInsertMirrorsRowInsert(table: string, row: Row)
    ensures var head := " INTO " + table + " (" + Join(Columns(row), ", ") + ") VALUES (";
            RowInsert(table, row).sql == "INSERT" + head + Join(Placeholders(row), ", ") + ")" &&
            LiteralInsert(table, row) == "INSERT OR IGNORE" + head + Join(Literals(row), ", ") + ")"
  {
    var cols := Join(Columns(row), ", ");
    InsertTextSplit("INSERT", table, cols, Join(Placeholders(row), ", "));
    InsertTextSplit("INSERT OR IGNORE", table, cols, Join(Literals(row), ", "));
  }

  lemma InsertTextSplit(verb: string, table: string, cols: string, vals: string)
    ensures verb + " INTO " + table + " (" + cols + ") VALUES (" + vals + ")" ==
            verb + (" INTO " + table + " (" + cols + ") VALUES (") + vals + ")"
  {
  }

  /** Each literal is that of the value the parameterised INSERT binds at that place. */
  lemma LiteralsMirrorValues(table: string, row: Row)
    ensures |Literals(row)| == |RowInsert(table, row).values|
    ensures forall i :: 0 <= i < |row| ==> Literals(row)[i] == Literal(RowInsert(table, row).values[i])
  {
  }

  function TableLiteralInserts(t: SeedTable): (r: seq<string>)
    ensures |r| == |t.rows|
  {
    seq(|t.rows|, j requires 0 <= j < |t.rows| => LiteralInsert(t.table, t.rows[j]))
  }

  /** The first table whose batch reports an error. */
  function FirstFailing(batches: seq<seq<Option<string>>>): (r: Option<nat>)
    ensures r.None? <==> forall k :: 0 <= k < |batches| ==> AllSucceeded(batches[k])
    ensures r.Some? ==> r.value < |batches| && !AllSucceeded(batches[r.value]) &&
                        forall k :: 0 <= k < r.value ==> AllSucceeded(batches[k])
  {
    if batches == [] then None
    else if !AllSucceeded(batches[0]) then Some(0)
    else match FirstFailing(batches[1..])
      case None => None
      case Some(k) => Some(k + 1)
  }

  /** How `seedTestData` ends. */
  datatype Completion = Done | Threw(error: string)

  /** `seedTestData`: one batch of literal INSERT OR IGNORE statements per table, in
      order, stopping at the first table whose batch fails; then the three COUNT queries,
      of which only an error (`countError`) matters. */
  method SeedTestData(seed: seq<SeedTable>, arrivals: seq<seq<Option<string>>>, countError: Option<string>)
    returns (issued: seq<seq<string>>, r: Completion)
    requires |arrivals| == |seed|
    requires forall k :: 0 <= k < |seed| ==> |arrivals[k]| == |seed[k].rows|
    ensures |issued| <= |seed|
    ensures forall k :: 0 <= k < |issued| ==> issued[k] == TableLiteralInserts(seed[k])
    ensures match FirstFailing(arrivals)
            case Some(k) => |issued| == k + 1 && r == Threw(FirstError(arrivals[k]).value)
            case None => |issued| == |seed| && r == if countError.Some? then Threw(countError.value) else Done
  {
    issued := [];
    var i := 0;
    while i < |seed|
      invariant 0 <= i <= |seed| && |issued| == i
      invariant forall k :: 0 <= k < i ==> issued[k] == TableLiteralInserts(seed[k])
      invariant forall k :: 0 <= k < i ==> AllSucceeded(arrivals[k])
    {
      var queries := TableLiteralInserts(seed[i]);
      var result := ExecuteQueries(queries, arrivals[i]);
      issued := issued + [queries];
      if !result.success {
        r := Threw(result.error.GetOr("Failed to seed " + seed[i].table + " data"));
        return;
      }
      i := i + 1;
    }
    r := if countError.Some? then Threw(countError.value) else Done;
  }

  // ---------------------------------------------------------------------------
  // TEST_SEED_DATA and TABLE_CLEAR_ORDER

  const SportRows: seq<Row> := [
    [("name", Text("Football")), ("description", Text("American Football"))],
    [("name", Text("Basketball")), ("description", Text("Professional Basketball"))]]

  const TeamRows: seq<Row> := [
    [("name", Text("Team A")), ("sport_id", Int(1))],
    [("name", Text("Team B")), ("sport_id", Int(1))],
    [("name", Text("Team C")), ("sport_id", Int(2))],
    [("name", Text("Team D")), ("sport_id", Int(2))]]

  const UserRows: seq<Row> := [
    [("username", Text("testuser")), ("email", Text("test@example.com")), ("password_hash", Text("hashedpassword"))],
    [("username", Text("admin")), ("email", Text("admin@example.com")), ("password_hash", Text("adminpassword"))]]

  const MatchRows: seq<Row> := [
    [("sport_id", Int(1)), ("home_team_id", Int(1)), ("away_team_id", Int(2)),
     ("match_date", Text("2024-01-15 19:00:00")), ("status", Text("completed")),
     ("home_score", Int(21)), ("away_score", Int(14))],
    [("sport_id", Int(2)), ("home_team_id", Int(3)), ("away_team_id", Int(4)),
     ("match_date", Text("2024-01-16 20:00:00")), ("status", Text("scheduled"))]]

  const TestSeedData: seq<SeedTable> := [
    SeedTable("sports", SportRows), SeedTable("teams", TeamRows),
    SeedTable("users", UserRows), SeedTable("matches", MatchRows)]

  const TableClearOrder: seq<string> := ["matches", "teams", "sports", "users"]

  /** The foreign keys of the schema among the cleared tables: (referencing, referenced). */
  const ForeignKeys: seq<(string, string)> := [("teams", "sports"), ("matches", "sports"), ("matches", "teams")]

  /** The value of the first entry with that key. */
  function Field(row: Row, key: string): (r: Option<SqlValue>)
    ensures r.Some? <==> key in Columns(row)
    ensures r.Some? ==> exists i :: 0 <= i < |row| && row[i] == (key, r.value) &&
                                   forall j :: 0 <= j < i ==> row[j].0 != key
  {
    assert row != [] ==> Columns(row) == [row[0].0] + Columns(row[1..]);
    if row == [] then None
    else if row[0].0 == key then
      assert row[0] == (key, row[0].1);
      Some(row[0].1)
    else
      var r := Field(row[1..], key);
      if r.Some? then
        var i :| 0 <= i < |row[1..]| && row[1..][i] == (key, r.value) &&
                 forall j :: 0 <= j < i ==> row[1..][j].0 != key;
        assert row[i + 1] == (key, r.value);
        assert forall j :: 0 <= j < i + 1 ==> row[j].0 != key by {
          forall j | 0 <= j < i + 1
            ensures row[j].0 != key
          {
            if j > 0 {
              assert row[j] == row[1..][j - 1];
            }
          }
        }
        r
      else
        r
  }

  /** An integer field naming a row (ids count from 1 in insertion order). */
  predicate RefersTo(row: Row, key: string, rows: seq<Row>) {
    var v := Field(row, key);
    v.Some? && v.value.Int? && 1 <= v.value.n <= |rows|
  }

  /** Every seeded team belongs to a seeded sport, and every seeded match is between two
      different seeded teams of the match's own sport. */
  lemma SeedDataReferences()
    ensures TestSeedData[1].rows == TeamRows && TestSeedData[3].rows == MatchRows
    ensures forall t :: t in TeamRows ==> RefersTo(t, "sport_id", SportRows)
    ensures forall m :: m in MatchRows ==> MatchIsConsistent(m)
  {
    forall t | t in TeamRows
      ensures RefersTo(t, "sport_id", SportRows)
    {
      var i :| 0 <= i < |TeamRows| && TeamRows[i] == t;
      TeamReferences(i);
    }
    forall m | m in MatchRows
      ensures MatchIsConsistent(m)
    {
      if m == MatchRows[0] {
        FirstMatchConsistent();
      } else {
        SecondMatchConsistent();
      }
    }
  }

  /** A match row names a seeded sport and two different seeded teams of that sport. */
  predicate MatchIsConsistent(m: Row) {
    RefersTo(m, "sport_id", SportRows) &&
    RefersTo(m, "home_team_id", TeamRows) && RefersTo(m, "away_team_id", TeamRows) &&
    Field(m, "home_team_id") != Field(m, "away_team_id") &&
    Field(TeamRows[Field(m, "home_team_id").value.n - 1], "sport_id") == Field(m, "sport_id") &&
    Field(TeamRows[Field(m, "away_team_id").value.n - 1], "sport_id") == Field(m, "sport_id")
  }

  lemma TeamReferences(i: nat)
    requires i < |TeamRows|
    ensures RefersTo(TeamRows[i], "sport_id", SportRows)
    ensures Field(TeamRows[i], "sport_id") == Some(Int(if i < 2 then 1 else 2))
  {
    assert TeamRows[i][1].0 == "sport_id";
    assert TeamRows[i][0].0 != "sport_id";
  }

  lemma FirstMatchConsistent()
    ensures MatchIsConsistent(MatchRows[0])
  {
    var m := MatchRows[0];
    assert Field(m, "sport_id") == Some(Int(1));
    assert m[1..][0].0 == "home_team_id" && m[0].0 != "home_team_id";
    assert Field(m, "home_team_id") == Some(Int(1));
    assert m[1..][1..][0].0 == "away_team_id" && m[0].0 != "away_team_id" && m[1].0 != "away_team_id";
    assert Field(m, "away_team_id") == Some(Int(2));
    TeamReferences(0);
    TeamReferences(1);
  }

  lemma SecondMatchConsistent()
    ensures MatchIsConsistent(MatchRows[1])
  {
    var m := MatchRows[1];
    assert Field(m, "sport_id") == Some(Int(2));
    assert m[1..][0].0 == "home_team_id" && m[0].0 != "home_team_id";
    assert Field(m, "home_team_id") == Some(Int(3));
    assert m[1..][1..][0].0 == "away_team_id" && m[0].0 != "away_team_id" && m[1].0 != "away_team_id";
    assert Field(m, "away_team_id") == Some(Int(4));
    TeamReferences(2);
    TeamReferences(3);
  }

  /** Each cleared table is emptied before every cleared table it references, and the
      seed data names only cleared tables. */
  lemma ClearOrderRespectsReferences()
    ensures forall fk, i, j ::
              (fk in ForeignKeys && 0 <= i < |TableClearOrder| && 0 <= j < |TableClearOrder| &&
               TableClearOrder[i] == fk.0 && TableClearOrder[j] == fk.1) ==> i < j
    ensures forall t :: t in TestSeedData ==> t.table in TableClearOrder
  {
  }
}
