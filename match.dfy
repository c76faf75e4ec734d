/** The matches model (backend/src/models/Match.ts): the SQL text and parameter list that
    `getAllMatches` and `getTotalMatchesCount` build from optional filters, and what those
    queries answer over a table of joined match rows. */
module MatchModel {
  import opened Wrappers
  import opened Js
  import opened Sorting

  /** One row of `matches` joined with its sport and its two teams. */
  datatype MatchRow = MatchRow(
    id: int,
    sportId: int,
    sportName: string,
    homeTeamId: int,
    homeTeamName: string,
    awayTeamId: int,
    awayTeamName: string,
    matchDate: string,
    status: string,
    homeScore: int,
    awayScore: int,
    createdAt: string)

  /** `MatchFilters`; `limit` and `offset` are whatever numbers the caller put there
      (Undefined when absent). */
  datatype MatchFilters = MatchFilters(
    sport: Option<string>,
    status: Option<string>,
    team: Option<string>,
    date: Option<string>,
    limit: JsValue,
    offset: JsValue)

  const NoFilters := MatchFilters(None, None, None, None, Undefined, Undefined)

  /** An optional string filter is in force when it is truthy: present and not empty. */
  predicate Given(o: Option<string>) {
    o.Some? && o.value != ""
  }

  // ---------------------------------------------------------------------------
  // SQL text: fixed fragments and `?` placeholders (white space of the template
  // literals normalised to single spaces)

  /** A piece of SQL text: a fixed fragment, or a `?` placeholder. */
  datatype SqlPart = Text(text: string) | Mark

  /** The SQL text the pieces spell. */
  function Render(q: seq<SqlPart>): string {
    if q == [] then "" else (match q[0] case Text(t) => t case Mark => "?") + Render(q[1..])
  }

  /** The number of placeholders. */
  function Marks(q: seq<SqlPart>): (n: nat)
    ensures n <= |q|
  {
    if q == [] then 0 else (if q[0].Mark? then 1 else 0) + Marks(q[1..])
  }

  lemma {:induction false} RenderAppend(a: seq<SqlPart>, b: seq<SqlPart>)
    ensures Render(a + b) == Render(a) + Render(b)
    ensures Marks(a + b) == Marks(a) + Marks(b)
  {
    if a == [] {
      assert a + b == b;
    } else {
      assert (a + b)[1..] == a[1..] + b;
      RenderAppend(a[1..], b);
    }
  }

  lemma AppendAssociates(a: string, b: string, c: string)
    ensures a + b + c == a + (b + c)
  {
  }

  /** The pieces of `parts` with a `sep` fragment between neighbours. */
  function JoinParts(parts: seq<seq<SqlPart>>, sep: string): seq<SqlPart> {
    if parts == [] then []
    else if |parts| == 1 then parts[0]
    else parts[0] + [Text(sep)] + JoinParts(parts[1..], sep)
  }

  function RenderAll(parts: seq<seq<SqlPart>>): (r: seq<string>)
    ensures |r| == |parts| && forall i :: 0 <= i < |parts| ==> r[i] == Render(parts[i])
  {
    if parts == [] then [] else [Render(parts[0])] + RenderAll(parts[1..])
  }

  /** Joining pieces and then rendering is `join` on the rendered parts; each part
      brings its own placeholders and a separator none. */
  lemma {:induction false} RenderJoinParts(parts: seq<seq<SqlPart>>, sep: string)
    ensures Render(JoinParts(parts, sep)) == Join(RenderAll(parts), sep)
    ensures Marks(JoinParts(parts, sep)) == SumMarks(parts)
  {
    if |parts| > 1 {
      RenderJoinParts(parts[1..], sep);
      RenderAppend(parts[0], [Text(sep)]);
      RenderAppend(parts[0] + [Text(sep)], JoinParts(parts[1..], sep));
      assert RenderAll(parts)[1..] == RenderAll(parts[1..]);
    }
  }

  function SumMarks(parts: seq<seq<SqlPart>>): nat {
    if parts == [] then 0 else Marks(parts[0]) + SumMarks(parts[1..])
  }

  lemma {:induction false} SumMarksOfSingles(parts: seq<seq<SqlPart>>)
    requires forall i :: 0 <= i < |parts| ==> Marks(parts[i]) == 1
    ensures SumMarks(parts) == |parts|
  {
    if parts != [] {
      SumMarksOfSingles(parts[1..]);
    }
  }

  const ListSelect := "SELECT m.id, m.sport_id, s.name as sport_name, " +
    "m.home_team_id, ht.name as home_team_name, " +
    "m.away_team_id, at.name as away_team_name, " +
    "m.match_date, m.status, m.home_score, m.away_score, " +
    "m.created_at FROM matches m " +
    "JOIN sports s ON m.sport_id = s.id " +
    "JOIN teams ht ON m.home_team_id = ht.id " +
    "JOIN teams at ON m.away_team_id = at.id"
  const CountSelect := "SELECT COUNT(*) as count FROM matches m " +
    "JOIN sports s ON m.sport_id = s.id"
  const OrderClause := " ORDER BY m.match_date ASC"

  const SportCondition: seq<SqlPart> := [Text("LOWER(s.name) = LOWER("), Mark, Text(")")]
  const StatusCondition: seq<SqlPart> := [Text("m.status = "), Mark]

  /** The WHERE conditions, sport before status. */
  function Conditions(f: MatchFilters): (r: seq<seq<SqlPart>>)
    ensures |r| <= 2
  {
    (if Given(f.sport) then [SportCondition] else []) +
    (if Given(f.status) then [StatusCondition] else [])
  }

  /** The values bound to the placeholders of `Conditions(f)`, in the same order. */
  function ConditionParams(f: MatchFilters): (r: seq<JsValue>)
    ensures |r| == |Conditions(f)|
  {
    (if Given(f.sport) then [Str(f.sport.value)] else []) +
    (if Given(f.status) then [Str(f.status.value)] else [])
  }

  /** Nothing without conditions, else WHERE and the conditions joined by AND. */
  function WhereClause(conditions: seq<seq<SqlPart>>): (r: seq<SqlPart>)
    ensures r == [] <==> conditions == []
  {
    if conditions == [] then [] else [Text(" WHERE ")] + JoinParts(conditions, " AND ")
  }

  /** LIMIT for a truthy limit, and OFFSET only inside it, for a truthy offset. */
  function PageClause(f: MatchFilters): seq<SqlPart> {
    if !Truthy(f.limit) then []
    else [Text(" LIMIT "), Mark] + (if Truthy(f.offset) then [Text(" OFFSET "), Mark] else [])
  }

  function PageParams(f: MatchFilters): (r: seq<JsValue>)
    ensures |r| <= 2
  {
    if !Truthy(f.limit) then []
    else [f.limit] + (if Truthy(f.offset) then [f.offset] else [])
  }

  /** The query `getAllMatches` sends. */
  function ListQuery(f: MatchFilters): seq<SqlPart> {
    [Text(ListSelect)] + WhereClause(Conditions(f)) + [Text(OrderClause)] + PageClause(f)
  }

  function ListParams(f: MatchFilters): seq<JsValue> {
    ConditionParams(f) + PageParams(f)
  }

  /** The query `getTotalMatchesCount` sends. */
  function CountQuery(f: MatchFilters): seq<SqlPart> {
    [Text(CountSelect)] + WhereClause(Conditions(f))
  }

  /** The condition list and its parameters, pushed in the order both queries use. */
  method BuildConditions(f: MatchFilters) returns (conditions: seq<string>, params: seq<JsValue>)
    ensures conditions == RenderAll(Conditions(f)) && params == ConditionParams(f)
  {
    conditions := [];
    params := [];
    if Given(f.sport) {
      conditions := conditions + ["LOWER(s.name) = LOWER(?)"];
      params := params + [Str(f.sport.value)];
    }
    if Given(f.status) {
      conditions := conditions + ["m.status = ?"];
      params := params + [Str(f.status.value)];
    }
    ConditionsRendered(f);
  }

  /** The LIMIT/OFFSET block of `getAllMatches`: appended to the text and to the
      parameters. */
  method AppendPage(f: MatchFilters, sql: string, params: seq<JsValue>)
    returns (sql': string, params': seq<JsValue>)
    ensures sql' == sql + Render(PageClause(f)) && params' == params + PageParams(f)
  {
    sql' := sql;
    params' := params;
    PageRendered(f);
    if Truthy(f.limit) {
      sql' := sql' + " LIMIT ?";
      params' := params' + [f.limit];
      if Truthy(f.offset) {
        sql' := sql' + " OFFSET ?";
        params' := params' + [f.offset];
        AppendAssociates(sql, " LIMIT ?", " OFFSET ?");
      }
    }
  }

  /** `getAllMatches`, up to the call into the database. */
  method BuildListQuery(f: MatchFilters) returns (sql: string, params: seq<JsValue>)
    ensures sql == Render(ListQuery(f)) && params == ListParams(f)
  {
    sql := ListSelect;
    var conditions;
    conditions, params := BuildConditions(f);
    WhereRendered(f);
    if |conditions| > 0 {
      sql := sql + (" WHERE " + Join(conditions, " AND "));
    }
    assert sql == ListSelect + Render(WhereClause(Conditions(f)));
    sql := sql + OrderClause;
    sql, params := AppendPage(f, sql, params);
    ListQueryRendered(f);
  }

  /** `getTotalMatchesCount`, up to the call into the database. */
  method BuildCountQuery(f: MatchFilters) returns (sql: string, params: seq<JsValue>)
    ensures sql == Render(CountQuery(f)) && params == ConditionParams(f)
  {
    sql := CountSelect;
    var conditions;
    conditions, params := BuildConditions(f);
    WhereRendered(f);
    if |conditions| > 0 {
      sql := sql + (" WHERE " + Join(conditions, " AND "));
    }
    assert sql == CountSelect + Render(WhereClause(Conditions(f)));
    RenderAppend([Text(CountSelect)], WhereClause(Conditions(f)));
  }

  lemma ConditionsRendered(f: MatchFilters)
    ensures RenderAll(Conditions(f)) ==
            (if Given(f.sport) then ["LOWER(s.name) = LOWER(?)"] else []) +
            (if Given(f.status) then ["m.status = ?"] else [])
  {
    assert Render(SportCondition) == "LOWER(s.name) = LOWER(?)";
    assert Render(StatusCondition) == "m.status = ?";
  }

  lemma WhereRendered(f: MatchFilters)
    ensures Render(WhereClause(Conditions(f))) ==
            if Conditions(f) == [] then "" else " WHERE " + Join(RenderAll(Conditions(f)), " AND ")
    ensures Marks(WhereClause(Conditions(f))) == |Conditions(f)|
  {
    var cs := Conditions(f);
    RenderJoinParts(cs, " AND ");
    assert Marks(SportCondition) == 1 && Marks(StatusCondition) == 1;
    assert forall i :: 0 <= i < |cs| ==> cs[i] == SportCondition || cs[i] == StatusCondition;
    SumMarksOfSingles(cs);
    if cs != [] {
      RenderAppend([Text(" WHERE ")], JoinParts(cs, " AND "));
    }
  }

  lemma PageRendered(f: MatchFilters)
    ensures Render(PageClause(f)) ==
            if !Truthy(f.limit) then "" else " LIMIT ?" + (if Truthy(f.offset) then " OFFSET ?" else "")
    ensures Marks(PageClause(f)) == |PageParams(f)|
  {
    if Truthy(f.limit) {
      var tail: seq<SqlPart> := if Truthy(f.offset) then [Text(" OFFSET "), Mark] else [];
      RenderAppend([Text(" LIMIT "), Mark], tail);
      assert Render([Text(" LIMIT "), Mark]) == " LIMIT ?";
      assert Render(tail) == if Truthy(f.offset) then " OFFSET ?" else "";
    }
  }

  lemma ListQueryRendered(f: MatchFilters)
    ensures Render(ListQuery(f)) ==
            ListSelect + Render(WhereClause(Conditions(f))) + OrderClause + Render(PageClause(f))
  {
    RenderFrame(ListSelect, WhereClause(Conditions(f)), OrderClause, PageClause(f));
  }

  /** A text, a middle part, a text and a last part render piece by piece. */
  lemma RenderFrame(head: string, middle: seq<SqlPart>, tail: string, rest: seq<SqlPart>)
    ensures Render([Text(head)] + middle + [Text(tail)] + rest) ==
            head + Render(middle) + tail + Render(rest)
    ensures Marks([Text(head)] + middle + [Text(tail)] + rest) == Marks(middle) + Marks(rest)
  {
    RenderAppend([Text(head)], middle);
    RenderAppend([Text(head)] + middle, [Text(tail)]);
    RenderAppend([Text(head)] + middle + [Text(tail)], rest);
  }
  // ---------------------------------------------------------------------------
  // Properties of the queries

  /** `getAllMatches` binds exactly one value per placeholder of its text. */
  lemma ListPlaceholdersMatchParams(f: MatchFilters)
    ensures Marks(ListQuery(f)) == |ListParams(f)|
  {
    WhereRendered(f);
    PageRendered(f);
    RenderFrame(ListSelect, WhereClause(Conditions(f)), OrderClause, PageClause(f));
  }

  /** `getTotalMatchesCount` binds exactly one value per placeholder of its text. */
  lemma CountPlaceholdersMatchParams(f: MatchFilters)
    ensures Marks(CountQuery(f)) == |ConditionParams(f)|
  {
    WhereRendered(f);
    RenderAppend([Text(CountSelect)], WhereClause(Conditions(f)));
  }

  /** The parameters come in the order sport, status, limit, offset, each one present
      exactly when its part of the text is. */
  lemma ParamsInFilterOrder(f: MatchFilters)
    ensures var p := ListParams(f);
            var c := (if Given(f.sport) then 1 else 0) + (if Given(f.status) then 1 else 0);
            |p| == c + (if !Truthy(f.limit) then 0 else if Truthy(f.offset) then 2 else 1) &&
            (Given(f.sport) ==> p[0] == Str(f.sport.value)) &&
            (Given(f.status) ==> p[c - 1] == Str(f.status.value)) &&
            (Truthy(f.limit) ==> p[c] == f.limit) &&
            (Truthy(f.limit) && Truthy(f.offset) ==> p[c + 1] == f.offset)
  {
  }

  /** An offset without a limit is dropped from both the text and the parameters. */
  lemma OffsetNeedsLimit(f: MatchFilters, offset: JsValue)
    requires !Truthy(f.limit)
    ensures ListQuery(f) == ListQuery(f.(offset := offset))
    ensures ListParams(f) == ListParams(f.(offset := offset)) == ConditionParams(f)
  {
  }

  /** The count query has the list query's conditions and parameters, and does not
      depend on limit and offset. */
  lemma CountQueryMirrorsList(f: MatchFilters, limit: JsValue, offset: JsValue)
    ensures CountQuery(f) == CountQuery(f.(limit := limit, offset := offset))
    ensures ListQuery(f) == [Text(ListSelect)] + CountQuery(f)[1..] + [Text(OrderClause)] + PageClause(f)
    ensures ListParams(f)[..|ConditionParams(f)|] == ConditionParams(f)
  {
    assert CountQuery(f)[1..] == WhereClause(Conditions(f));
  }

  /** The `team` and `date` filters reach neither query. */
  lemma TeamAndDateIgnored(f: MatchFilters, team: Option<string>, date: Option<string>)
    ensures ListQuery(f.(team := team, date := date)) == ListQuery(f)
    ensures ListParams(f.(team := team, date := date)) == ListParams(f)
    ensures CountQuery(f.(team := team, date := date)) == CountQuery(f)
  {
  }

  /** WHERE is emitted exactly when a sport or status filter is given. */
  lemma WhereOnlyWithFilters(f: MatchFilters)
    ensures Text(" WHERE ") in ListQuery(f) <==> Given(f.sport) || Given(f.status)
  {
    var cs := Conditions(f);
    var w := WhereClause(cs);
    if cs == [] {
      assert |ListSelect| > 7 && |OrderClause| > 7;
      assert " LIMIT "[1] != " WHERE "[1] && |" OFFSET "| != |" WHERE "|;
      assert forall p :: p in PageClause(f) ==> p == Mark || p == Text(" LIMIT ") || p == Text(" OFFSET ");
    } else {
      assert w[0] == Text(" WHERE ");
      assert ListQuery(f)[1] == w[0];
    }
  }
  // ---------------------------------------------------------------------------
  // What the queries answer over a table of joined rows

  /** Text order of SQLite's BINARY collation: character by character, a proper prefix
      first. */
  predicate LexLe(a: string, b: string) {
    a == [] || (b != [] && (a[0] < b[0] || (a[0] == b[0] && LexLe(a[1..], b[1..]))))
  }

  lemma {:induction false} LexLeAntisymmetric(a: string, b: string)
    requires LexLe(a, b) && LexLe(b, a)
    ensures a == b
  {
    if a != [] && b != [] {
      LexLeAntisymmetric(a[1..], b[1..]);
      assert a == [a[0]] + a[1..] && b == [b[0]] + b[1..];
    }
  }

  lemma {:induction false} LexLeTransitive(a: string, b: string, c: string)
    requires LexLe(a, b) && LexLe(b, c)
    ensures LexLe(a, c)
  {
    if a != [] && b != [] && c != [] && a[0] == b[0] == c[0] {
      LexLeTransitive(a[1..], b[1..], c[1..]);
    }
  }

  lemma {:induction false} LexLeTotal(a: string, b: string)
    ensures LexLe(a, b) || LexLe(b, a)
    ensures LexLe(a, a)
  {
    if a != [] && b != [] {
      LexLeTotal(a[1..], b[1..]);
    }
    if a != [] {
      LexLeTotal(a[1..], a[1..]);
    }
  }

  /** `LexLe` is a total order, so ORDER BY on text is well defined up to ties. */
  lemma LexLeIsTotalOrder()
    ensures IsTotalOrder(LexLe)
  {
    forall a, b | LexLe(a, b) && LexLe(b, a)
      ensures a == b
    {
      LexLeAntisymmetric(a, b);
    }
    forall a, b, c | LexLe(a, b) && LexLe(b, c)
      ensures LexLe(a, c)
    {
      LexLeTransitive(a, b, c);
    }
    forall a, b
      ensures LexLe(a, b) || LexLe(b, a)
    {
      LexLeTotal(a, b);
    }
    forall a
      ensures LexLe(a, a)
    {
      LexLeTotal(a, a);
    }
  }

  function MatchDate(r: MatchRow): string {
    r.matchDate
  }

  /** The WHERE conditions on one row: the sport name equal up to ASCII case (SQLite's
      LOWER folds ASCII letters only), the status equal exactly. */
  predicate RowMatches(f: MatchFilters, r: MatchRow) {
    (Given(f.sport) ==> ToLower(r.sportName) == ToLower(f.sport.value)) &&
    (Given(f.status) ==> r.status == f.status.value)
  }

  /** The rows of `table` that satisfy the conditions, in table order. */
  function Filtered(table: seq<MatchRow>, f: MatchFilters): (r: seq<MatchRow>)
    ensures |r| <= |table|
    ensures forall x :: x in r <==> x in table && RowMatches(f, x)
  {
    if table == [] then []
    else (if RowMatches(f, table[0]) then [table[0]] else []) + Filtered(table[1..], f)
  }

  /** Limit and offset are numbers (or absent), as the routes supply them. */
  predicate NumericPaging(f: MatchFilters) {
    (f.limit.Undefined? || f.limit.Num? || f.limit.NaN?) &&
    (f.offset.Undefined? || f.offset.Num? || f.offset.NaN?)
  }

  function Min(a: int, b: int): int {
    if a <= b then a else b
  }

  /** Rows skipped: a bound OFFSET, negative values counting as zero. */
  function Skip(f: MatchFilters, available: nat): (k: nat)
    requires NumericPaging(f)
    ensures k <= available
  {
    if Truthy(f.limit) && Truthy(f.offset) && f.offset.n > 0 then Min(f.offset.n, available) else 0
  }

  /** LIMIT/OFFSET applied to the ordered rows; a negative LIMIT means no limit. */
  function Page(rows: seq<MatchRow>, f: MatchFilters): (r: seq<MatchRow>)
    requires NumericPaging(f)
    ensures Skip(f, |rows|) + |r| <= |rows|
    ensures r == rows[Skip(f, |rows|)..Skip(f, |rows|) + |r|]
    ensures !Truthy(f.limit) ==> r == rows
    ensures Truthy(f.limit) && f.limit.n > 0 ==> |r| == Min(f.limit.n, |rows| - Skip(f, |rows|))
  {
    if !Truthy(f.limit) then rows
    else
      var rest := rows[Skip(f, |rows|)..];
      if f.limit.n < 0 || f.limit.n >= |rest| then rest else rest[..f.limit.n]
  }

  /** `ordered` is the filtered rows in ascending date order (ties in any order). */
  ghost predicate DateOrdering(ordered: seq<MatchRow>, rows: seq<MatchRow>) {
    multiset(ordered) == multiset(rows) && SortedBy(ordered, MatchDate, LexLe)
  }

  /** The rows a query may resolve with: a page of `filtered` in date order. */
  ghost predicate PageOfOrdering(filtered: seq<MatchRow>, f: MatchFilters, rows: seq<MatchRow>) {
    NumericPaging(f) &&
    exists ordered :: DateOrdering(ordered, filtered) && rows == Page(ordered, f)
  }

  /** The rows `getAllMatches(f)` may resolve with: a page of the matching rows in date
      order. */
  ghost predicate ListAnswer(table: seq<MatchRow>, f: MatchFilters, rows: seq<MatchRow>) {
    PageOfOrdering(Filtered(table, f), f, rows)
  }

  /** Every filter with numeric paging has an answer. */
  lemma ListAnswerExists(table: seq<MatchRow>, f: MatchFilters)
    requires NumericPaging(f)
    ensures ListAnswer(table, f, Page(SortBy(Filtered(table, f), MatchDate, LexLe), f))
  {
    LexLeIsTotalOrder();
    SortBySortsAndPermutes(Filtered(table, f), MatchDate, LexLe);
  }

  /** An answer holds only matching rows of the table, in date order. */
  lemma ListAnswerRows(table: seq<MatchRow>, f: MatchFilters, rows: seq<MatchRow>)
    requires ListAnswer(table, f, rows)
    ensures forall r :: r in rows ==> r in table && RowMatches(f, r)
    ensures SortedBy(rows, MatchDate, LexLe)
  {
    var ordered :| DateOrdering(ordered, Filtered(table, f)) && rows == Page(ordered, f);
    PageOfOrderingMembers(table, f, ordered);
    PageOfOrderingShape(Filtered(table, f), f, ordered);
  }

  /** A page of rows in date order holds all of them when there is no limit, and
      otherwise as many as the limit allows after the offset. */
  lemma ListAnswerSize(filtered: seq<MatchRow>, f: MatchFilters, rows: seq<MatchRow>)
    requires PageOfOrdering(filtered, f, rows)
    ensures !Truthy(f.limit) ==> multiset(rows) == multiset(filtered)
    ensures Truthy(f.limit) && f.limit.n > 0 ==> |rows| == Min(f.limit.n, |filtered| - Skip(f, |filtered|))
  {
    var ordered :| DateOrdering(ordered, filtered) && rows == Page(ordered, f);
    PageOfOrderingShape(filtered, f, ordered);
  }

  lemma PageOfOrderingMembers(table: seq<MatchRow>, f: MatchFilters, ordered: seq<MatchRow>)
    requires NumericPaging(f) && DateOrdering(ordered, Filtered(table, f))
    ensures forall r :: r in Page(ordered, f) ==> r in table && RowMatches(f, r)
  {
    var rows := Page(ordered, f);
    forall r | r in rows
      ensures r in table && RowMatches(f, r)
    {
      assert r in ordered;
      assert r in multiset(ordered);
    }
  }

  lemma PageOfOrderingShape(filtered: seq<MatchRow>, f: MatchFilters, ordered: seq<MatchRow>)
    requires NumericPaging(f) && DateOrdering(ordered, filtered)
    ensures SortedBy(Page(ordered, f), MatchDate, LexLe)
    ensures !Truthy(f.limit) ==> multiset(Page(ordered, f)) == multiset(filtered)
    ensures Truthy(f.limit) && f.limit.n > 0 ==>
            |Page(ordered, f)| == Min(f.limit.n, |filtered| - Skip(f, |filtered|))
  {
    var rows := Page(ordered, f);
    assert |ordered| == |filtered| by {
      assert |multiset(ordered)| == |multiset(filtered)|;
    }
    SortedSlice(ordered, Skip(f, |ordered|), Skip(f, |ordered|) + |rows|, MatchDate, LexLe);
  }

  /** `getMatchById`: the first row with that id, or nothing. */
  function MatchById(table: seq<MatchRow>, id: int): (r: Option<MatchRow>)
    ensures r.None? <==> forall x :: x in table ==> x.id != id
    ensures r.Some? ==> r.value in table && r.value.id == id
  {
    if table == [] then None
    else if table[0].id == id then Some(table[0])
    else MatchById(table[1..], id)
  }

  /** The filters `getMatchesBySport` and `getMatchesByStatus` pass on. */
  function SportOnly(sportName: string): MatchFilters {
    NoFilters.(sport := Some(sportName))
  }

  function StatusOnly(status: string): MatchFilters {
    NoFilters.(status := Some(status))
  }

  /** `getMatchesBySport`: every row of the sport, whatever the case of its name, and
      nothing else; no LIMIT or OFFSET is sent. */
  lemma MatchesBySport(table: seq<MatchRow>, sportName: string, rows: seq<MatchRow>)
    requires sportName != "" && ListAnswer(table, SportOnly(sportName), rows)
    ensures forall r :: r in rows <==> r in table && ToLower(r.sportName) == ToLower(sportName)
    ensures multiset(rows) == multiset(Filtered(table, SportOnly(sportName)))
    ensures ListQuery(SportOnly(sportName)) ==
            [Text(ListSelect)] + WhereClause([SportCondition]) + [Text(OrderClause)]
  {
    ListAnswerRows(table, SportOnly(sportName), rows);
    ListAnswerSize(Filtered(table, SportOnly(sportName)), SportOnly(sportName), rows);
    forall r | r in table && ToLower(r.sportName) == ToLower(sportName)
      ensures r in rows
    {
      assert r in multiset(Filtered(table, SportOnly(sportName)));
    }
  }

  /** `getMatchesByStatus`: every row with exactly that status and nothing else. */
  lemma MatchesByStatus(table: seq<MatchRow>, status: string, rows: seq<MatchRow>)
    requires status != "" && ListAnswer(table, StatusOnly(status), rows)
    ensures forall r :: r in rows <==> r in table && r.status == status
    ensures multiset(rows) == multiset(Filtered(table, StatusOnly(status)))
  {
    ListAnswerRows(table, StatusOnly(status), rows);
    ListAnswerSize(Filtered(table, StatusOnly(status)), StatusOnly(status), rows);
    forall r | r in table && r.status == status
      ensures r in rows
    {
      assert r in multiset(Filtered(table, StatusOnly(status)));
    }
  }
}
