/**
 The audit query engine: a filter record is compiled to conditions with numbered placeholders and
 a parameter vector, and the page of the answer is cut out by limit and offset.
 */
module AuditQuery {
  import opened Wrappers
  import opened Seqs
  import opened TextOrder  // as SQLite's BINARY collation
  import FilterValues
  import Like

  const TWO_32: nat := 0x1_0000_0000

  type u32 = n: nat | n < TWO_32

  datatype Row = Row(id: string, timestamp: string, agentId: string, eventType: string, severity: string,
                     toolName: Option<string>, details: string, operationId: Option<string>)

  datatype Filter = Filter(timeStart: Option<string>, timeEnd: Option<string>, agentId: Option<string>,
                           eventType: Option<string>, severity: Option<string>, toolName: Option<string>,
                           search: Option<string>, operationId: Option<string>, page: u32, pageSize: u32)

  // ---------------------------------------------------------------- what a filter asks for

  /** A list filter accepts its values; one that lists nothing accepts everything. */
  predicate Listed(raw: string, cell: string) {
    FilterValues.Parse(raw) == [] || cell in FilterValues.Parse(raw)
  }

  /** The rows a filter is meant to select. */
  predicate Wanted(f: Filter, row: Row) {
    && (f.timeStart.Some? ==> NotAfter(f.timeStart.value, row.timestamp))
    && (f.timeEnd.Some? ==> NotAfter(row.timestamp, f.timeEnd.value))
    && (f.agentId.Some? ==> row.agentId == f.agentId.value)
    && (f.eventType.Some? ==> Listed(f.eventType.value, row.eventType))
    && (f.severity.Some? ==> Listed(f.severity.value, row.severity))
    && (f.toolName.Some? ==> row.toolName == f.toolName)
    && (f.operationId.Some? ==> row.operationId == f.operationId)
    && (f.search.Some? ==> Like.Contains(row.details, f.search.value))
  }

  // ---------------------------------------------------------------- conditions and their SQL meaning

  datatype Column = Timestamp | AgentId | EventType | Severity | ToolName | OperationId | Details

  function Cell(row: Row, column: Column): Option<string> {
    match column
    case Timestamp => Some(row.timestamp)
    case AgentId => Some(row.agentId)
    case EventType => Some(row.eventType)
    case Severity => Some(row.severity)
    case ToolName => row.toolName
    case OperationId => row.operationId
    case Details => Some(row.details)
  }

  /** Placeholders are numbered from 1. */
  datatype Condition =
    | AtLeast(column: Column, slot: nat)
    | AtMost(column: Column, slot: nat)
    | Equal(column: Column, slot: nat)
    | In(column: Column, slots: seq<nat>)
    | LikeEscaped(column: Column, slot: nat)

  function Slots(c: Condition): seq<nat> {
    match c
    case In(_, slots) => slots
    case _ => [c.slot]
  }

  function AllSlots(conditions: seq<Condition>): seq<nat> {
    if conditions == [] then []
    else AllSlots(conditions[..|conditions| - 1]) + Slots(conditions[|conditions| - 1])
  }

  /** Three-valued truth: a comparison with NULL is unknown. */
  datatype Truth = Yes | No | Unknown

  function Decided(b: bool): Truth {
    if b then Yes else No
  }

  function And(a: Truth, b: Truth): Truth {
    if a.No? || b.No? then No else if a.Unknown? || b.Unknown? then Unknown else Yes
  }

  /** An unbound placeholder is NULL. */
  function Bound(params: seq<string>, slot: nat): Option<string> {
    if 1 <= slot <= |params| then Some(params[slot - 1]) else None
  }

  function Member(x: string, slots: seq<nat>, params: seq<string>): Truth {
    if exists i :: 0 <= i < |slots| && Bound(params, slots[i]) == Some(x) then Yes
    else if exists i :: 0 <= i < |slots| && Bound(params, slots[i]).None? then Unknown
    else No
  }

  function Evaluate(c: Condition, row: Row, params: seq<string>): Truth {
    match Cell(row, c.column)
    case None => Unknown
    case Some(x) =>
      match c
      case In(_, slots) => Member(x, slots, params)
      case _ =>
        match Bound(params, c.slot)
        case None => Unknown
        case Some(y) =>
          Decided(match c
                  case AtLeast(_, _) => NotAfter(y, x)
                  case AtMost(_, _) => NotAfter(x, y)
                  case Equal(_, _) => x == y
                  case _ => Like.Matches(y, x))
  }

  /** The conditions joined by AND; no condition at all selects every row. */
  function Where(conditions: seq<Condition>, row: Row, params: seq<string>): Truth {
    if conditions == [] then Yes
    else
      var n := |conditions| - 1;
      And(Where(conditions[..n], row, params), Evaluate(conditions[n], row, params))
  }

  // ---------------------------------------------------------------- the tests a filter consists of

  datatype Test =
    | Since(time: string)
    | Until(time: string)
    | Is(column: Column, value: string)
    | Among(column: Column, values: seq<string>)
    | Mentions(search: string)

  predicate Passes(t: Test, row: Row) {
    match t
    case Since(time) => NotAfter(time, row.timestamp)
    case Until(time) => NotAfter(row.timestamp, time)
    case Is(column, value) => Cell(row, column) == Some(value)
    case Among(column, values) => Cell(row, column).Some? && Cell(row, column).value in values
    case Mentions(search) => Like.Contains(row.details, search)
  }

  predicate PassesAll(tests: seq<Test>, row: Row) {
    forall i :: 0 <= i < |tests| ==> Passes(tests[i], row)
  }

  /** Consecutive numbers. */
  function Range(first: nat, n: nat): (slots: seq<nat>)
    ensures |slots| == n && forall i :: 0 <= i < n ==> slots[i] == first + i
  {
    seq(n, i requires 0 <= i < n => first + i)
  }

  /** The condition for a test whose first parameter goes to slot `first`. */
  function Clause(t: Test, first: nat): Condition {
    match t
    case Since(_) => AtLeast(Timestamp, first)
    case Until(_) => AtMost(Timestamp, first)
    case Is(column, _) => Equal(column, first)
    case Among(column, values) => if |values| == 1 then Equal(column, first) else In(column, Range(first, |values|))
    case Mentions(_) => LikeEscaped(Details, first)
  }

  function Arguments(t: Test): seq<string> {
    match t
    case Since(time) => [time]
    case Until(time) => [time]
    case Is(_, value) => [value]
    case Among(_, values) => values
    case Mentions(search) => [Like.SearchPattern(search)]
  }

  datatype Sql = Sql(conditions: seq<Condition>, params: seq<string>)

  function Extended(sql: Sql, t: Test): Sql {
    Sql(sql.conditions + [Clause(t, |sql.params| + 1)], sql.params + Arguments(t))
  }

  function Compiled(tests: seq<Test>): Sql {
    if tests == [] then Sql([], []) else Extended(Compiled(tests[..|tests| - 1]), tests[|tests| - 1])
  }

  /** Every parameter is referenced exactly once, in order. */
  predicate SlotsInOrder(sql: Sql) {
    AllSlots(sql.conditions) == Range(1, |sql.params|)
  }

  // ---------------------------------------------------------------- compiled conditions mean their tests

  lemma ClauseMeans(t: Test, row: Row, params: seq<string>)
    ensures var all := params + Arguments(t);
            Evaluate(Clause(t, |params| + 1), row, all) == Yes <==> Passes(t, row)
  {
    var all := params + Arguments(t);
    match t {
      case Among(column, values) =>
        if |values| == 1 {
          assert Bound(all, |params| + 1) == Some(values[0]);
        } else if Cell(row, column).Some? {
          MemberMeans(Cell(row, column).value, values, params);
        }
      case Mentions(search) =>
        assert Bound(all, |params| + 1) == Some(Like.SearchPattern(search));
        Like.SearchMeansContains(search, row.details);
      case _ =>
        assert Bound(all, |params| + 1) == Some(Arguments(t)[0]);
    }
  }

  lemma MemberMeans(x: string, values: seq<string>, params: seq<string>)
    ensures Member(x, Range(|params| + 1, |values|), params + values) == Yes <==> x in values
  {
    var slots, all := Range(|params| + 1, |values|), params + values;
    forall i | 0 <= i < |values|
      ensures Bound(all, slots[i]) == Some(values[i])
    {
      assert slots[i] == |params| + 1 + i;
    }
    if x in values {
      var i :| 0 <= i < |values| && values[i] == x;
      assert Bound(all, slots[i]) == Some(x);
    }
  }

  predicate Within(slots: seq<nat>, n: nat) {
    forall i :: 0 <= i < |slots| ==> 1 <= slots[i] <= n
  }

  /** Parameters that come later do not change what earlier conditions say. */
  lemma {:induction false} WhereStays(conditions: seq<Condition>, row: Row, params: seq<string>, more: seq<string>)
    requires Within(AllSlots(conditions), |params|)
    ensures Where(conditions, row, params + more) == Where(conditions, row, params)
    decreases |conditions|
  {
    if conditions != [] {
      var n := |conditions| - 1;
      var front, last := conditions[..n], conditions[n];
      WithinParts(AllSlots(front), Slots(last), |params|);
      WhereStays(front, row, params, more);
      EvaluateStays(last, row, params, more);
    }
  }

  lemma WithinParts(a: seq<nat>, b: seq<nat>, n: nat)
    requires Within(a + b, n)
    ensures Within(a, n) && Within(b, n)
  {
    assert forall i :: 0 <= i < |a| ==> a[i] == (a + b)[i];
    assert forall i :: 0 <= i < |b| ==> b[i] == (a + b)[|a| + i];
  }

  lemma EvaluateStays(c: Condition, row: Row, params: seq<string>, more: seq<string>)
    requires Within(Slots(c), |params|)
    ensures Evaluate(c, row, params + more) == Evaluate(c, row, params)
  {
    assert forall i :: 0 <= i < |Slots(c)| ==> Bound(params + more, Slots(c)[i]) == Bound(params, Slots(c)[i]);
    if !c.In? {
      assert Slots(c)[0] == c.slot;
    }
  }

  lemma {:induction false} CompiledInOrder(tests: seq<Test>)
    ensures SlotsInOrder(Compiled(tests))
    decreases |tests|
  {
    if tests != [] {
      CompiledInOrder(tests[..|tests| - 1]);
      ExtendedInOrder(Compiled(tests[..|tests| - 1]), tests[|tests| - 1]);
    }
  }

  lemma ExtendedInOrder(sql: Sql, t: Test)
    requires SlotsInOrder(sql)
    ensures SlotsInOrder(Extended(sql, t))
  {
    AllSlotsSnoc(sql.conditions, Clause(t, |sql.params| + 1));
    ClauseSlots(t, |sql.params| + 1);
    RangeAppend(|sql.params|, |Arguments(t)|);
  }

  lemma RangeAppend(n: nat, k: nat)
    ensures Range(1, n) + Range(n + 1, k) == Range(1, n + k)
  {
  }

  lemma AllSlotsSnoc(conditions: seq<Condition>, c: Condition)
    ensures AllSlots(conditions + [c]) == AllSlots(conditions) + Slots(c)
  {
    assert (conditions + [c])[..|conditions|] == conditions;
  }

  lemma ClauseSlots(t: Test, first: nat)
    ensures Slots(Clause(t, first)) == Range(first, |Arguments(t)|)
  {
    assert Range(first, 1) == [first];
  }

  predicate Selects(sql: Sql, row: Row) {
    Where(sql.conditions, row, sql.params) == Yes
  }

  /** The compiled WHERE clause is true of a row exactly when the row passes all tests. */
  lemma {:induction false} CompiledMeansTests(tests: seq<Test>, row: Row)
    ensures Selects(Compiled(tests), row) <==> PassesAll(tests, row)
    decreases |tests|
  {
    if tests != [] {
      var n := |tests| - 1;
      CompiledMeansTests(tests[..n], row);
      CompiledInOrder(tests[..n]);
      ExtendedSelects(Compiled(tests[..n]), tests[n], row);
      PassesSnoc(tests, row);
    }
  }

  lemma ExtendedSelects(sql: Sql, t: Test, row: Row)
    requires SlotsInOrder(sql)
    ensures Selects(Extended(sql, t), row) <==> Selects(sql, row) && Passes(t, row)
  {
    WhereStays(sql.conditions, row, sql.params, Arguments(t));
    ClauseMeans(t, row, sql.params);
    WhereSnoc(sql.conditions, Clause(t, |sql.params| + 1), row, sql.params + Arguments(t));
  }

  lemma WhereSnoc(conditions: seq<Condition>, c: Condition, row: Row, params: seq<string>)
    ensures Where(conditions + [c], row, params) == And(Where(conditions, row, params), Evaluate(c, row, params))
  {
    assert (conditions + [c])[..|conditions|] == conditions;
  }

  lemma PassesSnoc(tests: seq<Test>, row: Row)
    requires tests != []
    ensures var n := |tests| - 1; PassesAll(tests, row) <==> PassesAll(tests[..n], row) && Passes(tests[n], row)
  {
    var front := tests[..|tests| - 1];
    assert forall i :: 0 <= i < |front| ==> front[i] == tests[i];
  }

  // ---------------------------------------------------------------- the tests of a filter

  function ListTest(column: Column, raw: Option<string>): seq<Test> {
    if raw.None? || FilterValues.Parse(raw.value) == [] then [] else [Among(column, FilterValues.Parse(raw.value))]
  }

  function TimeTests(f: Filter): seq<Test> {
    (if f.timeStart.Some? then [Since(f.timeStart.value)] else [])
    + (if f.timeEnd.Some? then [Until(f.timeEnd.value)] else [])
  }

  function ListTests(f: Filter): seq<Test> {
    ListTest(EventType, f.eventType) + ListTest(Severity, f.severity)
  }

  function IsTest(column: Column, value: Option<string>): seq<Test> {
    if value.Some? then [Is(column, value.value)] else []
  }

  function SearchTest(search: Option<string>): seq<Test> {
    if search.Some? then [Mentions(search.value)] else []
  }

  function FirstTests(f: Filter): seq<Test> {
    TimeTests(f) + IsTest(AgentId, f.agentId) + ListTests(f)
  }

  function LastTests(f: Filter): seq<Test> {
    IsTest(ToolName, f.toolName) + IsTest(OperationId, f.operationId) + SearchTest(f.search)
  }

  function TestsOf(f: Filter): seq<Test> {
    FirstTests(f) + LastTests(f)
  }

  lemma PassesAppend(a: seq<Test>, b: seq<Test>, row: Row)
    ensures PassesAll(a + b, row) <==> PassesAll(a, row) && PassesAll(b, row)
  {
    assert forall i :: 0 <= i < |a| ==> (a + b)[i] == a[i];
    assert forall i :: 0 <= i < |b| ==> (a + b)[|a| + i] == b[i];
  }

  lemma PassesOne(t: Test, row: Row)
    ensures PassesAll([t], row) <==> Passes(t, row)
  {
    if PassesAll([t], row) {
      assert Passes([t][0], row);
    }
  }

  lemma TimeTestsMean(f: Filter, row: Row)
    ensures PassesAll(TimeTests(f), row) <==>
            && (f.timeStart.Some? ==> NotAfter(f.timeStart.value, row.timestamp))
            && (f.timeEnd.Some? ==> NotAfter(row.timestamp, f.timeEnd.value))
  {
    var a := if f.timeStart.Some? then [Since(f.timeStart.value)] else [];
    var b := if f.timeEnd.Some? then [Until(f.timeEnd.value)] else [];
    PassesAppend(a, b, row);
    if f.timeStart.Some? { PassesOne(a[0], row); }
    if f.timeEnd.Some? { PassesOne(b[0], row); }
  }

  lemma ListTestMeans(column: Column, raw: Option<string>, row: Row)
    requires Cell(row, column).Some?
    ensures PassesAll(ListTest(column, raw), row) <==> (raw.Some? ==> Listed(raw.value, Cell(row, column).value))
  {
    if raw.Some? { PassesOne(Among(column, FilterValues.Parse(raw.value)), row); }
  }

  lemma ListTestsMean(f: Filter, row: Row)
    ensures PassesAll(ListTests(f), row) <==>
            && (f.eventType.Some? ==> Listed(f.eventType.value, row.eventType))
            && (f.severity.Some? ==> Listed(f.severity.value, row.severity))
  {
    PassesAppend(ListTest(EventType, f.eventType), ListTest(Severity, f.severity), row);
    ListTestMeans(EventType, f.eventType, row);
    ListTestMeans(Severity, f.severity, row);
  }

  lemma IsTestMeans(column: Column, value: Option<string>, row: Row)
    ensures PassesAll(IsTest(column, value), row) <==> value.None? || Cell(row, column) == value
  {
    if value.Some? { PassesOne(Is(column, value.value), row); }
  }

  lemma FirstTestsMean(f: Filter, row: Row)
    ensures PassesAll(FirstTests(f), row) <==> PassesAll(TimeTests(f), row) && PassesAll(ListTests(f), row)
                                               && (f.agentId.None? || Some(row.agentId) == f.agentId)
  {
    var agent := IsTest(AgentId, f.agentId);
    PassesAppend(TimeTests(f), agent, row);
    PassesAppend(TimeTests(f) + agent, ListTests(f), row);
    IsTestMeans(AgentId, f.agentId, row);
  }

  lemma LastTestsMean(f: Filter, row: Row)
    ensures PassesAll(LastTests(f), row) <==>
            && (f.toolName.None? || row.toolName == f.toolName)
            && (f.operationId.None? || row.operationId == f.operationId)
            && (f.search.Some? ==> Like.Contains(row.details, f.search.value))
  {
    var tool, op := IsTest(ToolName, f.toolName), IsTest(OperationId, f.operationId);
    PassesAppend(tool, op, row);
    PassesAppend(tool + op, SearchTest(f.search), row);
    IsTestMeans(ToolName, f.toolName, row);
    IsTestMeans(OperationId, f.operationId, row);
    if f.search.Some? { PassesOne(Mentions(f.search.value), row); }
  }

  /** The tests of a filter together say what the filter asks for. */
  lemma TestsMeanFilter(f: Filter, row: Row)
    ensures PassesAll(TestsOf(f), row) <==> Wanted(f, row)
  {
    PassesAppend(FirstTests(f), LastTests(f), row);
    FirstTestsMean(f, row);
    LastTestsMean(f, row);
    TimeTestsMean(f, row);
    ListTestsMean(f, row);
  }

  // ---------------------------------------------------------------- building the query

  method Placeholders(first: nat, n: nat) returns (slots: seq<nat>)
    ensures slots == Range(first, n)
  {
    slots := [];
    for i := 0 to n
      invariant slots == Range(first, i)
    {
      slots := slots + [first + i];
    }
  }

  /** The two vectors that grow while a filter is compiled. */
  class QueryBuilder {
    var conditions: seq<Condition>
    var params: seq<string>
    ghost var tests: seq<Test>

    ghost predicate Valid()
      reads this
    {
      Sql(conditions, params) == Compiled(tests)
    }

    constructor ()
      ensures Valid() && tests == []
    {
      conditions, params, tests := [], [], [];
    }

    /** One condition with one parameter. */
    method PushOne(c: Condition, value: string, ghost t: Test)
      requires Valid() && c == Clause(t, |params| + 1) && Arguments(t) == [value]
      modifies this
      ensures Valid() && tests == old(tests) + [t]
    {
      conditions := conditions + [c];
      params := params + [value];
      tests := tests + [t];
      assert tests[..|tests| - 1] == old(tests);
    }

    method PushScalarOrListFilter(column: Column, raw: Option<string>)
      requires Valid()
      modifies this
      ensures Valid() && tests == old(tests) + ListTest(column, raw)
    {
      if raw.None? {
        return;
      }
      var values := FilterValues.Parse(raw.value);
      if values != [] {
        PushAmong(column, values);
      }
    }

    method PushAmong(column: Column, values: seq<string>)
      requires Valid() && values != []
      modifies this
      ensures Valid() && tests == old(tests) + [Among(column, values)]
    {
      if |values| == 1 {
        assert values == [values[0]];
        PushOne(Equal(column, |params| + 1), values[0], Among(column, values));
      } else {
        PushList(column, values);
      }
    }

    /** One condition with several parameters. */
    method PushList(column: Column, values: seq<string>)
      requires Valid() && |values| > 1
      modifies this
      ensures Valid() && tests == old(tests) + [Among(column, values)]
    {
      var slots := Placeholders(|params| + 1, |values|);
      conditions := conditions + [In(column, slots)];
      PushValues(values);
      tests := tests + [Among(column, values)];
      assert tests[..|tests| - 1] == old(tests);
    }

    method PushValues(values: seq<string>)
      modifies this`params
      ensures params == old(params) + values
    {
      for i := 0 to |values|
        invariant params == old(params) + values[..i]
      {
        params := params + [values[i]];
      }
      assert values[..|values|] == values;
    }

    method PushTimes(f: Filter)
      requires Valid() && tests == []
      modifies this
      ensures Valid() && tests == TimeTests(f)
    {
      if f.timeStart.Some? {
        PushOne(AtLeast(Timestamp, |params| + 1), f.timeStart.value, Since(f.timeStart.value));
      }
      if f.timeEnd.Some? {
        PushOne(AtMost(Timestamp, |params| + 1), f.timeEnd.value, Until(f.timeEnd.value));
      }
    }

    method PushEqual(column: Column, value: Option<string>)
      requires Valid()
      modifies this
      ensures Valid() && tests == old(tests) + IsTest(column, value)
    {
      if value.Some? {
        PushOne(Equal(column, |params| + 1), value.value, Is(column, value.value));
      }
    }

    method PushSearch(search: Option<string>)
      requires Valid()
      modifies this
      ensures Valid() && tests == old(tests) + SearchTest(search)
    {
      if search.Some? {
        PushOne(LikeEscaped(Details, |params| + 1), Like.SearchPattern(search.value), Mentions(search.value));
      }
    }

    method PushFirst(f: Filter)
      requires Valid() && tests == []
      modifies this
      ensures Valid() && tests == FirstTests(f)
    {
      PushTimes(f);
      PushEqual(AgentId, f.agentId);
      PushScalarOrListFilter(EventType, f.eventType);
      PushScalarOrListFilter(Severity, f.severity);
      AssociateFour(TimeTests(f), IsTest(AgentId, f.agentId), ListTest(EventType, f.eventType), ListTest(Severity, f.severity));
    }

    method PushLast(f: Filter)
      requires Valid()
      modifies this
      ensures Valid() && tests == old(tests) + LastTests(f)
    {
      PushEqual(ToolName, f.toolName);
      PushEqual(OperationId, f.operationId);
      PushSearch(f.search);
      AssociateFour(old(tests), IsTest(ToolName, f.toolName), IsTest(OperationId, f.operationId), SearchTest(f.search));
    }
  }

  /**
   The WHERE clause of `query`: true of a row exactly when the filter wants the row, with every
   parameter referenced once and in order.
   */
  method BuildWhere(f: Filter) returns (sql: Sql)
    ensures forall row :: Selects(sql, row) <==> Wanted(f, row)
    ensures SlotsInOrder(sql)
  {
    var builder := new QueryBuilder();
    builder.PushFirst(f);
    builder.PushLast(f);
    sql := Sql(builder.conditions, builder.params);
    CompiledInOrder(builder.tests);
    forall row
      ensures Selects(sql, row) <==> Wanted(f, row)
    {
      CompiledMeansTests(builder.tests, row);
      TestsMeanFilter(f, row);
    }
  }

  // ---------------------------------------------------------------- answers and pages

  /** What the database selects, in the order it delivers rows. */
  function Select(table: seq<Row>, sql: Sql): seq<Row> {
    if table == [] then []
    else Select(table[..|table| - 1], sql) + if Selects(sql, table[|table| - 1]) then [table[|table| - 1]] else []
  }

  /** The rows a filter wants, in the same order. */
  function Answer(table: seq<Row>, f: Filter): seq<Row> {
    if table == [] then []
    else Answer(table[..|table| - 1], f) + if Wanted(f, table[|table| - 1]) then [table[|table| - 1]] else []
  }

  lemma {:induction false} SelectIsAnswer(table: seq<Row>, sql: Sql, f: Filter)
    requires forall row :: Selects(sql, row) <==> Wanted(f, row)
    ensures Select(table, sql) == Answer(table, f)
    decreases |table|
  {
    if table != [] {
      SelectIsAnswer(table[..|table| - 1], sql, f);
    }
  }

  /** LIMIT and OFFSET. */
  function Window<T>(s: seq<T>, offset: nat, limit: nat): seq<T> {
    if offset >= |s| then [] else if offset + limit >= |s| then s[offset..] else s[offset..offset + limit]
  }

  function PageNumber(page: u32): nat {
    if page == 0 then 1 else page
  }

  function PageSize(size: u32): nat {
    if size < 1 then 1 else if size > 1000 then 1000 else size
  }

  /** `(page - 1) * page_size` in 32 bits. */
  function Offset(page: nat, size: nat): nat
    requires page >= 1
  {
    (page - 1) * size % TWO_32
  }

  datatype PagedResult = PagedResult(items: seq<Row>, page: nat, pageSize: nat, total: nat)

  /**
   `query`: the page cut out of the rows the filter wants, and how many of these there are.  Page 0
   stands for page 1, and the size is kept between 1 and 1000.
   */
  method Query(table: seq<Row>, f: Filter) returns (r: PagedResult)
    ensures r.total == |Answer(table, f)|
    ensures r.page == if f.page >= 1 then f.page else 1
    ensures 1 <= f.pageSize <= 1000 ==> r.pageSize == f.pageSize
    ensures (f.pageSize < 1 ==> r.pageSize == 1) && (f.pageSize > 1000 ==> r.pageSize == 1000)
    ensures r.items == Window(Answer(table, f), Offset(r.page, r.pageSize), r.pageSize)
  {
    var sql := BuildWhere(f);
    var selected := Select(table, sql);
    var page, size := PageNumber(f.page), PageSize(f.pageSize);
    var offset := (page - 1) * size % TWO_32;
    r := PagedResult(Window(selected, offset, size), page, size, |selected|);
    SelectIsAnswer(table, sql, f);
  }

  /** Pages 1 to n, one after the other. */
  function Pages<T>(s: seq<T>, size: nat, n: nat): seq<T> {
    if n == 0 then [] else Pages(s, size, n - 1) + Window(s, Offset(n, size), size)
  }

  lemma NoWrap(page: nat, size: nat)
    requires page >= 1 && (page - 1) * size < TWO_32
    ensures Offset(page, size) == (page - 1) * size
  {
  }

  lemma Product(n: nat, size: nat)
    requires n >= 1
    ensures n * size == (n - 1) * size + size && (n - 1) * size <= n * size
  {
  }

  /** As long as offsets fit in 32 bits, the first n pages are the first n * size rows. */
  lemma {:induction false} PagesAreAPrefix<T>(s: seq<T>, size: nat, n: nat)
    requires n >= 1 ==> (n - 1) * size < TWO_32
    ensures Pages(s, size, n) == if n * size >= |s| then s else s[..n * size]
  {
    if n == 0 {
      assert s[..0] == [];
    } else {
      Product(n, size);
      if n > 1 {
        Product(n - 1, size);
      }
      PagesAreAPrefix(s, size, n - 1);
      NoWrap(n, size);
      WindowExtends(s, (n - 1) * size, size);
    }
  }

  lemma WindowExtends<T>(s: seq<T>, offset: nat, size: nat)
    ensures (if offset >= |s| then s else s[..offset]) + Window(s, offset, size) ==
            if offset + size >= |s| then s else s[..offset + size]
  {
  }

  /** An answer of up to 2^32 rows is read completely, each row once, by reading page after page. */
  lemma PagesReadEverything<T>(s: seq<T>, size: nat, n: nat)
    requires size >= 1 && |s| <= TWO_32 && n >= 1
    requires (n - 1) * size < |s| <= n * size  // n is the number of the last page
    ensures Pages(s, size, n) == s
  {
    PagesAreAPrefix(s, size, n);
  }

  /** The rows wanted do not depend on the page. */
  lemma {:induction false} AnswerIgnoresPage(table: seq<Row>, f: Filter, page: u32)
    ensures Answer(table, f.(page := page)) == Answer(table, f)
    decreases |table|
  {
    if table != [] {
      AnswerIgnoresPage(table[..|table| - 1], f, page);
    }
  }

  /** A client that asks for pages 1 to n, one after the other, as long as their offsets fit in 32 bits. */
  method QueryPages(table: seq<Row>, f: Filter, n: u32) returns (items: seq<Row>)
    requires 1 <= f.pageSize <= 1000 && (n >= 1 ==> (n - 1) * f.pageSize < TWO_32)
    ensures items == if n * f.pageSize >= |Answer(table, f)| then Answer(table, f) else Answer(table, f)[..n * f.pageSize]
  {
    items := [];
    for i := 0 to n
      invariant items == Pages(Answer(table, f), f.pageSize, i)
    {
      var page := Query(table, f.(page := i + 1));
      AnswerIgnoresPage(table, f, i + 1);
      items := items + page.items;
    }
    PagesAreAPrefix(Answer(table, f), f.pageSize, n);
  }

  ghost predicate Distinct<T>(s: seq<T>) {
    forall i, j :: 0 <= i < j < |s| ==> s[i] != s[j]
  }

  /**
   A page is the right one exactly when its offset fits in 32 bits, or when even the offset that
   is left of it lies behind the last row.
   */
  lemma RightPageExactlyWithoutWrap<T>(s: seq<T>, page: nat, size: nat)
    requires page >= 1 && size >= 1 && Distinct(s)
    ensures Window(s, Offset(page, size), size) == Window(s, (page - 1) * size, size) <==>
            (page - 1) * size < TWO_32 || |s| <= Offset(page, size)
  {
    var exact, wrapped := (page - 1) * size, Offset(page, size);
    WrapIsLess(exact);
    if exact < TWO_32 {
      NoWrap(page, size);
    } else if wrapped < |s| {
      assert Window(s, wrapped, size)[0] == s[wrapped];
      if exact < |s| {
        assert Window(s, exact, size)[0] == s[exact];
      }
    }
  }

  lemma WrapIsLess(n: nat)
    ensures n % TWO_32 < TWO_32 && n % TWO_32 <= n
  {
  }

  /** A page far behind the end is not empty: its offset wraps around to row 704. */
  lemma WrappedPageIsNotEmpty<T>(s: seq<T>)
    requires 704 < |s| <= 1_000_000
    ensures Window(s, Offset(4_294_969, 1000), 1000) != [] && Window(s, 4_294_968 * 1000, 1000) == []
  {
    assert 4_294_968 * 1000 == 0x1_0000_0000 + 704;
    assert Offset(4_294_969, 1000) == 704;
  }
}
