/**
 The trace-summary extraction contract (src/trace_summary_contract.rs): one manifest,
 rendered as SQLite and as Postgres. The two fragments are syntax trees here, given
 meaning over rows with SQL's NULL rules, so that they can be compared.
 */
module SummarySql {
  import opened Common

  datatype Agg = AvgF64 | MaxText | MaxInt | BoolAnd | BoolOr

  datatype Field = Field(eventType: string, path: string, alias: string, agg: Agg, minTier: string)

  // ---------------------------------------------------------------- syntax

  datatype Cond = EventTypeIs(name: string) | LevelIn(levels: set<string>) | Both(left: Cond, right: Cond)

  datatype Cast = Float8 | Int4 | Bool

  datatype Expr =
    | JsonExtract(path: string)
    | Arrow(path: string)
    | CaseWhen(cond: Cond, result: Expr)
    | CastAs(arg: Expr, to: Cast)

  datatype Fold = Avg | Max | Min | And | Or

  /** One select item: a fold of an expression over the rows its filter admits. */
  datatype Item = Item(fold: Fold, arg: Expr, filter: Option<Cond>, alias: string)

  /** The tier gate beside the event-type gate. Every tier but the two named ones admits full traces only. */
  function Gate(f: Field): Cond {
    var named := EventTypeIs(f.eventType);
    if f.minTier == "generic" then named
    else if f.minTier == "detailed" then Both(named, LevelIn({"detailed", "full_traces"}))
    else Both(named, LevelIn({"full_traces"}))
  }

  function SqliteItem(f: Field): Item {
    var fold := match f.agg
      case AvgF64 => Avg
      case MaxText => Max
      case MaxInt => Max
      case BoolOr => Max
      case BoolAnd => Min;
    Item(fold, CaseWhen(Gate(f), JsonExtract(f.path)), None, f.alias)
  }

  function PostgresItem(f: Field): Item {
    var text := Arrow(f.path);
    match f.agg
    case AvgF64 => Item(Avg, CastAs(text, Float8), Some(Gate(f)), f.alias)
    case MaxText => Item(Max, text, Some(Gate(f)), f.alias)
    case MaxInt => Item(Max, CastAs(text, Int4), Some(Gate(f)), f.alias)
    case BoolAnd => Item(And, CastAs(text, Bool), Some(Gate(f)), f.alias)
    case BoolOr => Item(Or, CastAs(text, Bool), Some(Gate(f)), f.alias)
  }

  function SqliteFragment(fields: seq<Field>): seq<Item> {
    seq(|fields|, i requires 0 <= i < |fields| => SqliteItem(fields[i]))
  }

  function PostgresFragment(fields: seq<Field>): seq<Item> {
    seq(|fields|, i requires 0 <= i < |fields| => PostgresItem(fields[i]))
  }

  // ---------------------------------------------------------------- rows and values

  datatype Row = Row(eventType: Option<string>, level: Option<string>, payload: map<string, Json>)

  datatype Value = Null | Int(i: int) | Real(r: real) | Text(s: string) | Boolean(b: bool) | JsonText(json: Json)

  datatype SqlError = OutOfRange | BadCast | Unsupported

  /** What the two engines leave to their configuration and text formats. */
  datatype Engine =
    | Sqlite(render: Json -> string)
    | Postgres(render: Json -> string, atMost: (string, string) -> bool, read: (string, Cast) -> Option<Value>)

  /** Three-valued conditions: None is unknown. */
  function Holds(c: Cond, row: Row): Option<bool> {
    match c
    case EventTypeIs(name) => if row.eventType.None? then None else Some(row.eventType.value == name)
    case LevelIn(levels) => if row.level.None? then None else Some(row.level.value in levels)
    case Both(a, b) =>
      if Holds(a, row) == Some(false) || Holds(b, row) == Some(false) then Some(false)
      else if Holds(a, row).None? || Holds(b, row).None? then None
      else Some(true)
  }

  function InInt4(n: int): bool {
    -0x8000_0000 <= n < 0x8000_0000
  }

  function InInt64(n: int): bool {
    -0x8000_0000_0000_0000 <= n < 0x8000_0000_0000_0000
  }

  /** `json_extract`: booleans are 1 and 0, an integer past 64 bits is a float. */
  function Extracted(render: Json -> string, payload: map<string, Json>, path: string): Value {
    if path !in payload then Null
    else
      match payload[path]
      case JNull => Null
      case JBool(b) => Int(if b then 1 else 0)
      case JInt(n) => if InInt64(n) then Int(n) else Real(n as real)
      case JReal(x) => Real(x)
      case JString(s) => Text(s)
      case other => Text(render(other))
  }

  /** `->>`: the text of the value, kept beside the value it is the text of. */
  function ArrowText(payload: map<string, Json>, path: string): Value {
    if path !in payload || payload[path].JNull? then Null else JsonText(payload[path])
  }

  function TextOf(render: Json -> string, j: Json): string {
    if j.JString? then j.s else render(j)
  }

  function CastJson(e: Engine, j: Json, to: Cast): Result<Value, SqlError>
    requires e.Postgres?
  {
    match to
    case Float8 =>
      if j.JInt? then Ok(Real(j.n as real)) else if j.JReal? then Ok(Real(j.x)) else CastText(e, j, to)
    case Int4 =>
      if j.JInt? then (if InInt4(j.n) then Ok(Int(j.n)) else Err(OutOfRange)) else CastText(e, j, to)
    case Bool =>
      if j.JBool? then Ok(Boolean(j.b))
      else if j == JInt(1) then Ok(Boolean(true)) else if j == JInt(0) then Ok(Boolean(false))
      else CastText(e, j, to)
  }

  function CastText(e: Engine, j: Json, to: Cast): Result<Value, SqlError>
    requires e.Postgres?
  {
    if !j.JString? then Err(BadCast)
    else
      match e.read(j.s, to)
      case Some(v) => Ok(v)
      case None => Err(BadCast)
  }

  function Eval(e: Engine, x: Expr, row: Row): Result<Value, SqlError> {
    match x
    case JsonExtract(path) => if e.Sqlite? then Ok(Extracted(e.render, row.payload, path)) else Err(Unsupported)
    case Arrow(path) => if e.Postgres? then Ok(ArrowText(row.payload, path)) else Err(Unsupported)
    case CaseWhen(c, then_) => if Holds(c, row) == Some(true) then Eval(e, then_, row) else Ok(Null)
    case CastAs(arg, to) =>
      match Eval(e, arg, row)
      case Err(err) => Err(err)
      case Ok(v) =>
        if v.Null? then Ok(Null)
        else if e.Postgres? && v.JsonText? then CastJson(e, v.json, to)
        else Err(Unsupported)
  }

  // ---------------------------------------------------------------- folds

  /** The argument of the fold at each row its filter admits, NULLs dropped: every fold ignores NULL. */
  function Arguments(e: Engine, item: Item, rows: seq<Row>): Result<seq<Value>, SqlError> {
    if rows == [] then Ok([])
    else if item.filter.Some? && Holds(item.filter.value, rows[0]) != Some(true) then Arguments(e, item, rows[1..])
    else
      match Eval(e, item.arg, rows[0])
      case Err(err) => Err(err)
      case Ok(v) =>
        match Arguments(e, item, rows[1..])
        case Err(err) => Err(err)
        case Ok(rest) => Ok(if v.Null? then rest else [v] + rest)
  }

  function Number(v: Value): real {
    if v.Int? then v.i as real else if v.Real? then v.r else 0.0
  }

  function Sum(vs: seq<Value>): real {
    if vs == [] then 0.0 else Number(vs[0]) + Sum(vs[1..])
  }

  /** Strings by code point, which is also the order of their UTF-8 bytes. */
  predicate CodeOrder(a: string, b: string) {
    a == "" || (b != "" && (a[0] < b[0] || (a[0] == b[0] && CodeOrder(a[1..], b[1..]))))
  }

  lemma {:induction false} CodeOrderIs(a: string, b: string)
    ensures CodeOrder(a, b) <==> a == b || Precedes(a, b)
  {
    if a != "" && b != "" {
      CodeOrderIs(a[1..], b[1..]);
      assert a == [a[0]] + a[1..] && b == [b[0]] + b[1..];
    }
  }

  predicate AtMost(e: Engine, a: Value, b: Value) {
    match (a, b)
    case (Text(s), Text(t)) => if e.Postgres? then e.atMost(s, t) else CodeOrder(s, t)
    case (JsonText(j), JsonText(k)) =>
      if e.Postgres? then e.atMost(TextOf(e.render, j), TextOf(e.render, k)) else false
    case (Text(_), _) => false
    case (_, Text(_)) => true
    case (_, _) => Number(a) <= Number(b)
  }

  /** The last of the greatest values met. */
  function Greatest(e: Engine, vs: seq<Value>): Value
    requires vs != []
  {
    if |vs| == 1 then vs[0]
    else
      var m := Greatest(e, vs[1..]);
      if AtMost(e, vs[0], m) then m else vs[0]
  }

  function Smallest(e: Engine, vs: seq<Value>): Value
    requires vs != []
  {
    if |vs| == 1 then vs[0]
    else
      var m := Smallest(e, vs[1..]);
      if AtMost(e, m, vs[0]) then m else vs[0]
  }

  function Shown(e: Engine, v: Value): Value {
    if v.JsonText? then Text(TextOf(e.render, v.json)) else v
  }

  function Folded(e: Engine, fold: Fold, vs: seq<Value>): Result<Value, SqlError> {
    match fold
    case Avg => Ok(if vs == [] then Null else Real(Sum(vs) / |vs| as real))
    case Max => Ok(if vs == [] then Null else Shown(e, Greatest(e, vs)))
    case Min => Ok(if vs == [] then Null else Shown(e, Smallest(e, vs)))
    case And => if e.Sqlite? then Err(Unsupported) else Ok(if vs == [] then Null else Boolean(forall v <- vs :: v == Boolean(true)))
    case Or => if e.Sqlite? then Err(Unsupported) else Ok(if vs == [] then Null else Boolean(exists v <- vs :: v == Boolean(true)))
  }

  /** The value one select item has over the rows of a group. */
  function Denotes(e: Engine, item: Item, rows: seq<Row>): Result<Value, SqlError> {
    match Arguments(e, item, rows)
    case Err(err) => Err(err)
    case Ok(vs) => Folded(e, item.fold, vs)
  }

  // ---------------------------------------------------------------- agreement

  /** The same column value, SQLite's 1 and 0 standing for true and false. */
  predicate Agree(s: Value, p: Value) {
    s == p || (p.Boolean? && s == Int(if p.b then 1 else 0))
  }

  ghost predicate Passes(f: Field, row: Row) {
    Holds(Gate(f), row) == Some(true)
  }

  predicate TypedFor(agg: Agg, j: Json) {
    j.JNull? ||
    match agg
    case AvgF64 => j.JInt? || j.JReal?
    case MaxText => j.JString?
    case MaxInt => j.JInt?
    case BoolAnd => j.JBool?
    case BoolOr => j.JBool?
  }

  /** The emitter's promise: at the rows the field reads, the payload has the field's type, is null, or lacks it. */
  ghost predicate WellTyped(f: Field, rows: seq<Row>) {
    forall row <- rows :: Passes(f, row) && f.path in row.payload ==> TypedFor(f.agg, row.payload[f.path])
  }

  /** Postgres casts to a 32-bit integer; a larger one is an error there and not in SQLite. */
  ghost predicate Fits(f: Field, rows: seq<Row>) {
    forall row <- rows :: Passes(f, row) && f.path in row.payload && row.payload[f.path].JInt? ==>
      -2_147_483_648 <= row.payload[f.path].n <= 2_147_483_647
  }

  /** What related arguments look like to the two engines. */
  predicate Related(agg: Agg, s: Value, p: Value) {
    match agg
    case AvgF64 => (s.Int? || s.Real?) && p == Real(Number(s))
    case MaxText => s.Text? && p == JsonText(JString(s.s))
    case MaxInt => s.Int? && p == s
    case BoolAnd => (s == Int(1) && p == Boolean(true)) || (s == Int(0) && p == Boolean(false))
    case BoolOr => (s == Int(1) && p == Boolean(true)) || (s == Int(0) && p == Boolean(false))
  }

  ghost predicate AllRelated(agg: Agg, ss: seq<Value>, ps: seq<Value>) {
    |ss| == |ps| && forall i :: 0 <= i < |ss| ==> Related(agg, ss[i], ps[i])
  }

  /** CASE to NULL in one engine and FILTER in the other hand the folds related arguments. */
  lemma {:induction false} ArgumentsRelate(lite: Engine, pg: Engine, f: Field, rows: seq<Row>)
    requires lite.Sqlite? && pg.Postgres? && WellTyped(f, rows) && (f.agg == MaxInt ==> Fits(f, rows))
    ensures var ss, ps := Arguments(lite, SqliteItem(f), rows), Arguments(pg, PostgresItem(f), rows);
            ss.Ok? && ps.Ok? && AllRelated(f.agg, ss.value, ps.value)
  {
    if rows != [] {
      var row := rows[0];
      assert row in rows && forall r <- rows[1..] :: r in rows;
      ArgumentsRelate(lite, pg, f, rows[1..]);
      if Passes(f, row) {
        PassingRow(lite, pg, f, row);
      }
    }
  }

  lemma PassingRow(lite: Engine, pg: Engine, f: Field, row: Row)
    requires lite.Sqlite? && pg.Postgres? && Passes(f, row)
    requires f.path in row.payload ==> TypedFor(f.agg, row.payload[f.path])
    requires f.agg == MaxInt && f.path in row.payload && row.payload[f.path].JInt? ==> InInt4(row.payload[f.path].n)
    ensures var s, p := Eval(lite, SqliteItem(f).arg, row), Eval(pg, PostgresItem(f).arg, row);
            && s.Ok? && p.Ok? && (s.value.Null? <==> p.value.Null?)
            && (!s.value.Null? ==> Related(f.agg, s.value, p.value))
  {
  }

  lemma {:induction false} SumsAgree(ss: seq<Value>, ps: seq<Value>)
    requires AllRelated(AvgF64, ss, ps)
    ensures Sum(ss) == Sum(ps)
  {
    if ss != [] {
      assert Related(AvgF64, ss[0], ps[0]);
      SumsAgree(ss[1..], ps[1..]);
    }
  }

  lemma {:induction false} MaximaRelate(lite: Engine, pg: Engine, agg: Agg, ss: seq<Value>, ps: seq<Value>)
    requires lite.Sqlite? && pg.Postgres? && (agg == MaxText || agg == MaxInt) && ss != [] && AllRelated(agg, ss, ps)
    requires agg == MaxText ==> Bytewise(pg)
    ensures Related(agg, Greatest(lite, ss), Greatest(pg, ps))
  {
    assert Related(agg, ss[0], ps[0]);
    if |ss| > 1 {
      MaximaRelate(lite, pg, agg, ss[1..], ps[1..]);
    }
  }

  ghost predicate Bytewise(pg: Engine)
    requires pg.Postgres?
  {
    forall a, b :: pg.atMost(a, b) <==> CodeOrder(a, b)
  }

  /** MIN over 0/1 is conjunction and MAX over 0/1 is disjunction. */
  lemma {:induction false} BitsFold(lite: Engine, agg: Agg, ss: seq<Value>, ps: seq<Value>)
    requires lite.Sqlite? && (agg == BoolAnd || agg == BoolOr) && ss != [] && AllRelated(agg, ss, ps)
    ensures Smallest(lite, ss) == Int(if forall v <- ps :: v == Boolean(true) then 1 else 0)
    ensures Greatest(lite, ss) == Int(if exists v <- ps :: v == Boolean(true) then 1 else 0)
  {
    assert Related(agg, ss[0], ps[0]) && ps[0] in ps;
    if |ss| > 1 {
      BitsFold(lite, agg, ss[1..], ps[1..]);
      assert forall v :: v in ps <==> v == ps[0] || v in ps[1..];
    } else {
      assert ps == [ps[0]];
    }
  }

  /**
   The two fragments mean the same: every field over every group of well-typed rows,
   including empty and all-NULL groups, whatever lies at the rows the gate refuses.
   */
  lemma SameMeaning(lite: Engine, pg: Engine, f: Field, rows: seq<Row>)
    requires lite.Sqlite? && pg.Postgres? && WellTyped(f, rows)
    requires f.agg == MaxInt ==> Fits(f, rows)
    requires f.agg == MaxText ==> Bytewise(pg)
    ensures var s, p := Denotes(lite, SqliteItem(f), rows), Denotes(pg, PostgresItem(f), rows);
            s.Ok? && p.Ok? && Agree(s.value, p.value)
  {
    ArgumentsRelate(lite, pg, f, rows);
    var ss, ps := Arguments(lite, SqliteItem(f), rows).value, Arguments(pg, PostgresItem(f), rows).value;
    if ss != [] {
      match f.agg
      case AvgF64 => SumsAgree(ss, ps);
      case MaxText => MaximaRelate(lite, pg, f.agg, ss, ps);
      case MaxInt => MaximaRelate(lite, pg, f.agg, ss, ps);
      case BoolAnd => BitsFold(lite, f.agg, ss, ps);
      case BoolOr => BitsFold(lite, f.agg, ss, ps);
    }
  }

  /** Column by column and alias by alias, the whole select list. */
  lemma SameFragment(lite: Engine, pg: Engine, fields: seq<Field>, rows: seq<Row>)
    requires lite.Sqlite? && pg.Postgres? && Bytewise(pg)
    requires forall f <- fields :: WellTyped(f, rows) && (f.agg == MaxInt ==> Fits(f, rows))
    ensures |SqliteFragment(fields)| == |PostgresFragment(fields)| == |fields|
    ensures forall i :: 0 <= i < |fields| ==>
              var s, p := SqliteFragment(fields)[i], PostgresFragment(fields)[i];
              && s.alias == p.alias == fields[i].alias && Denotes(lite, s, rows).Ok? && Denotes(pg, p, rows).Ok?
              && Agree(Denotes(lite, s, rows).value, Denotes(pg, p, rows).value)
  {
    forall i | 0 <= i < |fields|
      ensures var s, p := SqliteFragment(fields)[i], PostgresFragment(fields)[i];
              && s.alias == p.alias == fields[i].alias && Denotes(lite, s, rows).Ok? && Denotes(pg, p, rows).Ok?
              && Agree(Denotes(lite, s, rows).value, Denotes(pg, p, rows).value)
    {
      assert fields[i] in fields;
      SameMeaning(lite, pg, fields[i], rows);
    }
  }

  // ---------------------------------------------------------------- where the dialects part

  /** Past 64 bits SQLite answers an integer field with a float. */
  lemma WideIntegersAreReals(lite: Engine, f: Field, row: Row, n: int)
    requires lite.Sqlite? && f.agg == MaxInt && Passes(f, row) && f.path in row.payload && row.payload[f.path] == JInt(n)
    ensures Denotes(lite, SqliteItem(f), [row]) ==
            Ok(if -9_223_372_036_854_775_808 <= n <= 9_223_372_036_854_775_807 then Int(n) else Real(n as real))
  {
    var v := Extracted(lite.render, row.payload, f.path);
    assert Eval(lite, SqliteItem(f).arg, row) == Ok(v);
    assert [row][1..] == [] && Arguments(lite, SqliteItem(f), []) == Ok([]);
    assert [v] + [] == [v] && Arguments(lite, SqliteItem(f), [row]) == Ok([v]);
    assert Greatest(lite, [v]) == v;
  }

  /** An integer field past 32 bits: Postgres refuses the query exactly when one contributes. */
  lemma {:induction false} IntegerFieldsIff(pg: Engine, f: Field, rows: seq<Row>)
    requires pg.Postgres? && f.agg == MaxInt && WellTyped(f, rows)
    ensures Denotes(pg, PostgresItem(f), rows).Ok? <==> Fits(f, rows)
    ensures Arguments(pg, PostgresItem(f), rows).Ok? <==> Fits(f, rows)
  {
    if rows != [] {
      var row := rows[0];
      assert row in rows && forall r <- rows[1..] :: r in rows;
      IntegerFieldsIff(pg, f, rows[1..]);
      assert forall r :: r in rows <==> r == row || r in rows[1..];
      assert Eval(pg, Arrow(f.path), row) == Ok(ArrowText(row.payload, f.path));
    }
  }

  ghost predicate TotalOrder(le: (string, string) -> bool) {
    && (forall a, b :: le(a, b) || le(b, a))
    && (forall a, b :: le(a, b) && le(b, a) ==> a == b)
  }

  ghost predicate TextAgrees(lite: Engine, pg: Engine, f: Field) {
    forall rows | WellTyped(f, rows) ::
      Denotes(lite, SqliteItem(f), rows).Ok? && Denotes(pg, PostgresItem(f), rows).Ok? &&
      Agree(Denotes(lite, SqliteItem(f), rows).value, Denotes(pg, PostgresItem(f), rows).value)
  }

  lemma {:induction false} CodeOrderTotal(a: string, b: string)
    ensures CodeOrder(a, b) || CodeOrder(b, a)
    ensures CodeOrder(a, b) && CodeOrder(b, a) ==> a == b
  {
    if a != "" && b != "" {
      CodeOrderTotal(a[1..], b[1..]);
      if a[0] == b[0] && a[1..] == b[1..] {
        assert a == [a[0]] + a[1..] && b == [b[0]] + b[1..];
      }
    }
  }

  function OneText(f: Field, s: string): Row {
    Row(Some(f.eventType), Some("full_traces"), map[f.path := JString(s)])
  }

  lemma OneTextReads(lite: Engine, pg: Engine, f: Field, s: string)
    requires lite.Sqlite? && pg.Postgres? && f.agg == MaxText
    ensures Passes(f, OneText(f, s))
    ensures Eval(lite, SqliteItem(f).arg, OneText(f, s)) == Ok(Text(s))
    ensures Eval(pg, PostgresItem(f).arg, OneText(f, s)) == Ok(JsonText(JString(s)))
  {
  }

  lemma TwoArguments(e: Engine, item: Item, x: Row, y: Row, v: Value, w: Value)
    requires item.filter.Some? ==> Holds(item.filter.value, x) == Some(true) && Holds(item.filter.value, y) == Some(true)
    requires Eval(e, item.arg, x) == Ok(v) && Eval(e, item.arg, y) == Ok(w) && !v.Null? && !w.Null?
    ensures Arguments(e, item, [x, y]) == Ok([v, w])
  {
    assert [x, y][1..] == [y] && [y][1..] == [];
    assert [w] + [] == [w] && [v] + [w] == [v, w];
    assert Arguments(e, item, []) == Ok([]);
    assert Arguments(e, item, [y]) == Ok([w]);
  }

  lemma GreatestOfTwo(e: Engine, v: Value, w: Value)
    ensures Greatest(e, [v, w]) == if AtMost(e, v, w) then w else v
  {
  }

  lemma TwoTexts(lite: Engine, pg: Engine, f: Field, a: string, b: string)
    requires lite.Sqlite? && pg.Postgres? && f.agg == MaxText
    ensures WellTyped(f, [OneText(f, a), OneText(f, b)])
    ensures Denotes(lite, SqliteItem(f), [OneText(f, a), OneText(f, b)]) == Ok(Text(if CodeOrder(a, b) then b else a))
    ensures Denotes(pg, PostgresItem(f), [OneText(f, a), OneText(f, b)]) == Ok(Text(if pg.atMost(a, b) then b else a))
  {
    var x, y := OneText(f, a), OneText(f, b);
    OneTextReads(lite, pg, f, a);
    OneTextReads(lite, pg, f, b);
    TwoArguments(lite, SqliteItem(f), x, y, Text(a), Text(b));
    TwoArguments(pg, PostgresItem(f), x, y, JsonText(JString(a)), JsonText(JString(b)));
    GreatestOfTwo(lite, Text(a), Text(b));
    GreatestOfTwo(pg, JsonText(JString(a)), JsonText(JString(b)));
  }

  /** A text maximum is the same in both engines, for every group, exactly when the Postgres collation is bytewise. */
  lemma TextAgreesIff(lite: Engine, pg: Engine, f: Field)
    requires lite.Sqlite? && pg.Postgres? && f.agg == MaxText && TotalOrder(pg.atMost)
    ensures TextAgrees(lite, pg, f) <==> Bytewise(pg)
  {
    if Bytewise(pg) {
      forall rows | WellTyped(f, rows)
        ensures Denotes(lite, SqliteItem(f), rows).Ok? && Denotes(pg, PostgresItem(f), rows).Ok? &&
                Agree(Denotes(lite, SqliteItem(f), rows).value, Denotes(pg, PostgresItem(f), rows).value)
      {
        SameMeaning(lite, pg, f, rows);
      }
    }
    if TextAgrees(lite, pg, f) {
      forall a, b ensures pg.atMost(a, b) <==> CodeOrder(a, b) {
        TwoTexts(lite, pg, f, a, b);
        CodeOrderTotal(a, a);
      }
    }
  }

  // ---------------------------------------------------------------- tiers

  /** The tiers in order; a level that is none of them has no rank. */
  function Rank(level: string): Option<nat> {
    if level == "generic" then Some(0)
    else if level == "detailed" then Some(1)
    else if level == "full_traces" then Some(2)
    else None
  }

  /** A row passes a field's gate exactly when it has the event type and reaches the field's tier. */
  lemma GateIsTier(f: Field, row: Row)
    requires Rank(f.minTier).Some?
    ensures Passes(f, row) <==>
            && row.eventType == Some(f.eventType)
            && (f.minTier == "generic" ||
                (row.level.Some? && Rank(row.level.value).Some? && Rank(row.level.value).value >= Rank(f.minTier).value))
  {
    var named := EventTypeIs(f.eventType);
    assert Holds(named, row) == Some(true) <==> row.eventType == Some(f.eventType);
    if f.minTier != "generic" {
      var levels := if f.minTier == "detailed" then {"detailed", "full_traces"} else {"full_traces"};
      assert Holds(LevelIn(levels), row) == Some(true) <==> row.level.Some? && row.level.value in levels;
      assert Gate(f) == Both(named, LevelIn(levels));
    }
  }

  /** Rows the gate refuses do not contribute in either engine: remove them and every column stands. */
  lemma RefusedRowsDoNotCount(e: Engine, f: Field, before: seq<Row>, row: Row, after: seq<Row>)
    requires !Passes(f, row)
    ensures var item := if e.Sqlite? then SqliteItem(f) else PostgresItem(f);
            Denotes(e, item, before + [row] + after) == Denotes(e, item, before + after)
  {
    ArgumentsSkip(e, f, before, row, after);
  }

  lemma {:induction false} ArgumentsSkip(e: Engine, f: Field, before: seq<Row>, row: Row, after: seq<Row>)
    requires !Passes(f, row)
    ensures var item := if e.Sqlite? then SqliteItem(f) else PostgresItem(f);
            Arguments(e, item, before + [row] + after) == Arguments(e, item, before + after)
    decreases |before|
  {
    if before == [] {
      assert ([row] + after)[1..] == after && before + [row] + after == [row] + after && before + after == after;
    } else {
      ArgumentsSkip(e, f, before[1..], row, after);
      assert (before + [row] + after)[1..] == before[1..] + [row] + after;
      assert (before + after)[1..] == before[1..] + after;
    }
  }

  // ---------------------------------------------------------------- what a column means

  /** The JSON values a field folds: those of the rows its gate passes, where present and not null. */
  ghost function Contributing(f: Field, rows: seq<Row>): seq<Json> {
    if rows == [] then []
    else if Passes(f, rows[0]) && f.path in rows[0].payload && !rows[0].payload[f.path].JNull?
    then [rows[0].payload[f.path]] + Contributing(f, rows[1..])
    else Contributing(f, rows[1..])
  }

  function Total(js: seq<Json>): real {
    if js == [] then 0.0
    else (if js[0].JInt? then js[0].n as real else if js[0].JReal? then js[0].x else 0.0) + Total(js[1..])
  }

  /** The contract's folds, said of the JSON values themselves. */
  ghost predicate IsFold(agg: Agg, js: seq<Json>, v: Value) {
    if js == [] then v == Null
    else
      match agg
      case AvgF64 => v == Real(Total(js) / |js| as real)
      case MaxText => v.Text? && JString(v.s) in js && forall j <- js :: j.JString? ==> CodeOrder(j.s, v.s)
      case MaxInt => v.Int? && JInt(v.i) in js && forall j <- js :: j.JInt? ==> j.n <= v.i
      case BoolAnd => v == Boolean(forall j <- js :: j == JBool(true))
      case BoolOr => v == Boolean(exists j <- js :: j == JBool(true))
  }

  function PostgresValue(agg: Agg, j: Json): Value {
    match agg
    case AvgF64 => Real(if j.JInt? then j.n as real else if j.JReal? then j.x else 0.0)
    case MaxText => JsonText(j)
    case MaxInt => if j.JInt? then Int(j.n) else Null
    case BoolAnd => Boolean(j == JBool(true))
    case BoolOr => Boolean(j == JBool(true))
  }

  function PostgresValues(agg: Agg, js: seq<Json>): (vs: seq<Value>)
    ensures |vs| == |js| && forall i :: 0 <= i < |js| ==> vs[i] == PostgresValue(agg, js[i])
  {
    if js == [] then [] else [PostgresValue(agg, js[0])] + PostgresValues(agg, js[1..])
  }

  lemma {:induction false} ArgumentsContribute(pg: Engine, f: Field, rows: seq<Row>)
    requires pg.Postgres? && WellTyped(f, rows) && (f.agg == MaxInt ==> Fits(f, rows))
    ensures Arguments(pg, PostgresItem(f), rows) == Ok(PostgresValues(f.agg, Contributing(f, rows)))
    ensures forall j <- Contributing(f, rows) :: !j.JNull? && TypedFor(f.agg, j)
  {
    if rows != [] {
      var row := rows[0];
      assert row in rows && forall r <- rows[1..] :: r in rows;
      ArgumentsContribute(pg, f, rows[1..]);
      if Passes(f, row) {
        RowContributes(pg, f, row);
      }
    }
  }

  lemma RowContributes(pg: Engine, f: Field, row: Row)
    requires pg.Postgres? && (f.path in row.payload ==> TypedFor(f.agg, row.payload[f.path]))
    requires f.agg == MaxInt && f.path in row.payload && row.payload[f.path].JInt? ==> InInt4(row.payload[f.path].n)
    ensures Eval(pg, PostgresItem(f).arg, row) ==
            Ok(if f.path in row.payload && !row.payload[f.path].JNull? then PostgresValue(f.agg, row.payload[f.path]) else Null)
  {
    assert Eval(pg, Arrow(f.path), row) == Ok(ArrowText(row.payload, f.path));
  }

  lemma {:induction false} TotalIsSum(js: seq<Json>)
    ensures Sum(PostgresValues(AvgF64, js)) == Total(js)
  {
    if js != [] {
      TotalIsSum(js[1..]);
      assert PostgresValues(AvgF64, js)[1..] == PostgresValues(AvgF64, js[1..]);
    }
  }

  lemma {:induction false} CodeOrderTransitive(a: string, b: string, c: string)
    requires CodeOrder(a, b) && CodeOrder(b, c)
    ensures CodeOrder(a, c)
  {
    if a != "" && a[0] == b[0] == c[0] {
      CodeOrderTransitive(a[1..], b[1..], c[1..]);
    }
  }

  ghost predicate Linear(le: (string, string) -> bool) {
    && (forall a, b :: le(a, b) || le(b, a))
    && (forall a, b, c :: le(a, b) && le(b, c) ==> le(a, c))
  }

  lemma BytewiseIsLinear(pg: Engine)
    requires pg.Postgres? && Bytewise(pg)
    ensures Linear(pg.atMost)
  {
    forall a, b ensures pg.atMost(a, b) || pg.atMost(b, a) { CodeOrderTotal(a, b); }
    forall a, b, c | pg.atMost(a, b) && pg.atMost(b, c) ensures pg.atMost(a, c) { CodeOrderTransitive(a, b, c); }
  }

  lemma {:induction false} GreatestText(pg: Engine, vs: seq<Value>)
    requires pg.Postgres? && Linear(pg.atMost) && vs != [] && forall v <- vs :: v.JsonText? && v.json.JString?
    ensures var g := Greatest(pg, vs); g in vs && forall v <- vs :: pg.atMost(v.json.s, g.json.s)
  {
    assert vs[0] in vs;
    if |vs| > 1 {
      assert forall v <- vs[1..] :: v in vs;
      GreatestText(pg, vs[1..]);
      assert forall v <- vs :: v == vs[0] || v in vs[1..];
    } else {
      assert vs == [vs[0]];
    }
  }

  lemma {:induction false} GreatestInt(pg: Engine, vs: seq<Value>)
    requires vs != [] && forall v <- vs :: v.Int?
    ensures var g := Greatest(pg, vs); g in vs && forall v <- vs :: v.i <= g.i
  {
    assert vs[0] in vs;
    if |vs| > 1 {
      assert forall v <- vs[1..] :: v in vs;
      GreatestInt(pg, vs[1..]);
      assert forall v <- vs :: v == vs[0] || v in vs[1..];
    } else {
      assert vs == [vs[0]];
    }
  }

  lemma BitsMean(pg: Engine, agg: Agg, js: seq<Json>)
    requires pg.Postgres? && (agg == BoolAnd || agg == BoolOr)
    ensures var r := Folded(pg, if agg == BoolAnd then And else Or, PostgresValues(agg, js)); r.Ok? && IsFold(agg, js, r.value)
  {
    ValuesCorrespond(agg, js);
  }

  /**
   What each column is, said without either dialect: the mean, the greatest text or
   integer, the conjunction or the disjunction of the values that contribute, and NULL
   when none does.
   */
  lemma ColumnMeansItsFold(pg: Engine, f: Field, rows: seq<Row>)
    requires pg.Postgres? && WellTyped(f, rows)
    requires f.agg == MaxInt ==> Fits(f, rows)
    requires f.agg == MaxText ==> Bytewise(pg)
    ensures Denotes(pg, PostgresItem(f), rows).Ok?
    ensures IsFold(f.agg, Contributing(f, rows), Denotes(pg, PostgresItem(f), rows).value)
  {
    ArgumentsContribute(pg, f, rows);
    FoldMeans(pg, f, Contributing(f, rows));
  }

  lemma FoldMeans(pg: Engine, f: Field, js: seq<Json>)
    requires pg.Postgres? && (forall j <- js :: !j.JNull? && TypedFor(f.agg, j)) && (f.agg == MaxText ==> Bytewise(pg))
    ensures var r := Folded(pg, PostgresItem(f).fold, PostgresValues(f.agg, js)); r.Ok? && IsFold(f.agg, js, r.value)
  {
    match f.agg
    case AvgF64 => AverageMeans(pg, js);
    case MaxText => MaximaMean(pg, f.agg, js);
    case MaxInt => MaximaMean(pg, f.agg, js);
    case BoolAnd => BitsMean(pg, f.agg, js);
    case BoolOr => BitsMean(pg, f.agg, js);
  }

  lemma AverageMeans(pg: Engine, js: seq<Json>)
    ensures var r := Folded(pg, Avg, PostgresValues(AvgF64, js)); r.Ok? && IsFold(AvgF64, js, r.value)
  {
    TotalIsSum(js);
  }

  lemma MaximaMean(pg: Engine, agg: Agg, js: seq<Json>)
    requires pg.Postgres? && (agg == MaxInt || agg == MaxText) && (agg == MaxText ==> Bytewise(pg))
    requires forall j <- js :: !j.JNull? && TypedFor(agg, j)
    ensures var r := Folded(pg, Max, PostgresValues(agg, js)); r.Ok? && IsFold(agg, js, r.value)
  {
    var vs := PostgresValues(agg, js);
    ValuesCorrespond(agg, js);
    if js != [] && agg == MaxText {
      BytewiseIsLinear(pg);
      GreatestText(pg, vs);
    } else if js != [] {
      GreatestInt(pg, vs);
    }
  }

  lemma ValuesCorrespond(agg: Agg, js: seq<Json>)
    ensures forall j <- js :: PostgresValue(agg, j) in PostgresValues(agg, js)
    ensures forall v <- PostgresValues(agg, js) :: exists j <- js :: v == PostgresValue(agg, j)
  {
    var vs := PostgresValues(agg, js);
    forall j <- js ensures PostgresValue(agg, j) in vs {
      var i :| 0 <= i < |js| && js[i] == j;
      assert vs[i] in vs;
    }
    forall v <- vs ensures exists j <- js :: v == PostgresValue(agg, j) {
      var i :| 0 <= i < |vs| && vs[i] == v;
      assert js[i] in js;
    }
  }
}
