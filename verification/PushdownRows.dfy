/** The enumeration itself, and why pruning it loses no row that the filters would keep. */
module PushdownRows {
  import opened Wrappers
  import opened Ascii
  import opened Decimals
  import opened RowLists
  import opened Pushdown

  // ----- sorting -----

  predicate CharsLeq(a: string, b: string) {
    a == "" || (b != "" && (if a[0] == b[0] then CharsLeq(a[1..], b[1..]) else a[0] < b[0]))
  }

  predicate KeysLeq(a: seq<string>, b: seq<string>) {
    a == [] || (b != [] && (if a[0] == b[0] then KeysLeq(a[1..], b[1..]) else CharsLeq(a[0], b[0])))
  }

  lemma {:induction false} CharsOrdered(a: string, b: string, c: string)
    ensures CharsLeq(a, b) || CharsLeq(b, a)
    ensures CharsLeq(a, b) && CharsLeq(b, c) ==> CharsLeq(a, c)
    ensures CharsLeq(a, b) && CharsLeq(b, a) ==> a == b
  {
    if a != "" && b != "" && a[0] == b[0] {
      CharsOrdered(a[1..], b[1..], if c == "" then "" else c[1..]);
      assert a == [a[0]] + a[1..] && b == [b[0]] + b[1..];
    }
  }

  lemma {:induction false} KeysOrdered(a: seq<string>, b: seq<string>, c: seq<string>)
    ensures KeysLeq(a, b) || KeysLeq(b, a)
    ensures KeysLeq(a, b) && KeysLeq(b, c) ==> KeysLeq(a, c)
  {
    if a != [] && b != [] {
      CharsOrdered(a[0], b[0], if c == [] then "" else c[0]);
      CharsOrdered(b[0], if c == [] then "" else c[0], a[0]);
      if a[0] == b[0] {
        KeysOrdered(a[1..], b[1..], if c == [] then [] else c[1..]);
      }
    }
  }

  function Zeros(n: nat): string { seq(n, _ => '0') }

  /** `{value:010}` */
  function Padded(n: int, width: nat): string {
    var sign := if n < 0 then "-" else "";
    var digits := Decimal(if n < 0 then -n else n);
    var used := |sign| + |digits|;
    sign + Zeros(if used < width then width - used else 0) + digits
  }

  function SortKey(row: Row, column: string): string {
    if column in row.columns then
      match row.columns[column]
      case Str(s) => Fold(s)
      case Num(n) => Padded(n, 10)
      case NullScalar => ""
    else ""
  }

  function Keys(row: Row, columns: seq<string>): seq<string> {
    seq(|columns|, i requires 0 <= i < |columns| => SortKey(row, columns[i]))
  }

  function ByKeys(columns: seq<string>): (Row, Row) -> bool {
    (x, y) => KeysLeq(Keys(x, columns), Keys(y, columns))
  }

  lemma KeysPreorder(columns: seq<string>)
    ensures Preorder(ByKeys(columns))
  {
    hide Keys, KeysLeq;
    forall x, y ensures ByKeys(columns)(x, y) || ByKeys(columns)(y, x) {
      KeysOrdered(Keys(x, columns), Keys(y, columns), []);
    }
    forall x, y, z ensures ByKeys(columns)(x, y) && ByKeys(columns)(y, z) ==> ByKeys(columns)(x, z) {
      KeysOrdered(Keys(x, columns), Keys(y, columns), Keys(z, columns));
    }
  }

  // ----- the relations -----

  datatype Relation = CatalogsRelation | SchemataRelation | TablesRelation | ColumnsRelation | ViewsRelation

  function SortColumns(rel: Relation): seq<string> {
    match rel
    case TablesRelation => ["table_catalog", "table_schema", "table_name"]
    case ColumnsRelation => ["table_catalog", "table_schema", "table_name", "ordinal_position"]
    case ViewsRelation => ["table_catalog", "table_schema", "table_name"]
    case CatalogsRelation => []
    case SchemataRelation => []
  }

  function Or(o: Option<string>, name: string): string {
    match o case Some(own) => own case None => name
  }

  function CatalogRow(c: string): Row { Row(map["catalog_name" := Str(c)], []) }

  function SchemaRow(c: string, s: string): Row { Row(map["catalog_name" := Str(c), "schema_name" := Str(s)], []) }

  /** A table row names itself by what the listing says of it, where it says anything. */
  function TableRow(c: string, s: string, t: TableInfo): Row {
    Row(map["table_catalog" := Str(Or(t.catalogName, c)), "table_schema" := Str(Or(t.schemaName, s)),
            "table_name" := Str(Or(t.name, TableName(t)))], [t.payload])
  }

  function ViewRow(c: string, s: string, t: TableInfo): Row {
    Row(map["table_catalog" := Str(c), "table_schema" := Str(s), "table_name" := Str(TableName(t))], [])
  }

  /** A column row names its table by what that table's own details say. */
  function ColumnRow(c: string, s: string, name: string, d: TableInfo, index: nat, column: ColumnInfo): Row {
    Row(map["table_catalog" := Str(Or(d.catalogName, c)), "table_schema" := Str(Or(d.schemaName, s)),
            "table_name" := Str(Or(d.name, name)), "column_name" := Str(column.name),
            "ordinal_position" := Num((match column.position case Some(p) => p case None => index) + 1)],
        [d.payload, column.payload])
  }

  datatype Placed = Placed(index: nat, info: ColumnInfo)

  const MAX_POSITION := 0x7fff_ffff

  function OrderedColumns(d: TableInfo): seq<Placed> {
    StableSort((x: Placed, y: Placed) => PositionOf(x.info) <= PositionOf(y.info),
               seq(|d.columns|, i requires 0 <= i < |d.columns| => Placed(i, d.columns[i])))
  }

  lemma ColumnsOrdered(d: TableInfo)
    ensures |OrderedColumns(d)| == |d.columns|
  {
    var leq := (x: Placed, y: Placed) => PositionOf(x.info) <= PositionOf(y.info);
    SortKeepsLength(leq, seq(|d.columns|, i requires 0 <= i < |d.columns| => Placed(i, d.columns[i])));
  }

  function PositionOf(c: ColumnInfo): int { match c.position case Some(p) => p case None => MAX_POSITION }

  // ----- the enumeration, level by level -----

  function ColumnLevel(f: Filters, c: string, s: string, name: string, d: TableInfo, column: Placed): seq<Row> {
    if MatchesName(f.columns, column.info.name) then [ColumnRow(c, s, name, d, column.index, column.info)] else []
  }

  function TableLevel(rel: Relation, u: Unity, f: Filters, c: string, s: string, t: TableInfo): seq<Row> {
    if !MatchesName(f.tables, TableName(t)) then []
    else
      match rel
      case TablesRelation => [TableRow(c, s, t)]
      case ViewsRelation => if IsView(t) then [ViewRow(c, s, t)] else []
      case ColumnsRelation =>
        var d := u.details(FullName(t, c, s));
        FlatMap((column: Placed) => ColumnLevel(f, c, s, TableName(t), d, column), OrderedColumns(d))
      case CatalogsRelation => []
      case SchemataRelation => []
  }

  function SchemaLevel(rel: Relation, u: Unity, f: Filters, c: string, s: SchemaInfo): seq<Row> {
    var name := SchemaName(s);
    if !MatchesName(f.schemas, name) then []
    else if rel == SchemataRelation then [SchemaRow(c, name)]
    else FlatMap((t: TableInfo) => TableLevel(rel, u, f, c, name, t), u.tables(c, name))
  }

  function CatalogLevel(rel: Relation, u: Unity, scope: Option<string>, f: Filters, c: string): seq<Row> {
    if !MatchesName(f.catalogs, c) then []
    else if rel == CatalogsRelation then (if scope.Some? && !SameName(c, scope.value) then [] else [CatalogRow(c)])
    else FlatMap((s: SchemaInfo) => SchemaLevel(rel, u, f, c, s), u.schemas(c))
  }

  /** A scope stands for the list of catalogs, but for the relation that lists the catalogs themselves. */
  function Listed(rel: Relation, u: Unity, scope: Option<string>): seq<string> {
    if scope.Some? && rel != CatalogsRelation then [scope.value] else u.catalogs
  }

  function Unsorted(rel: Relation, u: Unity, scope: Option<string>, f: Filters): seq<Row> {
    FlatMap((c: string) => CatalogLevel(rel, u, scope, f, c), Listed(rel, u, scope))
  }

  function Rows(rel: Relation, u: Unity, scope: Option<string>, f: Filters): seq<Row> {
    if SortColumns(rel) == [] then Unsorted(rel, u, scope, f)
    else StableSort(ByKeys(SortColumns(rel)), Unsorted(rel, u, scope, f))
  }

  // ----- listings that agree with the rows they give -----

  predicate Agree(own: Option<string>, name: string) { own.Some? ==> SameName(own.value, name) }

  predicate DetailsAgree(d: TableInfo, c: string, s: string, name: string) {
    Agree(d.catalogName, c) && Agree(d.schemaName, s) && Agree(d.name, name)
  }

  /** The names a table's rows carry, if it has any, are those it was listed under, up to the case of letters. */
  predicate AgreesAt(rel: Relation, u: Unity, c: string, s: string, t: TableInfo) {
    match rel
    case TablesRelation => Agree(t.catalogName, c) && Agree(t.schemaName, s)
    case ColumnsRelation =>
      var d := u.details(FullName(t, c, s)); d.columns == [] || DetailsAgree(d, c, s, TableName(t))
    case ViewsRelation => true
    case CatalogsRelation => true
    case SchemataRelation => true
  }

  ghost predicate Agrees(rel: Relation, u: Unity, scope: Option<string>) {
    forall c, s, t | c in Listed(rel, u, scope) && s in u.schemas(c) && t in u.tables(c, SchemaName(s)) ::
      AgreesAt(rel, u, c, SchemaName(s), t)
  }

  // ----- which names a row carries -----

  /** The row carries a name of that kind, and it is this one, up to the case of letters. */
  predicate Carries(row: Row, k: Kind, name: string) {
    && (exists c :: c in row.columns && KindOf(c) == Some(k))
    && forall c | c in row.columns && KindOf(c) == Some(k) :: row.columns[c].Str? && SameName(row.columns[c].s, name)
  }

  lemma TableRowCarries(c: string, s: string, t: TableInfo)
    requires Agree(t.catalogName, c) && Agree(t.schemaName, s)
    ensures var row := TableRow(c, s, t);
      Coherent(row) && Carries(row, Catalogs, c) && Carries(row, Schemas, s) && Carries(row, Tables, TableName(t))
  {
    hide KindOf, Fold;
    Kinds();
    var columns := TableRow(c, s, t).columns;
    assert "table_catalog" in columns && "table_schema" in columns && "table_name" in columns;
  }

  lemma ViewRowCarries(c: string, s: string, t: TableInfo)
    ensures var row := ViewRow(c, s, t);
      Coherent(row) && Carries(row, Catalogs, c) && Carries(row, Schemas, s) && Carries(row, Tables, TableName(t))
  {
    hide KindOf, Fold;
    Kinds();
    var columns := ViewRow(c, s, t).columns;
    assert "table_catalog" in columns && "table_schema" in columns && "table_name" in columns;
  }

  lemma ColumnRowCarries(c: string, s: string, name: string, d: TableInfo, column: Placed)
    requires Agree(d.catalogName, c) && Agree(d.schemaName, s) && Agree(d.name, name)
    ensures var row := ColumnRow(c, s, name, d, column.index, column.info);
      && Coherent(row) && Carries(row, Catalogs, c) && Carries(row, Schemas, s) && Carries(row, Tables, name)
      && Carries(row, Columns, column.info.name)
  {
    hide KindOf, Fold;
    Kinds();
    var columns := ColumnRow(c, s, name, d, column.index, column.info).columns;
    assert "table_catalog" in columns && "table_schema" in columns && "table_name" in columns;
    assert "column_name" in columns;
  }

  lemma SchemaRowCarries(c: string, s: string)
    ensures Coherent(SchemaRow(c, s)) && Carries(SchemaRow(c, s), Catalogs, c) && Carries(SchemaRow(c, s), Schemas, s)
    ensures Coherent(CatalogRow(c)) && Carries(CatalogRow(c), Catalogs, c)
  {
    hide KindOf, Fold;
    Kinds();
    assert "catalog_name" in SchemaRow(c, s).columns && "schema_name" in SchemaRow(c, s).columns;
    assert "catalog_name" in CatalogRow(c).columns;
  }

  // ----- pruning, under any test that only matching rows can meet -----

  /** A row can meet the test only if each name it carries is one the filters ask for. */
  ghost predicate Selects(p: Row -> bool, f: Filters) { forall row | Coherent(row) && p(row) :: Matching(row, f) }

  lemma MatchedName(row: Row, f: Filters, k: Kind, name: string)
    requires Carries(row, k, name) && Matching(row, f)
    ensures MatchesName(NamesOf(f, k), name)
  {
    hide KindOf, Fold;
    var c :| c in row.columns && KindOf(c) == Some(k);
  }

  /** A row that carries a name the filters do not ask for is not kept. */
  lemma Missed(p: Row -> bool, f: Filters, row: Row, k: Kind, name: string)
    requires Selects(p, f) && Coherent(row) && Carries(row, k, name) && !MatchesName(NamesOf(f, k), name)
    ensures Filter(p, [row]) == []
  {
    hide Carries, MatchesName, Matching, Coherent;
    if p(row) {
      MatchedName(row, f, k, name);
    }
    FilterNone(p, [row]);
  }

  predicate Outside(f: Filters, c: string, s: string) { !MatchesName(f.catalogs, c) || !MatchesName(f.schemas, s) }

  lemma OutsideMissed(p: Row -> bool, f: Filters, row: Row, c: string, s: string, name: string)
    requires Selects(p, f) && Coherent(row)
    requires Carries(row, Catalogs, c) && Carries(row, Schemas, s) && Carries(row, Tables, name)
    ensures Outside(f, c, s) || !MatchesName(f.tables, name) ==> Filter(p, [row]) == []
  {
    hide Carries, Coherent, MatchesName, Filter, Selects;
    if !MatchesName(f.catalogs, c) {
      Missed(p, f, row, Catalogs, c);
    } else if !MatchesName(f.schemas, s) {
      Missed(p, f, row, Schemas, s);
    } else if !MatchesName(f.tables, name) {
      Missed(p, f, row, Tables, name);
    }
  }

  lemma ColumnPruned(p: Row -> bool, f: Filters, c: string, s: string, name: string, d: TableInfo, column: Placed)
    requires Selects(p, f) && Agree(d.catalogName, c) && Agree(d.schemaName, s) && Agree(d.name, name)
    ensures var all := ColumnLevel(NO_FILTERS, c, s, name, d, column);
      && Filter(p, ColumnLevel(f, c, s, name, d, column)) == Filter(p, all)
      && (Outside(f, c, s) || !MatchesName(f.tables, name) ==> Filter(p, all) == [])
  {
    hide Carries, Coherent, ColumnRow, Agree, Fold, Filter, Selects;
    var row := ColumnRow(c, s, name, d, column.index, column.info);
    assert ColumnLevel(NO_FILTERS, c, s, name, d, column) == [row];
    assert Filter(p, []) == [] by { FilterNone(p, []); }
    ColumnRowCarries(c, s, name, d, column);
    OutsideMissed(p, f, row, c, s, name);
    if !MatchesName(f.columns, column.info.name) {
      Missed(p, f, row, Columns, column.info.name);
    }
  }

  lemma ColumnsPruned(p: Row -> bool, f: Filters, c: string, s: string, name: string, d: TableInfo)
    requires Selects(p, f) && (d.columns == [] || DetailsAgree(d, c, s, name))
    ensures var columns := OrderedColumns(d);
      var all := FlatMap((column: Placed) => ColumnLevel(NO_FILTERS, c, s, name, d, column), columns);
      && Filter(p, FlatMap((column: Placed) => ColumnLevel(f, c, s, name, d, column), columns)) == Filter(p, all)
      && (Outside(f, c, s) || !MatchesName(f.tables, name) ==> Filter(p, all) == [])
  {
    hide Filter, FlatMap, MatchesName, OrderedColumns, Agree, Selects, ColumnLevel, Outside;
    var columns := OrderedColumns(d);
    ColumnsOrdered(d);
    var pruned := (column: Placed) => ColumnLevel(f, c, s, name, d, column);
    var full := (column: Placed) => ColumnLevel(NO_FILTERS, c, s, name, d, column);
    forall column | column in columns
      ensures Filter(p, pruned(column)) == Filter(p, full(column))
      ensures Outside(f, c, s) || !MatchesName(f.tables, name) ==> Filter(p, full(column)) == []
    {
      ColumnPruned(p, f, c, s, name, d, column);
    }
    FlatMapFiltered(p, pruned, full, columns);
    if Outside(f, c, s) || !MatchesName(f.tables, name) {
      FlatMapNone(p, full, columns);
    }
  }

  lemma TablePruned(p: Row -> bool, f: Filters, rel: Relation, u: Unity, c: string, s: string, t: TableInfo)
    requires Selects(p, f) && AgreesAt(rel, u, c, s, t)
    ensures var all := TableLevel(rel, u, NO_FILTERS, c, s, t);
      Filter(p, TableLevel(rel, u, f, c, s, t)) == Filter(p, all) && (Outside(f, c, s) ==> Filter(p, all) == [])
  {
    hide Carries, Coherent, TableRow, ViewRow, Agree, Fold, Filter, FlatMap, OrderedColumns, ColumnLevel, Selects;
    assert Filter(p, []) == [] by { FilterNone(p, []); }
    match rel {
      case ColumnsRelation =>
        ColumnsPruned(p, f, c, s, TableName(t), u.details(FullName(t, c, s)));
      case TablesRelation =>
        TableRowCarries(c, s, t);
        OutsideMissed(p, f, TableRow(c, s, t), c, s, TableName(t));
      case ViewsRelation =>
        ViewRowCarries(c, s, t);
        OutsideMissed(p, f, ViewRow(c, s, t), c, s, TableName(t));
      case CatalogsRelation =>
      case SchemataRelation =>
    }
  }

  lemma SchemaPruned(p: Row -> bool, f: Filters, rel: Relation, u: Unity, c: string, s: SchemaInfo)
    requires Selects(p, f) && forall t | t in u.tables(c, SchemaName(s)) :: AgreesAt(rel, u, c, SchemaName(s), t)
    ensures var all := SchemaLevel(rel, u, NO_FILTERS, c, s);
      && Filter(p, SchemaLevel(rel, u, f, c, s)) == Filter(p, all)
      && (!MatchesName(f.catalogs, c) ==> Filter(p, all) == [])
  {
    hide Filter, FlatMap, MatchesName, Carries, Coherent, TableLevel, AgreesAt, SchemaRow, Selects;
    var name := SchemaName(s);
    assert MatchesName(NO_FILTERS.schemas, name) by { NoNames(name); }
    assert Filter(p, []) == [] by { FilterNone(p, []); }
    if rel == SchemataRelation {
      SchemaRowCarries(c, name);
      if !MatchesName(f.catalogs, c) {
        Missed(p, f, SchemaRow(c, name), Catalogs, c);
      } else if !MatchesName(f.schemas, name) {
        Missed(p, f, SchemaRow(c, name), Schemas, name);
      }
    } else {
      var pruned := (t: TableInfo) => TableLevel(rel, u, f, c, name, t);
      var full := (t: TableInfo) => TableLevel(rel, u, NO_FILTERS, c, name, t);
      forall t | t in u.tables(c, name)
        ensures Filter(p, pruned(t)) == Filter(p, full(t))
        ensures Outside(f, c, name) ==> Filter(p, full(t)) == []
      {
        TablePruned(p, f, rel, u, c, name, t);
      }
      FlatMapFiltered(p, pruned, full, u.tables(c, name));
      if Outside(f, c, name) {
        FlatMapNone(p, full, u.tables(c, name));
      }
    }
  }

  lemma NoNames(name: string)
    ensures MatchesName(None, name)
  {
  }

  lemma CatalogPruned(p: Row -> bool, f: Filters, rel: Relation, u: Unity, scope: Option<string>, c: string)
    requires Selects(p, f)
    requires forall s, t | s in u.schemas(c) && t in u.tables(c, SchemaName(s)) :: AgreesAt(rel, u, c, SchemaName(s), t)
    ensures Filter(p, CatalogLevel(rel, u, scope, f, c)) == Filter(p, CatalogLevel(rel, u, scope, NO_FILTERS, c))
  {
    hide Filter, FlatMap, MatchesName, Carries, Coherent, SchemaLevel, AgreesAt, CatalogRow, Selects;
    assert MatchesName(NO_FILTERS.catalogs, c) by { NoNames(c); }
    assert Filter(p, []) == [] by { FilterNone(p, []); }
    if rel == CatalogsRelation {
      SchemaRowCarries(c, "");
      if !MatchesName(f.catalogs, c) {
        Missed(p, f, CatalogRow(c), Catalogs, c);
      }
    } else {
      var pruned := (s: SchemaInfo) => SchemaLevel(rel, u, f, c, s);
      var full := (s: SchemaInfo) => SchemaLevel(rel, u, NO_FILTERS, c, s);
      forall s | s in u.schemas(c)
        ensures Filter(p, pruned(s)) == Filter(p, full(s))
        ensures !MatchesName(f.catalogs, c) ==> Filter(p, full(s)) == []
      {
        SchemaPruned(p, f, rel, u, c, s);
      }
      FlatMapFiltered(p, pruned, full, u.schemas(c));
      if !MatchesName(f.catalogs, c) {
        FlatMapNone(p, full, u.schemas(c));
      }
    }
  }

  lemma RowsPruned(p: Row -> bool, f: Filters, rel: Relation, u: Unity, scope: Option<string>)
    requires Selects(p, f) && Agrees(rel, u, scope)
    ensures Filter(p, Rows(rel, u, scope, f)) == Filter(p, Rows(rel, u, scope, NO_FILTERS))
  {
    hide Filter, FlatMap, CatalogLevel, AgreesAt, StableSort, ByKeys, Preorder, Selects;
    var catalogs := Listed(rel, u, scope);
    var pruned := (c: string) => CatalogLevel(rel, u, scope, f, c);
    var full := (c: string) => CatalogLevel(rel, u, scope, NO_FILTERS, c);
    forall c | c in catalogs ensures Filter(p, pruned(c)) == Filter(p, full(c)) {
      CatalogPruned(p, f, rel, u, scope, c);
    }
    FlatMapFiltered(p, pruned, full, catalogs);
    var leq := ByKeys(SortColumns(rel));
    KeysPreorder(SortColumns(rel));
    FilterSort(p, leq, Unsorted(rel, u, scope, f));
    FilterSort(p, leq, Unsorted(rel, u, scope, NO_FILTERS));
  }

  // ----- soundness -----

  function P(o: Others, filters: seq<Expr>): Row -> bool { row => Passes(o, filters, row) }

  /** The rows that meet all the filters, of the enumeration that was pruned by f. */
  function Found(o: Others, filters: seq<Expr>, rel: Relation, u: Unity, scope: Option<string>, f: Filters): seq<Row> {
    Filter(P(o, filters), Rows(rel, u, scope, f))
  }

  /** Pushdown is sound: with listings that agree with the rows they give, filtering the pruned enumeration gives the
      same rows in the same order as filtering the full one, for any list of filter expressions. */
  lemma PushdownSound(o: Others, filters: seq<Expr>, rel: Relation, u: Unity, scope: Option<string>)
    requires Agrees(rel, u, scope)
    ensures Found(o, filters, rel, u, scope, FromExprs(filters)) == Found(o, filters, rel, u, scope, NO_FILTERS)
  {
    hide Filter, Rows, FromExprs, Coherent, Passes, Matching, Agrees;
    forall row | Coherent(row) && P(o, filters)(row) ensures Matching(row, FromExprs(filters)) {
      PassingMatching(o, filters, row);
    }
    RowsPruned(P(o, filters), FromExprs(filters), rel, u, scope);
  }

  // ----- exactness: no row is enumerated that carries a name not asked for -----

  function M(f: Filters): Row -> bool { row => Matching(row, f) }

  lemma {:induction false} FlatMapKept<T(!new), R(!new)>(p: R -> bool, g: T -> seq<R>, xs: seq<T>)
    requires forall x | x in xs :: Filter(p, g(x)) == g(x)
    ensures Filter(p, FlatMap(g, xs)) == FlatMap(g, xs)
  {
    if xs != [] {
      var front, last := xs[..|xs| - 1], xs[|xs| - 1];
      FlatMapKept(p, g, front);
      FilterConcat(p, FlatMap(g, front), g(last));
    }
  }

  lemma OneKept(f: Filters, row: Row)
    requires Matching(row, f)
    ensures Filter(M(f), [row]) == [row] && Filter(M(f), []) == []
  {
    hide Matching;
    FilterLast(M(f), [], row);
    assert [] + [row] == [row];
  }

  lemma MatchesEither(names: Names, own: Option<string>, name: string)
    requires Agree(own, name) && MatchesName(names, name)
    ensures MatchesName(names, Or(own, name))
  {
    hide Fold;
  }

  lemma ColumnKept(f: Filters, c: string, s: string, name: string, d: TableInfo, column: Placed)
    requires !Outside(f, c, s) && MatchesName(f.tables, name)
    requires Agree(d.catalogName, c) && Agree(d.schemaName, s) && Agree(d.name, name)
    ensures var level := ColumnLevel(f, c, s, name, d, column); Filter(M(f), level) == level
  {
    hide KindOf, MatchesName, Agree, Filter, Or;
    FilterNone(M(f), []);
    Kinds();
    MatchesEither(f.catalogs, d.catalogName, c);
    MatchesEither(f.schemas, d.schemaName, s);
    MatchesEither(f.tables, d.name, name);
    if MatchesName(f.columns, column.info.name) {
      OneKept(f, ColumnRow(c, s, name, d, column.index, column.info));
    }
  }

  lemma TableKept(rel: Relation, u: Unity, f: Filters, c: string, s: string, t: TableInfo)
    requires !Outside(f, c, s) && AgreesAt(rel, u, c, s, t)
    ensures var level := TableLevel(rel, u, f, c, s, t); Filter(M(f), level) == level
  {
    hide KindOf, MatchesName, Agree, Filter, Or, FlatMap, OrderedColumns, ColumnLevel, Outside;
    FilterNone(M(f), []);
    if MatchesName(f.tables, TableName(t)) {
      match rel {
        case TablesRelation => TableRowKept(f, c, s, t);
        case ViewsRelation => ViewRowKept(f, c, s, t);
        case ColumnsRelation =>
          var d := u.details(FullName(t, c, s));
          var level := (column: Placed) => ColumnLevel(f, c, s, TableName(t), d, column);
          ColumnsOrdered(d);
          forall column | column in OrderedColumns(d) ensures Filter(M(f), level(column)) == level(column) {
            ColumnKept(f, c, s, TableName(t), d, column);
          }
          FlatMapKept(M(f), level, OrderedColumns(d));
        case CatalogsRelation =>
        case SchemataRelation =>
      }
    }
  }

  lemma TableRowKept(f: Filters, c: string, s: string, t: TableInfo)
    requires !Outside(f, c, s) && MatchesName(f.tables, TableName(t))
    requires Agree(t.catalogName, c) && Agree(t.schemaName, s)
    ensures Filter(M(f), [TableRow(c, s, t)]) == [TableRow(c, s, t)]
  {
    hide KindOf, MatchesName, Agree, Filter;
    Kinds();
    MatchesEither(f.catalogs, t.catalogName, c);
    MatchesEither(f.schemas, t.schemaName, s);
    OneKept(f, TableRow(c, s, t));
  }

  lemma ViewRowKept(f: Filters, c: string, s: string, t: TableInfo)
    requires !Outside(f, c, s) && MatchesName(f.tables, TableName(t))
    ensures Filter(M(f), [ViewRow(c, s, t)]) == [ViewRow(c, s, t)]
  {
    hide KindOf, MatchesName, Filter;
    Kinds();
    OneKept(f, ViewRow(c, s, t));
  }

  lemma SchemaKept(rel: Relation, u: Unity, f: Filters, c: string, s: SchemaInfo)
    requires MatchesName(f.catalogs, c)
    requires forall t | t in u.tables(c, SchemaName(s)) :: AgreesAt(rel, u, c, SchemaName(s), t)
    ensures var level := SchemaLevel(rel, u, f, c, s); Filter(M(f), level) == level
  {
    hide KindOf, MatchesName, Filter, FlatMap, TableLevel, AgreesAt;
    var name := SchemaName(s);
    FilterNone(M(f), []);
    Kinds();
    if MatchesName(f.schemas, name) {
      if rel == SchemataRelation {
        OneKept(f, SchemaRow(c, name));
      } else {
        var level := (t: TableInfo) => TableLevel(rel, u, f, c, name, t);
        forall t | t in u.tables(c, name) ensures Filter(M(f), level(t)) == level(t) {
          TableKept(rel, u, f, c, name, t);
        }
        FlatMapKept(M(f), level, u.tables(c, name));
      }
    }
  }

  lemma CatalogKept(rel: Relation, u: Unity, scope: Option<string>, f: Filters, c: string)
    requires forall s, t | s in u.schemas(c) && t in u.tables(c, SchemaName(s)) :: AgreesAt(rel, u, c, SchemaName(s), t)
    ensures var level := CatalogLevel(rel, u, scope, f, c); Filter(M(f), level) == level
  {
    hide KindOf, MatchesName, SameName, Filter, FlatMap, SchemaLevel, AgreesAt;
    FilterNone(M(f), []);
    Kinds();
    if MatchesName(f.catalogs, c) {
      if rel == CatalogsRelation {
        OneKept(f, CatalogRow(c));
      } else {
        var level := (s: SchemaInfo) => SchemaLevel(rel, u, f, c, s);
        forall s | s in u.schemas(c) ensures Filter(M(f), level(s)) == level(s) {
          SchemaKept(rel, u, f, c, s);
        }
        FlatMapKept(M(f), level, u.schemas(c));
      }
    }
  }

  /** The pruned enumeration is exact: it is the full one without the rows that carry a name not asked for. */
  lemma PruningExact(rel: Relation, u: Unity, scope: Option<string>, f: Filters)
    requires Agrees(rel, u, scope)
    ensures Rows(rel, u, scope, f) == Filter(M(f), Rows(rel, u, scope, NO_FILTERS))
  {
    hide Filter, FlatMap, CatalogLevel, AgreesAt, StableSort, ByKeys, Preorder, Matching;
    var catalogs := Listed(rel, u, scope);
    var level := (c: string) => CatalogLevel(rel, u, scope, f, c);
    forall c | c in catalogs ensures Filter(M(f), level(c)) == level(c) {
      CatalogKept(rel, u, scope, f, c);
    }
    FlatMapKept(M(f), level, catalogs);
    KeysPreorder(SortColumns(rel));
    FilterSort(M(f), ByKeys(SortColumns(rel)), Unsorted(rel, u, scope, f));
    RowsPruned(M(f), f, rel, u, scope);
  }

  // ----- the nested loops -----

  method LoadRows(rel: Relation, u: Unity, scope: Option<string>, f: Filters) returns (rows: seq<Row>)
    ensures rows == Rows(rel, u, scope, f)
  {
    hide CatalogLevel, StableSort;
    var catalogs := Listed(rel, u, scope);
    rows := [];
    ghost var level := (c: string) => CatalogLevel(rel, u, scope, f, c);
    for i := 0 to |catalogs|
      invariant rows == FlatMap(level, catalogs[..i])
    {
      assert catalogs[..i + 1][..i] == catalogs[..i];
      var more := LoadCatalog(rel, u, scope, f, catalogs[i]);
      rows := rows + more;
    }
    assert catalogs[..|catalogs|] == catalogs;
    if SortColumns(rel) != [] {
      rows := StableSort(ByKeys(SortColumns(rel)), rows);
    }
  }

  method LoadCatalog(rel: Relation, u: Unity, scope: Option<string>, f: Filters, c: string) returns (rows: seq<Row>)
    ensures rows == CatalogLevel(rel, u, scope, f, c)
  {
    hide SchemaLevel, MatchesName, SameName;
    rows := [];
    if !MatchesName(f.catalogs, c) {
      return;
    }
    if rel == CatalogsRelation {
      if scope.None? || SameName(c, scope.value) {
        rows := [CatalogRow(c)];
      }
      return;
    }
    var schemas := u.schemas(c);
    ghost var level := (s: SchemaInfo) => SchemaLevel(rel, u, f, c, s);
    for i := 0 to |schemas|
      invariant rows == FlatMap(level, schemas[..i])
    {
      assert schemas[..i + 1][..i] == schemas[..i];
      var more := LoadSchema(rel, u, f, c, schemas[i]);
      rows := rows + more;
    }
    assert schemas[..|schemas|] == schemas;
  }

  method LoadSchema(rel: Relation, u: Unity, f: Filters, c: string, s: SchemaInfo) returns (rows: seq<Row>)
    ensures rows == SchemaLevel(rel, u, f, c, s)
  {
    hide MatchesName, FullName, OrderedColumns, ColumnLevel, TableRow, ViewRow, SchemaRow, IsView;
    rows := [];
    var name := SchemaName(s);
    if !MatchesName(f.schemas, name) {
      return;
    }
    if rel == SchemataRelation {
      return [SchemaRow(c, name)];
    }
    var tables := u.tables(c, name);
    ghost var level := (t: TableInfo) => TableLevel(rel, u, f, c, name, t);
    for i := 0 to |tables|
      invariant rows == FlatMap(level, tables[..i])
    {
      assert tables[..i + 1][..i] == tables[..i];
      var t := tables[i];
      if MatchesName(f.tables, TableName(t)) {
        match rel {
          case TablesRelation => rows := rows + [TableRow(c, name, t)];
          case ViewsRelation =>
            if IsView(t) {
              rows := rows + [ViewRow(c, name, t)];
            }
          case ColumnsRelation =>
            var more := LoadColumns(f, c, name, TableName(t), u.details(FullName(t, c, name)));
            rows := rows + more;
          case CatalogsRelation =>
          case SchemataRelation =>
        }
      }
    }
    assert tables[..|tables|] == tables;
  }

  method LoadColumns(f: Filters, c: string, s: string, name: string, d: TableInfo) returns (rows: seq<Row>)
    ensures rows == FlatMap((column: Placed) => ColumnLevel(f, c, s, name, d, column), OrderedColumns(d))
  {
    hide MatchesName, OrderedColumns;
    var columns := OrderedColumns(d);
    rows := [];
    ghost var level := (column: Placed) => ColumnLevel(f, c, s, name, d, column);
    for i := 0 to |columns|
      invariant rows == FlatMap(level, columns[..i])
    {
      assert columns[..i + 1][..i] == columns[..i];
      if MatchesName(f.columns, columns[i].info.name) {
        rows := rows + [ColumnRow(c, s, name, d, columns[i].index, columns[i].info)];
      }
    }
    assert columns[..|columns|] == columns;
  }
}
