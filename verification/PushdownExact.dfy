/** Why pruning loses rows as soon as a table is listed under names other than those its rows carry. */
module PushdownExact {
  import opened Wrappers
  import opened Ascii
  import opened RowLists
  import opened Pushdown
  import opened PushdownRows

  // ----- pruning never adds a row -----

  lemma ColumnsFewer(p: Row -> bool, f: Filters, c: string, s: string, name: string, d: TableInfo)
    ensures |Filter(p, FlatMap((column: Placed) => ColumnLevel(f, c, s, name, d, column), OrderedColumns(d)))|
      <= |Filter(p, FlatMap((column: Placed) => ColumnLevel(NO_FILTERS, c, s, name, d, column), OrderedColumns(d)))|
  {
    hide FlatMap, OrderedColumns, ColumnRow;
    FilterNone(p, []);
    FlatMapFewer(p, (column: Placed) => ColumnLevel(f, c, s, name, d, column),
                 (column: Placed) => ColumnLevel(NO_FILTERS, c, s, name, d, column), OrderedColumns(d));
  }

  lemma TableFewer(p: Row -> bool, rel: Relation, u: Unity, f: Filters, c: string, s: string, t: TableInfo)
    ensures |Filter(p, TableLevel(rel, u, f, c, s, t))| <= |Filter(p, TableLevel(rel, u, NO_FILTERS, c, s, t))|
  {
    hide FlatMap, OrderedColumns, ColumnLevel, FullName, TableRow, ViewRow;
    FilterNone(p, []);
    if rel == ColumnsRelation {
      ColumnsFewer(p, f, c, s, TableName(t), u.details(FullName(t, c, s)));
    }
  }

  lemma SchemaFewer(p: Row -> bool, rel: Relation, u: Unity, f: Filters, c: string, s: SchemaInfo)
    ensures |Filter(p, SchemaLevel(rel, u, f, c, s))| <= |Filter(p, SchemaLevel(rel, u, NO_FILTERS, c, s))|
  {
    hide FlatMap, TableLevel, SchemaRow;
    FilterNone(p, []);
    var name := SchemaName(s);
    var pruned := (t: TableInfo) => TableLevel(rel, u, f, c, name, t);
    var full := (t: TableInfo) => TableLevel(rel, u, NO_FILTERS, c, name, t);
    forall t | t in u.tables(c, name) ensures |Filter(p, pruned(t))| <= |Filter(p, full(t))| {
      TableFewer(p, rel, u, f, c, name, t);
    }
    FlatMapFewer(p, pruned, full, u.tables(c, name));
  }

  lemma CatalogFewer(p: Row -> bool, rel: Relation, u: Unity, scope: Option<string>, f: Filters, c: string)
    ensures |Filter(p, CatalogLevel(rel, u, scope, f, c))| <= |Filter(p, CatalogLevel(rel, u, scope, NO_FILTERS, c))|
  {
    hide FlatMap, SchemaLevel, CatalogRow, SameName;
    FilterNone(p, []);
    var pruned := (s: SchemaInfo) => SchemaLevel(rel, u, f, c, s);
    var full := (s: SchemaInfo) => SchemaLevel(rel, u, NO_FILTERS, c, s);
    forall s | s in u.schemas(c) ensures |Filter(p, pruned(s))| <= |Filter(p, full(s))| {
      SchemaFewer(p, rel, u, f, c, s);
    }
    FlatMapFewer(p, pruned, full, u.schemas(c));
  }

  // ----- a level that is pruned away takes its rows with it -----

  lemma FlatMapKeepsSome<T(!new), R(!new)>(p: R -> bool, h: T -> seq<R>, xs: seq<T>, x: T)
    requires x in xs && |Filter(p, h(x))| > 0
    ensures |Filter(p, FlatMap(h, xs))| > 0
  {
    var none: T -> seq<R> := _ => [];
    FilterNone(p, []);
    FlatMapFewer(p, none, h, xs);
  }

  /** The relations whose rows are those of tables. */
  predicate OfTables(rel: Relation) { rel != CatalogsRelation && rel != SchemataRelation }

  /** The filters ask for names, of some kind, that are not the one the table is listed under. */
  predicate NotAskedFor(f: Filters, c: string, s: string, t: TableInfo) {
    Outside(f, c, s) || !MatchesName(f.tables, TableName(t))
  }

  lemma SchemaLost(p: Row -> bool, rel: Relation, u: Unity, f: Filters, c: string, s: SchemaInfo, t: TableInfo)
    requires OfTables(rel) && t in u.tables(c, SchemaName(s))
    requires |Filter(p, TableLevel(rel, u, NO_FILTERS, c, SchemaName(s), t))| > 0
    ensures |Filter(p, SchemaLevel(rel, u, NO_FILTERS, c, s))| > 0
    ensures !MatchesName(f.schemas, SchemaName(s)) || !MatchesName(f.tables, TableName(t)) ==>
        |Filter(p, SchemaLevel(rel, u, f, c, s))| < |Filter(p, SchemaLevel(rel, u, NO_FILTERS, c, s))|
  {
    hide FlatMap, SchemaRow, ColumnLevel, OrderedColumns;
    var name := SchemaName(s);
    FilterNone(p, []);
    var pruned := (t: TableInfo) => TableLevel(rel, u, f, c, name, t);
    var full := (t: TableInfo) => TableLevel(rel, u, NO_FILTERS, c, name, t);
    FlatMapKeepsSome(p, full, u.tables(c, name), t);
    if MatchesName(f.schemas, name) && !MatchesName(f.tables, TableName(t)) {
      forall x | x in u.tables(c, name) ensures |Filter(p, pruned(x))| <= |Filter(p, full(x))| {
        TableFewer(p, rel, u, f, c, name, x);
      }
      FlatMapFewer(p, pruned, full, u.tables(c, name));
    }
  }

  lemma CatalogLost(p: Row -> bool, rel: Relation, u: Unity, scope: Option<string>, f: Filters, c: string,
                    s: SchemaInfo, t: TableInfo)
    requires OfTables(rel) && s in u.schemas(c) && t in u.tables(c, SchemaName(s))
    requires |Filter(p, TableLevel(rel, u, NO_FILTERS, c, SchemaName(s), t))| > 0 && NotAskedFor(f, c, SchemaName(s), t)
    ensures |Filter(p, CatalogLevel(rel, u, scope, f, c))| < |Filter(p, CatalogLevel(rel, u, scope, NO_FILTERS, c))|
  {
    hide FlatMap, SchemaLevel, TableLevel, CatalogRow;
    FilterNone(p, []);
    var pruned := (s: SchemaInfo) => SchemaLevel(rel, u, f, c, s);
    var full := (s: SchemaInfo) => SchemaLevel(rel, u, NO_FILTERS, c, s);
    SchemaLost(p, rel, u, f, c, s, t);
    FlatMapKeepsSome(p, full, u.schemas(c), s);
    if MatchesName(f.catalogs, c) {
      forall x | x in u.schemas(c) ensures |Filter(p, pruned(x))| <= |Filter(p, full(x))| {
        SchemaFewer(p, rel, u, f, c, x);
      }
      assert |Filter(p, pruned(s))| < |Filter(p, full(s))|;
      FlatMapFewer(p, pruned, full, u.schemas(c));
    }
  }

  lemma RowsLost(p: Row -> bool, rel: Relation, u: Unity, scope: Option<string>, f: Filters, c: string, s: SchemaInfo,
                 t: TableInfo)
    requires OfTables(rel) && c in Listed(rel, u, scope) && s in u.schemas(c) && t in u.tables(c, SchemaName(s))
    requires |Filter(p, TableLevel(rel, u, NO_FILTERS, c, SchemaName(s), t))| > 0 && NotAskedFor(f, c, SchemaName(s), t)
    ensures |Filter(p, Rows(rel, u, scope, f))| < |Filter(p, Rows(rel, u, scope, NO_FILTERS))|
  {
    hide Filter, FlatMap, CatalogLevel, TableLevel, NotAskedFor, StableSort, ByKeys, Preorder, Listed;
    var pruned := (c: string) => CatalogLevel(rel, u, scope, f, c);
    var full := (c: string) => CatalogLevel(rel, u, scope, NO_FILTERS, c);
    CatalogLost(p, rel, u, scope, f, c, s, t);
    forall x | x in Listed(rel, u, scope) ensures |Filter(p, pruned(x))| <= |Filter(p, full(x))| {
      CatalogFewer(p, rel, u, scope, f, x);
    }
    assert |Filter(p, pruned(c))| < |Filter(p, full(c))|;
    FlatMapFewer(p, pruned, full, Listed(rel, u, scope));
    SortedFound(p, rel, u, scope, f);
    SortedFound(p, rel, u, scope, NO_FILTERS);
  }

  lemma SortedFound(p: Row -> bool, rel: Relation, u: Unity, scope: Option<string>, f: Filters)
    ensures |Filter(p, Rows(rel, u, scope, f))| == |Filter(p, Unsorted(rel, u, scope, f))|
  {
    hide Filter, Unsorted, StableSort, ByKeys, Preorder;
    var leq := ByKeys(SortColumns(rel));
    KeysPreorder(SortColumns(rel));
    FilterSort(p, leq, Unsorted(rel, u, scope, f));
    SortKeepsLength(leq, Filter(p, Unsorted(rel, u, scope, f)));
  }

  // ----- the plainest filter there is -----

  /** Every row of a table names it as these details do. */
  function Source(rel: Relation, u: Unity, c: string, s: string, t: TableInfo): TableInfo {
    if rel == ColumnsRelation then u.details(FullName(t, c, s)) else t
  }

  predicate NamedBy(row: Row, c: string, s: string, name: string, d: TableInfo) {
    && "table_catalog" in row.columns && row.columns["table_catalog"] == Str(Or(d.catalogName, c))
    && "table_schema" in row.columns && row.columns["table_schema"] == Str(Or(d.schemaName, s))
    && "table_name" in row.columns && row.columns["table_name"] == Str(Or(d.name, name))
  }

  lemma RowsNamed(c: string, s: string, t: TableInfo, name: string, d: TableInfo, index: nat, column: ColumnInfo)
    ensures NamedBy(TableRow(c, s, t), c, s, TableName(t), t)
    ensures NamedBy(ColumnRow(c, s, name, d, index, column), c, s, name, d)
  {
    assert "table_catalog"[6] == 'c' && "table_schema"[6] == 's' && "table_name"[6] == 'n';
    assert "column_name"[0] == 'c' && "ordinal_position"[0] == 'o';
  }

  /** All the rows of a table are kept by a test that rows named by its details meet, and it has some. */
  lemma TableShown(p: Row -> bool, rel: Relation, u: Unity, c: string, s: string, t: TableInfo)
    requires rel == TablesRelation || (rel == ColumnsRelation && Source(rel, u, c, s, t).columns != [])
    requires forall row | NamedBy(row, c, s, TableName(t), Source(rel, u, c, s, t)) :: p(row)
    ensures |Filter(p, TableLevel(rel, u, NO_FILTERS, c, s, t))| > 0
  {
    hide FlatMap, OrderedColumns, NamedBy, TableRow, ColumnRow, FullName, TableName, Filter;
    var d := u.details(FullName(t, c, s));
    if rel == TablesRelation {
      RowsNamed(c, s, t, TableName(t), d, 0, ColumnInfo("", None, 0));
      FilterKeeps(p, [TableRow(c, s, t)]);
      assert TableRow(c, s, t) in Filter(p, [TableRow(c, s, t)]);
    } else {
      ColumnsOrdered(d);
      var column := OrderedColumns(d)[0];
      var row := ColumnRow(c, s, TableName(t), d, column.index, column.info);
      RowsNamed(c, s, t, TableName(t), d, column.index, column.info);
      FilterKeeps(p, [row]);
      assert row in Filter(p, [row]);
      var level := (column: Placed) => ColumnLevel(NO_FILTERS, c, s, TableName(t), d, column);
      assert level(column) == [row];
      FlatMapKeepsSome(p, level, OrderedColumns(d), column);
    }
  }

  function Asking(column: string, value: string): seq<Expr> { [Equals(Column(column), Literal(value))] }

  lemma AskingFor(o: Others, row: Row, column: string, value: string)
    ensures FromExprs(Asking(column, value)) == Added(NO_FILTERS, column, value)
    ensures column in row.columns && row.columns[column] == Str(value) ==> Passes(o, Asking(column, value), row)
  {
    var filters := Asking(column, value);
    assert filters[..0] == [];
    if column in row.columns && row.columns[column] == Str(value) {
      assert Eval(o, Column(column), row) == Of(Str(value)) && Eval(o, Literal(value), row) == Of(Str(value));
    }
  }

  /** Some column of the table's rows holds a name that is not the one it is listed under. */
  lemma Misnamed(rel: Relation, u: Unity, c: string, s: string, t: TableInfo) returns (column: string, value: string)
    requires !AgreesAt(rel, u, c, s, t)
    ensures rel == TablesRelation || (rel == ColumnsRelation && Source(rel, u, c, s, t).columns != [])
    ensures NotAskedFor(Added(NO_FILTERS, column, value), c, s, t)
    ensures forall row | NamedBy(row, c, s, TableName(t), Source(rel, u, c, s, t)) ::
        column in row.columns && row.columns[column] == Str(value)
  {
    hide KindOf, Fold, FullName, TableName;
    Kinds();
    var d := Source(rel, u, c, s, t);
    if !Agree(d.catalogName, c) {
      column, value := "table_catalog", d.catalogName.value;
    } else if !Agree(d.schemaName, s) {
      column, value := "table_schema", d.schemaName.value;
    } else {
      column, value := "table_name", d.name.value;
    }
  }

  /** A table that is listed under one name, and whose rows carry another, loses rows to pushdown: whatever else the
      service lists, the filter that asks for the name in the rows finds fewer of them. */
  lemma DisagreementLosesRow(o: Others, rel: Relation, u: Unity, scope: Option<string>, c: string, s: SchemaInfo,
                             t: TableInfo)
      returns (filters: seq<Expr>)
    requires c in Listed(rel, u, scope) && s in u.schemas(c) && t in u.tables(c, SchemaName(s))
    requires !AgreesAt(rel, u, c, SchemaName(s), t)
    ensures |Found(o, filters, rel, u, scope, FromExprs(filters))| < |Found(o, filters, rel, u, scope, NO_FILTERS)|
  {
    hide Rows, Listed, AgreesAt, NamedBy, NotAskedFor, Passes, Added, FromExprs, Source, TableName, SchemaName, Filter,
      TableLevel, Asking;
    var name := SchemaName(s);
    var column, value := Misnamed(rel, u, c, name, t);
    filters := Asking(column, value);
    forall row | NamedBy(row, c, name, TableName(t), Source(rel, u, c, name, t)) ensures P(o, filters)(row) {
      AskingFor(o, row, column, value);
    }
    AskingFor(o, Row(map[], []), column, value);
    TableShown(P(o, filters), rel, u, c, name, t);
    RowsLost(P(o, filters), rel, u, scope, FromExprs(filters), c, s, t);
  }

  /** Pushdown is sound for all filters exactly when the rows of each listed table carry the names it is listed under.
      */
  lemma PushdownExactly(o: Others, rel: Relation, u: Unity, scope: Option<string>)
    ensures Agrees(rel, u, scope) <==> forall filters: seq<Expr> ::
        Found(o, filters, rel, u, scope, FromExprs(filters)) == Found(o, filters, rel, u, scope, NO_FILTERS)
  {
    hide Found, AgreesAt, Listed, SchemaName, FromExprs;
    if Agrees(rel, u, scope) {
      forall filters: seq<Expr>
        ensures Found(o, filters, rel, u, scope, FromExprs(filters)) == Found(o, filters, rel, u, scope, NO_FILTERS)
      {
        PushdownSound(o, filters, rel, u, scope);
      }
    } else {
      var c, s, t :| c in Listed(rel, u, scope) && s in u.schemas(c) && t in u.tables(c, SchemaName(s))
        && !AgreesAt(rel, u, c, SchemaName(s), t);
      var filters := DisagreementLosesRow(o, rel, u, scope, c, s, t);
    }
  }
}
