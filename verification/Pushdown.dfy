/** Pushing metadata filters down into the enumeration of catalogs, schemas, tables and columns. */
module Pushdown {
  import opened Wrappers
  import opened Ascii

  // ----- listings -----

  datatype ColumnInfo = ColumnInfo(name: string, position: Option<int>, payload: nat)

  datatype TableInfo = TableInfo(name: Option<string>, fullName: string, catalogName: Option<string>,
                                 schemaName: Option<string>, tableType: Option<string>, columns: seq<ColumnInfo>,
                                 payload: nat)

  datatype SchemaInfo = SchemaInfo(name: string, fullName: Option<string>)

  /** What the catalog service answers, for one token. */
  datatype Unity = Unity(catalogs: seq<string>, schemas: string -> seq<SchemaInfo>,
                         tables: (string, string) -> seq<TableInfo>, details: string -> TableInfo)

  /** The part of a dotted name after its last dot. */
  function LastPart(s: string): string {
    if s == "" then "" else if s[|s| - 1] == '.' then "" else LastPart(s[..|s| - 1]) + [s[|s| - 1]]
  }

  function SchemaName(s: SchemaInfo): string {
    if s.name != "" then s.name else match s.fullName case Some(full) => LastPart(full) case None => ""
  }

  function TableName(t: TableInfo): string {
    match t.name case Some(name) => name case None => LastPart(t.fullName)
  }

  function FullName(t: TableInfo, catalog: string, schema: string): string {
    if t.fullName != "" then t.fullName else catalog + "." + schema + "." + TableName(t)
  }

  predicate IsView(t: TableInfo) { t.tableType.Some? && SameName(t.tableType.value, "VIEW") }

  // ----- rows and filters -----

  datatype Scalar = Str(s: string) | Num(n: int) | NullScalar

  /** A row's named columns; a source stands for those that no filter prunes on. */
  datatype Row = Row(columns: map<string, Scalar>, source: seq<nat>)

  datatype Expr =
    | Column(name: string)
    | Literal(text: string)
    | And(left: Expr, right: Expr)
    | Equals(left: Expr, right: Expr)
    | Opaque(id: nat)

  datatype Value = Truth(b: bool) | Of(scalar: Scalar)

  /** Every other expression, as arbitrary functions. */
  datatype Others = Others(opaque_: (nat, Row) -> Value, equals: (Value, Value) -> Value, and: (Value, Value) -> Value)

  /** NULL equals nothing, and a conjunction is true only when both its sides are. */
  function Eval(o: Others, e: Expr, row: Row): Value {
    match e
    case Column(name) => if name in row.columns then Of(row.columns[name]) else Of(NullScalar)
    case Literal(text) => Of(Str(text))
    case Equals(left, right) => (
      match (Eval(o, left, row), Eval(o, right, row))
      case (Of(Str(a)), Of(Str(b))) => Truth(a == b)
      case (Of(NullScalar), _) => Of(NullScalar)
      case (_, Of(NullScalar)) => Of(NullScalar)
      case (a, b) => o.equals(a, b))
    case And(left, right) =>
      var a, b := Eval(o, left, row), Eval(o, right, row);
      if a == b == Truth(true) then a
      else if o.and(a, b) == Truth(true) then Truth(false) else o.and(a, b)
    case Opaque(id) => o.opaque_(id, row)
  }

  predicate Passes(o: Others, filters: seq<Expr>, row: Row) {
    forall i | 0 <= i < |filters| :: Eval(o, filters[i], row) == Truth(true)
  }

  // ----- the names that filters ask for -----

  datatype Kind = Catalogs | Schemas | Tables | Columns

  type Names = Option<set<string>>

  datatype Filters = Filters(catalogs: Names, schemas: Names, tables: Names, columns: Names)

  const NO_FILTERS := Filters(None, None, None, None)

  function KindOf(column: string): Option<Kind> {
    var name := Fold(column);
    if name == "catalog_name" || name == "table_catalog" then Some(Catalogs)
    else if name == "schema_name" || name == "table_schema" then Some(Schemas)
    else if name == "table_name" then Some(Tables)
    else if name == "column_name" then Some(Columns)
    else None
  }

  function NamesOf(f: Filters, k: Kind): Names {
    match k
    case Catalogs => f.catalogs
    case Schemas => f.schemas
    case Tables => f.tables
    case Columns => f.columns
  }

  function With(names: Names, value: string): Names {
    match names
    case None => Some({Fold(value)})
    case Some(values) => Some(values + {Fold(value)})
  }

  function Added(f: Filters, column: string, value: string): Filters {
    match KindOf(column)
    case Some(Catalogs) => f.(catalogs := With(f.catalogs, value))
    case Some(Schemas) => f.(schemas := With(f.schemas, value))
    case Some(Tables) => f.(tables := With(f.tables, value))
    case Some(Columns) => f.(columns := With(f.columns, value))
    case None => f
  }

  /** A column compared with a string, in either order. */
  function EqualityFilter(left: Expr, right: Expr): Option<(string, string)> {
    if left.Column? && right.Literal? then Some((left.name, right.text))
    else if right.Column? && left.Literal? then Some((right.name, left.text))
    else None
  }

  function Collected(f: Filters, e: Expr): Filters
    decreases e
  {
    match e
    case And(left, right) => Collected(Collected(f, left), right)
    case Equals(left, right) =>
      (match EqualityFilter(left, right) case Some((column, value)) => Added(f, column, value) case None => f)
    case Column(_) => f
    case Literal(_) => f
    case Opaque(_) => f
  }

  function FromExprs(filters: seq<Expr>): Filters {
    if filters == [] then NO_FILTERS else Collected(FromExprs(filters[..|filters| - 1]), filters[|filters| - 1])
  }

  predicate MatchesName(names: Names, name: string) { names.Some? ==> Fold(name) in names.value }

  class MetadataFilters {
    var catalogs: Names
    var schemas: Names
    var tables: Names
    var columns: Names

    function View(): Filters
      reads this
    {
      Filters(catalogs, schemas, tables, columns)
    }

    constructor ()
      ensures View() == NO_FILTERS
    {
      catalogs, schemas, tables, columns := None, None, None, None;
    }

    method Add(column: string, value: string)
      modifies this
      ensures View() == Added(old(View()), column, value)
    {
      match KindOf(column) {
        case Some(Catalogs) => catalogs := With(catalogs, value);
        case Some(Schemas) => schemas := With(schemas, value);
        case Some(Tables) => tables := With(tables, value);
        case Some(Columns) => columns := With(columns, value);
        case None =>
      }
    }

    method Collect(e: Expr)
      modifies this
      ensures View() == Collected(old(View()), e)
      decreases e
    {
      match e {
        case And(left, right) =>
          Collect(left);
          Collect(right);
        case Equals(left, right) =>
          if left.Column? && right.Literal? {
            Add(left.name, right.text);
          } else if right.Column? && left.Literal? {
            Add(right.name, left.text);
          }
        case Column(_) =>
        case Literal(_) =>
        case Opaque(_) =>
      }
    }

    method CollectAll(filters: seq<Expr>)
      requires View() == NO_FILTERS
      modifies this
      ensures View() == FromExprs(filters)
    {
      for i := 0 to |filters|
        invariant View() == FromExprs(filters[..i])
      {
        assert filters[..i + 1][..i] == filters[..i];
        Collect(filters[i]);
      }
      assert filters[..|filters|] == filters;
    }
  }

  lemma Kinds()
    ensures KindOf("catalog_name") == KindOf("table_catalog") == Some(Catalogs)
    ensures KindOf("schema_name") == KindOf("table_schema") == Some(Schemas)
    ensures KindOf("table_name") == Some(Tables) && KindOf("column_name") == Some(Columns)
    ensures KindOf("ordinal_position") == None
  {
    hide Fold;
    FoldLower("catalog_name");
    FoldLower("table_catalog");
    FoldLower("schema_name");
    FoldLower("table_schema");
    FoldLower("table_name");
    FoldLower("column_name");
    FoldLower("ordinal_position");
  }

  // ----- a row that passes has every name the filters ask for -----

  /** The columns that filters prune on hold text, and there is at most one of each kind. */
  predicate Coherent(row: Row) {
    forall c | c in row.columns && KindOf(c).Some? ::
      row.columns[c].Str? && forall d | d in row.columns && KindOf(d) == KindOf(c) :: d == c
  }

  /** Each name the row carries is one the filters ask for, where they ask for any of its kind. */
  predicate Matching(row: Row, f: Filters) {
    forall c | c in row.columns && KindOf(c).Some? ::
      row.columns[c].Str? && MatchesName(NamesOf(f, KindOf(c).value), row.columns[c].s)
  }

  /** Some column of that kind holds a name in the set. */
  predicate Holds(row: Row, k: Kind, names: Names) {
    names.Some? ==> exists c | c in row.columns ::
      KindOf(c) == Some(k) && row.columns[c].Str? && Fold(row.columns[c].s) in names.value
  }

  predicate HoldsAll(row: Row, f: Filters) {
    Holds(row, Catalogs, f.catalogs) && Holds(row, Schemas, f.schemas)
    && Holds(row, Tables, f.tables) && Holds(row, Columns, f.columns)
  }

  lemma AddedHolds(f: Filters, row: Row, column: string, value: string)
    requires HoldsAll(row, f)
    requires KindOf(column).Some? ==> column in row.columns && row.columns[column] == Str(value)
    ensures HoldsAll(row, Added(f, column, value))
  {
    hide KindOf, Fold;
  }

  /** Each filter that is true of the row leaves only names the row has. */
  lemma {:induction false} CollectedHolds(o: Others, f: Filters, e: Expr, row: Row)
    requires Coherent(row) && HoldsAll(row, f) && Eval(o, e, row) == Truth(true)
    ensures HoldsAll(row, Collected(f, e))
    decreases e
  {
    hide HoldsAll, Added, KindOf;
    match e {
      case And(left, right) =>
        CollectedHolds(o, f, left, row);
        CollectedHolds(o, Collected(f, left), right, row);
      case Equals(left, right) =>
        match EqualityFilter(left, right) {
          case Some((column, value)) => AddedHolds(f, row, column, value);
          case None =>
        }
      case Column(_) =>
      case Literal(_) =>
      case Opaque(_) =>
    }
  }

  lemma NothingHolds(row: Row)
    ensures HoldsAll(row, NO_FILTERS)
  {
  }

  lemma {:induction false} PassingHolds(o: Others, filters: seq<Expr>, row: Row)
    requires Coherent(row) && Passes(o, filters, row)
    ensures HoldsAll(row, FromExprs(filters))
  {
    hide Eval, Collected, Coherent, HoldsAll;
    assert filters == [] ==> HoldsAll(row, NO_FILTERS) by { NothingHolds(row); }
    if filters != [] {
      var n := |filters| - 1;
      assert Eval(o, filters[n], row) == Truth(true);
      PassingHolds(o, filters[..n], row);
      CollectedHolds(o, FromExprs(filters[..n]), filters[n], row);
    }
  }

  lemma PassingMatching(o: Others, filters: seq<Expr>, row: Row)
    requires Coherent(row) && Passes(o, filters, row)
    ensures Matching(row, FromExprs(filters))
  {
    hide KindOf, Passes, FromExprs, Fold;
    PassingHolds(o, filters, row);
  }
}
