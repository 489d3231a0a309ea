/** The differences between two packages (diff.rs): tables, their columns and rows, saved queries
    and saved charts, each matched by name. */
module PackageDiff {

  import opened Wrappers
  import Replay

  /** A column, table, query or chart: what it is called, and the rest of it. */
  datatype Named<V> = Named(name: string, value: V)

  datatype Table = Table(schema: seq<Named<string>>, rows: nat, derivation: Option<Replay.Derivation>)

  datatype ChartType = Bar | Line | Area | Scatter | Histogram | BoxPlot | Heatmap

  datatype ChartSpec = ChartSpec(chartType: ChartType, source: string, x: Option<string>, y: Option<string>,
                                 group: Option<string>, color: Option<string>, title: string)

  datatype Package = Package(tables: seq<Named<Table>>, queries: seq<Named<string>>, charts: seq<Named<ChartSpec>>)

  /** What changed about one thing. `P` is what is said of a thing added or removed, `C` of each
      side of one changed. */
  datatype Change<P, C> = Added(what: P) | Removed(what: P) | Changed(from: C, to: C)

  type ColumnChange = Change<string, string>

  type LineageChange = Change<(), Option<Replay.Derivation>>

  type QueryChange = Change<(), string>

  type ChartChange = Change<(), string>

  datatype Delta<C> = Delta(name: string, change: C)

  datatype SchemaDelta = SchemaDelta(table: string, column: string, change: ColumnChange)

  datatype RowsDelta = RowsDelta(table: string, from: nat, to: nat)

  function ChartTypeName(t: ChartType): string
  {
    match t
    case Bar => "bar"
    case Line => "line"
    case Area => "area"
    case Scatter => "scatter"
    case Histogram => "histogram"
    case BoxPlot => "boxplot"
    case Heatmap => "heatmap"
  }

  function ChartSummary(spec: ChartSpec): string
  {
    ChartTypeName(spec.chartType)
    + (if spec.x.Some? then " x=" + spec.x.value else "")
    + (if spec.y.Some? then " y=" + spec.y.value else "")
  }

  /** The chart's kind, and then the columns on its two axes, where it has them. */
  lemma ChartSummaryIs(spec: ChartSpec)
    ensures var kind := match spec.chartType
                        case Bar => "bar" case Line => "line" case Area => "area" case Scatter => "scatter"
                        case Histogram => "histogram" case BoxPlot => "boxplot" case Heatmap => "heatmap";
            match (spec.x, spec.y)
            case (None, None) => ChartSummary(spec) == kind
            case (Some(x), None) => ChartSummary(spec) == kind + " x=" + x
            case (None, Some(y)) => ChartSummary(spec) == kind + " y=" + y
            case (Some(x), Some(y)) => ChartSummary(spec) == kind + " x=" + x + " y=" + y
  {
  }

  // ---- the differences between two lists of named things

  type Difference<V> = Delta<Change<V, V>>

  /** The first of that name. */
  function Find<V>(items: seq<Named<V>>, name: string): Option<V>
  {
    if items == [] then None else if items[0].name == name then Some(items[0].value) else Find(items[1..], name)
  }

  ghost predicate UniqueNames<V>(items: seq<Named<V>>)
  {
    forall i, j :: 0 <= i < j < |items| ==> items[i].name != items[j].name
  }

  /** What became of `item`. */
  function Fate<V(==)>(item: Named<V>, b: seq<Named<V>>): seq<Difference<V>>
  {
    match Find(b, item.name)
    case None => [Delta(item.name, Removed(item.value))]
    case Some(v) => if v != item.value then [Delta(item.name, Changed(item.value, v))] else []
  }

  function Fates<V(==)>(a: seq<Named<V>>, b: seq<Named<V>>): seq<Difference<V>>
  {
    if a == [] then [] else Fates(a[..|a| - 1], b) + Fate(a[|a| - 1], b)
  }

  function Arrival<V(==)>(item: Named<V>, a: seq<Named<V>>): seq<Difference<V>>
  {
    if Find(a, item.name).None? then [Delta(item.name, Added(item.value))] else []
  }

  function Arrivals<V(==)>(a: seq<Named<V>>, b: seq<Named<V>>): seq<Difference<V>>
  {
    if b == [] then [] else Arrivals(a, b[..|b| - 1]) + Arrival(b[|b| - 1], a)
  }

  function Differences<V(==)>(a: seq<Named<V>>, b: seq<Named<V>>): seq<Difference<V>> { Fates(a, b) + Arrivals(a, b) }

  function Each<T, U>(items: seq<T>, f: T -> U): seq<U> { seq(|items|, i requires 0 <= i < |items| => f(items[i])) }

  // ---- what is said of them

  function Shown<V, C>(d: Difference<V>, say: V -> C): Delta<Change<(), C>>
  {
    Delta(d.name,
          match d.change
          case Added(_) => Added(())
          case Removed(_) => Removed(())
          case Changed(from, to) => Changed(say(from), say(to)))
  }

  function Shows<V, C>(say: V -> C): Difference<V> -> Delta<Change<(), C>> { d => Shown(d, say) }

  function AllShown<V, C>(ds: seq<Difference<V>>, say: V -> C): seq<Delta<Change<(), C>>> { Each(ds, Shows(say)) }

  function Itself<V>(v: V): V { v }

  function Derivations(tables: seq<Named<Table>>): seq<Named<Option<Replay.Derivation>>>
  {
    Each(tables, (t: Named<Table>) => Named(t.name, t.value.derivation))
  }

  function Within(table: string): Difference<string> -> SchemaDelta
  {
    (d: Difference<string>) => SchemaDelta(table, d.name, d.change)
  }

  function OfTable(table: string, ds: seq<Difference<string>>): seq<SchemaDelta> { Each(ds, Within(table)) }

  function TableSchema(item: Named<Table>, b: seq<Named<Table>>): seq<SchemaDelta>
  {
    match Find(b, item.name)
    case Some(tb) => OfTable(item.name, Differences(item.value.schema, tb.schema))
    case None => []
  }

  function Schemas(a: seq<Named<Table>>, b: seq<Named<Table>>): seq<SchemaDelta>
  {
    if a == [] then [] else Schemas(a[..|a| - 1], b) + TableSchema(a[|a| - 1], b)
  }

  function TableRows(item: Named<Table>, b: seq<Named<Table>>): seq<RowsDelta>
  {
    match Find(b, item.name)
    case Some(tb) => if item.value.rows != tb.rows then [RowsDelta(item.name, item.value.rows, tb.rows)] else []
    case None => []
  }

  function RowCounts(a: seq<Named<Table>>, b: seq<Named<Table>>): seq<RowsDelta>
  {
    if a == [] then [] else RowCounts(a[..|a| - 1], b) + TableRows(a[|a| - 1], b)
  }

  function LineageOf(a: seq<Named<Table>>, b: seq<Named<Table>>): seq<Delta<LineageChange>>
  {
    AllShown(Differences(Derivations(a), Derivations(b)), Itself)
  }

  lemma FatesNext<V, R>(was: seq<R>, a: seq<Named<V>>, b: seq<Named<V>>, i: nat, f: Difference<V> -> R)
    requires i < |a|
    ensures was + Each(Fates(a[..i + 1], b), f) == was + Each(Fates(a[..i], b), f) + Each(Fate(a[i], b), f)
  {
    assert a[..i + 1][..i] == a[..i];
  }

  lemma ArrivalsNext<V, R>(was: seq<R>, a: seq<Named<V>>, b: seq<Named<V>>, i: nat, f: Difference<V> -> R)
    requires i < |b|
    ensures was + Each(Arrivals(a, b[..i + 1]), f) == was + Each(Arrivals(a, b[..i]), f) + Each(Arrival(b[i], a), f)
  {
    assert b[..i + 1][..i] == b[..i];
  }

  lemma DifferencesSplit<V, R>(was: seq<R>, a: seq<Named<V>>, b: seq<Named<V>>, f: Difference<V> -> R)
    ensures was + Each(Differences(a, b), f) == was + Each(Fates(a, b), f) + Each(Arrivals(a, b), f)
  {
  }

  lemma TablesNext(schema: seq<SchemaDelta>, rows: seq<RowsDelta>, a: seq<Named<Table>>, b: seq<Named<Table>>, i: nat)
    requires i < |a|
    ensures schema + Schemas(a[..i + 1], b) == schema + Schemas(a[..i], b) + TableSchema(a[i], b)
    ensures rows + RowCounts(a[..i + 1], b) == rows + RowCounts(a[..i], b) + TableRows(a[i], b)
  {
    assert a[..i + 1][..i] == a[..i];
  }

  // ---- computing them

  class Diff {
    var schema: seq<SchemaDelta>
    var lineage: seq<Delta<LineageChange>>
    var queries: seq<Delta<QueryChange>>
    var charts: seq<Delta<ChartChange>>
    var rowCounts: seq<RowsDelta>

    constructor ()
      ensures schema == [] && lineage == [] && queries == [] && charts == [] && rowCounts == []
    {
      schema, lineage, queries, charts, rowCounts := [], [], [], [], [];
    }

    predicate IsEmpty()
      reads this
    {
      schema == [] && lineage == [] && queries == [] && rowCounts == [] && charts == []
    }

    method DiffColumns(table: string, ta: seq<Named<string>>, tb: seq<Named<string>>)
      modifies this`schema
      ensures schema == old(schema) + OfTable(table, Differences(ta, tb))
    {
      for i := 0 to |ta|
        invariant schema == old(schema) + OfTable(table, Fates(ta[..i], tb))
      {
        FatesNext(old(schema), ta, tb, i, Within(table));
        var ca := ta[i];
        match Find(tb, ca.name) {
          case None => schema := schema + [SchemaDelta(table, ca.name, Removed(ca.value))];
          case Some(cb) =>
            if cb != ca.value {
              schema := schema + [SchemaDelta(table, ca.name, Changed(ca.value, cb))];
            }
        }
      }
      assert ta[..|ta|] == ta;
      DifferencesSplit(old(schema), ta, tb, Within(table));
      NewColumns(table, ta, tb);
    }

    method NewColumns(table: string, ta: seq<Named<string>>, tb: seq<Named<string>>)
      modifies this`schema
      ensures schema == old(schema) + OfTable(table, Arrivals(ta, tb))
    {
      for i := 0 to |tb|
        invariant schema == old(schema) + OfTable(table, Arrivals(ta, tb[..i]))
      {
        ArrivalsNext(old(schema), ta, tb, i, Within(table));
        if Find(ta, tb[i].name).None? {
          schema := schema + [SchemaDelta(table, tb[i].name, Added(tb[i].value))];
        }
      }
      assert tb[..|tb|] == tb;
    }

    method DiffMatchedTable(name: string, ta: Table, tb: Table)
      modifies this
      ensures schema == old(schema) + OfTable(name, Differences(ta.schema, tb.schema))
      ensures lineage == old(lineage)
                         + (if ta.derivation != tb.derivation then [Delta(name, Changed(ta.derivation, tb.derivation))]
                            else [])
      ensures rowCounts == old(rowCounts) + (if ta.rows != tb.rows then [RowsDelta(name, ta.rows, tb.rows)] else [])
      ensures queries == old(queries) && charts == old(charts)
    {
      if ta.derivation != tb.derivation {
        lineage := lineage + [Delta(name, Changed(ta.derivation, tb.derivation))];
      }
      DiffColumns(name, ta.schema, tb.schema);
      if ta.rows != tb.rows {
        rowCounts := rowCounts + [RowsDelta(name, ta.rows, tb.rows)];
      }
    }

    method DiffTables(a: seq<Named<Table>>, b: seq<Named<Table>>)
      modifies this
      ensures schema == old(schema) + Schemas(a, b)
      ensures lineage == old(lineage) + LineageOf(a, b)
      ensures rowCounts == old(rowCounts) + RowCounts(a, b)
      ensures queries == old(queries) && charts == old(charts)
    {
      DiffTablesOf(a, b);
      NewTables(a, b);
      DifferencesSplit(old(lineage), Derivations(a), Derivations(b), Shows(Itself));
    }

    method DiffTablesOf(a: seq<Named<Table>>, b: seq<Named<Table>>)
      modifies this
      ensures schema == old(schema) + Schemas(a, b)
      ensures lineage == old(lineage) + AllShown(Fates(Derivations(a), Derivations(b)), Itself)
      ensures rowCounts == old(rowCounts) + RowCounts(a, b)
      ensures queries == old(queries) && charts == old(charts)
    {
      ghost var da, db := Derivations(a), Derivations(b);
      for i := 0 to |a|
        invariant schema == old(schema) + Schemas(a[..i], b)
        invariant lineage == old(lineage) + AllShown(Fates(da[..i], db), Itself)
        invariant rowCounts == old(rowCounts) + RowCounts(a[..i], b)
        invariant queries == old(queries) && charts == old(charts)
      {
        FatesNext(old(lineage), da, db, i, Shows(Itself));
        TablesNext(old(schema), old(rowCounts), a, b, i);
        FindDerivation(b, a[i].name);
        DiffTable(a[i], b);
      }
      assert a[..|a|] == a && da[..|a|] == da;
    }

    /** One turn of the loop above. */
    method DiffTable(ta: Named<Table>, b: seq<Named<Table>>)
      modifies this
      ensures schema == old(schema) + TableSchema(ta, b)
      ensures lineage == old(lineage) + AllShown(Fate(Named(ta.name, ta.value.derivation), Derivations(b)), Itself)
      ensures rowCounts == old(rowCounts) + TableRows(ta, b)
      ensures queries == old(queries) && charts == old(charts)
    {
      FindDerivation(b, ta.name);
      match Find(b, ta.name) {
        case None => lineage := lineage + [Delta(ta.name, Removed(()))];
        case Some(tb) => DiffMatchedTable(ta.name, ta.value, tb);
      }
    }

    method NewTables(a: seq<Named<Table>>, b: seq<Named<Table>>)
      modifies this`lineage
      ensures lineage == old(lineage) + AllShown(Arrivals(Derivations(a), Derivations(b)), Itself)
    {
      ghost var da, db := Derivations(a), Derivations(b);
      for i := 0 to |b|
        invariant lineage == old(lineage) + AllShown(Arrivals(da, db[..i]), Itself)
      {
        ArrivalsNext(old(lineage), da, db, i, Shows(Itself));
        FindDerivation(a, b[i].name);
        if Find(a, b[i].name).None? {
          lineage := lineage + [Delta(b[i].name, Added(()))];
        }
      }
      assert db[..|b|] == db;
    }

    method DiffQueries(a: seq<Named<string>>, b: seq<Named<string>>)
      modifies this`queries
      ensures queries == old(queries) + AllShown(Differences(a, b), Itself)
    {
      for i := 0 to |a|
        invariant queries == old(queries) + AllShown(Fates(a[..i], b), Itself)
      {
        FatesNext(old(queries), a, b, i, Shows(Itself));
        match Find(b, a[i].name) {
          case None => queries := queries + [Delta(a[i].name, Removed(()))];
          case Some(sql) =>
            if sql != a[i].value {
              queries := queries + [Delta(a[i].name, Changed(a[i].value, sql))];
            }
        }
      }
      assert a[..|a|] == a;
      DifferencesSplit(old(queries), a, b, Shows(Itself));
      NewQueries(a, b);
    }

    method NewQueries(a: seq<Named<string>>, b: seq<Named<string>>)
      modifies this`queries
      ensures queries == old(queries) + AllShown(Arrivals(a, b), Itself)
    {
      for i := 0 to |b|
        invariant queries == old(queries) + AllShown(Arrivals(a, b[..i]), Itself)
      {
        ArrivalsNext(old(queries), a, b, i, Shows(Itself));
        if Find(a, b[i].name).None? {
          queries := queries + [Delta(b[i].name, Added(()))];
        }
      }
      assert b[..|b|] == b;
    }

    method DiffCharts(a: seq<Named<ChartSpec>>, b: seq<Named<ChartSpec>>)
      modifies this`charts
      ensures charts == old(charts) + AllShown(Differences(a, b), ChartSummary)
    {
      for i := 0 to |a|
        invariant charts == old(charts) + AllShown(Fates(a[..i], b), ChartSummary)
      {
        FatesNext(old(charts), a, b, i, Shows(ChartSummary));
        match Find(b, a[i].name) {
          case None => charts := charts + [Delta(a[i].name, Removed(()))];
          case Some(spec) =>
            if spec != a[i].value {
              charts := charts + [Delta(a[i].name, Changed(ChartSummary(a[i].value), ChartSummary(spec)))];
            }
        }
      }
      assert a[..|a|] == a;
      DifferencesSplit(old(charts), a, b, Shows(ChartSummary));
      NewCharts(a, b);
    }

    method NewCharts(a: seq<Named<ChartSpec>>, b: seq<Named<ChartSpec>>)
      modifies this`charts
      ensures charts == old(charts) + AllShown(Arrivals(a, b), ChartSummary)
    {
      for i := 0 to |b|
        invariant charts == old(charts) + AllShown(Arrivals(a, b[..i]), ChartSummary)
      {
        ArrivalsNext(old(charts), a, b, i, Shows(ChartSummary));
        if Find(a, b[i].name).None? {
          charts := charts + [Delta(b[i].name, Added(()))];
        }
      }
      assert b[..|b|] == b;
    }
  }

  method Compute(a: Package, b: Package) returns (diff: Diff)
    ensures diff.schema == Schemas(a.tables, b.tables)
    ensures diff.lineage == LineageOf(a.tables, b.tables)
    ensures diff.rowCounts == RowCounts(a.tables, b.tables)
    ensures diff.queries == AllShown(Differences(a.queries, b.queries), Itself)
    ensures diff.charts == AllShown(Differences(a.charts, b.charts), ChartSummary)
  {
    diff := new Diff();
    NothingBefore(Schemas(a.tables, b.tables));
    NothingBefore(LineageOf(a.tables, b.tables));
    NothingBefore(RowCounts(a.tables, b.tables));
    NothingBefore(AllShown(Differences(a.queries, b.queries), Itself));
    NothingBefore(AllShown(Differences(a.charts, b.charts), ChartSummary));
    diff.DiffTables(a.tables, b.tables);
    diff.DiffQueries(a.queries, b.queries);
    diff.DiffCharts(a.charts, b.charts);
  }

  lemma NothingBefore<T>(items: seq<T>)
    ensures [] + items == items
  {
  }

  method DiffPackages(a: Package, b: Package) returns (diff: Diff)
    requires WellNamed(a) && WellNamed(b)
    ensures diff.IsEmpty() <==> SamePackage(a, b)
  {
    diff := Compute(a, b);
    EmptyIffSame(a, b);
  }

  // ---- finding by name

  lemma {:induction false} FindIs<V>(items: seq<Named<V>>, name: string)
    ensures Find(items, name).Some? ==> Named(name, Find(items, name).value) in items
    ensures Find(items, name).None? ==> forall item <- items :: item.name != name
  {
    if items != [] {
      assert items == [items[0]] + items[1..];
      FindIs(items[1..], name);
    }
  }

  lemma FindUnique<V>(items: seq<Named<V>>, item: Named<V>)
    requires UniqueNames(items) && item in items
    ensures Find(items, item.name) == Some(item.value)
  {
    FindIs(items, item.name);
  }

  lemma {:induction false} FindDerivation(tables: seq<Named<Table>>, name: string)
    ensures Find(Derivations(tables), name)
            == match Find(tables, name) case Some(t) => Some(t.derivation) case None => None
  {
    if tables != [] {
      assert Derivations(tables)[1..] == Derivations(tables[1..]);
      FindDerivation(tables[1..], name);
    }
  }

  // ---- what a difference means

  /** What became of one name, by what it was and what it is. */
  function Became<V(==)>(was: Option<V>, now: Option<V>): Option<Change<V, V>>
  {
    match (was, now)
    case (None, None) => None
    case (None, Some(v)) => Some(Added(v))
    case (Some(v), None) => Some(Removed(v))
    case (Some(u), Some(v)) => if u == v then None else Some(Changed(u, v))
  }

  lemma {:induction false} FatesHas<V>(a: seq<Named<V>>, b: seq<Named<V>>, d: Difference<V>)
    ensures d in Fates(a, b) <==> exists item <- a :: d in Fate(item, b)
  {
    if a != [] {
      assert a == a[..|a| - 1] + [a[|a| - 1]];
      FatesHas(a[..|a| - 1], b, d);
    }
  }

  lemma {:induction false} ArrivalsHas<V>(a: seq<Named<V>>, b: seq<Named<V>>, d: Difference<V>)
    ensures d in Arrivals(a, b) <==> exists item <- b :: d in Arrival(item, a)
  {
    if b != [] {
      assert b == b[..|b| - 1] + [b[|b| - 1]];
      ArrivalsHas(a, b[..|b| - 1], d);
    }
  }

  /** The loops report of each name what became of it, and nothing else. */
  lemma DifferenceIff<V>(a: seq<Named<V>>, b: seq<Named<V>>, d: Difference<V>)
    requires UniqueNames(a) && UniqueNames(b)
    ensures d in Differences(a, b) <==> Became(Find(a, d.name), Find(b, d.name)) == Some(d.change)
  {
    FatesHas(a, b, d);
    ArrivalsHas(a, b, d);
    FindIs(a, d.name);
    FindIs(b, d.name);
    if item :| item in a && d in Fate(item, b) {
      FindUnique(a, item);
    }
    if item :| item in b && d in Arrival(item, a) {
      FindUnique(b, item);
    }
    if Became(Find(a, d.name), Find(b, d.name)) == Some(d.change) {
      if Find(a, d.name).Some? {
        assert d in Fate(Named(d.name, Find(a, d.name).value), b);
      } else {
        assert d in Arrival(Named(d.name, Find(b, d.name).value), a);
      }
    }
  }

  /** A name is reported as it changed: what was and what is, each as `say` puts it. */
  lemma ReportedIff<V, C>(a: seq<Named<V>>, b: seq<Named<V>>, say: V -> C, d: Delta<Change<(), C>>)
    requires UniqueNames(a) && UniqueNames(b)
    ensures d in AllShown(Differences(a, b), say) <==>
              match (Find(a, d.name), Find(b, d.name))
              case (None, Some(_)) => d.change == Added(())
              case (Some(_), None) => d.change == Removed(())
              case (Some(u), Some(v)) => u != v && d.change == Changed(say(u), say(v))
              case (None, None) => false
  {
    var ds, became := Differences(a, b), Became(Find(a, d.name), Find(b, d.name));
    if d in AllShown(ds, say) {
      var i :| 0 <= i < |ds| && Shown(ds[i], say) == d;
      DifferenceIff(a, b, ds[i]);
    }
    if became.Some? {
      DifferenceIff(a, b, Delta(d.name, became.value));
      var i :| 0 <= i < |ds| && ds[i] == Delta(d.name, became.value);
      assert AllShown(ds, say)[i] == Shown(ds[i], say);
    }
  }

  ghost predicate Same<V>(a: seq<Named<V>>, b: seq<Named<V>>) { forall name :: Find(a, name) == Find(b, name) }

  lemma NoneIffSame<V>(a: seq<Named<V>>, b: seq<Named<V>>)
    requires UniqueNames(a) && UniqueNames(b)
    ensures Differences(a, b) == [] <==> Same(a, b)
  {
    if Differences(a, b) == [] {
      forall name
        ensures Find(a, name) == Find(b, name)
      {
        var became := Became(Find(a, name), Find(b, name));
        if became.Some? {
          DifferenceIff(a, b, Delta(name, became.value));
        }
      }
    } else {
      var d := Differences(a, b)[0];
      DifferenceIff(a, b, d);
    }
  }

  // ---- whole packages

  ghost predicate WellNamedTables(tables: seq<Named<Table>>)
  {
    UniqueNames(tables) && forall t <- tables :: UniqueNames(t.value.schema)
  }

  ghost predicate WellNamed(p: Package)
  {
    WellNamedTables(p.tables) && UniqueNames(p.queries) && UniqueNames(p.charts)
  }

  ghost predicate SameTable(a: Option<Table>, b: Option<Table>)
  {
    match (a, b)
    case (None, None) => true
    case (Some(s), Some(t)) => s.derivation == t.derivation && s.rows == t.rows && Same(s.schema, t.schema)
    case _ => false
  }

  ghost predicate SameTables(a: seq<Named<Table>>, b: seq<Named<Table>>)
  {
    forall name :: SameTable(Find(a, name), Find(b, name))
  }

  /** The same tables, by derivation, number of rows and columns in whatever order; the same
      queries; and the same charts. */
  ghost predicate SamePackage(a: Package, b: Package)
  {
    && SameTables(a.tables, b.tables)
    && Same(a.queries, b.queries)
    && Same(a.charts, b.charts)
  }

  lemma DerivationsUnique(tables: seq<Named<Table>>)
    requires UniqueNames(tables)
    ensures UniqueNames(Derivations(tables))
  {
  }

  lemma {:induction false} SchemaHas(a: seq<Named<Table>>, b: seq<Named<Table>>, d: SchemaDelta)
    ensures d in Schemas(a, b) <==> exists item <- a :: d in TableSchema(item, b)
  {
    if a != [] {
      assert a == a[..|a| - 1] + [a[|a| - 1]];
      SchemaHas(a[..|a| - 1], b, d);
    }
  }

  lemma {:induction false} RowsHas(a: seq<Named<Table>>, b: seq<Named<Table>>, d: RowsDelta)
    ensures d in RowCounts(a, b) <==> exists item <- a :: d in TableRows(item, b)
  {
    if a != [] {
      assert a == a[..|a| - 1] + [a[|a| - 1]];
      RowsHas(a[..|a| - 1], b, d);
    }
  }

  lemma InTable(table: string, ds: seq<Difference<string>>, d: SchemaDelta)
    ensures d in OfTable(table, ds) <==> d.table == table && Delta(d.column, d.change) in ds
  {
    if d.table == table && Delta(d.column, d.change) in ds {
      var i :| 0 <= i < |ds| && ds[i] == Delta(d.column, d.change);
      assert OfTable(table, ds)[i] == d;
    }
  }

  /** What became of a column of a table both packages have. */
  function ColumnBecame(a: seq<Named<Table>>, b: seq<Named<Table>>, table: string, column: string): Option<ColumnChange>
  {
    match (Find(a, table), Find(b, table))
    case (Some(s), Some(t)) => Became(Find(s.schema, column), Find(t.schema, column))
    case _ => None
  }

  lemma SchemaIff(a: seq<Named<Table>>, b: seq<Named<Table>>, d: SchemaDelta)
    requires WellNamedTables(a) && WellNamedTables(b)
    ensures d in Schemas(a, b) <==> ColumnBecame(a, b, d.table, d.column) == Some(d.change)
  {
    SchemaHas(a, b, d);
    FindIs(a, d.table);
    FindIs(b, d.table);
    forall item <- a
      ensures d in TableSchema(item, b)
              <==> item.name == d.table && ColumnBecame(a, b, d.table, d.column) == Some(d.change)
    {
      FindUnique(a, item);
      if Find(b, item.name).Some? {
        var tb := Find(b, item.name).value;
        InTable(item.name, Differences(item.value.schema, tb.schema), d);
        if item.name == d.table {
          assert Named(d.table, tb) in b;
          DifferenceIff(item.value.schema, tb.schema, Delta(d.column, d.change));
        }
      }
    }
  }

  lemma RowsIff(a: seq<Named<Table>>, b: seq<Named<Table>>, d: RowsDelta)
    requires UniqueNames(a)
    ensures d in RowCounts(a, b) <==>
              match (Find(a, d.table), Find(b, d.table))
              case (Some(s), Some(t)) => d.from == s.rows && d.to == t.rows && s.rows != t.rows
              case _ => false
  {
    RowsHas(a, b, d);
    FindIs(a, d.table);
    forall item <- a
      ensures Find(a, item.name) == Some(item.value)
    {
      FindUnique(a, item);
    }
  }

  ghost predicate NoDifference(a: Package, b: Package)
  {
    && Schemas(a.tables, b.tables) == []
    && LineageOf(a.tables, b.tables) == []
    && RowCounts(a.tables, b.tables) == []
    && AllShown(Differences(a.queries, b.queries), Itself) == []
    && AllShown(Differences(a.charts, b.charts), ChartSummary) == []
  }

  /** Nothing is reported of a table exactly when it is the same. */
  lemma TablesSameIff(a: seq<Named<Table>>, b: seq<Named<Table>>)
    requires WellNamedTables(a) && WellNamedTables(b)
    ensures (Schemas(a, b) == [] && LineageOf(a, b) == [] && RowCounts(a, b) == [])
            <==> SameTables(a, b)
  {
    DerivationsUnique(a);
    DerivationsUnique(b);
    NoneIffSame(Derivations(a), Derivations(b));
    if Schemas(a, b) == [] && LineageOf(a, b) == [] && RowCounts(a, b) == [] {
      forall name
        ensures SameTable(Find(a, name), Find(b, name))
      {
        NothingOfTable(a, b, name);
      }
    }
    assert |LineageOf(a, b)| == |Differences(Derivations(a), Derivations(b))|;
    if SameTables(a, b) {
      forall name
        ensures Find(Derivations(a), name) == Find(Derivations(b), name)
      {
        FindDerivation(a, name);
        FindDerivation(b, name);
        assert SameTable(Find(a, name), Find(b, name));
      }
      if Schemas(a, b) != [] {
        var d := Schemas(a, b)[0];
        assert SameTable(Find(a, d.table), Find(b, d.table));
        SchemaIff(a, b, d);
      }
      if RowCounts(a, b) != [] {
        var d := RowCounts(a, b)[0];
        assert SameTable(Find(a, d.table), Find(b, d.table));
        RowsIff(a, b, d);
      }
    }
  }

  lemma NothingOfTable(a: seq<Named<Table>>, b: seq<Named<Table>>, name: string)
    requires WellNamedTables(a) && WellNamedTables(b)
    requires Schemas(a, b) == [] && RowCounts(a, b) == [] && Same(Derivations(a), Derivations(b))
    ensures SameTable(Find(a, name), Find(b, name))
  {
    FindDerivation(a, name);
    FindDerivation(b, name);
    if Find(a, name).Some? && Find(b, name).Some? {
      var s, t := Find(a, name).value, Find(b, name).value;
      RowsIff(a, b, RowsDelta(name, s.rows, t.rows));
      forall column
        ensures Find(s.schema, column) == Find(t.schema, column)
      {
        var became := ColumnBecame(a, b, name, column);
        if became.Some? {
          SchemaIff(a, b, SchemaDelta(name, column, became.value));
        }
      }
    }
  }

  /** A diff is empty exactly when the packages are the same. */
  lemma EmptyIffSame(a: Package, b: Package)
    requires WellNamed(a) && WellNamed(b)
    ensures NoDifference(a, b) <==> SamePackage(a, b)
  {
    TablesSameIff(a.tables, b.tables);
    NoneIffSame(a.queries, b.queries);
    NoneIffSame(a.charts, b.charts);
    assert |AllShown(Differences(a.queries, b.queries), Itself)| == |Differences(a.queries, b.queries)|;
    assert |AllShown(Differences(a.charts, b.charts), ChartSummary)| == |Differences(a.charts, b.charts)|;
  }

  // ---- the other way round

  function Flip<P, C>(change: Change<P, C>): Change<P, C>
  {
    match change
    case Added(what) => Removed(what)
    case Removed(what) => Added(what)
    case Changed(from, to) => Changed(to, from)
  }

  function FlipDelta<P, C>(d: Delta<Change<P, C>>): Delta<Change<P, C>> { Delta(d.name, Flip(d.change)) }

  function FlipSchema(d: SchemaDelta): SchemaDelta { SchemaDelta(d.table, d.column, Flip(d.change)) }

  function FlipRows(d: RowsDelta): RowsDelta { RowsDelta(d.table, d.to, d.from) }

  /** No two of them have one key. */
  ghost predicate Apart<T, K>(items: seq<T>, key: T -> K)
  {
    forall i, j :: 0 <= i < j < |items| ==> key(items[i]) != key(items[j])
  }

  ghost predicate NamedBy<T, K>(items: seq<T>, key: T -> K, keys: iset<K>)
  {
    forall item <- items :: key(item) in keys
  }

  lemma ApartAppend<T, K>(x: seq<T>, y: seq<T>, key: T -> K, keys: iset<K>)
    requires Apart(x, key) && Apart(y, key)
    requires NamedBy(x, key, keys) && forall item <- y :: key(item) !in keys
    ensures Apart(x + y, key)
  {
    forall i, j | 0 <= i < j < |x + y|
      ensures key((x + y)[i]) != key((x + y)[j])
    {
      if i < |x| <= j {
        assert x[i] in x && y[j - |x|] in y;
      }
    }
  }

  lemma {:induction false} ApartOnce<T, K>(items: seq<T>, key: T -> K, t: T)
    requires Apart(items, key)
    ensures multiset(items)[t] == if t in items then 1 else 0
  {
    if items != [] {
      var init, last := items[..|items| - 1], items[|items| - 1];
      assert items == init + [last];
      ApartOnce(init, key, t);
    }
  }

  /** Lists that hold the same things, none twice, are the same but for their order. */
  lemma SameItems<T(!new), K>(x: seq<T>, y: seq<T>, key: T -> K)
    requires Apart(x, key) && Apart(y, key) && forall t :: t in x <==> t in y
    ensures multiset(x) == multiset(y)
  {
    forall t
      ensures multiset(x)[t] == multiset(y)[t]
    {
      ApartOnce(x, key, t);
      ApartOnce(y, key, t);
    }
  }

  /** Flipping twice changes nothing, and flipping keeps the key. */
  ghost predicate Turns<T(!new), K>(key: T -> K, flip: T -> T)
  {
    forall t {:trigger flip(t)} :: key(flip(t)) == key(t) && flip(flip(t)) == t
  }

  ghost predicate Opposite<T(!new)>(x: seq<T>, y: seq<T>, flip: T -> T)
  {
    forall t {:trigger flip(t)} :: t in x <==> flip(t) in y
  }

  /** When what one list holds is what the other holds, flipped, so are the lists themselves. */
  lemma FlippedItems<T(!new), K>(x: seq<T>, y: seq<T>, key: T -> K, flip: T -> T)
    requires Apart(x, key) && Apart(y, key) && Turns(key, flip) && Opposite(x, y, flip)
    ensures multiset(Each(x, flip)) == multiset(y)
  {
    var flipped := Each(x, flip);
    assert forall i :: 0 <= i < |x| ==> flipped[i] == flip(x[i]);
    assert Apart(flipped, key);
    forall t
      ensures t in flipped <==> t in y
    {
      assert flip(flip(t)) == t;
      if flip(t) in x {
        var i :| 0 <= i < |x| && x[i] == flip(t);
        assert flipped[i] == t;
      }
    }
    SameItems(flipped, y, key);
  }

  // ---- nothing is reported twice

  function NameOf<C>(d: Delta<C>): string { d.name }

  function ColumnOf(d: SchemaDelta): (string, string) { (d.table, d.column) }

  function TableOf(d: RowsDelta): string { d.table }

  ghost function Names<V>(items: seq<Named<V>>): iset<string> { iset item <- items :: item.name }

  lemma {:induction false} FatesApart<V>(a: seq<Named<V>>, b: seq<Named<V>>)
    requires UniqueNames(a)
    ensures Apart(Fates(a, b), NameOf) && NamedBy(Fates(a, b), NameOf, Names(a))
  {
    if a != [] {
      var init, last := a[..|a| - 1], a[|a| - 1];
      assert a == init + [last];
      FatesApart(init, b);
      ApartAppend(Fates(init, b), Fate(last, b), NameOf, Names(init));
    }
  }

  lemma {:induction false} ArrivalsApart<V>(a: seq<Named<V>>, b: seq<Named<V>>)
    requires UniqueNames(b)
    ensures Apart(Arrivals(a, b), NameOf) && NamedBy(Arrivals(a, b), NameOf, Names(b))
    ensures forall d <- Arrivals(a, b) :: Find(a, d.name).None?
  {
    if b != [] {
      var init, last := b[..|b| - 1], b[|b| - 1];
      assert b == init + [last];
      ArrivalsApart(a, init);
      ApartAppend(Arrivals(a, init), Arrival(last, a), NameOf, Names(init));
    }
  }

  lemma DifferencesApart<V>(a: seq<Named<V>>, b: seq<Named<V>>)
    requires UniqueNames(a) && UniqueNames(b)
    ensures Apart(Differences(a, b), NameOf)
  {
    FatesApart(a, b);
    ArrivalsApart(a, b);
    forall d <- Arrivals(a, b)
      ensures NameOf(d) !in Names(a)
    {
      FindIs(a, d.name);
    }
    ApartAppend(Fates(a, b), Arrivals(a, b), NameOf, Names(a));
  }

  lemma ShownApart<V, C>(a: seq<Named<V>>, b: seq<Named<V>>, say: V -> C)
    requires UniqueNames(a) && UniqueNames(b)
    ensures Apart(AllShown(Differences(a, b), say), NameOf)
  {
    DifferencesApart(a, b);
  }

  ghost function ColumnsOf(a: seq<Named<Table>>): iset<(string, string)>
  {
    iset table, column | table in Names(a) :: (table, column)
  }

  lemma TableSchemaApart(item: Named<Table>, b: seq<Named<Table>>)
    requires UniqueNames(item.value.schema) && WellNamedTables(b)
    ensures Apart(TableSchema(item, b), ColumnOf) && forall d <- TableSchema(item, b) :: d.table == item.name
  {
    if Find(b, item.name).Some? {
      FindIs(b, item.name);
      var tb := Find(b, item.name).value;
      assert Named(item.name, tb) in b;
      DifferencesApart(item.value.schema, tb.schema);
    }
  }

  lemma {:induction false} SchemasApart(a: seq<Named<Table>>, b: seq<Named<Table>>)
    requires WellNamedTables(a) && WellNamedTables(b)
    ensures Apart(Schemas(a, b), ColumnOf) && NamedBy(Schemas(a, b), ColumnOf, ColumnsOf(a))
  {
    if a != [] {
      var init, last := a[..|a| - 1], a[|a| - 1];
      assert a == init + [last];
      SchemasApart(init, b);
      TableSchemaApart(last, b);
      ApartAppend(Schemas(init, b), TableSchema(last, b), ColumnOf, ColumnsOf(init));
    }
  }

  lemma {:induction false} RowCountsApart(a: seq<Named<Table>>, b: seq<Named<Table>>)
    requires UniqueNames(a)
    ensures Apart(RowCounts(a, b), TableOf) && NamedBy(RowCounts(a, b), TableOf, Names(a))
  {
    if a != [] {
      var init, last := a[..|a| - 1], a[|a| - 1];
      assert a == init + [last];
      RowCountsApart(init, b);
      ApartAppend(RowCounts(init, b), TableRows(last, b), TableOf, Names(init));
    }
  }

  // ---- and nothing is left out

  lemma DeltasTurn<P(!new), C(!new)>()
    ensures Turns<Delta<Change<P, C>>, string>(NameOf, FlipDelta)
  {
  }

  lemma ShownFlips<V, C(!new)>(a: seq<Named<V>>, b: seq<Named<V>>, say: V -> C)
    requires UniqueNames(a) && UniqueNames(b)
    ensures multiset(Each(AllShown(Differences(a, b), say), FlipDelta)) == multiset(AllShown(Differences(b, a), say))
  {
    var x, y := AllShown(Differences(a, b), say), AllShown(Differences(b, a), say);
    ShownApart(a, b, say);
    ShownApart(b, a, say);
    DeltasTurn<(), C>();
    forall d: Delta<Change<(), C>> {:trigger FlipDelta(d)}
      ensures d in x <==> FlipDelta(d) in y
    {
      ShownFlip(a, b, say, d);
    }
    assert Opposite(x, y, FlipDelta);
    FlippedItems(x, y, NameOf, FlipDelta);
  }

  lemma ShownFlip<V, C>(a: seq<Named<V>>, b: seq<Named<V>>, say: V -> C, d: Delta<Change<(), C>>)
    requires UniqueNames(a) && UniqueNames(b)
    ensures d in AllShown(Differences(a, b), say) <==> FlipDelta(d) in AllShown(Differences(b, a), say)
  {
    ReportedIff(a, b, say, d);
    ReportedIff(b, a, say, FlipDelta(d));
  }

  lemma BecameFlips(a: seq<Named<Table>>, b: seq<Named<Table>>, table: string, column: string, change: ColumnChange)
    ensures ColumnBecame(a, b, table, column) == Some(change)
            <==> ColumnBecame(b, a, table, column) == Some(Flip(change))
  {
  }

  lemma SchemaFlip(a: seq<Named<Table>>, b: seq<Named<Table>>, d: SchemaDelta)
    requires WellNamedTables(a) && WellNamedTables(b)
    ensures d in Schemas(a, b) <==> FlipSchema(d) in Schemas(b, a)
  {
    SchemaIff(a, b, d);
    SchemaIff(b, a, FlipSchema(d));
    BecameFlips(a, b, d.table, d.column, d.change);
  }

  lemma SchemasFlip(a: seq<Named<Table>>, b: seq<Named<Table>>)
    requires WellNamedTables(a) && WellNamedTables(b)
    ensures multiset(Each(Schemas(a, b), FlipSchema)) == multiset(Schemas(b, a))
  {
    var x, y := Schemas(a, b), Schemas(b, a);
    SchemasApart(a, b);
    SchemasApart(b, a);
    assert Turns(ColumnOf, FlipSchema);
    forall d {:trigger FlipSchema(d)}
      ensures d in x <==> FlipSchema(d) in y
    {
      SchemaFlip(a, b, d);
    }
    assert Opposite(x, y, FlipSchema);
    FlippedItems(x, y, ColumnOf, FlipSchema);
  }

  lemma RowCountFlip(a: seq<Named<Table>>, b: seq<Named<Table>>, d: RowsDelta)
    requires UniqueNames(a) && UniqueNames(b)
    ensures d in RowCounts(a, b) <==> FlipRows(d) in RowCounts(b, a)
  {
    RowsIff(a, b, d);
    RowsIff(b, a, FlipRows(d));
  }

  lemma RowCountsFlip(a: seq<Named<Table>>, b: seq<Named<Table>>)
    requires UniqueNames(a) && UniqueNames(b)
    ensures multiset(Each(RowCounts(a, b), FlipRows)) == multiset(RowCounts(b, a))
  {
    var x, y := RowCounts(a, b), RowCounts(b, a);
    RowCountsApart(a, b);
    RowCountsApart(b, a);
    assert Turns(TableOf, FlipRows);
    forall d {:trigger FlipRows(d)}
      ensures d in x <==> FlipRows(d) in y
    {
      RowCountFlip(a, b, d);
    }
    assert Opposite(x, y, FlipRows);
    FlippedItems(x, y, TableOf, FlipRows);
  }

  /** Diffing in the other direction says the same, as often, with what is added removed, and
      each change the other way about. */
  lemma ReversedIsFlipped(a: Package, b: Package)
    requires WellNamed(a) && WellNamed(b)
    ensures multiset(Each(Schemas(a.tables, b.tables), FlipSchema)) == multiset(Schemas(b.tables, a.tables))
    ensures multiset(Each(LineageOf(a.tables, b.tables), FlipDelta)) == multiset(LineageOf(b.tables, a.tables))
    ensures multiset(Each(RowCounts(a.tables, b.tables), FlipRows)) == multiset(RowCounts(b.tables, a.tables))
    ensures multiset(Each(AllShown(Differences(a.queries, b.queries), Itself), FlipDelta))
         == multiset(AllShown(Differences(b.queries, a.queries), Itself))
    ensures multiset(Each(AllShown(Differences(a.charts, b.charts), ChartSummary), FlipDelta))
         == multiset(AllShown(Differences(b.charts, a.charts), ChartSummary))
  {
    SchemasFlip(a.tables, b.tables);
    RowCountsFlip(a.tables, b.tables);
    DerivationsUnique(a.tables);
    DerivationsUnique(b.tables);
    ShownFlips(Derivations(a.tables), Derivations(b.tables), Itself);
    ShownFlips(a.queries, b.queries, Itself);
    ShownFlips(a.charts, b.charts, ChartSummary);
  }

  // ---- a diff as a patch

  function Patch(columns: map<string, string>, deltas: seq<SchemaDelta>, table: string): map<string, string>
  {
    if deltas == [] then columns
    else
      var before, d := Patch(columns, deltas[..|deltas| - 1], table), deltas[|deltas| - 1];
      if d.table != table then before
      else
        match d.change
        case Added(kind) => before[d.column := kind]
        case Removed(_) => before - {d.column}
        case Changed(_, to) => before[d.column := to]
  }

  function ColumnMap(schema: seq<Named<string>>): map<string, string>
  {
    map i | 0 <= i < |schema| && Find(schema, schema[i].name).Some? ::
      schema[i].name := Find(schema, schema[i].name).value
  }

  function Lookup(columns: map<string, string>, column: string): Option<string>
  {
    if column in columns then Some(columns[column]) else None
  }

  function After(change: ColumnChange): Option<string>
  {
    match change
    case Added(kind) => Some(kind)
    case Removed(_) => None
    case Changed(_, to) => Some(to)
  }

  lemma ColumnMapIs(schema: seq<Named<string>>, column: string)
    ensures Lookup(ColumnMap(schema), column) == Find(schema, column)
  {
    FindIs(schema, column);
    if Find(schema, column).Some? {
      var i :| 0 <= i < |schema| && schema[i] == Named(column, Find(schema, column).value);
      assert schema[i].name in ColumnMap(schema);
    }
  }

  ghost predicate Says(deltas: seq<SchemaDelta>, table: string, column: string, change: ColumnChange)
  {
    SchemaDelta(table, column, change) in deltas
  }

  /** Where the deltas that name a column agree, the patch does what they say. */
  lemma {:induction false} PatchedColumn(columns: map<string, string>, deltas: seq<SchemaDelta>, table: string,
                                         column: string, change: Option<ColumnChange>)
    requires forall c :: Says(deltas, table, column, c) ==> change == Some(c)
    ensures Lookup(Patch(columns, deltas, table), column)
            == if change.Some? && Says(deltas, table, column, change.value) then After(change.value)
               else Lookup(columns, column)
  {
    if deltas != [] {
      var init, d := deltas[..|deltas| - 1], deltas[|deltas| - 1];
      assert deltas == init + [d];
      assert forall c :: Says(init, table, column, c) ==> Says(deltas, table, column, c);
      PatchedColumn(columns, init, table, column, change);
      if d.table == table && d.column == column {
        assert Says(deltas, table, column, d.change);
      }
    }
  }

  /** The schema deltas of a table both packages have turn the one's columns into the other's. */
  lemma SchemaDeltasPatch(a: Package, b: Package, table: string)
    requires WellNamed(a) && WellNamed(b)
    requires Find(a.tables, table).Some? && Find(b.tables, table).Some?
    ensures Patch(ColumnMap(Find(a.tables, table).value.schema), Schemas(a.tables, b.tables), table)
            == ColumnMap(Find(b.tables, table).value.schema)
  {
    var deltas := Schemas(a.tables, b.tables);
    var s, t := Find(a.tables, table).value.schema, Find(b.tables, table).value.schema;
    forall column
      ensures Lookup(Patch(ColumnMap(s), deltas, table), column) == Lookup(ColumnMap(t), column)
    {
      var change := ColumnBecame(a.tables, b.tables, table, column);
      forall c
        ensures Says(deltas, table, column, c) <==> change == Some(c)
      {
        SchemaIff(a.tables, b.tables, SchemaDelta(table, column, c));
      }
      PatchedColumn(ColumnMap(s), deltas, table, column, change);
      ColumnMapIs(s, column);
      ColumnMapIs(t, column);
    }
    SameMaps(Patch(ColumnMap(s), deltas, table), ColumnMap(t));
  }

  lemma SameMaps(m: map<string, string>, n: map<string, string>)
    requires forall column :: Lookup(m, column) == Lookup(n, column)
    ensures m == n
  {
    forall column
      ensures column in m <==> column in n
      ensures column in m && column in n ==> m[column] == n[column]
    {
      assert Lookup(m, column) == Lookup(n, column);
    }
  }
}
