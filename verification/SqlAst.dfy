/** The SELECT statements the view compiler emits, with what they mean: three-valued
    predicates over rows, a REPLACE list, one level of subquery, an ORDER BY. */
module SqlAst {

  import opened Transform
  import Like

  datatype CmpOp = Equal | Differs | Less | AtMost | Greater | AtLeast

  datatype Pred =
    | Cmp(column: string, cmp: CmpOp, lit: Scalar)
    | NullTest(column: string, negated: bool)
    | Within(column: string, lo: Scalar, hi: Scalar)
    | StrictlyWithin(column: string, lo: Scalar, hi: Scalar)
    | LikeText(column: string, negated: bool, pattern: string)
    | InList(column: string, lits: seq<Scalar>)
    | Regexp(column: string, pattern: string)
    | RowidNotIn(ids: seq<int>)

  /** `WHEN __dat0_rowid = id THEN lit` */
  datatype When = When(id: int, lit: Scalar)

  /** `CASE whens ELSE column END AS column` */
  datatype CaseColumn = CaseColumn(column: string, whens: seq<When>)

  datatype Source = Base(name: seq<string>) | Sub(inner: Select)

  /** `SELECT * REPLACE (replace) FROM source WHERE filters ORDER BY order` */
  datatype Select = Select(replace: seq<CaseColumn>, source: Source, filters: seq<Pred>, order: seq<SortKey>)

  /** The relation a statement is about. */
  function BaseOf(q: Select): seq<string> { match q.source case Base(name) => name case Sub(inner) => BaseOf(inner) }

  type Row = map<string, Scalar>

  datatype Table = Table(columns: set<string>, rows: seq<Row>)

  /** What is DuckDB's to decide: how two values that are not NULL compare, a value's text,
      regular expressions, and which of two values may come first in each direction. */
  datatype Dialect = Dialect(
    eq: (Scalar, Scalar) -> bool,
    lt: (Scalar, Scalar) -> bool,
    text: Scalar -> string,
    regexp: (string, string) -> bool,
    before: (SortDirection, Scalar, Scalar) -> bool)

  datatype Truth = True | False | Unknown

  function Known(b: bool): Truth { if b then True else False }

  function Not(a: Truth): Truth { match a case True => False case False => True case Unknown => Unknown }

  function And(a: Truth, b: Truth): Truth
  {
    if a == False || b == False then False else if a == True && b == True then True else Unknown
  }

  function Or(a: Truth, b: Truth): Truth { Not(And(Not(a), Not(b))) }

  function Compare(d: Dialect, cmp: CmpOp, a: Scalar, b: Scalar): Truth
  {
    if a == Null || b == Null then Unknown
    else match cmp
      case Equal => Known(d.eq(a, b))
      case Differs => Known(!d.eq(a, b))
      case Less => Known(d.lt(a, b))
      case AtMost => Known(d.lt(a, b) || d.eq(a, b))
      case Greater => Known(d.lt(b, a))
      case AtLeast => Known(d.lt(b, a) || d.eq(a, b))
  }

  function AnyEqual(d: Dialect, v: Scalar, lits: seq<Scalar>): Truth
  {
    if lits == [] then False else Or(Compare(d, Equal, v, lits[0]), AnyEqual(d, v, lits[1..]))
  }

  function Cell(row: Row, column: string): Scalar { if column in row then row[column] else Null }

  /** `__dat0_rowid = id`, over a column of integers. */
  function RowidIs(row: Row, id: int): Truth
  {
    match Cell(row, ROWID_COL)
    case Int(i) => Known(i == id)
    case _ => Unknown
  }

  function RowidAmong(row: Row, ids: seq<int>): Truth
  {
    if ids == [] then False else Or(RowidIs(row, ids[0]), RowidAmong(row, ids[1..]))
  }

  function EvalPred(d: Dialect, p: Pred, row: Row): Truth
  {
    match p
    case Cmp(c, cmp, lit) => Compare(d, cmp, Cell(row, c), lit)
    case NullTest(c, negated) => Known((Cell(row, c) == Null) != negated)
    case Within(c, lo, hi) =>
      And(Compare(d, AtLeast, Cell(row, c), lo), Compare(d, AtMost, Cell(row, c), hi))
    case StrictlyWithin(c, lo, hi) =>
      And(Compare(d, Greater, Cell(row, c), lo), Compare(d, Less, Cell(row, c), hi))
    case LikeText(c, negated, pattern) =>
      if Cell(row, c) == Null then Unknown
      else Known(Like.Matches(d.text(Cell(row, c)), pattern) != negated)
    case InList(c, lits) => AnyEqual(d, Cell(row, c), lits)
    case Regexp(c, pattern) =>
      if Cell(row, c) == Null then Unknown else Known(d.regexp(d.text(Cell(row, c)), pattern))
    case RowidNotIn(ids) => Not(RowidAmong(row, ids))
  }

  /** WHERE keeps a row when every conjunct is true: not when one is unknown. */
  predicate Passes(d: Dialect, filters: seq<Pred>, row: Row)
  {
    forall p <- filters :: EvalPred(d, p, row) == True
  }

  function Where(d: Dialect, filters: seq<Pred>, rows: seq<Row>): seq<Row>
  {
    if rows == [] then []
    else (if Passes(d, filters, rows[0]) then [rows[0]] else []) + Where(d, filters, rows[1..])
  }

  /** The first branch whose condition is true, else the column itself. */
  function CaseValue(row: Row, column: string, whens: seq<When>): Scalar
  {
    if whens == [] then Cell(row, column)
    else if RowidIs(row, whens[0].id) == True then whens[0].lit
    else CaseValue(row, column, whens[1..])
  }

  /** The row REPLACE gives: every CASE reads the row as it was. */
  function Replaced(row: Row, columns: seq<CaseColumn>): Row
  {
    if columns == [] then row
    else
      var last := columns[|columns| - 1];
      Replaced(row, columns[..|columns| - 1])[last.column := CaseValue(row, last.column, last.whens)]
  }

  function Project(columns: seq<CaseColumn>, rows: seq<Row>): seq<Row>
  {
    if rows == [] then [] else [Replaced(rows[0], columns)] + Project(columns, rows[1..])
  }

  /** The rows of a SELECT, before any order is imposed. */
  function Rows(d: Dialect, q: Select, t: Table): seq<Row>
  {
    var from := match q.source case Base(_) => t.rows case Sub(inner) => Rows(d, inner, t);
    Project(q.replace, Where(d, q.filters, from))
  }

  function PredColumn(p: Pred): string { if p.RowidNotIn? then ROWID_COL else p.column }

  predicate DistinctColumns(columns: seq<CaseColumn>)
  {
    forall i, j :: 0 <= i < j < |columns| ==> columns[i].column != columns[j].column
  }

  /** DuckDB accepts the statement: every column it names exists, and REPLACE names none twice. */
  predicate Binds(q: Select, t: Table)
  {
    && (forall p <- q.filters :: PredColumn(p) in t.columns)
    && (forall k <- q.order :: k.column in t.columns)
    && (forall c <- q.replace :: c.column in t.columns && (c.whens != [] ==> ROWID_COL in t.columns))
    && DistinctColumns(q.replace)
    && (q.source.Sub? ==> Binds(q.source.inner, t))
  }

  /** `a` may come before `b`: the first key that tells them apart decides. */
  predicate InOrder(d: Dialect, keys: seq<SortKey>, a: Row, b: Row)
  {
    if keys == [] then true
    else
      var x, y := Cell(a, keys[0].column), Cell(b, keys[0].column);
      if d.before(keys[0].direction, x, y) && d.before(keys[0].direction, y, x)
      then InOrder(d, keys[1..], a, b)
      else d.before(keys[0].direction, x, y)
  }

  predicate Sorted(d: Dialect, keys: seq<SortKey>, rows: seq<Row>)
  {
    forall i, j :: 0 <= i < j < |rows| ==> InOrder(d, keys, rows[i], rows[j])
  }

  /** `out` is an answer to `q`: its rows with their multiplicities, in any order the keys
      allow. ORDER BY is not stable, and without it no order is promised. */
  predicate Answers(d: Dialect, q: Select, t: Table, out: seq<Row>)
  {
    && Binds(q, t)
    && multiset(out) == multiset(Rows(d, q, t))
    && Sorted(d, q.order, out)
  }
}
