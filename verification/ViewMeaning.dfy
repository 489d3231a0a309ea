/** What a stack of operations means, said directly on rows, and the proof that the compiled
    text means just that. */
module ViewMeaning {

  import opened Wrappers
  import opened Transform
  import opened SqlAst
  import opened SqlPrinter
  import opened ViewCompiler
  import SqlParser
  import Like

  // ---- the reference meaning

  /** A value passes a filter. A NULL passes only the test for it. */
  predicate Holds(d: Dialect, op: FilterOp, value: FilterValue, v: Scalar)
  {
    match (op, value)
    case (Eq, One(x)) => if x == Null then v == Null else v != Null && d.eq(v, x)
    case (Neq, One(x)) => v != Null && (x == Null || !d.eq(v, x))
    case (Lt, One(x)) => v != Null && x != Null && d.lt(v, x)
    case (Lte, One(x)) => v != Null && x != Null && (d.lt(v, x) || d.eq(v, x))
    case (Gt, One(x)) => v != Null && x != Null && d.lt(x, v)
    case (Gte, One(x)) => v != Null && x != Null && (d.lt(x, v) || d.eq(v, x))
    case (Between, Range(lo, hi, inclusive)) =>
      && v != Null && lo != Null && hi != Null
      && (d.lt(lo, v) || (inclusive && d.eq(v, lo)))
      && (d.lt(v, hi) || (inclusive && d.eq(v, hi)))
    case (Contains, One(Str(s))) => v != Null && Like.IsSubstring(s, d.text(v))
    case (NotContains, One(Str(s))) => v != Null && !Like.IsSubstring(s, d.text(v))
    case (StartsWith, One(Str(s))) => v != Null && Like.IsPrefix(s, d.text(v))
    case (EndsWith, One(Str(s))) => v != Null && Like.IsSuffix(s, d.text(v))
    case (In, Many(vs)) => v != Null && exists x <- vs :: x != Null && d.eq(v, x)
    case (Regex, One(Str(s))) => v != Null && d.regexp(d.text(v), s)
    case (IsEmpty, _) => v == Null
    case (IsNotEmpty, _) => v != Null
    case (IsTrue, _) => v != Null && d.eq(v, Bool(true))
    case (IsFalse, _) => v != Null && d.eq(v, Bool(false))
    case (_, _) => false
  }

  /** Every cell the stack edits, in the order it edits them. */
  function Cells(ops: seq<Transformation>): seq<CellEdit>
  {
    if ops == [] then []
    else Cells(ops[..|ops| - 1]) + (if ops[|ops| - 1].Edit? then ops[|ops| - 1].cells else [])
  }

  /** Every row id the stack deletes. */
  function Deleted(ops: seq<Transformation>): seq<int>
  {
    if ops == [] then []
    else Deleted(ops[..|ops| - 1]) + (if ops[|ops| - 1].RowDelete? then ops[|ops| - 1].rows else [])
  }

  /** The row after every write, in order, that is to it. */
  function Written(row: Row, cells: seq<CellEdit>): Row
  {
    if cells == [] then row
    else
      var before, cell := Written(row, cells[..|cells| - 1]), cells[|cells| - 1];
      if Cell(row, ROWID_COL) == Int(cell.row) then before[cell.column := cell.value] else before
  }

  /** A row is shown unless it is deleted or, once written, fails a filter. */
  predicate Shown(d: Dialect, ops: seq<Transformation>, row: Row)
  {
    && (forall id <- Deleted(ops) :: Cell(row, ROWID_COL) != Int(id))
    && (forall op <- ops :: op.Filter? ==> Holds(d, op.op, op.value, Cell(Written(row, Cells(ops)), op.column)))
  }

  function ShownRows(d: Dialect, ops: seq<Transformation>, rows: seq<Row>): seq<Row>
  {
    if rows == [] then []
    else (if Shown(d, ops, rows[0]) then [Written(rows[0], Cells(ops))] else []) + ShownRows(d, ops, rows[1..])
  }

  /** Every column the stack uses exists; edits and deletes use the row id. */
  predicate NamesExist(ops: seq<Transformation>, t: Table)
  {
    && (forall op <- ops ::
          match op
          case Filter(column, _, _) => column in t.columns
          case Edit(cells) => ROWID_COL in t.columns && forall c <- cells :: c.column in t.columns
          case RowDelete(_) => ROWID_COL in t.columns
          case _ => true)
    && (LastSort(ops).Some? ==> forall k <- LastSort(ops).value :: k.column in t.columns)
  }

  /** `out` shows the stack over `t`: the rows it shows, in an order the last sort allows. */
  predicate Shows(d: Dialect, ops: seq<Transformation>, t: Table, out: seq<Row>)
  {
    && NamesExist(ops, t)
    && multiset(out) == multiset(ShownRows(d, ops, t.rows))
    && (LastSort(ops).Some? ==> Sorted(d, LastSort(ops).value, out))
  }

  // ---- the stack's shape

  /** Every filter value has the shape its operation needs. */
  predicate Fits(rx: RegexCheck, op: FilterOp, value: FilterValue)
  {
    match op
    case Eq | Neq | Lt | Lte | Gt | Gte => value.One?
    case Between => value.Range?
    case Contains | NotContains | StartsWith | EndsWith => value.One? && value.value.Str?
    case In => value.Many? && value.values != []
    case Regex => value.One? && value.value.Str? && rx(value.value.s)
    case IsEmpty | IsNotEmpty | IsTrue | IsFalse => value.Nothing?
  }

  /** Why a filter is refused: there is no range where one is needed, or an empty list; the regular
      expression is none; or else the operation does not take a value of that shape. */
  function FilterRefusal(rx: RegexCheck, op: FilterOp, value: FilterValue): Option<RenderError>
  {
    if Fits(rx, op, value) then None
    else if op == Between then Some(MismatchedRange)
    else if op == In && value == Many([]) then Some(EmptyInList)
    else if op == Regex && value.One? && value.value.Str? then Some(InvalidRegex(value.value.s))
    else
      match value
      case One(_) => Some(UnsupportedOpForType(op, "Scalar"))
      case Range(_, _, _) => Some(UnsupportedOpForType(op, "Range"))
      case Many(_) => Some(UnsupportedOpForType(op, "List"))
      case Nothing => Some(UnsupportedOpForType(op, "None"))
  }

  /** A filter is accepted when its value fits, and else refused for just that reason. */
  lemma FilterAcceptedIff(rx: RegexCheck, column: string, op: FilterOp, value: FilterValue)
    ensures FilterPred(rx, column, op, value).Success? <==> Fits(rx, op, value)
    ensures match FilterPred(rx, column, op, value)
            case Success(_) => FilterRefusal(rx, op, value) == None
            case Failure(e) => FilterRefusal(rx, op, value) == Some(e)
  {
    match (op, value)
    case (Between, _) =>
    case (In, Many(vs)) =>
    case (_, One(v)) => if v.Str? {}
    case (_, _) =>
  }

  /** Why an operation is refused, if it is. */
  function Refusal(rx: RegexCheck, op: Transformation): Option<RenderError>
  {
    match op
    case Filter(_, fop, value) => FilterRefusal(rx, fop, value)
    case Edit(cells) => if cells == [] then Some(EmptyEdit) else None
    case RowDelete(rows) => if rows == [] then Some(EmptyRowDelete) else None
    case _ => None
  }

  function FirstRefusal(rx: RegexCheck, ops: seq<Transformation>): Option<RenderError>
  {
    if ops == [] then None
    else if Refusal(rx, ops[0]).Some? then Refusal(rx, ops[0])
    else FirstRefusal(rx, ops[1..])
  }

  lemma {:induction false} FirstRefusalSplit(rx: RegexCheck, ops: seq<Transformation>)
    requires ops != []
    ensures FirstRefusal(rx, ops) ==
      var init := FirstRefusal(rx, ops[..|ops| - 1]);
      if init.Some? then init else Refusal(rx, ops[|ops| - 1])
  {
    if |ops| > 1 {
      FirstRefusalSplit(rx, ops[1..]);
      assert ops[1..][..|ops| - 2] == ops[..|ops| - 1][1..];
    }
  }

  function FilterPreds(rx: RegexCheck, ops: seq<Transformation>): seq<Pred>
  {
    if ops == [] then []
    else
      var last := ops[|ops| - 1];
      FilterPreds(rx, ops[..|ops| - 1]) +
      (if last.Filter? then
         match FilterPred(rx, last.column, last.op, last.value) case Success(p) => [p] case Failure(_) => []
       else [])
  }

  lemma {:induction false} UpsertedAllConcat(columns: seq<CaseColumn>, a: seq<CellEdit>, b: seq<CellEdit>)
    ensures UpsertedAll(columns, a + b) == UpsertedAll(UpsertedAll(columns, a), b)
  {
    if b == [] {
      assert a + b == a;
    } else {
      UpsertedAllConcat(columns, a, b[..|b| - 1]);
      assert (a + b)[..|a + b| - 1] == a + b[..|b| - 1];
    }
  }

  /** Compilation fails at the first refused operation and nowhere else. What it collects
      is the filters, the last sort, the overlay of the cells and the deleted ids. */
  lemma {:induction false} GatherIs(rx: RegexCheck, ops: seq<Transformation>)
    ensures Gather(rx, ops) ==
      match FirstRefusal(rx, ops)
      case Some(e) => Failure(e)
      case None => Success(View(FilterPreds(rx, ops), LastSort(ops), UpsertedAll([], Cells(ops)), Deleted(ops)))
  {
    if ops != [] {
      var init, last := ops[..|ops| - 1], ops[|ops| - 1];
      GatherIs(rx, init);
      FirstRefusalSplit(rx, ops);
      if last.Filter? {
        FilterAcceptedIff(rx, last.column, last.op, last.value);
      }
      if last.Edit? {
        UpsertedAllConcat([], Cells(init), last.cells);
      } else {
        assert Cells(init) + [] == Cells(init);
      }
      assert !last.RowDelete? ==> Deleted(init) + [] == Deleted(init);
      assert !last.Filter? ==> FilterPreds(rx, init) + [] == FilterPreds(rx, init);
    }
  }

  // ---- filters mean what they say

  lemma {:induction false} AnyEqualIff(d: Dialect, v: Scalar, lits: seq<Scalar>)
    ensures AnyEqual(d, v, lits) == True <==> v != Null && exists x <- lits :: x != Null && d.eq(v, x)
  {
    if lits != [] {
      AnyEqualIff(d, v, lits[1..]);
      assert lits == [lits[0]] + lits[1..];
    }
  }

  /** A predicate is true of a row exactly when its filter holds of the row's value. */
  lemma FilterMeans(rx: RegexCheck, d: Dialect, column: string, op: FilterOp, value: FilterValue, row: Row)
    requires FilterPred(rx, column, op, value).Success?
    ensures EvalPred(d, FilterPred(rx, column, op, value).value, row) == True
            <==> Holds(d, op, value, Cell(row, column))
    ensures PredColumn(FilterPred(rx, column, op, value).value) == column
  {
    var v := Cell(row, column);
    match (op, value)
    case (Contains, One(Str(s))) => Like.ContainsIsSubstring(s, d.text(v));
    case (NotContains, One(Str(s))) => Like.ContainsIsSubstring(s, d.text(v));
    case (StartsWith, One(Str(s))) => Like.StartsWithIsPrefix(s, d.text(v));
    case (EndsWith, One(Str(s))) => Like.EndsWithIsSuffix(s, d.text(v));
    case (In, Many(vs)) => AnyEqualIff(d, v, vs);
    case (_, One(_)) =>
    case (_, _) =>
  }

  lemma {:induction false} FiltersMean(rx: RegexCheck, d: Dialect, ops: seq<Transformation>, row: Row)
    requires FirstRefusal(rx, ops).None?
    ensures Passes(d, FilterPreds(rx, ops), row)
            <==> forall op <- ops :: op.Filter? ==> Holds(d, op.op, op.value, Cell(row, op.column))
  {
    if ops != [] {
      var init, last := ops[..|ops| - 1], ops[|ops| - 1];
      FirstRefusalSplit(rx, ops);
      FiltersMean(rx, d, init, row);
      assert ops == init + [last];
      if last.Filter? {
        FilterAcceptedIff(rx, last.column, last.op, last.value);
        FilterMeans(rx, d, last.column, last.op, last.value, row);
      }
    }
  }

  // ---- the overlay writes what the edits write

  /** The branches for `column`, if it is edited. */
  function WhensOf(columns: seq<CaseColumn>, column: string): seq<When>
  {
    if columns == [] then []
    else if columns[0].column == column then columns[0].whens
    else WhensOf(columns[1..], column)
  }

  lemma {:induction false} WhensOfAt(columns: seq<CaseColumn>, k: nat)
    requires k < |columns| && DistinctColumns(columns)
    ensures WhensOf(columns, columns[k].column) == columns[k].whens
  {
    if k > 0 {
      WhensOfAt(columns[1..], k - 1);
    }
  }

  lemma {:induction false} WhensOfNone(columns: seq<CaseColumn>, column: string)
    requires forall c <- columns :: c.column != column
    ensures WhensOf(columns, column) == []
  {
    if columns != [] {
      WhensOfNone(columns[1..], column);
    }
  }

  lemma {:induction false} WhensOfUpserted(columns: seq<CaseColumn>, cell: CellEdit, column: string)
    ensures WhensOf(Upserted(columns, cell), column) ==
      if column == cell.column then UpsertedWhen(WhensOf(columns, column), cell.row, cell.value)
      else WhensOf(columns, column)
  {
    if columns != [] && columns[0].column != cell.column {
      WhensOfUpserted(columns[1..], cell, column);
    }
  }

  function Names(columns: seq<CaseColumn>): set<string> { set c <- columns :: c.column }

  function EditedNames(cells: seq<CellEdit>): set<string> { set c <- cells :: c.column }

  lemma DistinctTail(columns: seq<CaseColumn>)
    requires columns != []
    ensures DistinctColumns(columns) <==> DistinctColumns(columns[1..]) && columns[0].column !in Names(columns[1..])
    ensures Names(columns) == {columns[0].column} + Names(columns[1..])
  {
    assert columns == [columns[0]] + columns[1..];
    if DistinctColumns(columns[1..]) && columns[0].column !in Names(columns[1..]) {
      forall i, j | 0 <= i < j < |columns|
        ensures columns[i].column != columns[j].column
      {
        assert columns[j] == columns[1..][j - 1];
        if i > 0 {
          assert columns[i] == columns[1..][i - 1];
        }
      }
    }
  }

  /** An upsert keeps columns distinct and adds at most the cell's. */
  lemma {:induction false} UpsertedNames(columns: seq<CaseColumn>, cell: CellEdit)
    requires DistinctColumns(columns)
    ensures DistinctColumns(Upserted(columns, cell))
    ensures Names(Upserted(columns, cell)) == Names(columns) + {cell.column}
  {
    var u := Upserted(columns, cell);
    if columns != [] {
      DistinctTail(columns);
      DistinctTail(u);
      if columns[0].column == cell.column {
        assert u[1..] == columns[1..];
      } else {
        UpsertedNames(columns[1..], cell);
        assert u[1..] == Upserted(columns[1..], cell);
      }
    }
  }

  /** The first branch for a row is the one just written. */
  lemma {:induction false} CaseUpserted(row: Row, column: string, whens: seq<When>, id: int, lit: Scalar)
    requires Cell(row, ROWID_COL).Int?
    ensures CaseValue(row, column, UpsertedWhen(whens, id, lit)) ==
      if Cell(row, ROWID_COL) == Int(id) then lit else CaseValue(row, column, whens)
  {
    if whens != [] {
      if whens[0].id == id {
        assert ([When(id, lit)] + whens[1..])[1..] == whens[1..];
      } else {
        CaseUpserted(row, column, whens[1..], id, lit);
        assert ([whens[0]] + UpsertedWhen(whens[1..], id, lit))[1..] == UpsertedWhen(whens[1..], id, lit);
      }
    } else {
      assert [When(id, lit)][1..] == [];
    }
  }

  /** REPLACE with distinct columns, column by column. */
  lemma {:induction false} ReplacedAt(row: Row, columns: seq<CaseColumn>, column: string)
    requires DistinctColumns(columns)
    requires forall c <- columns :: c.column in row
    ensures Replaced(row, columns).Keys == row.Keys
    ensures column in row ==> Replaced(row, columns)[column] == CaseValue(row, column, WhensOf(columns, column))
  {
    if columns != [] {
      var init, last := columns[..|columns| - 1], columns[|columns| - 1];
      ReplacedAt(row, init, column);
      WhensOfAt(columns, |columns| - 1);
      if column != last.column {
        WhensOfInit(columns, column);
      }
    }
  }

  lemma {:induction false} WhensOfInit(columns: seq<CaseColumn>, column: string)
    requires columns != [] && columns[|columns| - 1].column != column
    ensures WhensOf(columns, column) == WhensOf(columns[..|columns| - 1], column)
  {
    if |columns| > 1 && columns[0].column != column {
      WhensOfInit(columns[1..], column);
      assert columns[1..][..|columns| - 2] == columns[..|columns| - 1][1..];
    } else if |columns| == 1 {
      assert columns[1..] == [];
    }
  }

  lemma {:induction false} OverlayColumns(cells: seq<CellEdit>)
    ensures DistinctColumns(UpsertedAll([], cells))
    ensures Names(UpsertedAll([], cells)) == EditedNames(cells)
  {
    if cells != [] {
      var init, last := cells[..|cells| - 1], cells[|cells| - 1];
      OverlayColumns(init);
      UpsertedNames(UpsertedAll([], init), last);
      assert cells == init + [last];
    }
  }

  /** The value an edited column takes: its first matching branch is the last write to it. */
  lemma {:induction false} LastWriteWins(row: Row, cells: seq<CellEdit>, column: string)
    requires Cell(row, ROWID_COL).Int?
    requires column in row && forall c <- cells :: c.column in row
    ensures Written(row, cells).Keys == row.Keys
    ensures Written(row, cells)[column] == CaseValue(row, column, WhensOf(UpsertedAll([], cells), column))
  {
    if cells != [] {
      var init, last := cells[..|cells| - 1], cells[|cells| - 1];
      LastWriteWins(row, init, column);
      var overlay := UpsertedAll([], init);
      WhensOfUpserted(overlay, last, column);
      if column == last.column {
        CaseUpserted(row, column, WhensOf(overlay, column), last.row, last.value);
      }
    }
  }

  /** The overlay gives each row what writing the edits one by one gives it. */
  lemma OverlayWrites(row: Row, cells: seq<CellEdit>)
    requires cells != [] ==> Cell(row, ROWID_COL).Int?
    requires forall c <- cells :: c.column in row
    ensures Replaced(row, UpsertedAll([], cells)) == Written(row, cells)
  {
    var overlay := UpsertedAll([], cells);
    OverlayColumns(cells);
    if cells != [] {
      forall c <- overlay
        ensures c.column in row
      {
        assert c.column in Names(overlay);
      }
      ReplacedAt(row, overlay, cells[0].column);
      LastWriteWins(row, cells, cells[0].column);
      forall column | column in row
        ensures Replaced(row, overlay)[column] == Written(row, cells)[column]
      {
        ReplacedAt(row, overlay, column);
        LastWriteWins(row, cells, column);
      }
    }
  }

  lemma {:induction false} RowidAmongIff(row: Row, ids: seq<int>)
    requires Cell(row, ROWID_COL).Int?
    ensures RowidAmong(row, ids) == Known(Cell(row, ROWID_COL).i in ids)
  {
    if ids != [] {
      RowidAmongIff(row, ids[1..]);
      assert ids == [ids[0]] + ids[1..];
    }
  }

  // ---- the statement as a whole

  /** Rows have the table's columns, and a row id, where there is one, is never NULL. */
  predicate Keyed(t: Table)
  {
    forall row <- t.rows :: row.Keys == t.columns && (ROWID_COL in t.columns ==> row[ROWID_COL].Int?)
  }

  /** The cells edited are those of the operations, one operation after the other. */
  lemma {:induction false} CellsInOrder(a: seq<Transformation>, b: seq<Transformation>)
    ensures Cells(a + b) == Cells(a) + Cells(b)
  {
    if b == [] {
      assert a + b == a && Cells(a) + [] == Cells(a);
    } else {
      CellsInOrder(a, b[..|b| - 1]);
      assert (a + b)[..|a + b| - 1] == a + b[..|b| - 1];
    }
  }

  lemma CellsOfOne(op: Transformation)
    ensures Cells([op]) == if op.Edit? then op.cells else []
  {
    assert [op][..0] == [];
    assert op.Edit? ==> Cells([]) + op.cells == op.cells;
  }

  lemma {:induction false} CellsOf(ops: seq<Transformation>)
    ensures forall c :: c in Cells(ops) <==> exists op <- ops :: op.Edit? && c in op.cells
    ensures forall id :: id in Deleted(ops) <==> exists op <- ops :: op.RowDelete? && id in op.rows
  {
    if ops != [] {
      var init, last := ops[..|ops| - 1], ops[|ops| - 1];
      CellsOf(init);
      assert ops == init + [last];
    }
  }

  /** No edits and no deletes collected means none in the stack: refused ones apart. */
  lemma NothingCollected(rx: RegexCheck, ops: seq<Transformation>)
    requires FirstRefusal(rx, ops).None?
    ensures Cells(ops) == [] <==> forall op <- ops :: !op.Edit?
    ensures Deleted(ops) == [] <==> forall op <- ops :: !op.RowDelete?
  {
    NoCells(rx, ops);
    NoneDeleted(rx, ops);
  }

  lemma {:induction false} NoCells(rx: RegexCheck, ops: seq<Transformation>)
    requires FirstRefusal(rx, ops).None?
    ensures Cells(ops) == [] <==> forall op <- ops :: !op.Edit?
  {
    if ops != [] {
      var init, last := ops[..|ops| - 1], ops[|ops| - 1];
      FirstRefusalSplit(rx, ops);
      NoCells(rx, init);
      assert ops == init + [last];
    }
  }

  lemma {:induction false} NoneDeleted(rx: RegexCheck, ops: seq<Transformation>)
    requires FirstRefusal(rx, ops).None?
    ensures Deleted(ops) == [] <==> forall op <- ops :: !op.RowDelete?
  {
    if ops != [] {
      var init, last := ops[..|ops| - 1], ops[|ops| - 1];
      FirstRefusalSplit(rx, ops);
      NoneDeleted(rx, init);
      assert ops == init + [last];
    }
  }

  lemma {:induction false} FilterPredColumns(rx: RegexCheck, ops: seq<Transformation>, columns: set<string>)
    requires FirstRefusal(rx, ops).None?
    ensures (forall p <- FilterPreds(rx, ops) :: PredColumn(p) in columns)
            <==> forall op <- ops :: op.Filter? ==> op.column in columns
  {
    if ops != [] {
      var init, last := ops[..|ops| - 1], ops[|ops| - 1];
      FirstRefusalSplit(rx, ops);
      FilterPredColumns(rx, init, columns);
      assert ops == init + [last];
      if last.Filter? {
        var p := FilterPred(rx, last.column, last.op, last.value).value;
        FilterPredColumn(rx, last.column, last.op, last.value);
        assert FilterPreds(rx, ops) == FilterPreds(rx, init) + [p];
      } else {
        assert FilterPreds(rx, ops) == FilterPreds(rx, init);
      }
    }
  }

  lemma FilterPredColumn(rx: RegexCheck, column: string, op: FilterOp, value: FilterValue)
    ensures match FilterPred(rx, column, op, value) case Success(p) => PredColumn(p) == column case Failure(_) => true
  {
  }

  function CompiledView(rx: RegexCheck, ops: seq<Transformation>): View
  {
    View(FilterPreds(rx, ops), LastSort(ops), UpsertedAll([], Cells(ops)), Deleted(ops))
  }

  lemma ViewBinds(name: seq<string>, v: View, t: Table)
    requires DistinctColumns(v.edits) && forall c <- v.edits :: c.whens != []
    ensures Binds(ViewQuery(name, v), t) <==>
      && (forall p <- v.filters :: PredColumn(p) in t.columns)
      && (forall k <- Keys(v.sort) :: k.column in t.columns)
      && Names(v.edits) <= t.columns
      && (v.edits != [] || v.deletes != [] ==> ROWID_COL in t.columns)
  {
    assert Names(v.edits) <= t.columns <==> forall c <- v.edits :: c.column in t.columns by {
      forall c <- v.edits
        ensures c.column in Names(v.edits)
      {
      }
    }
    if v.edits != [] {
      assert v.edits[0] in v.edits;
    }
    assert (forall p <- DeletePreds(v.deletes) :: PredColumn(p) in t.columns)
           <==> (v.deletes != [] ==> ROWID_COL in t.columns) by {
      if v.deletes != [] {
        assert DeletePreds(v.deletes)[0] in DeletePreds(v.deletes);
      }
    }
  }

  lemma StackNames(rx: RegexCheck, ops: seq<Transformation>, t: Table)
    requires FirstRefusal(rx, ops).None?
    ensures NamesExist(ops, t) <==>
      && (forall op <- ops :: op.Filter? ==> op.column in t.columns)
      && (forall k <- Keys(LastSort(ops)) :: k.column in t.columns)
      && EditedNames(Cells(ops)) <= t.columns
      && (Cells(ops) != [] || Deleted(ops) != [] ==> ROWID_COL in t.columns)
  {
    CellsOf(ops);
    NothingCollected(rx, ops);
    forall c <- Cells(ops)
      ensures c.column in EditedNames(Cells(ops))
    {
    }
  }

  /** DuckDB accepts the statement exactly when every column the stack uses exists. */
  lemma CompiledBinds(rx: RegexCheck, name: seq<string>, ops: seq<Transformation>, t: Table)
    requires FirstRefusal(rx, ops).None?
    ensures Binds(ViewQuery(name, CompiledView(rx, ops)), t) <==> NamesExist(ops, t)
  {
    var v := CompiledView(rx, ops);
    OverlayColumns(Cells(ops));
    OverlayWhens(Cells(ops));
    ViewBinds(name, v, t);
    StackNames(rx, ops, t);
    FilterPredColumns(rx, ops, t.columns);
    if v.edits == [] {
      assert Names(v.edits) == {};
      if Cells(ops) != [] {
        assert Cells(ops)[0].column in EditedNames(Cells(ops));
      }
    }
  }

  lemma {:induction false} OverlayWhens(cells: seq<CellEdit>)
    ensures forall c <- UpsertedAll([], cells) :: c.whens != []
  {
    if cells != [] {
      var init, last := cells[..|cells| - 1], cells[|cells| - 1];
      OverlayWhens(init);
      UpsertedHasWhens(UpsertedAll([], init), last);
    }
  }

  lemma {:induction false} UpsertedHasWhens(columns: seq<CaseColumn>, cell: CellEdit)
    requires forall c <- columns :: c.whens != []
    ensures forall c <- Upserted(columns, cell) :: c.whens != []
  {
    if columns != [] && columns[0].column != cell.column {
      UpsertedHasWhens(columns[1..], cell);
    }
  }

  /** The overlay statement on one row. */
  lemma NestedRow(rx: RegexCheck, d: Dialect, ops: seq<Transformation>, row: Row)
    requires FirstRefusal(rx, ops).None?
    requires Cell(row, ROWID_COL).Int? && forall c <- Cells(ops) :: c.column in row
    ensures Replaced(row, UpsertedAll([], Cells(ops))) == Written(row, Cells(ops))
    ensures Shown(d, ops, row) <==>
      Passes(d, DeletePreds(Deleted(ops)), row) && Passes(d, FilterPreds(rx, ops), Written(row, Cells(ops)))
  {
    DeletesMean(d, row, Deleted(ops));
    OverlayWrites(row, Cells(ops));
    FiltersMean(rx, d, ops, Written(row, Cells(ops)));
  }

  lemma DeletesMean(d: Dialect, row: Row, ids: seq<int>)
    requires Cell(row, ROWID_COL).Int?
    ensures Passes(d, DeletePreds(ids), row) <==> forall id <- ids :: Cell(row, ROWID_COL) != Int(id)
  {
    RowidAmongIff(row, ids);
    if ids != [] {
      assert DeletePreds(ids)[0] == RowidNotIn(ids) && DeletePreds(ids)[0] in DeletePreds(ids);
    }
  }

  /** Filtering, projecting and filtering again, one row at a time. */
  lemma PipelineStep(d: Dialect, inner: seq<Pred>, overlay: seq<CaseColumn>, outer: seq<Pred>, row: Row, rest: seq<Row>)
    ensures Where(d, outer, Project(overlay, Where(d, inner, [row] + rest))) ==
      (if Passes(d, inner, row) && Passes(d, outer, Replaced(row, overlay)) then [Replaced(row, overlay)] else [])
      + Where(d, outer, Project(overlay, Where(d, inner, rest)))
  {
    assert ([row] + rest)[1..] == rest;
    var kept := Where(d, inner, rest);
    if Passes(d, inner, row) {
      assert Where(d, inner, [row] + rest) == [row] + kept;
      assert ([row] + kept)[1..] == kept;
      var out, more := Replaced(row, overlay), Project(overlay, kept);
      assert Project(overlay, [row] + kept) == [out] + more;
      assert ([out] + more)[1..] == more;
    } else {
      assert Where(d, inner, [row] + rest) == [] + kept == kept;
    }
  }

  ghost predicate MeansOnRow(d: Dialect, ops: seq<Transformation>, inner: seq<Pred>, overlay: seq<CaseColumn>,
                             outer: seq<Pred>, row: Row)
  {
    && Replaced(row, overlay) == Written(row, Cells(ops))
    && (Shown(d, ops, row) <==> Passes(d, inner, row) && Passes(d, outer, Replaced(row, overlay)))
  }

  /** The overlay statement, row by row. */
  lemma {:induction false} NestedRows(d: Dialect, ops: seq<Transformation>, inner: seq<Pred>, overlay: seq<CaseColumn>,
                                      outer: seq<Pred>, rows: seq<Row>)
    requires forall row <- rows :: MeansOnRow(d, ops, inner, overlay, outer, row)
    ensures Where(d, outer, Project(overlay, Where(d, inner, rows))) == ShownRows(d, ops, rows)
  {
    if rows != [] {
      assert forall r <- rows[1..] :: r in rows;
      NestedRows(d, ops, inner, overlay, outer, rows[1..]);
      assert rows[0] in rows && rows == [rows[0]] + rows[1..];
      PipelineStep(d, inner, overlay, outer, rows[0], rows[1..]);
    }
  }

  /** The flat statement, row by row. */
  lemma {:induction false} FlatRows(rx: RegexCheck, d: Dialect, ops: seq<Transformation>, rows: seq<Row>)
    requires FirstRefusal(rx, ops).None?
    requires Cells(ops) == [] && Deleted(ops) == []
    ensures Where(d, FilterPreds(rx, ops), rows) == ShownRows(d, ops, rows)
  {
    if rows != [] {
      FlatRows(rx, d, ops, rows[1..]);
      FiltersMean(rx, d, ops, rows[0]);
    }
  }

  lemma {:induction false} ProjectNothing(rows: seq<Row>)
    ensures Project([], rows) == rows
  {
    if rows != [] {
      ProjectNothing(rows[1..]);
    }
  }

  lemma CompiledRows(rx: RegexCheck, d: Dialect, name: seq<string>, ops: seq<Transformation>, t: Table)
    requires FirstRefusal(rx, ops).None?
    requires Keyed(t) && NamesExist(ops, t)
    ensures Rows(d, ViewQuery(name, CompiledView(rx, ops)), t) == ShownRows(d, ops, t.rows)
  {
    var v := CompiledView(rx, ops);
    OverlayColumns(Cells(ops));
    CellsOf(ops);
    NothingCollected(rx, ops);
    if Cells(ops) == [] && Deleted(ops) == [] {
      FlatRows(rx, d, ops, t.rows);
      ProjectNothing(ShownRows(d, ops, t.rows));
    } else {
      if Cells(ops) != [] {
        assert Cells(ops)[0] in Cells(ops);
      }
      assert ROWID_COL in t.columns;
      forall row <- t.rows
        ensures MeansOnRow(d, ops, DeletePreds(v.deletes), v.edits, v.filters, row)
      {
        assert row.Keys == t.columns;
        NestedRow(rx, d, ops, row);
      }
      NestedRows(d, ops, DeletePreds(v.deletes), v.edits, v.filters, t.rows);
      ProjectNothing(ShownRows(d, ops, t.rows));
    }
  }

  // ---- the text as a whole

  predicate FiniteValue(value: FilterValue)
  {
    match value
    case One(v) => PlainScalar(v)
    case Range(lo, hi, _) => PlainScalar(lo) && PlainScalar(hi)
    case Many(vs) => forall v <- vs :: PlainScalar(v)
    case Nothing => true
  }

  /** No later edit is of the same cell. */
  predicate IsLast(cells: seq<CellEdit>, i: nat)
  {
    i < |cells| && forall j :: i < j < |cells| ==> cells[j].row != cells[i].row || cells[j].column != cells[i].column
  }

  /** Every float that comes to be written is finite: those of the filters, and those of the
      edits that no later one replaces. The others have no SQL literal. */
  predicate Finite(ops: seq<Transformation>)
  {
    && (forall op <- ops :: op.Filter? ==> FiniteValue(op.value))
    && LastWritesFinite(Cells(ops))
  }

  predicate LastWritesFinite(cells: seq<CellEdit>)
  {
    forall i | 0 <= i < |cells| :: IsLast(cells, i) ==> PlainScalar(cells[i].value)
  }

  lemma FilterPredPlain(rx: RegexCheck, column: string, op: FilterOp, value: FilterValue)
    requires FilterPred(rx, column, op, value).Success?
    ensures WholePred(FilterPred(rx, column, op, value).value)
    ensures PlainPred(FilterPred(rx, column, op, value).value) <==> FiniteValue(value)
  {
    match value
    case One(v) => if v.Str? {}
    case _ =>
  }

  lemma {:induction false} FilterPredsPlain(rx: RegexCheck, ops: seq<Transformation>)
    requires FirstRefusal(rx, ops).None?
    ensures forall p <- FilterPreds(rx, ops) :: WholePred(p)
    ensures (forall p <- FilterPreds(rx, ops) :: PlainPred(p))
            <==> forall op <- ops :: op.Filter? ==> FiniteValue(op.value)
  {
    if ops != [] {
      var init, last := ops[..|ops| - 1], ops[|ops| - 1];
      assert ops == init + [last];
      FirstRefusalIff(rx, ops);
      FirstRefusalIff(rx, init);
      FilterPredsPlain(rx, init);
      assert Refusal(rx, last).None?;
      if last.Filter? {
        FilterAcceptedIff(rx, last.column, last.op, last.value);
        FilterPredPlain(rx, last.column, last.op, last.value);
        var p := FilterPred(rx, last.column, last.op, last.value).value;
        assert FilterPreds(rx, ops) == FilterPreds(rx, init) + [p];
      } else {
        assert FilterPreds(rx, ops) == FilterPreds(rx, init);
      }
    }
  }

  // ---- the overlay holds the last write to each cell

  ghost predicate DistinctIds(whens: seq<When>)
  {
    forall i, j :: 0 <= i < j < |whens| ==> whens[i].id != whens[j].id
  }

  lemma {:induction false} UpsertedWhenHas(whens: seq<When>, id: int, lit: Scalar)
    requires DistinctIds(whens)
    ensures DistinctIds(UpsertedWhen(whens, id, lit))
    ensures forall w :: w in UpsertedWhen(whens, id, lit) <==> if w.id == id then w.lit == lit else w in whens
  {
    if whens != [] {
      var tail := whens[1..];
      assert whens == [whens[0]] + tail;
      if whens[0].id == id {
        forall w
          ensures w in UpsertedWhen(whens, id, lit) <==> if w.id == id then w.lit == lit else w in whens
        {
          assert w in tail ==> w.id != id;
        }
      } else {
        UpsertedWhenHas(tail, id, lit);
        var more := UpsertedWhen(tail, id, lit);
        forall j | 0 <= j < |more|
          ensures more[j].id != whens[0].id
        {
          assert more[j] in more;
          assert more[j].id != id ==> more[j] in tail;
        }
      }
    }
  }

  ghost predicate LastWrite(cells: seq<CellEdit>, edit: CellEdit)
  {
    exists i: nat :: IsLast(cells, i) && cells[i] == edit
  }

  lemma LastWriteNext(cells: seq<CellEdit>, last: CellEdit, edit: CellEdit)
    ensures LastWrite(cells + [last], edit) <==>
              if edit.row == last.row && edit.column == last.column then edit == last else LastWrite(cells, edit)
  {
    var more := cells + [last];
    if i: nat :| IsLast(more, i) && more[i] == edit {
      if i < |cells| {
        assert more[|cells|] == last;
        assert forall j :: i < j < |cells| ==> more[j] == cells[j];
        assert IsLast(cells, i);
      }
    }
    if i: nat :| IsLast(cells, i) && cells[i] == edit && (edit.row != last.row || edit.column != last.column) {
      assert forall j :: i < j < |more| ==> more[j] == if j < |cells| then cells[j] else last;
      assert IsLast(more, i);
    }
    if edit == last {
      assert IsLast(more, |cells|);
    }
  }

  lemma {:induction false} OverlayIs(cells: seq<CellEdit>, column: string)
    ensures DistinctIds(WhensOf(UpsertedAll([], cells), column))
    ensures forall w ::
              w in WhensOf(UpsertedAll([], cells), column) <==> LastWrite(cells, CellEdit(w.id, column, w.lit))
  {
    if cells != [] {
      var init, last := cells[..|cells| - 1], cells[|cells| - 1];
      assert cells == init + [last];
      OverlayIs(init, column);
      var overlay := UpsertedAll([], init);
      WhensOfUpserted(overlay, last, column);
      if column == last.column {
        UpsertedWhenHas(WhensOf(overlay, column), last.row, last.value);
      }
      forall w
        ensures w in WhensOf(UpsertedAll([], cells), column) <==> LastWrite(cells, CellEdit(w.id, column, w.lit))
      {
        LastWriteNext(init, last, CellEdit(w.id, column, w.lit));
      }
    }
  }

  lemma {:induction false} WhensOfFrom(columns: seq<CaseColumn>, column: string)
    requires WhensOf(columns, column) != []
    ensures CaseColumn(column, WhensOf(columns, column)) in columns
  {
    if columns[0].column != column {
      WhensOfFrom(columns[1..], column);
    }
  }

  lemma OverlayPlain(cells: seq<CellEdit>)
    ensures (forall c <- UpsertedAll([], cells) :: PlainCase(c)) <==> LastWritesFinite(cells)
  {
    var overlay := UpsertedAll([], cells);
    if forall c <- overlay :: PlainCase(c) {
      forall i | 0 <= i < |cells| && IsLast(cells, i)
        ensures PlainScalar(cells[i].value)
      {
        var column, w := cells[i].column, When(cells[i].row, cells[i].value);
        OverlayIs(cells, column);
        assert LastWrite(cells, CellEdit(w.id, column, w.lit));
        WhensOfFrom(overlay, column);
        assert PlainWhen(w);
      }
    }
    if LastWritesFinite(cells) {
      forall c, w | c in overlay && w in c.whens
        ensures PlainWhen(w)
      {
        var k :| 0 <= k < |overlay| && overlay[k] == c;
        OverlayColumns(cells);
        WhensOfAt(overlay, k);
        OverlayIs(cells, c.column);
      }
    }
  }

  lemma QueryPlain(name: seq<string>, v: View)
    requires name != [] && (forall c <- v.edits :: WholeCase(c)) && (forall p <- v.filters :: WholePred(p))
    ensures Whole(ViewQuery(name, v))
    ensures Plain(ViewQuery(name, v))
            <==> (forall c <- v.edits :: PlainCase(c)) && (forall p <- v.filters :: PlainPred(p))
  {
    if v.edits == [] && v.deletes == [] {
      assert Plain(ViewQuery(name, v)) <==> forall p <- v.filters :: PlainPred(p);
    } else {
      var inner := Select(v.edits, Base(name), DeletePreds(v.deletes), []);
      assert forall p <- inner.filters :: p == RowidNotIn(v.deletes);
      assert PlainSource(inner.source) && WholeSource(inner.source);
      assert Whole(inner) && (Plain(inner) <==> forall c <- v.edits :: PlainCase(c));
      assert ViewQuery(name, v) == Select([], Sub(inner), v.filters, Keys(v.sort));
    }
  }

  lemma CompiledPlain(rx: RegexCheck, name: seq<string>, ops: seq<Transformation>)
    requires name != [] && FirstRefusal(rx, ops).None?
    ensures Whole(ViewQuery(name, CompiledView(rx, ops)))
    ensures Plain(ViewQuery(name, CompiledView(rx, ops))) <==> Finite(ops)
  {
    var v := CompiledView(rx, ops);
    FilterPredsPlain(rx, ops);
    OverlayWhens(Cells(ops));
    OverlayPlain(Cells(ops));
    assert forall c <- v.edits :: WholeCase(c);
    QueryPlain(name, v);
  }

  /** What is compiled reads back as the statement compiled, when it writes only finite floats,
      and else as none. */
  lemma CompiledReads(rx: RegexCheck, name: seq<string>, ops: seq<Transformation>)
    requires name != [] && FirstRefusal(rx, ops).None?
    ensures ViewSql(rx, name, ops).Success?
    ensures SqlParser.ParseSql(ViewSql(rx, name, ops).value)
         == if Finite(ops) then Some(ViewQuery(name, CompiledView(rx, ops))) else None
    ensures BaseOf(ViewQuery(name, CompiledView(rx, ops))) == name
  {
    GatherIs(rx, ops);
    CompiledPlain(rx, name, ops);
    SqlParser.PrintThenParse(ViewQuery(name, CompiledView(rx, ops)));
  }

  /** There is a text exactly when no operation is refused, else the first's reason; it is SQL
      exactly when every float that comes to be written is finite; and then it is about the
      relation given, and answers exactly what the operations mean, over every table. */
  lemma CompiledTextMeans(rx: RegexCheck, d: Dialect, name: seq<string>, ops: seq<Transformation>, t: Table,
                          out: seq<Row>)
    requires name != []
    requires Keyed(t)
    ensures match ViewSql(rx, name, ops)
            case Failure(e) => FirstRefusal(rx, ops) == Some(e)
            case Success(sql) =>
              && FirstRefusal(rx, ops).None?
              && var read := SqlParser.ParseSql(sql);
              && (read.Some? <==> Finite(ops))
              && (read.Some? ==>
                    BaseOf(read.value) == name && (Answers(d, read.value, t, out) <==> Shows(d, ops, t, out)))
  {
    GatherIs(rx, ops);
    if FirstRefusal(rx, ops).None? {
      CompiledReads(rx, name, ops);
      CompiledBinds(rx, name, ops, t);
      if NamesExist(ops, t) {
        CompiledRows(rx, d, name, ops, t);
      }
    }
  }

  /** The stack is accepted, and compiled to a text that is SQL, or is not. */
  predicate Compiles(rx: RegexCheck, name: seq<string>, ops: seq<Transformation>, toSql: bool)
  {
    var sql := ViewSql(rx, name, ops);
    sql.Success? && (SqlParser.ParseSql(sql.value).Some? <==> toSql)
  }

  /** A filter on infinity or on what is not a number is accepted, and compiled to what is no SQL; */
  lemma NotFiniteIsNoSql(rx: RegexCheck, name: seq<string>, column: string, x: FloatText)
    requires name != [] && !IsFiniteText(x)
    ensures Compiles(rx, name, [Filter(column, Gt, One(Float(x)))], false)
  {
    OneFilter(rx, name, column, Float(x));
  }

  /** and so is an edit, but not if the cell is written again. */
  lemma EditNotFinite(rx: RegexCheck, name: seq<string>, first: CellEdit, second: CellEdit)
    requires name != [] && !PlainScalar(first.value) && PlainScalar(second.value)
    requires first.row == second.row && first.column == second.column
    ensures Compiles(rx, name, [Edit([first])], false)
    ensures Compiles(rx, name, [Edit([first, second])], true)
  {
    assert IsLast([first], 0);
    assert [first, second][1] == second && !IsLast([first, second], 0);
    assert !LastWritesFinite([first]) && LastWritesFinite([first, second]);
    OneEdit(rx, name, [first]);
    OneEdit(rx, name, [first, second]);
  }

  lemma OneFilter(rx: RegexCheck, name: seq<string>, column: string, v: Scalar)
    requires name != []
    ensures Compiles(rx, name, [Filter(column, Gt, One(v))], PlainScalar(v))
  {
    var filter := [Filter(column, Gt, One(v))];
    assert filter[0] in filter && filter[..0] == [] && Cells(filter) == [];
    assert Finite(filter) <==> PlainScalar(v);
    CompiledReads(rx, name, filter);
  }

  lemma OneEdit(rx: RegexCheck, name: seq<string>, cells: seq<CellEdit>)
    requires name != [] && cells != []
    ensures Compiles(rx, name, [Edit(cells)], LastWritesFinite(cells))
  {
    assert Cells([]) + cells == cells;
    assert [Edit(cells)][..0] == [];
    CompiledReads(rx, name, [Edit(cells)]);
  }

  // ---- what the text depends on

  lemma {:induction false} FirstRefusalIff(rx: RegexCheck, ops: seq<Transformation>)
    ensures FirstRefusal(rx, ops).None? <==> forall op <- ops :: Refusal(rx, op).None?
  {
    if ops != [] {
      FirstRefusalIff(rx, ops[1..]);
      assert ops == [ops[0]] + ops[1..];
    }
  }

  lemma {:induction false} KeptIff(ops: seq<Transformation>, keep: Transformation -> bool)
    ensures forall op :: op in Kept(ops, keep) <==> op in ops && keep(op)
  {
    if ops != [] {
      KeptIff(ops[..|ops| - 1], keep);
      assert ops == ops[..|ops| - 1] + [ops[|ops| - 1]];
    }
  }

  /** What compilation collects from a stack, it collects from the operations of each kind. */
  lemma {:induction false} CollectedFromKinds(rx: RegexCheck, ops: seq<Transformation>, keep: Transformation -> bool)
    ensures (forall op: Transformation :: op.Filter? ==> keep(op))
            ==> FilterPreds(rx, Kept(ops, keep)) == FilterPreds(rx, ops)
    ensures (forall op: Transformation :: op.Edit? ==> keep(op)) ==> Cells(Kept(ops, keep)) == Cells(ops)
    ensures (forall op: Transformation :: op.RowDelete? ==> keep(op)) ==> Deleted(Kept(ops, keep)) == Deleted(ops)
  {
    if ops != [] {
      var init, last := ops[..|ops| - 1], ops[|ops| - 1];
      CollectedFromKinds(rx, init, keep);
      var kept := Kept(init, keep);
      if keep(last) {
        assert (kept + [last])[..|kept|] == kept && (kept + [last])[|kept|] == last;
      } else {
        assert kept + [] == kept;
        assert FilterPreds(rx, init) + [] == FilterPreds(rx, init);
        assert Cells(init) + [] == Cells(init) && Deleted(init) + [] == Deleted(init);
      }
    }
  }

  /** Two stacks with the same filters, edits, deletes and last sort compile to the same text,
      however these are interleaved and whatever projection operations stand between. */
  lemma TextDependsOnlyOn(rx: RegexCheck, name: seq<string>, a: seq<Transformation>, b: seq<Transformation>)
    requires Kept(a, IsFilter) == Kept(b, IsFilter)
    requires Kept(a, IsEdit) == Kept(b, IsEdit)
    requires Kept(a, IsDelete) == Kept(b, IsDelete)
    requires LastSort(a) == LastSort(b)
    ensures ViewSql(rx, name, a).Success? <==> ViewSql(rx, name, b).Success?
    ensures ViewSql(rx, name, a).Success? ==> ViewSql(rx, name, a) == ViewSql(rx, name, b)
  {
    GatherIs(rx, a);
    GatherIs(rx, b);
    if FirstRefusal(rx, a).None? {
      SameRefusals(rx, a, b);
    } else if FirstRefusal(rx, b).None? {
      SameRefusals(rx, b, a);
    }
    CollectedFromKinds(rx, a, IsFilter);
    CollectedFromKinds(rx, b, IsFilter);
    CollectedFromKinds(rx, a, IsEdit);
    CollectedFromKinds(rx, b, IsEdit);
    CollectedFromKinds(rx, a, IsDelete);
    CollectedFromKinds(rx, b, IsDelete);
  }

  lemma SameRefusals(rx: RegexCheck, a: seq<Transformation>, b: seq<Transformation>)
    requires Kept(a, IsFilter) == Kept(b, IsFilter)
    requires Kept(a, IsEdit) == Kept(b, IsEdit)
    requires Kept(a, IsDelete) == Kept(b, IsDelete)
    requires FirstRefusal(rx, a).None?
    ensures FirstRefusal(rx, b).None?
  {
    FirstRefusalIff(rx, a);
    FirstRefusalIff(rx, b);
    forall op <- b
      ensures Refusal(rx, op).None?
    {
      KeptIff(a, IsFilter);
      KeptIff(b, IsFilter);
      KeptIff(a, IsEdit);
      KeptIff(b, IsEdit);
      KeptIff(a, IsDelete);
      KeptIff(b, IsDelete);
      if op.Filter? {
        assert op in Kept(b, IsFilter);
      } else if op.Edit? {
        assert op in Kept(b, IsEdit);
      } else if op.RowDelete? {
        assert op in Kept(b, IsDelete);
      }
    }
  }

  /** What survives a re-import compiles, if it compiles at all, to the flat statement over
      the stack's own filters and last sort; and it compiles whenever the whole stack does. */
  lemma ReplayableCompilesFlat(rx: RegexCheck, name: seq<string>, ops: seq<Transformation>)
    ensures var kept := Kept(ops, IsColumnKeyed);
            && (ViewSql(rx, name, ops).Success? ==> ViewSql(rx, name, kept).Success?)
            && (ViewSql(rx, name, kept).Success? ==>
                  ViewSql(rx, name, kept).value
                  == SelectText(Select([], Base(name), FilterPreds(rx, ops), Keys(LastSort(ops)))))
  {
    var kept := Kept(ops, IsColumnKeyed);
    GatherIs(rx, ops);
    GatherIs(rx, kept);
    FirstRefusalIff(rx, ops);
    FirstRefusalIff(rx, kept);
    KeptIff(ops, IsColumnKeyed);
    CollectedFromKinds(rx, ops, IsColumnKeyed);
    LastSortKept(ops, IsColumnKeyed);
    if FirstRefusal(rx, kept).None? {
      NothingCollected(rx, kept);
    }
  }
}
