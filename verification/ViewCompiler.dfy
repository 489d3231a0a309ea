/** The view compiler (render.rs): an operation stack into one SELECT. The method assembles
    the text piece by piece, as the source does; `Gather` and `ViewQuery` say which statement
    that text spells. */
module ViewCompiler {

  import opened Wrappers
  import opened Transform
  import opened SqlAst
  import opened SqlLexer
  import opened SqlPrinter
  import opened Decimal
  import Like

  datatype RenderError =
    | EmptyInList
    | InvalidRegex(pattern: string)
    | MismatchedRange
    | UnsupportedOpForType(op: FilterOp, shape: string)
    | EmptyEdit
    | EmptyRowDelete

  /** Which patterns the regular-expression library compiles is not part of this model. */
  type RegexCheck = string -> bool

  // ---- filters

  /** The predicate a filter stands for. */
  function FilterPred(rx: RegexCheck, column: string, op: FilterOp, value: FilterValue): Result<Pred, RenderError>
  {
    match (op, value)
    case (Eq, One(Null)) => Success(NullTest(column, false))
    case (Neq, One(Null)) => Success(NullTest(column, true))
    case (Eq, One(v)) => Success(Cmp(column, Equal, v))
    case (Neq, One(v)) => Success(Cmp(column, Differs, v))
    case (Lt, One(v)) => Success(Cmp(column, Less, v))
    case (Lte, One(v)) => Success(Cmp(column, AtMost, v))
    case (Gt, One(v)) => Success(Cmp(column, Greater, v))
    case (Gte, One(v)) => Success(Cmp(column, AtLeast, v))
    case (Between, Range(lo, hi, inclusive)) =>
      Success(if inclusive then Within(column, lo, hi) else StrictlyWithin(column, lo, hi))
    case (Between, _) => Failure(MismatchedRange)
    case (Contains, One(Str(s))) => Success(LikeText(column, false, "%" + (Like.Escaped(s) + "%")))
    case (NotContains, One(Str(s))) => Success(LikeText(column, true, "%" + (Like.Escaped(s) + "%")))
    case (StartsWith, One(Str(s))) => Success(LikeText(column, false, Like.Escaped(s) + "%"))
    case (EndsWith, One(Str(s))) => Success(LikeText(column, false, "%" + Like.Escaped(s)))
    case (In, Many(vs)) => if vs == [] then Failure(EmptyInList) else Success(InList(column, vs))
    case (Regex, One(Str(s))) => if rx(s) then Success(Regexp(column, s)) else Failure(InvalidRegex(s))
    case (IsEmpty, Nothing) => Success(NullTest(column, false))
    case (IsNotEmpty, Nothing) => Success(NullTest(column, true))
    case (IsTrue, Nothing) => Success(Cmp(column, Equal, Bool(true)))
    case (IsFalse, Nothing) => Success(Cmp(column, Equal, Bool(false)))
    case (_, _) => Failure(UnsupportedOpForType(op, Shape(value)))
  }

  function Shape(value: FilterValue): string
  {
    match value case One(_) => "Scalar" case Range(_, _, _) => "Range" case Many(_) => "List" case Nothing => "None"
  }

  /** Escapes for LIKE and for the string literal around it in one pass. */
  function EscapeLike(s: string): string
  {
    if s == "" then ""
    else
      (match s[0]
       case '\\' => "\\\\"
       case '%' => "\\%"
       case '_' => "\\_"
       case '\'' => "''"
       case c => [c])
      + EscapeLike(s[1..])
  }

  /** The text of a filter, or why there is none. */
  function RenderFilter(rx: RegexCheck, column: string, op: FilterOp, value: FilterValue): Result<string, RenderError>
  {
    var col := QuoteIdent(column);
    match (op, value)
    case (Eq, One(Null)) => Success("(" + col + " IS NULL)")
    case (Neq, One(Null)) => Success("(" + col + " IS NOT NULL)")
    case (Eq, One(v)) => Success("(" + col + " = " + ScalarText(v) + ")")
    case (Neq, One(v)) => Success("(" + col + " <> " + ScalarText(v) + ")")
    case (Lt, One(v)) => Success("(" + col + " < " + ScalarText(v) + ")")
    case (Lte, One(v)) => Success("(" + col + " <= " + ScalarText(v) + ")")
    case (Gt, One(v)) => Success("(" + col + " > " + ScalarText(v) + ")")
    case (Gte, One(v)) => Success("(" + col + " >= " + ScalarText(v) + ")")
    case (Between, Range(lo, hi, inclusive)) =>
      if inclusive then Success("(" + col + " BETWEEN " + ScalarText(lo) + " AND " + ScalarText(hi) + ")")
      else Success("(" + col + " > " + ScalarText(lo) + " AND " + col + " < " + ScalarText(hi) + ")")
    case (Between, _) => Failure(MismatchedRange)
    case (Contains, One(Str(s))) => Success("(" + col + " LIKE '%" + EscapeLike(s) + "%' ESCAPE '\\')")
    case (NotContains, One(Str(s))) => Success("(" + col + " NOT LIKE '%" + EscapeLike(s) + "%' ESCAPE '\\')")
    case (StartsWith, One(Str(s))) => Success("(" + col + " LIKE '" + EscapeLike(s) + "%' ESCAPE '\\')")
    case (EndsWith, One(Str(s))) => Success("(" + col + " LIKE '%" + EscapeLike(s) + "' ESCAPE '\\')")
    case (In, Many(vs)) =>
      if vs == [] then Failure(EmptyInList) else Success("(" + col + " IN (" + Join(Map(ScalarText, vs), ", ") + "))")
    case (Regex, One(Str(s))) =>
      if rx(s) then Success("regexp_matches(" + col + ", '" + Doubled(s, '\'') + "')") else Failure(InvalidRegex(s))
    case (IsEmpty, Nothing) => Success("(" + col + " IS NULL)")
    case (IsNotEmpty, Nothing) => Success("(" + col + " IS NOT NULL)")
    case (IsTrue, Nothing) => Success("(" + col + " = TRUE)")
    case (IsFalse, Nothing) => Success("(" + col + " = FALSE)")
    case (_, _) => Failure(UnsupportedOpForType(op, Shape(value)))
  }

  lemma {:induction false} DoubledConcat(a: string, b: string, q: char)
    ensures Doubled(a + b, q) == Doubled(a, q) + Doubled(b, q)
  {
    if a == "" {
      assert a + b == b;
    } else {
      DoubledConcat(a[1..], b, q);
      assert (a + b)[1..] == a[1..] + b && (a + b)[0] == a[0];
      var head := if a[0] == q then [q, q] else [a[0]];
      assert head + (Doubled(a[1..], q) + Doubled(b, q)) == head + Doubled(a[1..], q) + Doubled(b, q);
    }
  }

  /** One pass over a text does what escaping for LIKE, then for the literal, does. */
  lemma {:induction false} EscapeLikeIsBoth(s: string)
    ensures EscapeLike(s) == Doubled(Like.Escaped(s), '\'')
  {
    if s != "" {
      EscapeLikeIsBoth(s[1..]);
      DoubledConcat(Like.EscapedChar(s[0]), Like.Escaped(s[1..]), '\'');
      if Like.Special(s[0]) {
        assert ['\\', s[0]][1..] == [s[0]];
        assert [s[0]][1..] == "";
      }
    }
  }

  lemma LikeLiterals(s: string)
    ensures "'%" + EscapeLike(s) + "%'" == QuoteText("%" + (Like.Escaped(s) + "%"))
    ensures "'" + EscapeLike(s) + "%'" == QuoteText(Like.Escaped(s) + "%")
    ensures "'%" + EscapeLike(s) + "'" == QuoteText("%" + Like.Escaped(s))
  {
    EscapeLikeIsBoth(s);
    assert Doubled("%", '\'') == "%";
    DoubledConcat(Like.Escaped(s), "%", '\'');
    DoubledConcat("%", Like.Escaped(s) + "%", '\'');
    DoubledConcat("%", Like.Escaped(s), '\'');
    Enclosed(EscapeLike(s));
  }

  lemma Enclosed(body: string)
    ensures "'%" + body + "%'" == "'" + ("%" + (body + "%")) + "'"
    ensures "'" + body + "%'" == "'" + (body + "%") + "'"
    ensures "'%" + body + "'" == "'" + ("%" + body) + "'"
  {
  }

  /** The text a string literal stands for. */
  function Decoded(literal: string): Option<string>
  {
    match Lex(literal) case Some(ts) => if |ts| == 1 && ts[0].Text? then Some(ts[0].text) else None case None => None
  }

  lemma DecodedQuote(p: string)
    ensures Decoded(QuoteText(p)) == Some(p)
  {
    LexQuoted(p, '\'', "");
    assert QuoteText(p) + "" == QuoteText(p) && [Text(p)] + [] == [Text(p)];
  }

  /** A text searched for, through both layers of escaping: decoded as a literal, the pattern
      matches just the texts that hold it, begin with it or end in it. */
  lemma LiteralsMean(s: string, t: string)
    ensures var p := Decoded("'%" + EscapeLike(s) + "%'");
            p.Some? && (Like.Matches(t, p.value) <==> Like.IsSubstring(s, t))
    ensures var p := Decoded("'" + EscapeLike(s) + "%'"); p.Some? && (Like.Matches(t, p.value) <==> Like.IsPrefix(s, t))
    ensures var p := Decoded("'%" + EscapeLike(s) + "'"); p.Some? && (Like.Matches(t, p.value) <==> Like.IsSuffix(s, t))
  {
    LikeLiterals(s);
    DecodedQuote("%" + (Like.Escaped(s) + "%"));
    DecodedQuote(Like.Escaped(s) + "%");
    DecodedQuote("%" + Like.Escaped(s));
    Like.ContainsIsSubstring(s, t);
    Like.StartsWithIsPrefix(s, t);
    Like.EndsWithIsSuffix(s, t);
  }

  /** A pattern spliced into a literal, as one quoted text. */
  lemma Splice(head: string, op: string, open: string, body: string, close: string)
    ensures head + (op + open) + body + (close + " ESCAPE '\\')") == head + op + (open + body + close) + " ESCAPE '\\')"
  {
  }

  lemma PrintsContains(col: string, s: string)
    ensures "(" + col + " LIKE '%" + EscapeLike(s) + "%' ESCAPE '\\')"
         == "(" + col + " LIKE " + QuoteText("%" + (Like.Escaped(s) + "%")) + " ESCAPE '\\')"
    ensures "(" + col + " NOT LIKE '%" + EscapeLike(s) + "%' ESCAPE '\\')"
         == "(" + col + " NOT LIKE " + QuoteText("%" + (Like.Escaped(s) + "%")) + " ESCAPE '\\')"
  {
    LikeLiterals(s);
    assert " LIKE " + "'%" == " LIKE '%" && " NOT LIKE " + "'%" == " NOT LIKE '%";
    assert "%'" + " ESCAPE '\\')" == "%' ESCAPE '\\')";
    Splice("(" + col, " LIKE ", "'%", EscapeLike(s), "%'");
    Splice("(" + col, " NOT LIKE ", "'%", EscapeLike(s), "%'");
  }

  lemma PrintsAffix(col: string, s: string)
    ensures "(" + col + " LIKE '" + EscapeLike(s) + "%' ESCAPE '\\')"
         == "(" + col + " LIKE " + QuoteText(Like.Escaped(s) + "%") + " ESCAPE '\\')"
    ensures "(" + col + " LIKE '%" + EscapeLike(s) + "' ESCAPE '\\')"
         == "(" + col + " LIKE " + QuoteText("%" + Like.Escaped(s)) + " ESCAPE '\\')"
  {
    LikeLiterals(s);
    assert " LIKE " + "'%" == " LIKE '%" && " LIKE " + "'" == " LIKE '";
    assert "%'" + " ESCAPE '\\')" == "%' ESCAPE '\\')" && "'" + " ESCAPE '\\')" == "' ESCAPE '\\')";
    Splice("(" + col, " LIKE ", "'", EscapeLike(s), "%'");
    Splice("(" + col, " LIKE ", "'%", EscapeLike(s), "'");
  }

  lemma PrintsRest(col: string, s: string)
    ensures "regexp_matches(" + col + ", '" + Doubled(s, '\'') + "')"
            == "regexp_matches(" + col + ", " + QuoteText(s) + ")"
    ensures "(" + col + " = TRUE)" == "(" + col + " = " + "TRUE" + ")"
    ensures "(" + col + " = FALSE)" == "(" + col + " = " + "FALSE" + ")"
  {
    var head := "regexp_matches(" + col;
    assert head + ", '" + Doubled(s, '\'') + "')" == head + ", " + ("'" + Doubled(s, '\'') + "'") + ")";
  }

  /** The rendered filter is the printed predicate. */
  ghost predicate Prints(text: Result<string, RenderError>, pred: Result<Pred, RenderError>)
  {
    match pred case Failure(e) => text == Failure(e) case Success(p) => text == Success(PredText(p))
  }

  lemma RenderTextFilterPrints(rx: RegexCheck, column: string, op: FilterOp, s: string)
    ensures Prints(RenderFilter(rx, column, op, One(Str(s))), FilterPred(rx, column, op, One(Str(s))))
  {
    match op
    case Contains => PrintsContains(QuoteIdent(column), s);
    case NotContains => PrintsContains(QuoteIdent(column), s);
    case StartsWith => PrintsAffix(QuoteIdent(column), s);
    case EndsWith => PrintsAffix(QuoteIdent(column), s);
    case Regex => PrintsRest(QuoteIdent(column), s);
    case _ =>
  }

  lemma RenderFilterPrints(rx: RegexCheck, column: string, op: FilterOp, value: FilterValue)
    ensures Prints(RenderFilter(rx, column, op, value), FilterPred(rx, column, op, value))
  {
    match value
    case One(v) =>
      if v.Str? {
        RenderTextFilterPrints(rx, column, op, v.s);
      }
    case Nothing => PrintsRest(QuoteIdent(column), "");
    case _ =>
  }

  // ---- edits

  function UpsertedWhen(whens: seq<When>, id: int, lit: Scalar): seq<When>
  {
    if whens == [] then [When(id, lit)]
    else if whens[0].id == id then [When(id, lit)] + whens[1..]
    else [whens[0]] + UpsertedWhen(whens[1..], id, lit)
  }

  /** The overlay with one more edit: a new column or row goes last, a rewritten cell keeps
      its place. */
  function Upserted(columns: seq<CaseColumn>, cell: CellEdit): seq<CaseColumn>
  {
    if columns == [] then [CaseColumn(cell.column, [When(cell.row, cell.value)])]
    else if columns[0].column == cell.column
    then [CaseColumn(cell.column, UpsertedWhen(columns[0].whens, cell.row, cell.value))] + columns[1..]
    else [columns[0]] + Upserted(columns[1..], cell)
  }

  function UpsertedAll(columns: seq<CaseColumn>, cells: seq<CellEdit>): seq<CaseColumn>
  {
    if cells == [] then columns else Upserted(UpsertedAll(columns, cells[..|cells| - 1]), cells[|cells| - 1])
  }

  lemma {:induction false} UpsertedWhenAt(whens: seq<When>, id: int, lit: Scalar, k: nat)
    requires k <= |whens| && forall i :: 0 <= i < k ==> whens[i].id != id
    requires k < |whens| ==> whens[k].id == id
    ensures UpsertedWhen(whens, id, lit)
         == if k < |whens| then whens[k := When(id, lit)] else whens + [When(id, lit)]
  {
    if k > 0 {
      UpsertedWhenAt(whens[1..], id, lit, k - 1);
      assert whens == [whens[0]] + whens[1..];
    }
  }

  lemma {:induction false} UpsertedAt(columns: seq<CaseColumn>, cell: CellEdit, k: nat)
    requires k <= |columns| && forall i :: 0 <= i < k ==> columns[i].column != cell.column
    requires k < |columns| ==> columns[k].column == cell.column
    ensures Upserted(columns, cell) ==
      if k < |columns|
      then columns[k := CaseColumn(cell.column, UpsertedWhen(columns[k].whens, cell.row, cell.value))]
      else columns + [CaseColumn(cell.column, [When(cell.row, cell.value)])]
  {
    if k > 0 {
      UpsertedAt(columns[1..], cell, k - 1);
      assert columns == [columns[0]] + columns[1..];
    }
  }

  /** Accumulated cell edits: columns, and rows within a column, in first-seen order. A value
      is kept as it is and rendered with the rest. */
  class EditOverlay {
    var columns: seq<CaseColumn>

    constructor ()
      ensures columns == []
    {
      columns := [];
    }

    method Upsert(cell: CellEdit)
      modifies this
      ensures columns == Upserted(old(columns), cell)
    {
      var c := 0;
      while c < |columns| && columns[c].column != cell.column
        invariant 0 <= c <= |columns|
        invariant forall i :: 0 <= i < c ==> columns[i].column != cell.column
      {
        c := c + 1;
      }
      UpsertedAt(columns, cell, c);
      if c == |columns| {
        columns := columns + [CaseColumn(cell.column, [])];
      }
      var whens := columns[c].whens;
      var w := 0;
      while w < |whens| && whens[w].id != cell.row
        invariant 0 <= w <= |whens|
        invariant forall i :: 0 <= i < w ==> whens[i].id != cell.row
      {
        w := w + 1;
      }
      UpsertedWhenAt(whens, cell.row, cell.value, w);
      var written := if w < |whens| then whens[w := When(cell.row, cell.value)]
                     else whens + [When(cell.row, cell.value)];
      columns := columns[c := CaseColumn(cell.column, written)];
    }

    method UpsertAll(cells: seq<CellEdit>)
      modifies this
      ensures columns == UpsertedAll(old(columns), cells)
    {
      for i := 0 to |cells|
        invariant columns == UpsertedAll(old(columns), cells[..i])
      {
        assert cells[..i + 1][..i] == cells[..i];
        Upsert(cells[i]);
      }
      assert cells[..|cells|] == cells;
    }
  }

  // ---- the whole stack

  /** What the loop over the stack has collected. */
  datatype View = View(filters: seq<Pred>, sort: Option<seq<SortKey>>, edits: seq<CaseColumn>, deletes: seq<int>)

  function Absorb(rx: RegexCheck, v: View, op: Transformation): Result<View, RenderError>
  {
    match op
    case Filter(column, fop, value) =>
      (match FilterPred(rx, column, fop, value)
       case Failure(e) => Failure(e)
       case Success(p) => Success(v.(filters := v.filters + [p])))
    case Sort(keys) => Success(v.(sort := Some(keys)))
    case Edit(cells) => if cells == [] then Failure(EmptyEdit) else Success(v.(edits := UpsertedAll(v.edits, cells)))
    case RowDelete(rows) => if rows == [] then Failure(EmptyRowDelete) else Success(v.(deletes := v.deletes + rows))
    case _ => Success(v)
  }

  function Gather(rx: RegexCheck, ops: seq<Transformation>): Result<View, RenderError>
  {
    if ops == [] then Success(View([], None, [], []))
    else
      match Gather(rx, ops[..|ops| - 1])
      case Failure(e) => Failure(e)
      case Success(v) => Absorb(rx, v, ops[|ops| - 1])
  }

  function Keys(sort: Option<seq<SortKey>>): seq<SortKey> { match sort case None => [] case Some(keys) => keys }

  function DeletePreds(ids: seq<int>): seq<Pred> { if ids == [] then [] else [RowidNotIn(ids)] }

  /** The statement for a collected view: flat, or over an inner one that applies the edits
      and leaves out the deleted rows. */
  function ViewQuery(name: seq<string>, v: View): Select
  {
    if v.edits == [] && v.deletes == [] then Select([], Base(name), v.filters, Keys(v.sort))
    else
      var inner := Select(v.edits, Base(name), DeletePreds(v.deletes), []);
      Select([], Sub(inner), v.filters, Keys(v.sort))
  }

  function ViewSql(rx: RegexCheck, name: seq<string>, ops: seq<Transformation>): Result<string, RenderError>
  {
    match Gather(rx, ops) case Failure(e) => Failure(e) case Success(v) => Success(SelectText(ViewQuery(name, v)))
  }

  /** Once a prefix of the stack fails, the whole stack fails the same way. */
  lemma {:induction false} GatherStops(rx: RegexCheck, ops: seq<Transformation>, k: nat)
    requires k <= |ops| && Gather(rx, ops[..k]).Failure?
    ensures Gather(rx, ops) == Gather(rx, ops[..k])
  {
    if k == |ops| {
      assert ops[..k] == ops;
    } else {
      assert ops[..|ops| - 1][..k] == ops[..k];
      GatherStops(rx, ops[..|ops| - 1], k);
    }
  }

  lemma PrintsDeletes(ids: seq<int>)
    requires ids != []
    ensures FilterText([RowidNotIn(ids)]) == " WHERE " + (ROWID_COL + " NOT IN (" + Join(Map(IntText, ids), ", ") + ")")
  {
    assert Map(PredText, [RowidNotIn(ids)]) == [PredText(RowidNotIn(ids))];
    assert ROWID_COL + " NOT IN (" == "__dat0_rowid NOT IN (";
  }

  /** The assembled text is the printed statement. */
  lemma PrintsView(name: seq<string>, v: View, from: string)
    requires from == if v.edits == [] && v.deletes == [] then NameText(name)
                     else "(" + ("SELECT *" + ReplaceText(v.edits) + " FROM " + NameText(name)
                                 + FilterText(DeletePreds(v.deletes))) + ")"
    ensures SelectText(ViewQuery(name, v)) == "SELECT * FROM " + from + FilterText(v.filters) + OrderText(Keys(v.sort))
  {
    if v.edits != [] || v.deletes != [] {
      var inner := "SELECT *" + ReplaceText(v.edits) + " FROM " + NameText(name) + FilterText(DeletePreds(v.deletes));
      assert inner + "" == inner;
      var q := Select(v.edits, Base(name), DeletePreds(v.deletes), []);
      assert SelectText(q) == inner + "";
      assert SourceText(Sub(q)) == "(" + SelectText(q) + ")" == from;
      PrintsOuter(Sub(q), v.filters, Keys(v.sort));
    } else {
      PrintsOuter(Base(name), v.filters, Keys(v.sort));
    }
  }

  lemma PrintsOuter(source: Source, filters: seq<Pred>, keys: seq<SortKey>)
    ensures SelectText(Select([], source, filters, keys))
            == "SELECT * FROM " + SourceText(source) + FilterText(filters) + OrderText(keys)
  {
    var head := "SELECT *" + ReplaceText([]) + " FROM ";
    assert "SELECT *" + ReplaceText([]) == "SELECT *";
    assert head == "SELECT * FROM ";
    assert SelectText(Select([], source, filters, keys))
           == head + SourceText(source) + FilterText(filters) + OrderText(keys);
  }

  /** The overlay: edited columns replaced, deleted rows left out. */
  method AssembleInner(base: string, edits: seq<CaseColumn>, deleteIds: seq<int>) returns (inner: string)
    ensures inner == "SELECT *" + ReplaceText(edits) + " FROM " + base + FilterText(DeletePreds(deleteIds))
  {
    inner := "SELECT *";
    if edits != [] {
      inner := inner + (" REPLACE (" + Join(Map(CaseText, edits), ", ") + ")");
    } else {
      assert inner + "" == inner;
    }
    inner := inner + " FROM " + base;
    if deleteIds != [] {
      inner := inner + (" WHERE " + (ROWID_COL + " NOT IN (" + Join(Map(IntText, deleteIds), ", ") + ")"));
      PrintsDeletes(deleteIds);
    } else {
      assert inner + "" == inner;
    }
  }

  /** The clauses after the relation. */
  method AssembleOuter(from: string, whereClauses: seq<string>, sort: Option<seq<SortKey>>, ghost filters: seq<Pred>)
    returns (sql: string)
    requires whereClauses == Map(PredText, filters)
    ensures sql == from + FilterText(filters) + OrderText(Keys(sort))
  {
    sql := from;
    if whereClauses != [] {
      sql := sql + (" WHERE " + Join(whereClauses, " AND "));
    } else {
      assert sql + "" == sql;
    }
    if sort.Some? && sort.value != [] {
      sql := sql + (" ORDER BY " + Join(Map(KeyText, sort.value), ", "));
    } else {
      assert sql + "" == sql;
    }
  }

  method Assemble(base: string, ghost name: seq<string>, whereClauses: seq<string>, sort: Option<seq<SortKey>>,
                  edits: seq<CaseColumn>, deleteIds: seq<int>, ghost view: View)
    returns (sql: string)
    requires base == NameText(name) && whereClauses == Map(PredText, view.filters)
    requires sort == view.sort && edits == view.edits && deleteIds == view.deletes
    ensures sql == SelectText(ViewQuery(name, view))
  {
    var from := base;
    if edits != [] || deleteIds != [] {
      var inner := AssembleInner(base, edits, deleteIds);
      from := "(" + inner + ")";
    }
    sql := AssembleOuter("SELECT * FROM " + from, whereClauses, sort, view.filters);
    PrintsView(name, view, from);
  }

  lemma GatherNext(rx: RegexCheck, ops: seq<Transformation>, k: nat, view: View)
    requires k < |ops| && Gather(rx, ops[..k]) == Success(view)
    ensures Gather(rx, ops[..k + 1]) == Absorb(rx, view, ops[k])
  {
    assert ops[..k + 1][..k] == ops[..k];
  }

  /** `base` is the quoted name of the relation, as its callers must pass it. */
  method CompileViewSql(rx: RegexCheck, base: string, ghost name: seq<string>, ops: seq<Transformation>)
    returns (r: Result<string, RenderError>)
    requires base == NameText(name)
    ensures r == ViewSql(rx, name, ops)
  {
    var whereClauses: seq<string> := [];
    var sort: Option<seq<SortKey>> := None;
    var edits := new EditOverlay();
    var deleteIds: seq<int> := [];
    ghost var view := View([], None, [], []);
    assert Map(PredText, []) == [];
    for k := 0 to |ops|
      invariant Gather(rx, ops[..k]) == Success(view)
      invariant whereClauses == Map(PredText, view.filters)
      invariant sort == view.sort && edits.columns == view.edits && deleteIds == view.deletes
      invariant fresh(edits)
    {
      var op := ops[k];
      ghost var next := Absorb(rx, view, op);
      GatherNext(rx, ops, k, view);
      match op {
        case Filter(column, fop, value) =>
          RenderFilterPrints(rx, column, fop, value);
          match RenderFilter(rx, column, fop, value) {
            case Failure(e) =>
              GatherStops(rx, ops, k + 1);
              return Failure(e);
            case Success(text) =>
              whereClauses := whereClauses + [text];
              assert whereClauses == Map(PredText, next.value.filters);
          }
        case Sort(keys) => sort := Some(keys);
        case Edit(cells) =>
          if cells == [] {
            GatherStops(rx, ops, k + 1);
            return Failure(EmptyEdit);
          }
          edits.UpsertAll(cells);
        case RowDelete(rows) =>
          if rows == [] {
            GatherStops(rx, ops, k + 1);
            return Failure(EmptyRowDelete);
          }
          deleteIds := deleteIds + rows;
        case _ =>
      }
      view := next.value;
    }
    assert ops[..|ops|] == ops;
    var sql := Assemble(base, name, whereClauses, sort, edits.columns, deleteIds, view);
    r := Success(sql);
  }
}
