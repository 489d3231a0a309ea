/** The projection an export puts around a view's SELECT (render.rs): printed, and read back. */
module ExportSelect {

  import opened Wrappers
  import opened Transform
  import opened SqlAst
  import opened SqlLexer
  import opened SqlPrinter
  import SqlReading
  import SqlParser
  import ViewCompiler
  import ViewMeaning

  /** A visible column, and what it is shown as. */
  datatype Projection = Projection(source: string, display: string)

  function ColumnText(c: Projection): string
  {
    if c.display == c.source then QuoteIdent(c.source) else QuoteIdent(c.source) + " AS " + QuoteIdent(c.display)
  }

  function ExportText(inner: string, columns: seq<Projection>): string
  {
    "SELECT " + Join(Map(ColumnText, columns), ", ") + " FROM (" + inner + ")"
  }

  function ColumnTokens(c: Projection): seq<Token>
  {
    if c.display == c.source then [Ident(c.source)] else [Ident(c.source), Word("AS"), Ident(c.display)]
  }

  function ColumnsTokens(columns: seq<Projection>): seq<Token> { Join(Map(ColumnTokens, columns), [Sym(",")]) }

  function ExportTokens(inner: seq<Token>, columns: seq<Projection>): seq<Token>
  {
    [Word("SELECT")] + ColumnsTokens(columns) + [Word("FROM"), Sym("(")] + inner + [Sym(")")]
  }

  // ---- reading it back

  function ParseColumn(ts: seq<Token>): SqlParser.Parsed<Projection>
  {
    if ts == [] || !ts[0].Ident? then None
    else if |ts| >= 3 && ts[1] == Word("AS") && ts[2].Ident? then Some((Projection(ts[0].name, ts[2].name), ts[3..]))
    else Some((Projection(ts[0].name, ts[0].name), ts[1..]))
  }

  function ParseTokens(ts: seq<Token>): Option<(seq<Projection>, Select)>
  {
    if !SqlParser.Next(ts, Word("SELECT")) then None
    else
      match SqlParser.ParseList(ParseColumn, Sym(","), true, ts[1..])
      case None => None
      case Some((columns, rest)) =>
        if !SqlParser.Next2(rest, Word("FROM"), Sym("(")) then None
        else
          match SqlParser.ParseSelect(rest[2..])
          case Some((q, end)) => if end == [Sym(")")] then Some((columns, q)) else None
          case None => None
  }

  function ParseExport(s: string): Option<(seq<Projection>, Select)>
  {
    match Lex(s) case None => None case Some(ts) => ParseTokens(ts)
  }

  /** `"a" AS "b"` is the value of `a`, called `b`; and a name alone is that of both. */
  lemma ColumnMeans(a: string, b: string, row: Row)
    ensures var read := ParseColumn([Ident(a), Word("AS"), Ident(b)]);
            read.Some? && read.value.1 == [] && Cells([read.value.0], row) == [(b, Cell(row, a))]
    ensures var read := ParseColumn([Ident(a)]);
            read.Some? && read.value.1 == [] && Cells([read.value.0], row) == [(a, Cell(row, a))]
  {
  }

  lemma ReadsColumn(c: Projection)
    ensures Reads(ColumnText(c), ColumnTokens(c), false)
  {
    ReadsIdent(c.source);
    if c.display != c.source {
      ReadsIdent(c.display);
      ReadsKeyword("AS");
      assert " " + "AS" + " " == " AS ";
      Glue(QuoteIdent(c.source), [Ident(c.source)], false, " AS ", [Word("AS")], true);
      Glue(QuoteIdent(c.source) + " AS ", [Ident(c.source)] + [Word("AS")], true,
           QuoteIdent(c.display), [Ident(c.display)], false);
      assert [Ident(c.source)] + [Word("AS")] + [Ident(c.display)] == ColumnTokens(c);
    }
  }

  lemma ReadsColumns(columns: seq<Projection>)
    requires columns != []
    ensures Reads("SELECT " + Join(Map(ColumnText, columns), ", "), [Word("SELECT")] + ColumnsTokens(columns), false)
  {
    ReadsComma();
    forall i | 0 <= i < |columns|
      ensures Reads(Map(ColumnText, columns)[i], Map(ColumnTokens, columns)[i], false)
    {
      ReadsColumn(columns[i]);
    }
    ReadsJoin(Map(ColumnText, columns), Map(ColumnTokens, columns), ", ", [Sym(",")]);
    ReadsKeyword("SELECT");
    assert "SELECT" + " " == "SELECT ";
    Glue("SELECT ", [Word("SELECT")], true, Join(Map(ColumnText, columns), ", "), ColumnsTokens(columns), false);
  }

  lemma ReadsNoColumns()
    ensures Reads("SELECT ", [Word("SELECT")], false)
  {
    ReadsKeyword("SELECT");
    assert "SELECT" + " " == "SELECT ";
    ReadsAnywhere("SELECT ", [Word("SELECT")]);
  }

  lemma LexExport(q: Select, columns: seq<Projection>)
    requires Whole(q)
    ensures Lex(ExportText(SelectText(q), columns)) == Some(ExportTokens(SelectTokens(q), columns))
  {
    var a, ta := "SELECT " + Join(Map(ColumnText, columns), ", "), [Word("SELECT")] + ColumnsTokens(columns);
    if columns != [] {
      ReadsColumns(columns);
    } else {
      ReadsNoColumns();
      assert Map(ColumnText, columns) == [] && Map(ColumnTokens, columns) == [];
      assert a == "SELECT " && ta == [Word("SELECT")];
    }
    ReadsKeyword("FROM");
    SqlReading.ReadsOpenParen(" " + "FROM" + " ", [Word("FROM")]);
    assert " " + "FROM" + " " + "(" == " FROM (" && [Word("FROM")] + [Sym("(")] == [Word("FROM"), Sym("(")];
    Glue(a, ta, false, " FROM (", [Word("FROM"), Sym("(")], true);
    SqlReading.ReadsSelect(q);
    Glue(a + " FROM (", ta + [Word("FROM"), Sym("(")], true, SelectText(q), SelectTokens(q), false);
    ReadsClose(a + " FROM (" + SelectText(q), ta + [Word("FROM"), Sym("(")] + SelectTokens(q));
    ReadsWhole(ExportText(SelectText(q), columns), ExportTokens(SelectTokens(q), columns));
  }

  lemma ReadsWhole(text: string, ts: seq<Token>)
    requires Reads(text, ts, true)
    ensures Lex(text) == Some(ts)
  {
    assert text + "" == text && ts + [] == ts;
    assert Lex(text + "") == Then(ts, Lex(""));
  }

  lemma ParseColumnOf(c: Projection, rest: seq<Token>)
    requires rest != [] && rest[0] in [Sym(","), Word("FROM")]
    ensures ParseColumn(ColumnTokens(c) + rest) == Some((c, rest))
  {
    assert (ColumnTokens(c) + rest)[|ColumnTokens(c)|..] == rest;
  }

  lemma ColumnsSplit(columns: seq<Projection>)
    requires columns != []
    ensures ColumnsTokens(columns)
         == if |columns| == 1 then ColumnTokens(columns[0])
            else ColumnTokens(columns[0]) + [Sym(",")] + ColumnsTokens(columns[1..])
  {
    assert Map(ColumnTokens, columns)[1..] == Map(ColumnTokens, columns[1..]);
  }

  lemma {:induction false} ParseColumnsOf(columns: seq<Projection>, rest: seq<Token>)
    requires columns != []
    requires rest != [] && rest[0] == Word("FROM")
    ensures SqlParser.ParseList(ParseColumn, Sym(","), true, ColumnsTokens(columns) + rest) == Some((columns, rest))
  {
    var c := columns[0];
    ColumnsSplit(columns);
    if |columns| == 1 {
      ParseColumnOf(c, rest);
      assert columns == [c];
    } else {
      var more := ColumnsTokens(columns[1..]) + rest;
      assert ColumnsTokens(columns) + rest == ColumnTokens(c) + ([Sym(",")] + more);
      ParseColumnsOf(columns[1..], rest);
      ParseColumnOf(c, [Sym(",")] + more);
      SqlParser.ListStep(ParseColumn, Sym(","), true, ColumnsTokens(columns) + rest,
                         c, more, true, columns[1..], rest);
      assert [c] + columns[1..] == columns;
    }
  }

  lemma ParseRest(ts: seq<Token>, columns: seq<Projection>, rest: seq<Token>, q: Select)
    requires SqlParser.ParseList(ParseColumn, Sym(","), true, ts) == Some((columns, [Word("FROM"), Sym("(")] + rest))
    requires SqlParser.ParseSelect(rest) == SqlParser.Just(Plain(q), q, [Sym(")")])
    ensures ParseTokens([Word("SELECT")] + ts) == if Plain(q) then Some((columns, q)) else None
  {
    assert ([Word("SELECT")] + ts)[1..] == ts && ([Word("FROM"), Sym("(")] + rest)[2..] == rest;
  }

  lemma ExportSplit(inner: seq<Token>, columns: seq<Projection>)
    ensures ExportTokens(inner, columns)
         == [Word("SELECT")] + (ColumnsTokens(columns) + ([Word("FROM"), Sym("(")] + (inner + [Sym(")")])))
  {
  }

  lemma ParseOf(q: Select, columns: seq<Projection>)
    requires Whole(q) && columns != []
    ensures ParseTokens(ExportTokens(SelectTokens(q), columns)) == if Plain(q) then Some((columns, q)) else None
  {
    var inner := SelectTokens(q) + [Sym(")")];
    var rest := [Word("FROM"), Sym("(")] + inner;
    ExportSplit(SelectTokens(q), columns);
    ParseColumnsOf(columns, rest);
    SqlParser.ParseSelectOf(q, [Sym(")")]);
    ParseRest(ColumnsTokens(columns) + rest, columns, inner, q);
  }

  lemma ParseOfNothing(inner: seq<Token>)
    ensures ParseTokens(ExportTokens(inner, [])) == None
  {
    var rest := [Word("FROM"), Sym("(")] + inner + [Sym(")")];
    assert ColumnsTokens([]) == [];
    assert ExportTokens(inner, []) == [Word("SELECT")] + rest;
    assert ([Word("SELECT")] + rest)[1..] == rest && rest[0] == Word("FROM");
    assert ParseColumn(rest) == None;
  }

  /** An export's text reads back as its columns and the SELECT within, whatever they are called;
      with no column, or a float that is not finite, it is no statement at all. */
  lemma ExportThenParse(q: Select, columns: seq<Projection>)
    requires Whole(q)
    ensures ParseExport(ExportText(SelectText(q), columns))
         == if columns == [] || !Plain(q) then None else Some((columns, q))
  {
    LexExport(q, columns);
    if columns == [] {
      ParseOfNothing(SelectTokens(q));
    } else {
      ParseOf(q, columns);
    }
  }

  // ---- what an export means

  /** A row of an export: its columns by what they are shown as, in order. */
  type Line = seq<(string, Scalar)>

  function Cells(columns: seq<Projection>, row: Row): Line
  {
    seq(|columns|, i requires 0 <= i < |columns| => (columns[i].display, Cell(row, columns[i].source)))
  }

  function Cut(columns: seq<Projection>): Row -> Line { row => Cells(columns, row) }

  predicate SourcesExist(columns: seq<Projection>, t: Table) { forall c <- columns :: c.source in t.columns }

  /** An answer to the statement exported, row by row, in the order that answer has. */
  ghost predicate ExportAnswers(d: Dialect, columns: seq<Projection>, q: Select, t: Table, out: seq<Line>)
  {
    SourcesExist(columns, t) && exists rows :: Answers(d, q, t, rows) && out == Map(Cut(columns), rows)
  }

  /** What a stack shows, cut to the columns exported. */
  ghost predicate ShowsCut(d: Dialect, columns: seq<Projection>, ops: seq<Transformation>, t: Table, out: seq<Line>)
  {
    SourcesExist(columns, t) && exists rows :: ViewMeaning.Shows(d, ops, t, rows) && out == Map(Cut(columns), rows)
  }

  /** Exporting a view: the text around the compiled one is SQL exactly when there is a column and
      every float written is finite, and then it answers exactly what the stack shows, cut to the
      columns exported and under the names that they are shown by. */
  lemma ExportMeans(rx: ViewCompiler.RegexCheck, d: Dialect, name: seq<string>, ops: seq<Transformation>,
                    columns: seq<Projection>, t: Table, out: seq<Line>)
    requires name != []
    requires ViewMeaning.Keyed(t)
    ensures match ViewCompiler.ViewSql(rx, name, ops)
            case Failure(e) => ViewMeaning.FirstRefusal(rx, ops) == Some(e)
            case Success(sql) =>
              && var read := ParseExport(ExportText(sql, columns));
              && (read.Some? <==> columns != [] && ViewMeaning.Finite(ops))
              && (read.Some? ==>
                    && read.value.0 == columns && BaseOf(read.value.1) == name
                    && (ExportAnswers(d, columns, read.value.1, t, out) <==> ShowsCut(d, columns, ops, t, out)))
  {
    ViewMeaning.GatherIs(rx, ops);
    if ViewMeaning.FirstRefusal(rx, ops).None? {
      var q := ViewCompiler.ViewQuery(name, ViewMeaning.CompiledView(rx, ops));
      ViewMeaning.CompiledPlain(rx, name, ops);
      ViewMeaning.CompiledReads(rx, name, ops);
      ExportThenParse(q, columns);
      if ViewMeaning.Finite(ops) {
        forall rows
          ensures Answers(d, q, t, rows) <==> ViewMeaning.Shows(d, ops, t, rows)
        {
          ViewMeaning.CompiledTextMeans(rx, d, name, ops, t, rows);
        }
      }
    }
  }

  // ---- which rows those are

  lemma MapSnoc<A, B>(f: A -> B, xs: seq<A>, x: A)
    ensures Map(f, xs + [x]) == Map(f, xs) + [f(x)]
  {
  }

  lemma Without<T>(xs: seq<T>, k: nat)
    requires k < |xs|
    ensures multiset(xs[..k] + xs[k + 1..]) == multiset(xs) - multiset{xs[k]}
    ensures multiset(xs) == multiset(xs[..k] + xs[k + 1..]) + multiset{xs[k]}
  {
    assert xs == xs[..k] + [xs[k]] + xs[k + 1..];
  }

  lemma MapWithout<A, B>(f: A -> B, xs: seq<A>, k: nat)
    requires k < |xs|
    ensures Map(f, xs[..k] + xs[k + 1..]) == Map(f, xs)[..k] + Map(f, xs)[k + 1..]
  {
  }

  /** Reordering what is mapped reorders the result. */
  lemma {:induction false} MapReordered<A, B>(f: A -> B, xs: seq<A>, ys: seq<A>)
    requires multiset(xs) == multiset(ys)
    ensures multiset(Map(f, xs)) == multiset(Map(f, ys))
  {
    if xs == [] {
      assert |multiset(ys)| == 0;
    } else {
      var init, last := xs[..|xs| - 1], xs[|xs| - 1];
      assert xs == init + [last];
      assert last in multiset(ys);
      var k :| 0 <= k < |ys| && ys[k] == last;
      Without(ys, k);
      MapReordered(f, init, ys[..k] + ys[k + 1..]);
      MapSnoc(f, init, last);
      MapWithout(f, ys, k);
      Without(Map(f, ys), k);
    }
  }

  /** And every reordering of the result is one of what is mapped. */
  lemma {:induction false} MapReorders<A, B>(f: A -> B, xs: seq<A>, out: seq<B>) returns (ys: seq<A>)
    requires multiset(out) == multiset(Map(f, xs))
    ensures multiset(ys) == multiset(xs) && out == Map(f, ys)
    decreases |out|
  {
    if out == [] {
      ys := [];
      assert |multiset(Map(f, xs))| == 0;
    } else {
      var init, last := out[..|out| - 1], out[|out| - 1];
      assert out == init + [last];
      assert last in multiset(Map(f, xs));
      var k :| 0 <= k < |xs| && Map(f, xs)[k] == last;
      MapWithout(f, xs, k);
      Without(Map(f, xs), k);
      Without(xs, k);
      var before := MapReorders(f, xs[..k] + xs[k + 1..], init);
      ys := before + [xs[k]];
      MapSnoc(f, before, xs[k]);
    }
  }

  /** An export holds every row shown, as often as it is shown, and no other; and where nothing
      is sorted, that is all there is to it. */
  lemma ExportedRows(d: Dialect, columns: seq<Projection>, ops: seq<Transformation>, t: Table, out: seq<Line>)
    requires SourcesExist(columns, t) && ViewMeaning.NamesExist(ops, t)
    ensures var shown := ViewMeaning.ShownRows(d, ops, t.rows);
            && (ShowsCut(d, columns, ops, t, out) ==> multiset(out) == multiset(Map(Cut(columns), shown)))
            && (LastSort(ops).None? ==>
                  (ShowsCut(d, columns, ops, t, out) <==> multiset(out) == multiset(Map(Cut(columns), shown))))
  {
    var shown := ViewMeaning.ShownRows(d, ops, t.rows);
    if ShowsCut(d, columns, ops, t, out) {
      var rows :| ViewMeaning.Shows(d, ops, t, rows) && out == Map(Cut(columns), rows);
      MapReordered(Cut(columns), rows, shown);
    }
    if multiset(out) == multiset(Map(Cut(columns), shown)) && LastSort(ops).None? {
      var rows := MapReorders(Cut(columns), shown, out);
      assert ViewMeaning.Shows(d, ops, t, rows);
    }
  }
}
