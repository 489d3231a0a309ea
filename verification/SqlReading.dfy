/** The printed text of a statement reads as its tokens. */
module SqlReading {

  import opened Wrappers
  import opened Transform
  import opened SqlAst
  import opened SqlLexer
  import opened Decimal
  import opened SqlPrinter

  lemma ReadsKeywords2(a: string, b: string)
    requires IsWord(a) && IsWord(b)
    ensures Reads(" " + a + " " + b, [Word(a), Word(b)], false)
    ensures Reads(" " + a + " " + b + " ", [Word(a), Word(b)], true)
  {
    ReadsKeyword(a);
    ReadsWord(b);
    Glue(" " + a + " ", [Word(a)], true, b, [Word(b)], false);
    assert [Word(a)] + [Word(b)] == [Word(a), Word(b)];
    ReadsSpace();
    Glue(" " + a + " " + b, [Word(a), Word(b)], false, " ", [], true);
    assert [Word(a), Word(b)] + [] == [Word(a), Word(b)];
  }

  lemma ReadsOpenParen(a: string, ta: seq<Token>)
    requires Reads(a, ta, true)
    ensures Reads(a + "(", ta + [Sym("(")], true)
  {
    ReadsSymbol('(');
    Glue(a, ta, true, "(", [Sym("(")], true);
  }

  /** The head of a parenthesised predicate. */
  lemma ReadsHead(c: string)
    ensures Reads("(" + QuoteIdent(c), [Sym("("), Ident(c)], false)
  {
    ReadsSymbol('(');
    ReadsIdent(c);
    Glue("(", [Sym("(")], true, QuoteIdent(c), [Ident(c)], false);
    assert [Sym("(")] + [Ident(c)] == [Sym("("), Ident(c)];
  }

  /** A predicate's head, an operator and a literal. */
  lemma ReadsOperand(a: string, ta: seq<Token>, op: string, top: seq<Token>, v: Scalar)
    requires Reads(a, ta, false) && Reads(op, top, true) && op != "" && Break(op)
    ensures Reads(a + op + ScalarText(v), ta + top + ScalarTokens(v), false)
  {
    ReadsScalar(v);
    Glue(a, ta, false, op, top, true);
    Glue(a + op, ta + top, true, ScalarText(v), ScalarTokens(v), false);
  }

  lemma ReadsCmp(c: string, cmp: CmpOp, lit: Scalar)
    ensures Reads(PredText(Cmp(c, cmp, lit)), PredTokens(Cmp(c, cmp, lit)), true)
  {
    ReadsHead(c);
    ReadsOperator(CmpText(cmp));
    var op := SpacedCmp(cmp);
    assert op == " " + CmpText(cmp) + " ";
    ReadsOperand("(" + QuoteIdent(c), [Sym("("), Ident(c)], op, [Sym(CmpText(cmp))], lit);
    ReadsClose("(" + QuoteIdent(c) + op + ScalarText(lit),
               [Sym("("), Ident(c)] + [Sym(CmpText(cmp))] + ScalarTokens(lit));
    assert [Sym("("), Ident(c)] + [Sym(CmpText(cmp))] == [Sym("("), Ident(c), Sym(CmpText(cmp))];
  }

  lemma ReadsNullTest(c: string, negated: bool)
    ensures Reads(PredText(NullTest(c, negated)), PredTokens(NullTest(c, negated)), true)
  {
    ReadsHead(c);
    var head, thead := "(" + QuoteIdent(c), [Sym("("), Ident(c)];
    if negated {
      ReadsKeywords2("IS", "NOT");
      ReadsWord("NULL");
      Glue(" " + "IS" + " " + "NOT" + " ", [Word("IS"), Word("NOT")], true, "NULL", [Word("NULL")], false);
      ReadsClose(" " + "IS" + " " + "NOT" + " " + "NULL", [Word("IS"), Word("NOT")] + [Word("NULL")]);
      assert " " + "IS" + " " + "NOT" + " " + "NULL" + ")" == " IS NOT NULL)";
      Glue(head, thead, false, " IS NOT NULL)", [Word("IS"), Word("NOT")] + [Word("NULL")] + [Sym(")")], true);
    } else {
      ReadsKeywords2("IS", "NULL");
      ReadsClose(" " + "IS" + " " + "NULL", [Word("IS"), Word("NULL")]);
      assert " " + "IS" + " " + "NULL" + ")" == " IS NULL)";
      Glue(head, thead, false, " IS NULL)", [Word("IS"), Word("NULL")] + [Sym(")")], true);
    }
    assert PredTokens(NullTest(c, negated)) ==
      thead + (if negated then [Word("IS"), Word("NOT")] + [Word("NULL")] else [Word("IS"), Word("NULL")]) + [Sym(")")];
    assert PredTokens(NullTest(c, negated)) ==
      thead
      + ((if negated then [Word("IS"), Word("NOT")] + [Word("NULL")] else [Word("IS"), Word("NULL")]) + [Sym(")")]);
  }

  lemma ReadsBetween(c: string, lo: Scalar, hi: Scalar)
    ensures Reads(PredText(Within(c, lo, hi)), PredTokens(Within(c, lo, hi)), true)
  {
    ReadsHead(c);
    ReadsKeyword("BETWEEN");
    ReadsKeyword("AND");
    var head, thead := "(" + QuoteIdent(c), [Sym("("), Ident(c)];
    assert " " + "BETWEEN" + " " == " BETWEEN " && " " + "AND" + " " == " AND ";
    ReadsOperand(head, thead, " BETWEEN ", [Word("BETWEEN")], lo);
    var low, tlow := head + " BETWEEN " + ScalarText(lo), thead + [Word("BETWEEN")] + ScalarTokens(lo);
    ReadsOperand(low, tlow, " AND ", [Word("AND")], hi);
    ReadsClose(low + " AND " + ScalarText(hi), tlow + [Word("AND")] + ScalarTokens(hi));
    assert thead + [Word("BETWEEN")] == [Sym("("), Ident(c), Word("BETWEEN")];
  }

  lemma ReadsStrictlyWithin(c: string, lo: Scalar, hi: Scalar)
    ensures Reads(PredText(StrictlyWithin(c, lo, hi)), PredTokens(StrictlyWithin(c, lo, hi)), true)
  {
    ReadsHead(c);
    ReadsOperator(">");
    ReadsOperator("<");
    ReadsKeyword("AND");
    ReadsIdent(c);
    var head, thead := "(" + QuoteIdent(c), [Sym("("), Ident(c)];
    assert " " + ">" + " " == " > " && " " + "<" + " " == " < " && " " + "AND" + " " == " AND ";
    ReadsOperand(head, thead, " > ", [Sym(">")], lo);
    var low, tlow := head + " > " + ScalarText(lo), thead + [Sym(">")] + ScalarTokens(lo);
    Glue(low, tlow, false, " AND ", [Word("AND")], true);
    Glue(low + " AND ", tlow + [Word("AND")], true, QuoteIdent(c), [Ident(c)], false);
    var mid, tmid := low + " AND " + QuoteIdent(c), tlow + [Word("AND")] + [Ident(c)];
    ReadsOperand(mid, tmid, " < ", [Sym("<")], hi);
    ReadsClose(mid + " < " + ScalarText(hi), tmid + [Sym("<")] + ScalarTokens(hi));
    assert tlow == [Sym("("), Ident(c), Sym(">")] + ScalarTokens(lo);
    assert tmid + [Sym("<")] == tlow + [Word("AND"), Ident(c), Sym("<")];
  }

  lemma ReadsEscape()
    ensures Reads(" ESCAPE '\\')", [Word("ESCAPE")] + [Text("\\")] + [Sym(")")], true)
  {
    ReadsKeyword("ESCAPE");
    ReadsText("\\");
    Glue(" " + "ESCAPE" + " ", [Word("ESCAPE")], true, QuoteText("\\"), [Text("\\")], false);
    ReadsClose(" " + "ESCAPE" + " " + QuoteText("\\"), [Word("ESCAPE")] + [Text("\\")]);
    assert Doubled("\\", '\'') == "\\";
    assert " " + "ESCAPE" + " " + QuoteText("\\") + ")" == " ESCAPE '\\')";
  }

  lemma ReadsLike(c: string, negated: bool, pattern: string)
    ensures Reads(PredText(LikeText(c, negated, pattern)), PredTokens(LikeText(c, negated, pattern)), true)
  {
    ReadsHead(c);
    ReadsText(pattern);
    var head, thead := "(" + QuoteIdent(c), [Sym("("), Ident(c)];
    var op := if negated then " NOT LIKE " else " LIKE ";
    var top := if negated then [Word("NOT"), Word("LIKE")] else [Word("LIKE")];
    if negated {
      ReadsKeywords2("NOT", "LIKE");
      assert " " + "NOT" + " " + "LIKE" + " " == op;
    } else {
      ReadsKeyword("LIKE");
      assert " " + "LIKE" + " " == op;
    }
    Glue(head, thead, false, op, top, true);
    Glue(head + op, thead + top, true, QuoteText(pattern), [Text(pattern)], false);
    ReadsEscape();
    Glue(head + op + QuoteText(pattern), thead + top + [Text(pattern)], false,
         " ESCAPE '\\')", [Word("ESCAPE")] + [Text("\\")] + [Sym(")")], true);
    assert PredTokens(LikeText(c, negated, pattern)) ==
      thead + top + [Text(pattern)] + ([Word("ESCAPE")] + [Text("\\")] + [Sym(")")]);
  }

  lemma ReadsScalars(lits: seq<Scalar>)
    requires lits != []
    ensures Reads(Join(Map(ScalarText, lits), ", "), Join(Map(ScalarTokens, lits), [Sym(",")]), false)
  {
    ReadsComma();
    forall i | 0 <= i < |lits|
      ensures Reads(Map(ScalarText, lits)[i], Map(ScalarTokens, lits)[i], false)
    {
      ReadsScalar(lits[i]);
    }
    ReadsJoin(Map(ScalarText, lits), Map(ScalarTokens, lits), ", ", [Sym(",")]);
  }

  lemma ReadsIds(ids: seq<int>)
    requires ids != []
    ensures Reads(Join(Map(IntText, ids), ", "), Join(Map(IntTokens, ids), [Sym(",")]), false)
  {
    ReadsComma();
    forall i | 0 <= i < |ids|
      ensures Reads(Map(IntText, ids)[i], Map(IntTokens, ids)[i], false)
    {
      IntWord(ids[i]);
      ReadsWord(IntText(ids[i]));
    }
    ReadsJoin(Map(IntText, ids), Map(IntTokens, ids), ", ", [Sym(",")]);
  }

  lemma ReadsIn(c: string, lits: seq<Scalar>)
    requires lits != []
    ensures Reads(PredText(InList(c, lits)), PredTokens(InList(c, lits)), true)
  {
    ReadsHead(c);
    ReadsScalars(lits);
    var head, thead := "(" + QuoteIdent(c), [Sym("("), Ident(c)];
    var list, tlist := Join(Map(ScalarText, lits), ", "), Join(Map(ScalarTokens, lits), [Sym(",")]);
    ReadsKeyword("IN");
    ReadsOpenParen(" " + "IN" + " ", [Word("IN")]);
    assert " " + "IN" + " " + "(" == " IN (";
    Glue(head, thead, false, " IN (", [Word("IN")] + [Sym("(")], true);
    var open, topen := head + " IN (", thead + ([Word("IN")] + [Sym("(")]);
    Glue(open, topen, true, list, tlist, false);
    ReadsClose(open + list, topen + tlist);
    ReadsSymbol(')');
    Glue(open + list + ")", topen + tlist + [Sym(")")], true, ")", [Sym(")")], true);
    assert open + list + ")" + ")" == PredText(InList(c, lits));
    assert topen == [Sym("("), Ident(c), Word("IN"), Sym("(")];
    assert topen + tlist + [Sym(")")] + [Sym(")")] == topen + tlist + [Sym(")"), Sym(")")];
  }

  lemma ReadsCall(f: string, c: string)
    requires IsWord(f)
    ensures Reads(f + "(" + QuoteIdent(c), [Word(f), Sym("("), Ident(c)], false)
  {
    ReadsWord(f);
    ReadsSymbol('(');
    Glue(f, [Word(f)], false, "(", [Sym("(")], true);
    ReadsIdent(c);
    Glue(f + "(", [Word(f)] + [Sym("(")], true, QuoteIdent(c), [Ident(c)], false);
    assert [Word(f)] + [Sym("(")] + [Ident(c)] == [Word(f), Sym("("), Ident(c)];
  }

  lemma ReadsRegexp(c: string, pattern: string)
    ensures Reads(PredText(Regexp(c, pattern)), PredTokens(Regexp(c, pattern)), true)
  {
    ReadsCall("regexp_matches", c);
    assert "regexp_matches" + "(" == "regexp_matches(";
    var head, thead := "regexp_matches(" + QuoteIdent(c), [Word("regexp_matches"), Sym("("), Ident(c)];
    ReadsComma();
    Glue(head, thead, false, ", ", [Sym(",")], true);
    ReadsText(pattern);
    Glue(head + ", ", thead + [Sym(",")], true, QuoteText(pattern), [Text(pattern)], false);
    ReadsClose(head + ", " + QuoteText(pattern), thead + [Sym(",")] + [Text(pattern)]);
    assert thead + [Sym(",")] + [Text(pattern)] + [Sym(")")] == PredTokens(Regexp(c, pattern));
  }

  lemma ReadsNotIn(ids: seq<int>)
    requires ids != []
    ensures Reads(PredText(RowidNotIn(ids)), PredTokens(RowidNotIn(ids)), true)
  {
    ReadsIds(ids);
    var list, tlist := Join(Map(IntText, ids), ", "), Join(Map(IntTokens, ids), [Sym(",")]);
    ReadsWord(ROWID_COL);
    ReadsKeywords2("NOT", "IN");
    ReadsOpenParen(" " + "NOT" + " " + "IN" + " ", [Word("NOT"), Word("IN")]);
    assert " " + "NOT" + " " + "IN" + " " + "(" == " NOT IN (";
    Glue(ROWID_COL, [Word(ROWID_COL)], false, " NOT IN (", [Word("NOT"), Word("IN")] + [Sym("(")], true);
    assert ROWID_COL + " NOT IN (" == "__dat0_rowid NOT IN (";
    var topen := [Word(ROWID_COL)] + ([Word("NOT"), Word("IN")] + [Sym("(")]);
    assert topen == [Word(ROWID_COL), Word("NOT"), Word("IN"), Sym("(")];
    Glue("__dat0_rowid NOT IN (", topen, true, list, tlist, false);
    ReadsClose("__dat0_rowid NOT IN (" + list, topen + tlist);
  }

  lemma ReadsPred(p: Pred)
    requires WholePred(p)
    ensures Reads(PredText(p), PredTokens(p), true)
  {
    match p
    case Cmp(c, cmp, lit) => ReadsCmp(c, cmp, lit);
    case NullTest(c, negated) => ReadsNullTest(c, negated);
    case Within(c, lo, hi) => ReadsBetween(c, lo, hi);
    case StrictlyWithin(c, lo, hi) => ReadsStrictlyWithin(c, lo, hi);
    case LikeText(c, negated, pattern) => ReadsLike(c, negated, pattern);
    case InList(c, lits) => ReadsIn(c, lits);
    case Regexp(c, pattern) => ReadsRegexp(c, pattern);
    case RowidNotIn(ids) => ReadsNotIn(ids);
  }

  lemma ReadsPreds(ps: seq<Pred>)
    requires ps != [] && forall p <- ps :: WholePred(p)
    ensures Reads(Join(Map(PredText, ps), " AND "), Join(Map(PredTokens, ps), [Word("AND")]), false)
  {
    ReadsKeyword("AND");
    assert " " + "AND" + " " == " AND ";
    forall i | 0 <= i < |ps|
      ensures Reads(Map(PredText, ps)[i], Map(PredTokens, ps)[i], false)
    {
      ReadsPred(ps[i]);
      ReadsAnywhere(PredText(ps[i]), PredTokens(ps[i]));
    }
    ReadsJoin(Map(PredText, ps), Map(PredTokens, ps), " AND ", [Word("AND")]);
  }

  lemma ReadsWhenHead()
    ensures Reads("WHEN __dat0_rowid = ", [Word("WHEN"), Word(ROWID_COL), Sym("=")], true)
  {
    ReadsKeyword("WHEN");
    ReadsWord(ROWID_COL);
    ReadsOperator("=");
    Glue("WHEN" + " ", [Word("WHEN")], true, ROWID_COL, [Word(ROWID_COL)], false);
    Glue("WHEN" + " " + ROWID_COL, [Word("WHEN")] + [Word(ROWID_COL)], false, " " + "=" + " ", [Sym("=")], true);
    assert "WHEN" + " " + ROWID_COL + (" " + "=" + " ") == "WHEN __dat0_rowid = ";
    assert [Word("WHEN")] + [Word(ROWID_COL)] + [Sym("=")] == [Word("WHEN"), Word(ROWID_COL), Sym("=")];
  }

  lemma ReadsWhen(w: When)
    ensures Reads(WhenText(w), WhenTokens(w), false)
  {
    var tif, id := [Word("WHEN"), Word(ROWID_COL), Sym("=")], IntText(w.id);
    ReadsWhenHead();
    IntWord(w.id);
    ReadsWord(id);
    Glue("WHEN __dat0_rowid = ", tif, true, id, [Word(id)], false);
    ReadsKeyword("THEN");
    assert " " + "THEN" + " " == " THEN ";
    ReadsOperand("WHEN __dat0_rowid = " + id, tif + [Word(id)], " THEN ", [Word("THEN")], w.lit);
    assert tif + [Word(id)] + [Word("THEN")] + ScalarTokens(w.lit) == WhenTokens(w);
  }

  lemma ReadsCase(c: CaseColumn)
    requires WholeCase(c)
    ensures Reads(CaseText(c), CaseTokens(c), false)
  {
    ReadsSpace();
    forall i | 0 <= i < |c.whens|
      ensures Reads(Map(WhenText, c.whens)[i], Map(WhenTokens, c.whens)[i], false)
    {
      ReadsWhen(c.whens[i]);
    }
    ReadsJoin(Map(WhenText, c.whens), Map(WhenTokens, c.whens), " ", []);
    var whens, twhens := Join(Map(WhenText, c.whens), " "), Join(Map(WhenTokens, c.whens), []);
    ReadsKeyword("CASE");
    assert "CASE" + " " == "CASE ";
    Glue("CASE ", [Word("CASE")], true, whens, twhens, false);
    ReadsKeyword("ELSE");
    assert " " + "ELSE" + " " == " ELSE ";
    Glue("CASE " + whens, [Word("CASE")] + twhens, false, " ELSE ", [Word("ELSE")], true);
    ReadsIdent(c.column);
    var els, tels := "CASE " + whens + " ELSE ", [Word("CASE")] + twhens + [Word("ELSE")];
    Glue(els, tels, true, QuoteIdent(c.column), [Ident(c.column)], false);
    ReadsKeywords2("END", "AS");
    assert " " + "END" + " " + "AS" + " " == " END AS ";
    Glue(els + QuoteIdent(c.column), tels + [Ident(c.column)], false, " END AS ", [Word("END"), Word("AS")], true);
    Glue(els + QuoteIdent(c.column) + " END AS ", tels + [Ident(c.column)] + [Word("END"), Word("AS")], true,
         QuoteIdent(c.column), [Ident(c.column)], false);
    assert tels + [Ident(c.column)] + [Word("END"), Word("AS")] + [Ident(c.column)] == CaseTokens(c);
  }

  lemma ReadsCases(cs: seq<CaseColumn>)
    requires cs != [] && forall c <- cs :: WholeCase(c)
    ensures Reads(Join(Map(CaseText, cs), ", "), Join(Map(CaseTokens, cs), [Sym(",")]), false)
  {
    ReadsComma();
    forall i | 0 <= i < |cs|
      ensures Reads(Map(CaseText, cs)[i], Map(CaseTokens, cs)[i], false)
    {
      ReadsCase(cs[i]);
    }
    ReadsJoin(Map(CaseText, cs), Map(CaseTokens, cs), ", ", [Sym(",")]);
  }

  lemma ReadsKey(k: SortKey)
    ensures Reads(KeyText(k), KeyTokens(k), false)
  {
    var dir := match k.direction case Asc => "ASC" case Desc => "DESC";
    ReadsIdent(k.column);
    ReadsKeyword(dir);
    assert " " + "ASC" == " ASC" && " " + "DESC" == " DESC";
    Glue(QuoteIdent(k.column), [Ident(k.column)], false, " " + dir, [Word(dir)], false);
    assert [Ident(k.column)] + [Word(dir)] == KeyTokens(k);
  }

  lemma ReadsKeys(ks: seq<SortKey>)
    requires ks != []
    ensures Reads(Join(Map(KeyText, ks), ", "), Join(Map(KeyTokens, ks), [Sym(",")]), false)
  {
    ReadsComma();
    forall i | 0 <= i < |ks|
      ensures Reads(Map(KeyText, ks)[i], Map(KeyTokens, ks)[i], false)
    {
      ReadsKey(ks[i]);
    }
    ReadsJoin(Map(KeyText, ks), Map(KeyTokens, ks), ", ", [Sym(",")]);
  }

  /** A quoted name ends where a point or a break follows. */
  lemma {:induction false} ReadsName(name: seq<string>)
    requires name != []
    ensures Reads(NameText(name), NameTokens(name), false)
  {
    var parts, tparts := Map(QuoteIdent, name), Map(PartTokens, name);
    if |name| == 1 {
      ReadsIdent(name[0]);
    } else {
      ReadsName(name[1..]);
      assert parts[1..] == Map(QuoteIdent, name[1..]) && tparts[1..] == Map(PartTokens, name[1..]);
      var tail, ttail := NameText(name[1..]), NameTokens(name[1..]);
      assert tail[0] == '"' by {
        assert NameText(name[1..]) == Join(Map(QuoteIdent, name[1..]), ".");
      }
      forall rest: string | Break(rest)
        ensures Lex(QuoteIdent(name[0]) + "." + tail + rest) == Then([Ident(name[0])] + [Word(".")] + ttail, Lex(rest))
      {
        LexDotted(name[0], tail, ttail, rest);
      }
      assert NameText(name) == QuoteIdent(name[0]) + "." + tail;
      assert NameTokens(name) == [Ident(name[0])] + [Word(".")] + ttail;
    }
  }

  lemma LexDot(rest: string)
    requires rest != "" && rest[0] == '"'
    ensures Lex("." + rest) == Then([Word(".")], Lex(rest))
  {
    WordLengthOf(".", rest);
    assert ("." + rest)[..1] == "." && ("." + rest)[1..] == rest;
  }

  lemma ThenThen(a: seq<Token>, b: seq<Token>, c: seq<Token>, rest: Option<seq<Token>>)
    ensures Then(a, Then(b, Then(c, rest))) == Then(a + b + c, rest)
  {
    if rest.Some? {
      assert a + (b + (c + rest.value)) == a + b + c + rest.value;
    }
  }

  lemma LexDotted(part: string, tail: string, ttail: seq<Token>, rest: string)
    requires tail != "" && tail[0] == '"'
    requires Lex(tail + rest) == Then(ttail, Lex(rest))
    ensures Lex(QuoteIdent(part) + "." + tail + rest) == Then([Ident(part)] + [Word(".")] + ttail, Lex(rest))
  {
    LexQuoted(part, '"', "." + (tail + rest));
    assert QuoteIdent(part) + "." + tail + rest == ['"'] + Doubled(part, '"') + ['"'] + ("." + (tail + rest));
    LexDot(tail + rest);
    ThenThen([Ident(part)], [Word(".")], ttail, Lex(rest));
  }

  lemma {:induction false} ReadsSource(s: Source)
    requires WholeSource(s)
    ensures Reads(SourceText(s), SourceTokens(s), false)
  {
    match s
    case Base(name) => ReadsName(name);
    case Sub(inner) =>
      ReadsSelect(inner);
      ReadsSymbol('(');
      Glue("(", [Sym("(")], true, SelectText(inner), SelectTokens(inner), false);
      ReadsClose("(" + SelectText(inner), [Sym("(")] + SelectTokens(inner));
      ReadsAnywhere("(" + SelectText(inner) + ")", [Sym("(")] + SelectTokens(inner) + [Sym(")")]);
  }

  lemma ReadsStar()
    ensures Reads("SELECT *", [Word("SELECT"), Sym("*")], true)
  {
    ReadsKeyword("SELECT");
    ReadsSymbol('*');
    Glue("SELECT" + " ", [Word("SELECT")], true, "*", [Sym("*")], true);
    assert "SELECT" + " " + "*" == "SELECT *";
    assert [Word("SELECT")] + [Sym("*")] == [Word("SELECT"), Sym("*")];
  }

  lemma ReadsReplace(cs: seq<CaseColumn>)
    requires cs != [] && forall c <- cs :: WholeCase(c)
    ensures Reads(ReplaceText(cs), ReplaceTokens(cs), true)
  {
    ReadsKeyword("REPLACE");
    ReadsOpenParen(" " + "REPLACE" + " ", [Word("REPLACE")]);
    assert " " + "REPLACE" + " " + "(" == " REPLACE (";
    assert [Word("REPLACE")] + [Sym("(")] == [Word("REPLACE"), Sym("(")];
    ReadsCases(cs);
    Glue(" REPLACE (", [Word("REPLACE"), Sym("(")], true,
         Join(Map(CaseText, cs), ", "), Join(Map(CaseTokens, cs), [Sym(",")]), false);
    ReadsClose(" REPLACE (" + Join(Map(CaseText, cs), ", "),
               [Word("REPLACE"), Sym("(")] + Join(Map(CaseTokens, cs), [Sym(",")]));
  }

  lemma ReadsFilters(ps: seq<Pred>)
    requires ps != [] && forall p <- ps :: WholePred(p)
    ensures Reads(FilterText(ps), FilterTokens(ps), false)
  {
    ReadsPreds(ps);
    ReadsKeyword("WHERE");
    assert " " + "WHERE" + " " == " WHERE ";
    Glue(" WHERE ", [Word("WHERE")], true,
         Join(Map(PredText, ps), " AND "), Join(Map(PredTokens, ps), [Word("AND")]), false);
  }

  lemma ReadsOrder(ks: seq<SortKey>)
    requires ks != []
    ensures Reads(OrderText(ks), OrderTokens(ks), false)
  {
    ReadsKeys(ks);
    ReadsKeywords2("ORDER", "BY");
    assert " " + "ORDER" + " " + "BY" + " " == " ORDER BY ";
    Glue(" ORDER BY ", [Word("ORDER"), Word("BY")], true,
         Join(Map(KeyText, ks), ", "), Join(Map(KeyTokens, ks), [Sym(",")]), false);
  }

  /** The text of a whole statement reads as its tokens. */
  lemma {:induction false} ReadsSelect(q: Select)
    requires Whole(q)
    ensures Reads(SelectText(q), SelectTokens(q), false)
  {
    ReadsStar();
    var a, ta := "SELECT *", [Word("SELECT"), Sym("*")];
    if q.replace != [] {
      ReadsReplace(q.replace);
      Glue(a, ta, true, ReplaceText(q.replace), ReplaceTokens(q.replace), true);
    } else {
      assert a + ReplaceText(q.replace) == a && ta + ReplaceTokens(q.replace) == ta;
    }
    a, ta := a + ReplaceText(q.replace), ta + ReplaceTokens(q.replace);
    ReadsKeyword("FROM");
    assert " " + "FROM" + " " == " FROM ";
    Glue(a, ta, true, " FROM ", [Word("FROM")], true);
    ReadsSource(q.source);
    Glue(a + " FROM ", ta + [Word("FROM")], true, SourceText(q.source), SourceTokens(q.source), false);
    a, ta := a + " FROM " + SourceText(q.source), ta + [Word("FROM")] + SourceTokens(q.source);
    if q.filters != [] {
      ReadsFilters(q.filters);
      Glue(a, ta, false, FilterText(q.filters), FilterTokens(q.filters), false);
    } else {
      assert a + FilterText(q.filters) == a && ta + FilterTokens(q.filters) == ta;
    }
    a, ta := a + FilterText(q.filters), ta + FilterTokens(q.filters);
    if q.order != [] {
      ReadsOrder(q.order);
      Glue(a, ta, false, OrderText(q.order), OrderTokens(q.order), false);
    } else {
      assert a + OrderText(q.order) == a && ta + OrderTokens(q.order) == ta;
    }
  }

  /** The printed statement lexes to its tokens, whatever its names and values are. */
  lemma LexSelect(q: Select)
    requires Whole(q)
    ensures Lex(SelectText(q)) == Some(SelectTokens(q))
  {
    ReadsSelect(q);
    assert SelectText(q) + "" == SelectText(q);
    assert Lex(SelectText(q) + "") == Then(SelectTokens(q), Lex(""));
    assert SelectTokens(q) + [] == SelectTokens(q);
  }
}
