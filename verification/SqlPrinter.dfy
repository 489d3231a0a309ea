/** The text of a SELECT, in the source's spelling, and the tokens it reads as. */
module SqlPrinter {

  import opened Transform
  import opened SqlAst
  import opened SqlLexer
  import opened Decimal

  function Map<A, B>(f: A -> B, xs: seq<A>): (ys: seq<B>)
    ensures |ys| == |xs|
    ensures forall i :: 0 <= i < |xs| ==> ys[i] == f(xs[i])
  {
    seq(|xs|, i requires 0 <= i < |xs| => f(xs[i]))
  }

  function Join<T>(parts: seq<seq<T>>, sep: seq<T>): seq<T>
  {
    if parts == [] then [] else if |parts| == 1 then parts[0] else parts[0] + sep + Join(parts[1..], sep)
  }

  lemma IntWord(i: int)
    ensures IsIntText(IntText(i)) && IntValue(IntText(i)) == i && IsWord(IntText(i))
  {
    IntRoundTrip(i);
  }

  // ---- text

  function QuoteIdent(name: string): string { "\"" + Doubled(name, '"') + "\"" }

  function QuoteText(t: string): string { "'" + Doubled(t, '\'') + "'" }

  function ScalarText(v: Scalar): string
  {
    match v
    case Null => "NULL"
    case Bool(b) => if b then "TRUE" else "FALSE"
    case Int(i) => IntText(i)
    case Float(text) => text
    case Str(s) => QuoteText(s)
    case Date(s) => "DATE " + QuoteText(s)
    case Timestamp(s) => "TIMESTAMP " + QuoteText(s)
  }

  function CmpText(cmp: CmpOp): string
  {
    match cmp
    case Equal => "=" case Differs => "<>" case Less => "<"
    case AtMost => "<=" case Greater => ">" case AtLeast => ">="
  }

  function SpacedCmp(cmp: CmpOp): string
  {
    match cmp
    case Equal => " = " case Differs => " <> " case Less => " < "
    case AtMost => " <= " case Greater => " > " case AtLeast => " >= "
  }

  function PredText(p: Pred): string
  {
    match p
    case Cmp(c, cmp, lit) => "(" + QuoteIdent(c) + SpacedCmp(cmp) + ScalarText(lit) + ")"
    case NullTest(c, negated) => "(" + QuoteIdent(c) + (if negated then " IS NOT NULL)" else " IS NULL)")
    case Within(c, lo, hi) =>
      "(" + QuoteIdent(c) + " BETWEEN " + ScalarText(lo) + " AND " + ScalarText(hi) + ")"
    case StrictlyWithin(c, lo, hi) =>
      "(" + QuoteIdent(c) + " > " + ScalarText(lo) + " AND " + QuoteIdent(c) + " < " + ScalarText(hi) + ")"
    case LikeText(c, negated, pattern) =>
      "(" + QuoteIdent(c) + (if negated then " NOT LIKE " else " LIKE ") + QuoteText(pattern) + " ESCAPE '\\')"
    case InList(c, lits) => "(" + QuoteIdent(c) + " IN (" + Join(Map(ScalarText, lits), ", ") + "))"
    case Regexp(c, pattern) => "regexp_matches(" + QuoteIdent(c) + ", " + QuoteText(pattern) + ")"
    case RowidNotIn(ids) => "__dat0_rowid NOT IN (" + Join(Map(IntText, ids), ", ") + ")"
  }

  function WhenText(w: When): string
  {
    "WHEN __dat0_rowid = " + IntText(w.id) + " THEN " + ScalarText(w.lit)
  }

  function CaseText(c: CaseColumn): string
  {
    "CASE " + Join(Map(WhenText, c.whens), " ") + " ELSE " + QuoteIdent(c.column) + " END AS " + QuoteIdent(c.column)
  }

  function KeyText(k: SortKey): string
  {
    QuoteIdent(k.column) + (match k.direction case Asc => " ASC" case Desc => " DESC")
  }

  /** A relation's name, quoted part by part: `"main"."orders"`. */
  function NameText(name: seq<string>): string { Join(Map(QuoteIdent, name), ".") }

  function SourceText(s: Source): string
  {
    match s case Base(name) => NameText(name) case Sub(inner) => "(" + SelectText(inner) + ")"
  }

  function ReplaceText(cs: seq<CaseColumn>): string
  {
    if cs == [] then "" else " REPLACE (" + Join(Map(CaseText, cs), ", ") + ")"
  }

  function FilterText(ps: seq<Pred>): string
  {
    if ps == [] then "" else " WHERE " + Join(Map(PredText, ps), " AND ")
  }

  function OrderText(ks: seq<SortKey>): string
  {
    if ks == [] then "" else " ORDER BY " + Join(Map(KeyText, ks), ", ")
  }

  function SelectText(q: Select): string
  {
    "SELECT *" + ReplaceText(q.replace) + " FROM " + SourceText(q.source) + FilterText(q.filters) + OrderText(q.order)
  }

  // ---- what has a text, and what has one that reads back

  predicate WholePred(p: Pred)
  {
    match p
    case InList(_, lits) => lits != []
    case RowidNotIn(ids) => ids != []
    case _ => true
  }

  predicate WholeCase(c: CaseColumn) { c.whens != [] }

  /** Every list that must not be empty is not. */
  predicate Whole(q: Select)
  {
    && (forall c <- q.replace :: WholeCase(c))
    && (forall p <- q.filters :: WholePred(p))
    && WholeSource(q.source)
  }

  predicate WholeSource(s: Source) { match s case Base(name) => name != [] case Sub(inner) => Whole(inner) }

  predicate PlainScalar(v: Scalar) { v.Float? ==> IsFiniteText(v.text) }

  predicate PlainPred(p: Pred)
  {
    match p
    case Cmp(_, _, lit) => PlainScalar(lit)
    case Within(_, lo, hi) => PlainScalar(lo) && PlainScalar(hi)
    case StrictlyWithin(_, lo, hi) => PlainScalar(lo) && PlainScalar(hi)
    case InList(_, lits) => forall v <- lits :: PlainScalar(v)
    case _ => true
  }

  predicate PlainWhen(w: When) { PlainScalar(w.lit) }

  predicate PlainCase(c: CaseColumn) { forall w <- c.whens :: PlainWhen(w) }

  /** Every float is finite. */
  predicate Plain(q: Select)
  {
    && (forall c <- q.replace :: PlainCase(c))
    && (forall p <- q.filters :: PlainPred(p))
    && PlainSource(q.source)
  }

  predicate PlainSource(s: Source) { s.Sub? ==> Plain(s.inner) }

  // ---- tokens

  function ScalarTokens(v: Scalar): seq<Token>
  {
    match v
    case Str(s) => [Text(s)]
    case Date(s) => [Word("DATE"), Text(s)]
    case Timestamp(s) => [Word("TIMESTAMP"), Text(s)]
    case _ => [Word(ScalarText(v))]
  }

  function PredTokens(p: Pred): seq<Token>
  {
    match p
    case Cmp(c, cmp, lit) => [Sym("("), Ident(c), Sym(CmpText(cmp))] + ScalarTokens(lit) + [Sym(")")]
    case NullTest(c, negated) =>
      [Sym("("), Ident(c), Word("IS")] + (if negated then [Word("NOT")] else []) + [Word("NULL"), Sym(")")]
    case Within(c, lo, hi) =>
      [Sym("("), Ident(c), Word("BETWEEN")] + ScalarTokens(lo) + [Word("AND")] + ScalarTokens(hi) + [Sym(")")]
    case StrictlyWithin(c, lo, hi) =>
      [Sym("("), Ident(c), Sym(">")] + ScalarTokens(lo) + [Word("AND"), Ident(c), Sym("<")]
      + ScalarTokens(hi) + [Sym(")")]
    case LikeText(c, negated, pattern) =>
      [Sym("("), Ident(c)] + (if negated then [Word("NOT")] else [])
      + [Word("LIKE"), Text(pattern), Word("ESCAPE"), Text("\\"), Sym(")")]
    case InList(c, lits) =>
      [Sym("("), Ident(c), Word("IN"), Sym("(")] + Join(Map(ScalarTokens, lits), [Sym(",")]) + [Sym(")"), Sym(")")]
    case Regexp(c, pattern) =>
      [Word("regexp_matches"), Sym("("), Ident(c), Sym(","), Text(pattern), Sym(")")]
    case RowidNotIn(ids) =>
      [Word(ROWID_COL), Word("NOT"), Word("IN"), Sym("(")] + Join(Map(IntTokens, ids), [Sym(",")]) + [Sym(")")]
  }

  function IntTokens(i: int): seq<Token> { [Word(IntText(i))] }

  function WhenTokens(w: When): seq<Token>
  {
    [Word("WHEN"), Word(ROWID_COL), Sym("="), Word(IntText(w.id)), Word("THEN")] + ScalarTokens(w.lit)
  }

  function CaseTokens(c: CaseColumn): seq<Token>
  {
    [Word("CASE")] + Join(Map(WhenTokens, c.whens), [])
    + [Word("ELSE"), Ident(c.column), Word("END"), Word("AS"), Ident(c.column)]
  }

  function KeyTokens(k: SortKey): seq<Token>
  {
    [Ident(k.column), Word(match k.direction case Asc => "ASC" case Desc => "DESC")]
  }

  function PartTokens(part: string): seq<Token> { [Ident(part)] }

  function NameTokens(name: seq<string>): seq<Token> { Join(Map(PartTokens, name), [Word(".")]) }

  function SourceTokens(s: Source): seq<Token>
  {
    match s case Base(name) => NameTokens(name) case Sub(inner) => [Sym("(")] + SelectTokens(inner) + [Sym(")")]
  }

  function ReplaceTokens(cs: seq<CaseColumn>): seq<Token>
  {
    if cs == [] then [] else [Word("REPLACE"), Sym("(")] + Join(Map(CaseTokens, cs), [Sym(",")]) + [Sym(")")]
  }

  function FilterTokens(ps: seq<Pred>): seq<Token>
  {
    if ps == [] then [] else [Word("WHERE")] + Join(Map(PredTokens, ps), [Word("AND")])
  }

  function OrderTokens(ks: seq<SortKey>): seq<Token>
  {
    if ks == [] then [] else [Word("ORDER"), Word("BY")] + Join(Map(KeyTokens, ks), [Sym(",")])
  }

  function SelectTokens(q: Select): seq<Token>
  {
    [Word("SELECT"), Sym("*")] + ReplaceTokens(q.replace)
    + [Word("FROM")] + SourceTokens(q.source)
    + FilterTokens(q.filters)
    + OrderTokens(q.order)
  }

  // ---- the text reads as the tokens

  /** A keyword between spaces. */
  lemma ReadsKeyword(w: string)
    requires IsWord(w)
    ensures Reads(" " + w, [Word(w)], false)
    ensures Reads(w + " ", [Word(w)], true)
    ensures Reads(" " + w + " ", [Word(w)], true)
  {
    ReadsSpace();
    ReadsWord(w);
    Glue(" ", [], true, w, [Word(w)], false);
    assert [] + [Word(w)] == [Word(w)] == [Word(w)] + [];
    Glue(w, [Word(w)], false, " ", [], true);
    Glue(" " + w, [Word(w)], false, " ", [], true);
  }

  lemma ReadsOperator(c: string)
    requires c in ["=", "<", ">", "<=", ">=", "<>"]
    ensures Reads(" " + c + " ", [Sym(c)], true)
  {
    ReadsSpace();
    if c == "=" {
      ReadsSymbol('=');
      assert ['='] == c;
      ReadsAnywhere(c, [Sym(c)]);
    } else {
      ReadsComparison(c);
    }
    Glue(" ", [], true, c, [Sym(c)], false);
    assert [] + [Sym(c)] == [Sym(c)] == [Sym(c)] + [];
    Glue(" " + c, [Sym(c)], false, " ", [], true);
  }

  lemma ReadsClose(a: string, ta: seq<Token>)
    requires Reads(a, ta, false)
    ensures Reads(a + ")", ta + [Sym(")")], true)
  {
    ReadsSymbol(')');
    Glue(a, ta, false, ")", [Sym(")")], true);
  }

  lemma ReadsComma()
    ensures Reads(", ", [Sym(",")], true)
  {
    ReadsSymbol(',');
    ReadsSpace();
    Glue(",", [Sym(",")], true, " ", [], true);
    assert "," + " " == ", " && [Sym(",")] + [] == [Sym(",")];
  }

  lemma {:induction false} ReadsJoin(texts: seq<string>, tokens: seq<seq<Token>>, sep: string, tsep: seq<Token>)
    requires |texts| == |tokens| > 0
    requires forall i :: 0 <= i < |texts| ==> Reads(texts[i], tokens[i], false)
    requires sep != "" && Break(sep) && Reads(sep, tsep, true)
    ensures Reads(Join(texts, sep), Join(tokens, tsep), false)
  {
    if |texts| > 1 {
      ReadsJoin(texts[1..], tokens[1..], sep, tsep);
      Glue(texts[0], tokens[0], false, sep, tsep, true);
      Glue(texts[0] + sep, tokens[0] + tsep, true, Join(texts[1..], sep), Join(tokens[1..], tsep), false);
    }
  }

  lemma ReadsTagged(tag: string, t: string)
    requires IsWord(tag)
    ensures Reads(tag + " " + QuoteText(t), [Word(tag), Text(t)], false)
  {
    ReadsKeyword(tag);
    ReadsText(t);
    Glue(tag + " ", [Word(tag)], true, QuoteText(t), [Text(t)], false);
    assert [Word(tag)] + [Text(t)] == [Word(tag), Text(t)];
  }

  lemma ScalarWord(v: Scalar)
    requires v.Null? || v.Bool? || v.Int? || v.Float?
    ensures IsWord(ScalarText(v))
  {
    match v
    case Int(i) => IntWord(i);
    case _ =>
  }

  lemma ReadsScalar(v: Scalar)
    ensures Reads(ScalarText(v), ScalarTokens(v), false)
  {
    match v
    case Str(s) => ReadsText(s);
    case Date(s) =>
      ReadsTagged("DATE", s);
      assert "DATE" + " " == "DATE ";
    case Timestamp(s) =>
      ReadsTagged("TIMESTAMP", s);
      assert "TIMESTAMP" + " " == "TIMESTAMP ";
    case _ =>
      ScalarWord(v);
      ReadsWord(ScalarText(v));
  }
}
