/** A recursive-descent parser for the emitted statements, and its round trip with the
    printer. */
module SqlParser {

  import opened Wrappers
  import opened Transform
  import opened SqlAst
  import opened SqlLexer
  import opened Decimal
  import opened SqlPrinter
  import SqlReading
  import Like

  type Parsed<+T> = Option<(T, seq<Token>)>

  /** One or more items; another follows while the next token is `lead`, which `skip` says
      stands between items rather than starting one. */
  function ParseList<X>(parse: seq<Token> -> Parsed<X>, lead: Token, skip: bool, ts: seq<Token>): Parsed<seq<X>>
    decreases |ts|
  {
    match parse(ts)
    case None => None
    case Some((x, rest)) =>
      if |rest| < |ts| && rest != [] && rest[0] == lead then
        match ParseList(parse, lead, skip, if skip then rest[1..] else rest)
        case None => None
        case Some((xs, rest')) => Some(([x] + xs, rest'))
      else Some(([x], rest))
  }

  function ParseScalar(ts: seq<Token>): Parsed<Scalar>
  {
    if ts == [] then None
    else match ts[0]
      case Text(t) => Some((Str(t), ts[1..]))
      case Word(w) =>
        if w == "NULL" then Some((Null, ts[1..]))
        else if w == "TRUE" then Some((Bool(true), ts[1..]))
        else if w == "FALSE" then Some((Bool(false), ts[1..]))
        else if w == "DATE" && |ts| > 1 && ts[1].Text? then Some((Date(ts[1].text), ts[2..]))
        else if w == "TIMESTAMP" && |ts| > 1 && ts[1].Text? then Some((Timestamp(ts[1].text), ts[2..]))
        else if IsIntText(w) then Some((Int(IntValue(w)), ts[1..]))
        else if IsFiniteText(w) then Some((Float(w), ts[1..]))
        else None
      case _ => None
  }

  function ParseInt(ts: seq<Token>): Parsed<int>
  {
    if ts != [] && ts[0].Word? && IsIntText(ts[0].word) then Some((IntValue(ts[0].word), ts[1..])) else None
  }

  /** `parsed`, with `mark` after it. */
  function Expect<T>(parsed: Parsed<T>, mark: Token): Parsed<T>
  {
    match parsed
    case Some((x, rest)) => if rest != [] && rest[0] == mark then Some((x, rest[1..])) else None
    case None => None
  }

  function CmpOf(symbol: string): Option<CmpOp>
  {
    if symbol == "=" then Some(Equal) else if symbol == "<>" then Some(Differs)
    else if symbol == "<" then Some(Less) else if symbol == "<=" then Some(AtMost)
    else if symbol == ">" then Some(Greater) else if symbol == ">=" then Some(AtLeast) else None
  }

  predicate Next(ts: seq<Token>, t: Token) { ts != [] && ts[0] == t }

  predicate Next2(ts: seq<Token>, t: Token, u: Token) { |ts| >= 2 && ts[0] == t && ts[1] == u }

  predicate Next3(ts: seq<Token>, t: Token, u: Token, v: Token) { Next2(ts, t, u) && |ts| >= 3 && ts[2] == v }

  /** What follows `( column cmp`. */
  function ParseCmp(c: string, cmp: CmpOp, ts: seq<Token>): Parsed<Pred>
  {
    match ParseScalar(ts)
    case None => None
    case Some((v, rest)) =>
      if Next(rest, Sym(")")) then Some((Cmp(c, cmp, v), rest[1..]))
      else if cmp == Greater && Next3(rest, Word("AND"), Ident(c), Sym("<")) then
        match Expect(ParseScalar(rest[3..]), Sym(")"))
        case None => None
        case Some((hi, rest')) => Some((StrictlyWithin(c, v, hi), rest'))
      else None
  }

  function ParseBetween(c: string, ts: seq<Token>): Parsed<Pred>
  {
    match Expect(ParseScalar(ts), Word("AND"))
    case None => None
    case Some((lo, rest)) =>
      match Expect(ParseScalar(rest), Sym(")"))
      case None => None
      case Some((hi, rest')) => Some((Within(c, lo, hi), rest'))
  }

  function ParseLike(c: string, negated: bool, ts: seq<Token>): Parsed<Pred>
  {
    if ts != [] && ts[0].Text? && Next3(ts[1..], Word("ESCAPE"), Text("\\"), Sym(")"))
    then Some((LikeText(c, negated, ts[0].text), ts[4..]))
    else None
  }

  /** What follows `( column`. */
  function ParseTest(c: string, ts: seq<Token>): Parsed<Pred>
  {
    if ts != [] && ts[0].Sym? && CmpOf(ts[0].symbol).Some? then ParseCmp(c, CmpOf(ts[0].symbol).value, ts[1..])
    else if Next3(ts, Word("IS"), Word("NULL"), Sym(")")) then Some((NullTest(c, false), ts[3..]))
    else if Next2(ts, Word("IS"), Word("NOT")) && Next2(ts[2..], Word("NULL"), Sym(")"))
    then Some((NullTest(c, true), ts[4..]))
    else if Next(ts, Word("BETWEEN")) then ParseBetween(c, ts[1..])
    else if Next(ts, Word("LIKE")) then ParseLike(c, false, ts[1..])
    else if Next2(ts, Word("NOT"), Word("LIKE")) then ParseLike(c, true, ts[2..])
    else if Next2(ts, Word("IN"), Sym("(")) then
      match Expect(Expect(ParseList(ParseScalar, Sym(","), true, ts[2..]), Sym(")")), Sym(")"))
      case None => None
      case Some((lits, rest)) => Some((InList(c, lits), rest))
    else None
  }

  function ParsePred(ts: seq<Token>): Parsed<Pred>
  {
    if Next2(ts, Word("regexp_matches"), Sym("(")) then
      if |ts| >= 6 && ts[2].Ident? && ts[3] == Sym(",") && ts[4].Text? && ts[5] == Sym(")")
      then Some((Regexp(ts[2].name, ts[4].text), ts[6..]))
      else None
    else if Next2(ts, Word(ROWID_COL), Word("NOT")) && Next2(ts[2..], Word("IN"), Sym("(")) then
      match Expect(ParseList(ParseInt, Sym(","), true, ts[4..]), Sym(")"))
      case None => None
      case Some((ids, rest)) => Some((RowidNotIn(ids), rest))
    else if |ts| >= 2 && ts[0] == Sym("(") && ts[1].Ident? then ParseTest(ts[1].name, ts[2..])
    else None
  }

  function ParseWhen(ts: seq<Token>): Parsed<When>
  {
    if Next3(ts, Word("WHEN"), Word(ROWID_COL), Sym("=")) then
      match Expect(ParseInt(ts[3..]), Word("THEN"))
      case None => None
      case Some((id, rest)) =>
        match ParseScalar(rest) case None => None case Some((v, rest')) => Some((When(id, v), rest'))
    else None
  }

  function ParseCase(ts: seq<Token>): Parsed<CaseColumn>
  {
    if Next(ts, Word("CASE")) then
      match Expect(ParseList(ParseWhen, Word("WHEN"), false, ts[1..]), Word("ELSE"))
      case None => None
      case Some((whens, rest)) =>
        if |rest| >= 4 && rest[0].Ident? && rest[1] == Word("END") && rest[2] == Word("AS") && rest[3] == rest[0]
        then Some((CaseColumn(rest[0].name, whens), rest[4..]))
        else None
    else None
  }

  function ParseKey(ts: seq<Token>): Parsed<SortKey>
  {
    if |ts| >= 2 && ts[0].Ident? && ts[1] == Word("ASC") then Some((SortKey(ts[0].name, Asc), ts[2..]))
    else if |ts| >= 2 && ts[0].Ident? && ts[1] == Word("DESC") then Some((SortKey(ts[0].name, Desc), ts[2..]))
    else None
  }

  function ParsePart(ts: seq<Token>): Parsed<string>
  {
    if ts != [] && ts[0].Ident? then Some((ts[0].name, ts[1..])) else None
  }

  function ParseReplace(ts: seq<Token>): Parsed<seq<CaseColumn>>
  {
    if Next2(ts, Word("REPLACE"), Sym("("))
    then Expect(ParseList(ParseCase, Sym(","), true, ts[2..]), Sym(")"))
    else Some(([], ts))
  }

  function ParseFilters(ts: seq<Token>): Parsed<seq<Pred>>
  {
    if Next(ts, Word("WHERE")) then ParseList(ParsePred, Word("AND"), true, ts[1..]) else Some(([], ts))
  }

  function ParseOrder(ts: seq<Token>): Parsed<seq<SortKey>>
  {
    if Next2(ts, Word("ORDER"), Word("BY")) then ParseList(ParseKey, Sym(","), true, ts[2..]) else Some(([], ts))
  }

  function ParseSource(ts: seq<Token>): Parsed<Source>
    decreases |ts|, 0
  {
    if Next(ts, Sym("(")) then
      match Expect(ParseSelect(ts[1..]), Sym(")"))
      case None => None
      case Some((inner, rest)) => Some((Sub(inner), rest))
    else
      match ParseList(ParsePart, Word("."), true, ts)
      case None => None
      case Some((name, rest)) => Some((Base(name), rest))
  }

  function ParseSelect(ts: seq<Token>): Parsed<Select>
    decreases |ts|, 1
  {
    if !Next2(ts, Word("SELECT"), Sym("*")) then None
    else
      match Expect(ParseReplace(ts[2..]), Word("FROM"))
      case None => None
      case Some((replace, r1)) =>
        if |r1| >= |ts| then None else ParseFrom(replace, r1)
  }

  /** The clauses after FROM. */
  function ParseFrom(replace: seq<CaseColumn>, ts: seq<Token>): Parsed<Select>
    decreases |ts|, 1
  {
    match ParseSource(ts)
    case None => None
    case Some((source, r2)) =>
      match ParseFilters(r2)
      case None => None
      case Some((filters, r3)) =>
        match ParseOrder(r3)
        case None => None
        case Some((order, r4)) => Some((Select(replace, source, filters, order), r4))
  }

  /** The statement a text is, if it is one. */
  function ParseSql(s: string): Option<Select>
  {
    match Lex(s)
    case None => None
    case Some(ts) =>
      match ParseSelect(ts)
      case Some((q, rest)) => if rest == [] then Some(q) else None
      case None => None
  }

  // ---- round trip

  function Just<X>(ok: bool, x: X, rest: seq<Token>): Parsed<X> { if ok then Some((x, rest)) else None }

  /** `parse` undoes `tokens` on `x`, or refuses it if it is not `ok`, whatever follows. */
  ghost predicate Undoes<X>(parse: seq<Token> -> Parsed<X>, tokens: X -> seq<Token>, ok: X -> bool, x: X)
  {
    forall rest: seq<Token> {:trigger parse(tokens(x) + rest)} :: parse(tokens(x) + rest) == Just(ok(x), x, rest)
  }

  function Fine<X>(x: X): bool { true }

  ghost predicate All<X>(ok: X -> bool, xs: seq<X>) { forall x <- xs :: ok(x) }

  lemma AllSplit<X>(ok: X -> bool, xs: seq<X>)
    requires xs != []
    ensures All(ok, xs) <==> ok(xs[0]) && All(ok, xs[1..])
  {
    assert xs == [xs[0]] + xs[1..];
  }

  /** One item, a mark and the items after it. */
  lemma ListStep<X>(parse: seq<Token> -> Parsed<X>, lead: Token, skip: bool, ts: seq<Token>,
                    x: X, more: seq<Token>, ok: bool, xs: seq<X>, rest: seq<Token>)
    requires var after := if skip then [lead] + more else more;
             parse(ts) == Some((x, after)) && after != [] && after[0] == lead && |after| < |ts|
    requires ParseList(parse, lead, skip, more) == Just(ok, xs, rest)
    ensures ParseList(parse, lead, skip, ts) == Just(ok, [x] + xs, rest)
  {
    assert ([lead] + more)[1..] == more;
  }

  lemma JoinSplit<X>(tokens: X -> seq<Token>, xs: seq<X>, sep: seq<Token>, rest: seq<Token>)
    requires |xs| > 1
    ensures Join(Map(tokens, xs), sep) + rest == tokens(xs[0]) + (sep + (Join(Map(tokens, xs[1..]), sep) + rest))
    ensures tokens(xs[1]) <= Join(Map(tokens, xs[1..]), sep)
  {
    assert Map(tokens, xs)[1..] == Map(tokens, xs[1..]);
    assert Map(tokens, xs[1..])[0] == tokens(xs[1]);
  }

  lemma {:induction false} ParseListOf<X>(parse: seq<Token> -> Parsed<X>, tokens: X -> seq<Token>, ok: X -> bool,
                                          lead: Token, skip: bool, xs: seq<X>, rest: seq<Token>)
    requires xs != []
    requires forall x <- xs :: tokens(x) != [] && Undoes(parse, tokens, ok, x)
    requires skip || forall x <- xs :: tokens(x)[0] == lead
    requires rest == [] || rest[0] != lead
    ensures ParseList(parse, lead, skip, Join(Map(tokens, xs), if skip then [lead] else []) + rest)
         == Just(All(ok, xs), xs, rest)
  {
    var sep := if skip then [lead] else [];
    assert xs[0] in xs;
    AllSplit(ok, xs);
    if |xs| == 1 {
      assert Join(Map(tokens, xs), sep) == tokens(xs[0]) && xs == [xs[0]];
      assert parse(tokens(xs[0]) + rest) == Just(ok(xs[0]), xs[0], rest);
    } else {
      var more := Join(Map(tokens, xs[1..]), sep) + rest;
      ParseListOf(parse, tokens, ok, lead, skip, xs[1..], rest);
      JoinSplit(tokens, xs, sep, rest);
      assert xs[1] in xs && more[0] == tokens(xs[1])[0];
      assert parse(tokens(xs[0]) + (sep + more)) == Just(ok(xs[0]), xs[0], sep + more);
      assert !skip ==> sep + more == more;
      if ok(xs[0]) {
        ListStep(parse, lead, skip, tokens(xs[0]) + (sep + more), xs[0], more, All(ok, xs[1..]), xs[1..], rest);
        assert [xs[0]] + xs[1..] == xs;
      }
    }
  }

  lemma UndoesScalar(v: Scalar)
    ensures Undoes(ParseScalar, ScalarTokens, PlainScalar, v)
  {
    forall rest: seq<Token>
      ensures ParseScalar(ScalarTokens(v) + rest) == Just(PlainScalar(v), v, rest)
    {
      ParseScalarOf(v, rest);
    }
  }

  lemma ParseScalarOf(v: Scalar, rest: seq<Token>)
    ensures ParseScalar(ScalarTokens(v) + rest) == Just(PlainScalar(v), v, rest)
  {
    var ts := ScalarTokens(v) + rest;
    assert ts[|ScalarTokens(v)|..] == rest;
    match v
    case Int(i) => IntWord(i);
    case Float(text) => FloatIsNoInt(text);
    case _ =>
  }

  lemma NotFiniteIsNoLiteral(s: string)
    requires s in NOT_FINITE
    ensures !IsIntText(s) && !IsFiniteText(s) && s !in ["NULL", "TRUE", "FALSE", "DATE", "TIMESTAMP"]
  {
    assert s in ["inf", "-inf", "NaN"] && !Digit(s[|s| - 1]);
    assert s[0] == '-' ==> s[1..][|s| - 2] == s[|s| - 1];
  }

  lemma FloatIsNoInt(s: FloatText)
    ensures !IsIntText(s) && s !in ["NULL", "TRUE", "FALSE", "DATE", "TIMESTAMP"]
  {
    if s in NOT_FINITE {
      NotFiniteIsNoLiteral(s);
    } else if '.' in s {
      var i :| 0 <= i < |s| && s[i] == '.';
      if i > 0 {
        assert s[1..][i - 1] == '.';
      }
    } else {
      var i :| 0 <= i < |s| && s[i] == 'e';
      if i > 0 {
        assert s[1..][i - 1] == 'e';
      }
    }
  }

  lemma UndoesInt(i: int)
    ensures Undoes(ParseInt, IntTokens, Fine, i)
  {
    forall rest: seq<Token>
      ensures ParseInt(IntTokens(i) + rest) == Some((i, rest))
    {
      IntWord(i);
      assert (IntTokens(i) + rest)[1..] == rest;
    }
  }

  lemma ParseOpen(c: string, tail: seq<Token>)
    ensures ParsePred([Sym("("), Ident(c)] + tail) == ParseTest(c, tail)
  {
    assert ([Sym("("), Ident(c)] + tail)[2..] == tail;
  }

  lemma ParseOperator(c: string, cmp: CmpOp, tail: seq<Token>)
    ensures ParseTest(c, [Sym(CmpText(cmp))] + tail) == ParseCmp(c, cmp, tail)
  {
    assert ([Sym(CmpText(cmp))] + tail)[1..] == tail;
  }

  /** A closing mark after a literal. */
  lemma ExpectOf(v: Scalar, mark: Token, rest: seq<Token>)
    ensures Expect(ParseScalar(ScalarTokens(v) + ([mark] + rest)), mark) == Just(PlainScalar(v), v, rest)
  {
    ParseScalarOf(v, [mark] + rest);
    assert ([mark] + rest)[1..] == rest;
  }

  lemma Regroup<T>(a: seq<T>, b: seq<T>, c: seq<T>, d: seq<T>, e: seq<T>, f: seq<T>, g: seq<T>)
    ensures a + b + c + d + e + f + g == a + (b + (c + (d + (e + (f + g)))))
  {
  }

  lemma Nest<T>(a: seq<T>, b: seq<T>, c: seq<T>, d: seq<T>)
    ensures a + b + c + d == a + (b + (c + d))
  {
  }

  lemma CmpTokens(c: string, cmp: CmpOp, lit: Scalar, rest: seq<Token>)
    ensures PredTokens(Cmp(c, cmp, lit)) + rest
         == [Sym("("), Ident(c)] + ([Sym(CmpText(cmp))] + (ScalarTokens(lit) + ([Sym(")")] + rest)))
  {
    assert [Sym("("), Ident(c)] + [Sym(CmpText(cmp))] == [Sym("("), Ident(c), Sym(CmpText(cmp))];
    Nest([Sym("("), Ident(c), Sym(CmpText(cmp))], ScalarTokens(lit), [Sym(")")], rest);
  }

  lemma ParseCmpTail(c: string, cmp: CmpOp, lit: Scalar, rest: seq<Token>)
    ensures ParseCmp(c, cmp, ScalarTokens(lit) + ([Sym(")")] + rest)) == Just(PlainScalar(lit), Cmp(c, cmp, lit), rest)
  {
    ParseScalarOf(lit, [Sym(")")] + rest);
    assert ([Sym(")")] + rest)[1..] == rest;
  }

  lemma ParseCmpOf(c: string, cmp: CmpOp, lit: Scalar, rest: seq<Token>)
    ensures ParsePred(PredTokens(Cmp(c, cmp, lit)) + rest) == Just(PlainPred(Cmp(c, cmp, lit)), Cmp(c, cmp, lit), rest)
  {
    var tail := ScalarTokens(lit) + ([Sym(")")] + rest);
    CmpTokens(c, cmp, lit, rest);
    ParseCmpTail(c, cmp, lit, rest);
    ParseOperator(c, cmp, tail);
    ParseOpen(c, [Sym(CmpText(cmp))] + tail);
  }

  lemma InsideTokens(c: string, lo: Scalar, hi: Scalar, rest: seq<Token>)
    ensures PredTokens(StrictlyWithin(c, lo, hi)) + rest
         == [Sym("("), Ident(c)] + ([Sym(CmpText(Greater))] + (ScalarTokens(lo) +
              ([Word("AND"), Ident(c), Sym("<")] + (ScalarTokens(hi) + ([Sym(")")] + rest)))))
  {
    Regroup([Sym("("), Ident(c)], [Sym(">")], ScalarTokens(lo), [Word("AND"), Ident(c), Sym("<")],
            ScalarTokens(hi), [Sym(")")], rest);
    assert [Sym("("), Ident(c)] + [Sym(">")] == [Sym("("), Ident(c), Sym(">")];
  }

  lemma ParseInsideTail(c: string, lo: Scalar, hi: Scalar, rest: seq<Token>)
    ensures ParseCmp(c, Greater,
                     ScalarTokens(lo) + ([Word("AND"), Ident(c), Sym("<")] + (ScalarTokens(hi) + ([Sym(")")] + rest))))
         == Just(PlainScalar(lo) && PlainScalar(hi), StrictlyWithin(c, lo, hi), rest)
  {
    var high := ScalarTokens(hi) + ([Sym(")")] + rest);
    var mid := [Word("AND"), Ident(c), Sym("<")] + high;
    ParseScalarOf(lo, mid);
    assert mid[3..] == high && mid[0] == Word("AND");
    ExpectOf(hi, Sym(")"), rest);
  }

  lemma ParseInsideOf(c: string, lo: Scalar, hi: Scalar, rest: seq<Token>)
    ensures var p := StrictlyWithin(c, lo, hi); ParsePred(PredTokens(p) + rest) == Just(PlainPred(p), p, rest)
  {
    var tail := ScalarTokens(lo) + ([Word("AND"), Ident(c), Sym("<")] + (ScalarTokens(hi) + ([Sym(")")] + rest)));
    InsideTokens(c, lo, hi, rest);
    ParseInsideTail(c, lo, hi, rest);
    ParseOperator(c, Greater, tail);
    ParseOpen(c, [Sym(CmpText(Greater))] + tail);
  }

  lemma BetweenTokens(c: string, lo: Scalar, hi: Scalar, rest: seq<Token>)
    ensures PredTokens(Within(c, lo, hi)) + rest
         == [Sym("("), Ident(c)]
             + ([Word("BETWEEN")] + (ScalarTokens(lo) + ([Word("AND")] + (ScalarTokens(hi) + ([Sym(")")] + rest)))))
  {
    Regroup([Sym("("), Ident(c)], [Word("BETWEEN")], ScalarTokens(lo), [Word("AND")],
            ScalarTokens(hi), [Sym(")")], rest);
    assert [Sym("("), Ident(c)] + [Word("BETWEEN")] == [Sym("("), Ident(c), Word("BETWEEN")];
  }

  lemma ParseBetweenTail(c: string, lo: Scalar, hi: Scalar, rest: seq<Token>)
    ensures ParseBetween(c, ScalarTokens(lo) + ([Word("AND")] + (ScalarTokens(hi) + ([Sym(")")] + rest))))
         == Just(PlainScalar(lo) && PlainScalar(hi), Within(c, lo, hi), rest)
  {
    ExpectOf(lo, Word("AND"), ScalarTokens(hi) + ([Sym(")")] + rest));
    ExpectOf(hi, Sym(")"), rest);
  }

  lemma BetweenTest(c: string, tail: seq<Token>)
    ensures ParseTest(c, [Word("BETWEEN")] + tail) == ParseBetween(c, tail)
  {
    assert ([Word("BETWEEN")] + tail)[1..] == tail;
  }

  lemma ParseBetweenOf(c: string, lo: Scalar, hi: Scalar, rest: seq<Token>)
    ensures var p := Within(c, lo, hi); ParsePred(PredTokens(p) + rest) == Just(PlainPred(p), p, rest)
  {
    var tail := ScalarTokens(lo) + ([Word("AND")] + (ScalarTokens(hi) + ([Sym(")")] + rest)));
    BetweenTokens(c, lo, hi, rest);
    ParseBetweenTail(c, lo, hi, rest);
    BetweenTest(c, tail);
    ParseOpen(c, [Word("BETWEEN")] + tail);
  }

  lemma ParseNullTestOf(c: string, negated: bool, rest: seq<Token>)
    ensures ParsePred(PredTokens(NullTest(c, negated)) + rest) == Some((NullTest(c, negated), rest))
  {
    var test := if negated then [Word("IS"), Word("NOT"), Word("NULL"), Sym(")")]
                else [Word("IS"), Word("NULL"), Sym(")")];
    assert PredTokens(NullTest(c, negated)) + rest == [Sym("("), Ident(c)] + (test + rest);
    ParseOpen(c, test + rest);
    assert (test + rest)[|test|..] == rest;
  }

  lemma LikeTail(c: string, negated: bool, pattern: string, rest: seq<Token>)
    ensures ParseLike(c, negated, [Text(pattern)] + ([Word("ESCAPE"), Text("\\"), Sym(")")] + rest))
         == Some((LikeText(c, negated, pattern), rest))
  {
    var escape := [Word("ESCAPE"), Text("\\"), Sym(")")];
    var tail := [Text(pattern)] + (escape + rest);
    assert tail[1..] == escape + rest && tail[4..] == rest;
  }

  lemma LikeTest(c: string, negated: bool, tail: seq<Token>)
    ensures ParseTest(c, (if negated then [Word("NOT"), Word("LIKE")] else [Word("LIKE")]) + tail)
         == ParseLike(c, negated, tail)
  {
    var op := if negated then [Word("NOT"), Word("LIKE")] else [Word("LIKE")];
    assert (op + tail)[|op|..] == tail;
  }

  lemma ParseLikeOf(c: string, negated: bool, pattern: string, rest: seq<Token>)
    ensures ParsePred(PredTokens(LikeText(c, negated, pattern)) + rest) == Some((LikeText(c, negated, pattern), rest))
  {
    var op := if negated then [Word("NOT"), Word("LIKE")] else [Word("LIKE")];
    var escape := [Word("ESCAPE"), Text("\\"), Sym(")")];
    var tail := [Text(pattern)] + (escape + rest);
    assert PredTokens(LikeText(c, negated, pattern)) + rest == [Sym("("), Ident(c)] + (op + tail) by {
      assert PredTokens(LikeText(c, negated, pattern)) == [Sym("("), Ident(c)] + op + [Text(pattern)] + escape;
    }
    LikeTail(c, negated, pattern, rest);
    LikeTest(c, negated, tail);
    ParseOpen(c, op + tail);
  }

  lemma ExpectMark<T>(parsed: Parsed<T>, ok: bool, x: T, mark: Token, rest: seq<Token>)
    requires parsed == Just(ok, x, [mark] + rest)
    ensures Expect(parsed, mark) == Just(ok, x, rest)
  {
    assert ([mark] + rest)[1..] == rest;
  }

  lemma InHead(c: string, ts: seq<Token>)
    ensures ParseTest(c, [Word("IN"), Sym("(")] + ts)
         == match Expect(Expect(ParseList(ParseScalar, Sym(","), true, ts), Sym(")")), Sym(")"))
            case None => None
            case Some((lits, rest)) => Some((InList(c, lits), rest))
  {
    assert ([Word("IN"), Sym("(")] + ts)[2..] == ts;
  }

  lemma InTest(c: string, ts: seq<Token>, ok: bool, lits: seq<Scalar>, rest: seq<Token>)
    requires ParseList(ParseScalar, Sym(","), true, ts) == Just(ok, lits, [Sym(")"), Sym(")")] + rest)
    ensures ParseTest(c, [Word("IN"), Sym("(")] + ts) == Just(ok, InList(c, lits), rest)
  {
    var list := ParseList(ParseScalar, Sym(","), true, ts);
    assert [Sym(")"), Sym(")")] + rest == [Sym(")")] + ([Sym(")")] + rest);
    ExpectMark(list, ok, lits, Sym(")"), [Sym(")")] + rest);
    ExpectMark(Expect(list, Sym(")")), ok, lits, Sym(")"), rest);
    InHead(c, ts);
  }

  lemma ParseInOf(c: string, lits: seq<Scalar>, rest: seq<Token>)
    requires lits != []
    ensures ParsePred(PredTokens(InList(c, lits)) + rest) == Just(PlainPred(InList(c, lits)), InList(c, lits), rest)
  {
    var last := [Sym(")"), Sym(")")] + rest;
    var list := Join(Map(ScalarTokens, lits), [Sym(",")]);
    assert PredTokens(InList(c, lits)) + rest == [Sym("("), Ident(c)] + ([Word("IN"), Sym("(")] + (list + last));
    ParseScalarsOf(lits, last);
    InTest(c, list + last, All(PlainScalar, lits), lits, rest);
    ParseOpen(c, [Word("IN"), Sym("(")] + (list + last));
  }

  lemma ParseScalarsOf(lits: seq<Scalar>, rest: seq<Token>)
    requires lits != []
    requires rest != [] && rest[0] == Sym(")")
    ensures ParseList(ParseScalar, Sym(","), true, Join(Map(ScalarTokens, lits), [Sym(",")]) + rest)
         == Just(All(PlainScalar, lits), lits, rest)
  {
    forall v <- lits
      ensures ScalarTokens(v) != [] && Undoes(ParseScalar, ScalarTokens, PlainScalar, v)
    {
      UndoesScalar(v);
    }
    ParseListOf(ParseScalar, ScalarTokens, PlainScalar, Sym(","), true, lits, rest);
  }

  lemma ParseIdsOf(ids: seq<int>, rest: seq<Token>)
    requires ids != []
    requires rest != [] && rest[0] == Sym(")")
    ensures ParseList(ParseInt, Sym(","), true, Join(Map(IntTokens, ids), [Sym(",")]) + rest) == Some((ids, rest))
  {
    forall i <- ids
      ensures IntTokens(i) != [] && Undoes(ParseInt, IntTokens, Fine, i)
    {
      UndoesInt(i);
    }
    ParseListOf(ParseInt, IntTokens, Fine, Sym(","), true, ids, rest);
  }

  lemma NotInHead(ts: seq<Token>)
    ensures ParsePred([Word(ROWID_COL), Word("NOT"), Word("IN"), Sym("(")] + ts)
         == match Expect(ParseList(ParseInt, Sym(","), true, ts), Sym(")"))
            case None => None
            case Some((ids, rest)) => Some((RowidNotIn(ids), rest))
  {
    var all := [Word(ROWID_COL), Word("NOT"), Word("IN"), Sym("(")] + ts;
    assert all[0].word != "regexp_matches";
    assert Next2(all, Word(ROWID_COL), Word("NOT")) && Next2(all[2..], Word("IN"), Sym("(")) && all[4..] == ts;
  }

  lemma NotInTest(ts: seq<Token>, ids: seq<int>, rest: seq<Token>)
    requires ParseList(ParseInt, Sym(","), true, ts) == Some((ids, [Sym(")")] + rest))
    ensures ParsePred([Word(ROWID_COL), Word("NOT"), Word("IN"), Sym("(")] + ts) == Some((RowidNotIn(ids), rest))
  {
    ExpectMark(ParseList(ParseInt, Sym(","), true, ts), true, ids, Sym(")"), rest);
    NotInHead(ts);
  }

  lemma ParseNotInOf(ids: seq<int>, rest: seq<Token>)
    requires ids != []
    ensures ParsePred(PredTokens(RowidNotIn(ids)) + rest) == Some((RowidNotIn(ids), rest))
  {
    var last := [Sym(")")] + rest;
    var list := Join(Map(IntTokens, ids), [Sym(",")]);
    assert PredTokens(RowidNotIn(ids)) + rest == [Word(ROWID_COL), Word("NOT"), Word("IN"), Sym("(")] + (list + last);
    ParseIdsOf(ids, last);
    NotInTest(list + last, ids, rest);
  }

  lemma UndoesPred(p: Pred)
    requires WholePred(p)
    ensures Undoes(ParsePred, PredTokens, PlainPred, p) && PredTokens(p) != []
  {
    forall rest: seq<Token>
      ensures ParsePred(PredTokens(p) + rest) == Just(PlainPred(p), p, rest)
    {
      match p
      case Cmp(c, cmp, lit) => ParseCmpOf(c, cmp, lit, rest);
      case NullTest(c, negated) => ParseNullTestOf(c, negated, rest);
      case Within(c, lo, hi) => ParseBetweenOf(c, lo, hi, rest);
      case StrictlyWithin(c, lo, hi) => ParseInsideOf(c, lo, hi, rest);
      case LikeText(c, negated, pattern) => ParseLikeOf(c, negated, pattern, rest);
      case InList(c, lits) => ParseInOf(c, lits, rest);
      case Regexp(_, _) => assert (PredTokens(p) + rest)[6..] == rest;
      case RowidNotIn(ids) => ParseNotInOf(ids, rest);
    }
  }

  lemma WhenTest(ts: seq<Token>, w: When, mid: seq<Token>, rest: seq<Token>)
    requires ParseInt(ts) == Some((w.id, [Word("THEN")] + mid))
    requires ParseScalar(mid) == Just(PlainScalar(w.lit), w.lit, rest)
    ensures ParseWhen([Word("WHEN"), Word(ROWID_COL), Sym("=")] + ts) == Just(PlainWhen(w), w, rest)
  {
    assert ([Word("WHEN"), Word(ROWID_COL), Sym("=")] + ts)[3..] == ts;
    ExpectMark(ParseInt(ts), true, w.id, Word("THEN"), mid);
  }

  lemma UndoesWhen(w: When)
    ensures Undoes(ParseWhen, WhenTokens, PlainWhen, w)
  {
    forall rest: seq<Token>
      ensures ParseWhen(WhenTokens(w) + rest) == Just(PlainWhen(w), w, rest)
    {
      var mid := ScalarTokens(w.lit) + rest;
      var ts := IntTokens(w.id) + ([Word("THEN")] + mid);
      assert WhenTokens(w) + rest == [Word("WHEN"), Word(ROWID_COL), Sym("=")] + ts;
      UndoesInt(w.id);
      assert ParseInt(ts) == Some((w.id, [Word("THEN")] + mid));
      ParseScalarOf(w.lit, rest);
      WhenTest(ts, w, mid, rest);
    }
  }

  lemma ParseWhensOf(whens: seq<When>, rest: seq<Token>)
    requires whens != []
    requires rest != [] && rest[0] == Word("ELSE")
    ensures ParseList(ParseWhen, Word("WHEN"), false, Join(Map(WhenTokens, whens), []) + rest)
         == Just(All(PlainWhen, whens), whens, rest)
  {
    forall w <- whens
      ensures WhenTokens(w) != [] && WhenTokens(w)[0] == Word("WHEN") && Undoes(ParseWhen, WhenTokens, PlainWhen, w)
    {
      UndoesWhen(w);
    }
    ParseListOf(ParseWhen, WhenTokens, PlainWhen, Word("WHEN"), false, whens, rest);
  }

  lemma CaseTest(ts: seq<Token>, c: CaseColumn, rest: seq<Token>)
    requires ParseList(ParseWhen, Word("WHEN"), false, ts)
          == Just(PlainCase(c), c.whens,
                  [Word("ELSE")] + ([Ident(c.column), Word("END"), Word("AS"), Ident(c.column)] + rest))
    ensures ParseCase([Word("CASE")] + ts) == Just(PlainCase(c), c, rest)
  {
    var tail := [Ident(c.column), Word("END"), Word("AS"), Ident(c.column)] + rest;
    assert ([Word("CASE")] + ts)[1..] == ts;
    ExpectMark(ParseList(ParseWhen, Word("WHEN"), false, ts), PlainCase(c), c.whens, Word("ELSE"), tail);
    assert tail[4..] == rest;
  }

  lemma UndoesCase(c: CaseColumn)
    requires WholeCase(c)
    ensures Undoes(ParseCase, CaseTokens, PlainCase, c) && CaseTokens(c) != []
  {
    forall rest: seq<Token>
      ensures ParseCase(CaseTokens(c) + rest) == Just(PlainCase(c), c, rest)
    {
      var whens := Join(Map(WhenTokens, c.whens), []);
      var after := [Word("ELSE")] + ([Ident(c.column), Word("END"), Word("AS"), Ident(c.column)] + rest);
      assert CaseTokens(c) + rest == [Word("CASE")] + (whens + after);
      ParseWhensOf(c.whens, after);
      CaseTest(whens + after, c, rest);
    }
  }

  lemma UndoesKey(k: SortKey)
    ensures Undoes(ParseKey, KeyTokens, Fine, k)
  {
    forall rest: seq<Token>
      ensures ParseKey(KeyTokens(k) + rest) == Some((k, rest))
    {
      assert (KeyTokens(k) + rest)[2..] == rest;
    }
  }

  lemma UndoesPart(part: string)
    ensures Undoes(ParsePart, PartTokens, Fine, part)
  {
    forall rest: seq<Token>
      ensures ParsePart(PartTokens(part) + rest) == Some((part, rest))
    {
      assert (PartTokens(part) + rest)[1..] == rest;
    }
  }

  lemma ParseCasesOf(cs: seq<CaseColumn>, rest: seq<Token>)
    requires cs != [] && forall c <- cs :: WholeCase(c)
    requires rest != [] && rest[0] == Sym(")")
    ensures ParseList(ParseCase, Sym(","), true, Join(Map(CaseTokens, cs), [Sym(",")]) + rest)
         == Just(All(PlainCase, cs), cs, rest)
  {
    forall c <- cs
      ensures CaseTokens(c) != [] && Undoes(ParseCase, CaseTokens, PlainCase, c)
    {
      UndoesCase(c);
    }
    ParseListOf(ParseCase, CaseTokens, PlainCase, Sym(","), true, cs, rest);
  }

  lemma ReplaceTest(ts: seq<Token>, ok: bool, cs: seq<CaseColumn>, rest: seq<Token>)
    requires ParseList(ParseCase, Sym(","), true, ts) == Just(ok, cs, [Sym(")")] + rest)
    ensures ParseReplace([Word("REPLACE"), Sym("(")] + ts) == Just(ok, cs, rest)
  {
    assert ([Word("REPLACE"), Sym("(")] + ts)[2..] == ts;
    ExpectMark(ParseList(ParseCase, Sym(","), true, ts), ok, cs, Sym(")"), rest);
  }

  lemma ReplaceSplit(cs: seq<CaseColumn>, rest: seq<Token>)
    ensures ReplaceTokens(cs) + rest
         == if cs == [] then rest
            else [Word("REPLACE"), Sym("(")] + (Join(Map(CaseTokens, cs), [Sym(",")]) + ([Sym(")")] + rest))
  {
    if cs == [] {
      assert [] + rest == rest;
    } else {
      Nest([Word("REPLACE"), Sym("(")], Join(Map(CaseTokens, cs), [Sym(",")]), [Sym(")")], rest);
    }
  }

  lemma ParseReplaceOf(cs: seq<CaseColumn>, rest: seq<Token>)
    requires forall c <- cs :: WholeCase(c)
    requires rest != [] && rest[0] == Word("FROM")
    ensures ParseReplace(ReplaceTokens(cs) + rest) == Just(All(PlainCase, cs), cs, rest)
  {
    ReplaceSplit(cs, rest);
    if cs != [] {
      var last := [Sym(")")] + rest;
      ParseCasesOf(cs, last);
      ReplaceTest(Join(Map(CaseTokens, cs), [Sym(",")]) + last, All(PlainCase, cs), cs, rest);
    }
  }

  lemma ParsePredsOf(ps: seq<Pred>, rest: seq<Token>)
    requires ps != [] && forall p <- ps :: WholePred(p)
    requires rest == [] || rest[0] != Word("AND")
    ensures ParseList(ParsePred, Word("AND"), true, Join(Map(PredTokens, ps), [Word("AND")]) + rest)
         == Just(All(PlainPred, ps), ps, rest)
  {
    forall p <- ps
      ensures PredTokens(p) != [] && Undoes(ParsePred, PredTokens, PlainPred, p)
    {
      UndoesPred(p);
    }
    ParseListOf(ParsePred, PredTokens, PlainPred, Word("AND"), true, ps, rest);
  }

  lemma ParseKeysOf(ks: seq<SortKey>, rest: seq<Token>)
    requires ks != []
    requires rest == [] || rest[0] == Sym(")")
    ensures ParseList(ParseKey, Sym(","), true, Join(Map(KeyTokens, ks), [Sym(",")]) + rest) == Some((ks, rest))
  {
    forall k <- ks
      ensures KeyTokens(k) != [] && Undoes(ParseKey, KeyTokens, Fine, k)
    {
      UndoesKey(k);
    }
    ParseListOf(ParseKey, KeyTokens, Fine, Sym(","), true, ks, rest);
  }

  lemma ParseFiltersOf(ps: seq<Pred>, rest: seq<Token>)
    requires forall p <- ps :: WholePred(p)
    requires rest == [] || rest[0] in [Word("ORDER"), Sym(")")]
    ensures ParseFilters(FilterTokens(ps) + rest) == Just(All(PlainPred, ps), ps, rest)
  {
    if ps == [] {
      assert FilterTokens(ps) + rest == rest;
    } else {
      ParsePredsOf(ps, rest);
      var list := Join(Map(PredTokens, ps), [Word("AND")]) + rest;
      assert FilterTokens(ps) + rest == [Word("WHERE")] + list;
      assert ([Word("WHERE")] + list)[1..] == list;
    }
  }

  lemma ParseOrderOf(ks: seq<SortKey>, rest: seq<Token>)
    requires rest == [] || rest[0] == Sym(")")
    ensures ParseOrder(OrderTokens(ks) + rest) == Some((ks, rest))
  {
    if ks == [] {
      assert OrderTokens(ks) + rest == rest;
    } else {
      ParseKeysOf(ks, rest);
      var list := Join(Map(KeyTokens, ks), [Sym(",")]) + rest;
      assert OrderTokens(ks) + rest == [Word("ORDER"), Word("BY")] + list;
      assert ([Word("ORDER"), Word("BY")] + list)[2..] == list;
    }
  }

  lemma ParseNameOf(name: seq<string>, rest: seq<Token>)
    requires name != []
    requires rest == [] || rest[0] != Word(".")
    ensures ParseList(ParsePart, Word("."), true, NameTokens(name) + rest) == Some((name, rest))
    ensures NameTokens(name) != [] && NameTokens(name)[0] == Ident(name[0])
  {
    forall part <- name
      ensures PartTokens(part) != [] && Undoes(ParsePart, PartTokens, Fine, part)
    {
      UndoesPart(part);
    }
    ParseListOf(ParsePart, PartTokens, Fine, Word("."), true, name, rest);
    assert Map(PartTokens, name)[0] == [Ident(name[0])];
  }

  /** What may follow a source: a clause, a closing parenthesis or the end. */
  predicate AfterSource(rest: seq<Token>) { rest == [] || rest[0] in [Word("WHERE"), Word("ORDER"), Sym(")")] }

  lemma SubqueryTest(ts: seq<Token>, inner: Select, rest: seq<Token>)
    requires ParseSelect(ts) == Just(Plain(inner), inner, [Sym(")")] + rest)
    ensures ParseSource([Sym("(")] + ts) == Just(Plain(inner), Sub(inner), rest)
  {
    assert ([Sym("(")] + ts)[1..] == ts;
    ExpectMark(ParseSelect(ts), Plain(inner), inner, Sym(")"), rest);
  }

  lemma ParseSubquery(inner: Select, rest: seq<Token>)
    requires ParseSelect(SelectTokens(inner) + ([Sym(")")] + rest)) == Just(Plain(inner), inner, [Sym(")")] + rest)
    ensures ParseSource([Sym("(")] + SelectTokens(inner) + [Sym(")")] + rest) == Just(Plain(inner), Sub(inner), rest)
  {
    Nest([Sym("(")], SelectTokens(inner), [Sym(")")], rest);
    SubqueryTest(SelectTokens(inner) + ([Sym(")")] + rest), inner, rest);
  }

  lemma {:induction false} ParseSourceOf(s: Source, rest: seq<Token>)
    requires WholeSource(s)
    requires AfterSource(rest)
    ensures ParseSource(SourceTokens(s) + rest) == Just(PlainSource(s), s, rest)
    decreases s, 1
  {
    match s
    case Base(name) => ParseNameOf(name, rest);
    case Sub(inner) =>
      ParseSelectOf(inner, [Sym(")")] + rest);
      ParseSubquery(inner, rest);
  }

  lemma ParseFromOf(q: Select, r1: seq<Token>, r2: seq<Token>, r3: seq<Token>, r4: seq<Token>)
    requires ParseSource(r1) == Just(PlainSource(q.source), q.source, r2)
    requires ParseFilters(r2) == Just(All(PlainPred, q.filters), q.filters, r3)
    requires ParseOrder(r3) == Some((q.order, r4))
    ensures ParseFrom(q.replace, r1) == Just(PlainSource(q.source) && All(PlainPred, q.filters), q, r4)
  {
  }

  lemma ParseClauses(q: Select, ok: bool, r0: seq<Token>, r1: seq<Token>, r4: seq<Token>)
    requires ParseReplace(r0) == Just(All(PlainCase, q.replace), q.replace, [Word("FROM")] + r1) && |r1| <= |r0|
    requires ParseFrom(q.replace, r1) == Just(ok, q, r4)
    ensures ParseSelect([Word("SELECT"), Sym("*")] + r0) == Just(All(PlainCase, q.replace) && ok, q, r4)
  {
    assert ([Word("SELECT"), Sym("*")] + r0)[2..] == r0;
    ExpectMark(ParseReplace(r0), All(PlainCase, q.replace), q.replace, Word("FROM"), r1);
  }

  lemma SelectParts(q: Select, rest: seq<Token>)
    ensures SelectTokens(q) + rest
         == [Word("SELECT"), Sym("*")]
             + (ReplaceTokens(q.replace)
                + ([Word("FROM")]
                   + (SourceTokens(q.source) + (FilterTokens(q.filters) + (OrderTokens(q.order) + rest)))))
  {
    Regroup([Word("SELECT"), Sym("*")], ReplaceTokens(q.replace), [Word("FROM")], SourceTokens(q.source),
            FilterTokens(q.filters), OrderTokens(q.order), rest);
  }

  lemma OrderHead(ks: seq<SortKey>, rest: seq<Token>)
    requires rest == [] || rest[0] == Sym(")")
    ensures var r3 := OrderTokens(ks) + rest; r3 == [] || r3[0] in [Word("ORDER"), Sym(")")]
  {
    if ks == [] {
      assert OrderTokens(ks) + rest == rest;
    }
  }

  lemma FilterHead(ps: seq<Pred>, r3: seq<Token>)
    requires r3 == [] || r3[0] in [Word("ORDER"), Sym(")")]
    ensures AfterSource(FilterTokens(ps) + r3)
  {
    if ps == [] {
      assert FilterTokens(ps) + r3 == r3;
    }
  }

  lemma PlainIs(q: Select)
    ensures Plain(q) <==> All(PlainCase, q.replace) && PlainSource(q.source) && All(PlainPred, q.filters)
  {
  }

  lemma {:induction false} ParseSelectOf(q: Select, rest: seq<Token>)
    requires Whole(q)
    requires rest == [] || rest[0] == Sym(")")
    ensures ParseSelect(SelectTokens(q) + rest) == Just(Plain(q), q, rest)
    decreases q, 0
  {
    var r3 := OrderTokens(q.order) + rest;
    var r2 := FilterTokens(q.filters) + r3;
    var r1 := SourceTokens(q.source) + r2;
    var r0 := ReplaceTokens(q.replace) + ([Word("FROM")] + r1);
    SelectParts(q, rest);
    OrderHead(q.order, rest);
    FilterHead(q.filters, r3);
    assert ([Word("FROM")] + r1)[0] == Word("FROM");
    ParseReplaceOf(q.replace, [Word("FROM")] + r1);
    ParseSourceOf(q.source, r2);
    ParseFiltersOf(q.filters, r3);
    ParseOrderOf(q.order, rest);
    ParseFromOf(q, r1, r2, r3, rest);
    ParseClauses(q, PlainSource(q.source) && All(PlainPred, q.filters), r0, r1, rest);
    PlainIs(q);
  }

  /** Printing a statement and reading it back gives the statement, for every column name and
      every string in it, when each float in it is finite; and else it gives none. */
  lemma PrintThenParse(q: Select)
    requires Whole(q)
    ensures ParseSql(SelectText(q)) == if Plain(q) then Some(q) else None
  {
    SqlReading.LexSelect(q);
    ParseSelectOf(q, []);
    assert SelectTokens(q) + [] == SelectTokens(q);
  }

  // ---- what the tokens mean

  /** The tokens are a predicate that has this truth of the row. */
  predicate Says(d: Dialect, row: Row, ts: seq<Token>, truth: Truth)
  {
    match ParsePred(ts) case Some((p, rest)) => rest == [] && EvalPred(d, p, row) == truth case None => false
  }

  lemma SaysOf(d: Dialect, row: Row, p: Pred, ts: seq<Token>)
    requires WholePred(p) && PlainPred(p) && PredTokens(p) == ts
    ensures Says(d, row, ts, EvalPred(d, p, row))
  {
    UndoesPred(p);
    assert ts + [] == ts;
    assert ParsePred(PredTokens(p) + []) == Just(PlainPred(p), p, []);
  }

  /** A comparison with a text, of a column that is not NULL. */
  lemma ComparisonMeans(d: Dialect, row: Row, c: string, symbol: string, text: string)
    requires Cell(row, c) != Null && symbol in ["=", "<>", "<", "<=", ">", ">="]
    ensures var v, x := Cell(row, c), Str(text);
            Says(d, row, [Sym("("), Ident(c), Sym(symbol), Text(text), Sym(")")],
                 Known(if symbol == "=" then d.eq(v, x)
                       else if symbol == "<>" then !d.eq(v, x)
                       else if symbol == "<" then d.lt(v, x)
                       else if symbol == "<=" then d.lt(v, x) || d.eq(v, x)
                       else if symbol == ">" then d.lt(x, v)
                       else d.lt(x, v) || d.eq(v, x)))
  {
    var cmp := if symbol == "=" then Equal else if symbol == "<>" then Differs else if symbol == "<" then Less
               else if symbol == "<=" then AtMost else if symbol == ">" then Greater else AtLeast;
    var p := Cmp(c, cmp, Str(text));
    assert PredTokens(p) == [Sym("("), Ident(c), Sym(symbol), Text(text), Sym(")")];
    SaysOf(d, row, p, [Sym("("), Ident(c), Sym(symbol), Text(text), Sym(")")]);
  }

  lemma WithinTruth(d: Dialect, v: Scalar, x: Scalar, y: Scalar)
    requires v != Null && x != Null && y != Null
    ensures And(Compare(d, AtLeast, v, x), Compare(d, AtMost, v, y))
         == Known((d.lt(x, v) || d.eq(v, x)) && (d.lt(v, y) || d.eq(v, y)))
  {
  }

  lemma WithinTokens(c: string, lo: string, hi: string)
    ensures PredTokens(Within(c, Str(lo), Str(hi)))
         == [Sym("("), Ident(c), Word("BETWEEN"), Text(lo), Word("AND"), Text(hi), Sym(")")]
  {
  }

  lemma BetweenMeans(d: Dialect, row: Row, c: string, lo: string, hi: string)
    requires Cell(row, c) != Null
    ensures var v, x, y := Cell(row, c), Str(lo), Str(hi);
            Says(d, row, [Sym("("), Ident(c), Word("BETWEEN"), Text(lo), Word("AND"), Text(hi), Sym(")")],
                 Known((d.lt(x, v) || d.eq(v, x)) && (d.lt(v, y) || d.eq(v, y))))
  {
    var p := Within(c, Str(lo), Str(hi));
    WithinTokens(c, lo, hi);
    WithinTruth(d, Cell(row, c), Str(lo), Str(hi));
    SaysOf(d, row, p, PredTokens(p));
  }

  lemma LikeMeans(d: Dialect, row: Row, c: string, text: string)
    requires Cell(row, c) != Null
    ensures Says(d, row, [Sym("("), Ident(c), Word("LIKE"), Text(text), Word("ESCAPE"), Text("\\"), Sym(")")],
                 Known(Like.Matches(d.text(Cell(row, c)), text)))
  {
    SaysOf(d, row, LikeText(c, false, text),
           [Sym("("), Ident(c), Word("LIKE"), Text(text), Word("ESCAPE"), Text("\\"), Sym(")")]);
  }

  lemma NotLikeMeans(d: Dialect, row: Row, c: string, text: string)
    requires Cell(row, c) != Null
    ensures Says(d, row,
                 [Sym("("), Ident(c), Word("NOT"), Word("LIKE"), Text(text), Word("ESCAPE"), Text("\\"), Sym(")")],
                 Known(!Like.Matches(d.text(Cell(row, c)), text)))
  {
    SaysOf(d, row, LikeText(c, true, text),
           [Sym("("), Ident(c), Word("NOT"), Word("LIKE"), Text(text), Word("ESCAPE"), Text("\\"), Sym(")")]);
  }

  lemma NullTestMeans(d: Dialect, row: Row, c: string)
    ensures Says(d, row, [Sym("("), Ident(c), Word("IS"), Word("NULL"), Sym(")")], Known(Cell(row, c) == Null))
  {
    SaysOf(d, row, NullTest(c, false), [Sym("("), Ident(c), Word("IS"), Word("NULL"), Sym(")")]);
  }

  lemma NotNullTestMeans(d: Dialect, row: Row, c: string)
    ensures Says(d, row, [Sym("("), Ident(c), Word("IS"), Word("NOT"), Word("NULL"), Sym(")")],
                 Known(Cell(row, c) != Null))
  {
    SaysOf(d, row, NullTest(c, true), [Sym("("), Ident(c), Word("IS"), Word("NOT"), Word("NULL"), Sym(")")]);
  }

  lemma InMeans(d: Dialect, row: Row, c: string, text: string)
    requires Cell(row, c) != Null
    ensures Says(d, row, [Sym("("), Ident(c), Word("IN"), Sym("("), Text(text), Sym(")"), Sym(")")],
                 Known(d.eq(Cell(row, c), Str(text))))
  {
    var v := Cell(row, c);
    assert [Str(text)][1..] == [] && AnyEqual(d, v, []) == False;
    assert AnyEqual(d, v, [Str(text)]) == Or(Compare(d, Equal, v, Str(text)), False);
    assert Join(Map(ScalarTokens, [Str(text)]), [Sym(",")]) == [Text(text)];
    SaysOf(d, row, InList(c, [Str(text)]), [Sym("("), Ident(c), Word("IN"), Sym("("), Text(text), Sym(")"), Sym(")")]);
  }

  /** The words and tagged texts that are literals. */
  lemma LiteralReads(text: string)
    ensures ParseScalar([Word("NULL")]) == Some((Null, []))
    ensures ParseScalar([Word("TRUE")]) == Some((Bool(true), []))
    ensures ParseScalar([Word("FALSE")]) == Some((Bool(false), []))
    ensures ParseScalar([Text(text)]) == Some((Str(text), []))
    ensures ParseScalar([Word("DATE"), Text(text)]) == Some((Date(text), []))
    ensures ParseScalar([Word("TIMESTAMP"), Text(text)]) == Some((Timestamp(text), []))
  {
    assert [Word("NULL")][1..] == [] && [Word("TRUE")][1..] == [] && [Word("FALSE")][1..] == []
           && [Text(text)][1..] == [];
    assert [Word("DATE"), Text(text)][2..] == [] && [Word("TIMESTAMP"), Text(text)][2..] == [];
  }

  lemma KeyReads(c: string)
    ensures ParseKey([Ident(c), Word("ASC")]) == Some((SortKey(c, Asc), []))
    ensures ParseKey([Ident(c), Word("DESC")]) == Some((SortKey(c, Desc), []))
  {
    assert [Ident(c), Word("ASC")][2..] == [] && [Ident(c), Word("DESC")][2..] == [];
  }

  function OneCase(c: string, id: int, text: string): seq<Token>
  {
    [Word("CASE"), Word("WHEN"), Word("__dat0_rowid"), Sym("="), Word(IntText(id)), Word("THEN"), Text(text),
     Word("ELSE"), Ident(c), Word("END"), Word("AS"), Ident(c)]
  }

  lemma OneCaseTokens(c: string, id: int, text: string)
    ensures CaseTokens(CaseColumn(c, [When(id, Str(text))])) == OneCase(c, id, text)
  {
    var w := When(id, Str(text));
    assert Join(Map(WhenTokens, [w]), []) == WhenTokens(w);
  }

  /** A CASE with one branch gives the row of that id the value, and any other what it had. */
  lemma CaseMeans(row: Row, c: string, id: int, text: string)
    requires Cell(row, ROWID_COL).Int?
    ensures var read := ParseCase(OneCase(c, id, text));
            && read.Some? && read.value.1 == [] && read.value.0.column == c
            && CaseValue(row, c, read.value.0.whens)
            == if Cell(row, ROWID_COL) == Int(id) then Str(text) else Cell(row, c)
  {
    var q := CaseColumn(c, [When(id, Str(text))]);
    UndoesCase(q);
    OneCaseTokens(c, id, text);
    assert CaseTokens(q) + [] == OneCase(c, id, text);
    assert ParseCase(CaseTokens(q) + []) == Just(true, q, []);
    assert q.whens[1..] == [];
  }
}
