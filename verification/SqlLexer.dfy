/** A lexer for the emitted SQL (sections 5.2 and 5.3 of ISO/IEC 9075-2): words, delimited
    identifiers and string literals with doubled quotes, symbols, and spaces between. */
module SqlLexer {

  import opened Wrappers
  import opened Decimal

  datatype Token = Word(word: string) | Ident(name: string) | Text(text: string) | Sym(symbol: string)

  /** Letters, digits and what else a number or a reserved column name is spelled with. */
  predicate WordChar(c: char)
  {
    Digit(c) || 'a' <= c <= 'z' || 'A' <= c <= 'Z' || c in "_.+-"
  }

  predicate IsWord(w: string) { w != "" && forall c <- w :: WordChar(c) }

  /** `s` with each `q` doubled. */
  function Doubled(s: string, q: char): string
  {
    if s == "" then "" else (if s[0] == q then [q, q] else [s[0]]) + Doubled(s[1..], q)
  }

  /** The text quoted at the head of `s`, just after its opening quote, and what follows. */
  function Unquote(s: string, q: char): Option<(string, string)>
  {
    if s == "" then None
    else if s[0] != q then
      match Unquote(s[1..], q) case None => None case Some((t, rest)) => Some(([s[0]] + t, rest))
    else if |s| > 1 && s[1] == q then
      match Unquote(s[2..], q) case None => None case Some((t, rest)) => Some(([q] + t, rest))
    else Some(("", s[1..]))
  }

  lemma {:induction false} UnquoteShrinks(s: string, q: char)
    ensures Unquote(s, q).Some? ==> |Unquote(s, q).value.1| < |s|
  {
    if s != "" {
      if s[0] != q {
        UnquoteShrinks(s[1..], q);
      } else if |s| > 1 && s[1] == q {
        UnquoteShrinks(s[2..], q);
      }
    }
  }

  /** Doubling the quotes of a text and reading it back gives the text: no value ends its
      token early, and none swallows what follows. */
  lemma {:induction false} UnquoteDoubled(s: string, q: char, rest: string)
    requires rest == "" || rest[0] != q
    ensures Unquote(Doubled(s, q) + [q] + rest, q) == Some((s, rest))
  {
    var whole := Doubled(s, q) + [q] + rest;
    if s == "" {
      assert whole == [q] + rest;
    } else {
      var tail := Doubled(s[1..], q) + [q] + rest;
      UnquoteDoubled(s[1..], q, rest);
      assert s == [s[0]] + s[1..];
      if s[0] == q {
        assert whole == [q, q] + tail;
        assert whole[2..] == tail;
      } else {
        assert whole == [s[0]] + tail;
        assert whole[1..] == tail;
      }
    }
  }

  function WordLength(s: string): nat
    ensures WordLength(s) <= |s|
  {
    if s == "" || !WordChar(s[0]) then 0 else 1 + WordLength(s[1..])
  }

  function Then(ts: seq<Token>, rest: Option<seq<Token>>): Option<seq<Token>>
  {
    match rest case None => None case Some(us) => Some(ts + us)
  }

  /** Two-character comparisons first, then single symbols. */
  function SymbolAt(s: string): string
    requires s != ""
    ensures SymbolAt(s) <= s
  {
    if |s| > 1 && s[..2] in ["<=", ">=", "<>"] then s[..2]
    else if s[0] in "(),*=<>" then s[..1]
    else ""
  }

  function Lex(s: string): Option<seq<Token>>
    decreases |s|
  {
    if s == "" then Some([])
    else if s[0] == ' ' then Lex(s[1..])
    else if s[0] == '"' || s[0] == '\'' then
      UnquoteShrinks(s[1..], s[0]);
      match Unquote(s[1..], s[0])
      case None => None
      case Some((t, rest)) => Then([if s[0] == '"' then Ident(t) else Text(t)], Lex(rest))
    else if WordChar(s[0]) then
      Then([Word(s[..WordLength(s)])], Lex(s[WordLength(s)..]))
    else if SymbolAt(s) != "" then
      Then([Sym(SymbolAt(s))], Lex(s[|SymbolAt(s)|..]))
    else None
  }

  /** A place where any token may end. */
  predicate Break(s: string) { s == "" || s[0] in " ),(" }

  /** `text` is read as `ts` in front of anything, or, when not `free`, in front of a break. */
  ghost predicate Reads(text: string, ts: seq<Token>, free: bool)
  {
    ReadsBy(Lex, text, ts, free)
  }

  ghost predicate ReadsBy(lex: string -> Option<seq<Token>>, text: string, ts: seq<Token>, free: bool)
  {
    forall rest: string {:trigger lex(text + rest)} :: free || Break(rest) ==> lex(text + rest) == Then(ts, lex(rest))
  }

  lemma LexQuoted(t: string, q: char, rest: string)
    requires q == '"' || q == '\''
    requires rest == "" || rest[0] != q
    ensures Lex([q] + Doubled(t, q) + [q] + rest) == Then([if q == '"' then Ident(t) else Text(t)], Lex(rest))
  {
    var inner := Doubled(t, q) + [q] + rest;
    UnquoteDoubled(t, q, rest);
    assert [q] + Doubled(t, q) + [q] + rest == [q] + inner;
    assert ([q] + inner)[1..] == inner;
  }

  lemma ReadsIdent(name: string)
    ensures Reads("\"" + Doubled(name, '"') + "\"", [Ident(name)], false)
  {
    forall rest: string | Break(rest)
      ensures Lex("\"" + Doubled(name, '"') + "\"" + rest) == Then([Ident(name)], Lex(rest))
    {
      LexQuoted(name, '"', rest);
    }
  }

  lemma ReadsText(t: string)
    ensures Reads("'" + Doubled(t, '\'') + "'", [Text(t)], false)
  {
    forall rest: string | Break(rest)
      ensures Lex("'" + Doubled(t, '\'') + "'" + rest) == Then([Text(t)], Lex(rest))
    {
      LexQuoted(t, '\'', rest);
    }
  }

  lemma {:induction false} WordLengthOf(w: string, rest: string)
    requires forall c <- w :: WordChar(c)
    requires rest == "" || !WordChar(rest[0])
    ensures WordLength(w + rest) == |w|
  {
    if w == "" {
      assert w + rest == rest;
    } else {
      assert (w + rest)[1..] == w[1..] + rest;
      WordLengthOf(w[1..], rest);
    }
  }

  lemma ReadsWord(w: string)
    requires IsWord(w)
    ensures Reads(w, [Word(w)], false)
  {
    forall rest: string | Break(rest)
      ensures Lex(w + rest) == Then([Word(w)], Lex(rest))
    {
      WordLengthOf(w, rest);
      assert (w + rest)[..|w|] == w && (w + rest)[|w|..] == rest;
      assert WordChar(w[0]);
    }
  }

  lemma ReadsSpace()
    ensures Reads(" ", [], true)
  {
    forall rest: string
      ensures Lex(" " + rest) == Then([], Lex(rest))
    {
      assert (" " + rest)[1..] == rest;
      if Lex(rest).Some? {
        assert [] + Lex(rest).value == Lex(rest).value;
      }
    }
  }

  lemma ReadsSymbol(c: char)
    requires c in "(),*="
    ensures Reads([c], [Sym([c])], true)
  {
    forall rest: string
      ensures Lex([c] + rest) == Then([Sym([c])], Lex(rest))
    {
      var whole := [c] + rest;
      assert whole[1..] == rest && whole[..1] == [c];
      assert SymbolAt(whole) == [c] by {
        if |whole| > 1 {
          assert whole[..2][0] == c;
        }
      }
    }
  }

  lemma ReadsComparison(c: string)
    requires c in ["<", ">", "<=", ">=", "<>"]
    ensures Reads(c, [Sym(c)], false)
  {
    forall rest: string | Break(rest)
      ensures Lex(c + rest) == Then([Sym(c)], Lex(rest))
    {
      var whole := c + rest;
      assert whole[|c|..] == rest && whole[..|c|] == c;
      assert SymbolAt(whole) == c by {
        if |c| == 1 && |whole| > 1 {
          assert whole[..2][1] == rest[0];
        } else if |c| == 2 {
          assert whole[..2] == c;
        }
      }
    }
  }

  /** Reading is compositional: after a text that ends freely, or before a break. */
  lemma Glue(a: string, ta: seq<Token>, fa: bool, b: string, tb: seq<Token>, fb: bool)
    requires Reads(a, ta, fa) && Reads(b, tb, fb)
    requires fa || (b != "" && Break(b))
    ensures Reads(a + b, ta + tb, fb)
  {
    GlueBy(Lex, a, ta, fa, b, tb, fb);
  }

  lemma GlueBy(lex: string -> Option<seq<Token>>,
               a: string, ta: seq<Token>, fa: bool, b: string, tb: seq<Token>, fb: bool)
    requires ReadsBy(lex, a, ta, fa) && ReadsBy(lex, b, tb, fb)
    requires fa || (b != "" && Break(b))
    ensures ReadsBy(lex, a + b, ta + tb, fb)
  {
    forall rest: string | fb || Break(rest)
      ensures lex(a + b + rest) == Then(ta + tb, lex(rest))
    {
      assert a + b + rest == a + (b + rest);
      assert fa || Break(b + rest);
      if lex(rest).Some? {
        assert ta + (tb + lex(rest).value) == ta + tb + lex(rest).value;
      }
    }
  }

  lemma ReadsAnywhere(a: string, ta: seq<Token>)
    requires Reads(a, ta, true)
    ensures Reads(a, ta, false)
  {
  }
}
