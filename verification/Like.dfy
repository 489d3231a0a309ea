/** LIKE with a backslash escape (section 8.5 of ISO/IEC 9075-2), and the patterns the
    string filters give it. */
module Like {

  /** `t LIKE p ESCAPE '\'`. A pattern that ends in a lone backslash matches nothing. */
  predicate Matches(t: string, p: string)
    decreases |p|, |t|
  {
    if p == "" then t == ""
    else if p[0] == '%' then Matches(t, p[1..]) || (t != "" && Matches(t[1..], p))
    else if p[0] == '_' then t != "" && Matches(t[1..], p[1..])
    else if p[0] == '\\' then |p| >= 2 && t != "" && t[0] == p[1] && Matches(t[1..], p[2..])
    else t != "" && t[0] == p[0] && Matches(t[1..], p[1..])
  }

  predicate Special(c: char) { c == '\\' || c == '%' || c == '_' }

  function EscapedChar(c: char): string { if Special(c) then ['\\', c] else [c] }

  /** Each character special to LIKE behind a backslash. */
  function Escaped(s: string): string
  {
    if s == "" then "" else EscapedChar(s[0]) + Escaped(s[1..])
  }

  /** Section 8.5 asks that an escape character stand before a special one only. */
  predicate WellFormed(p: string)
  {
    if p == "" then true
    else if p[0] == '\\' then |p| >= 2 && Special(p[1]) && WellFormed(p[2..])
    else WellFormed(p[1..])
  }

  predicate IsPrefix(s: string, t: string) { s <= t }

  predicate IsSuffix(s: string, t: string) { |s| <= |t| && t[|t| - |s|..] == s }

  predicate IsSubstring(s: string, t: string) { exists k :: 0 <= k <= |t| && s <= t[k..] }

  lemma {:induction false} EscapedCharMatchesItself(c: char, p: string, t: string)
    ensures Matches(t, EscapedChar(c) + p) <==> t != "" && t[0] == c && Matches(t[1..], p)
  {
    if Special(c) {
      assert (EscapedChar(c) + p)[2..] == p;
    } else {
      assert (EscapedChar(c) + p)[1..] == p;
    }
  }

  /** An escaped text matches itself and nothing else, whatever the pattern goes on with. */
  lemma {:induction false} EscapedMatchesItself(s: string, p: string, t: string)
    ensures Matches(t, Escaped(s) + p) <==> s <= t && Matches(t[|s|..], p)
  {
    if s == "" {
      assert Escaped(s) + p == p && t[0..] == t;
    } else {
      assert Escaped(s) + p == EscapedChar(s[0]) + (Escaped(s[1..]) + p);
      EscapedCharMatchesItself(s[0], Escaped(s[1..]) + p, t);
      if t != "" && t[0] == s[0] {
        EscapedMatchesItself(s[1..], p, t[1..]);
        assert s == [s[0]] + s[1..] && t == [t[0]] + t[1..];
        assert s <= t <==> s[1..] <= t[1..];
        if s <= t {
          assert t[1..][|s| - 1..] == t[|s|..];
        }
      }
    }
  }

  /** A leading percent sign matches any run of characters. */
  lemma {:induction false} PercentSkips(p: string, t: string)
    ensures Matches(t, "%" + p) <==> exists k :: 0 <= k <= |t| && Matches(t[k..], p)
    decreases |t|
  {
    assert ("%" + p)[1..] == p;
    assert t[0..] == t;
    if t != "" {
      PercentSkips(p, t[1..]);
      forall k | 0 <= k <= |t| && Matches(t[k..], p)
        ensures Matches(t, "%" + p)
      {
        if k > 0 {
          assert t[1..][k - 1..] == t[k..];
        }
      }
      if Matches(t[1..], "%" + p) {
        var k :| 0 <= k <= |t[1..]| && Matches(t[1..][k..], p);
        assert t[1..][k..] == t[k + 1..];
      }
    } else {
      assert forall k :: 0 <= k <= |t| ==> t[k..] == t;
    }
  }

  lemma {:induction false} PercentMatchesAll(t: string)
    ensures Matches(t, "%")
  {
    PercentSkips("", t);
    assert "%" + "" == "%";
    assert t[|t|..] == "";
  }

  lemma {:induction false} StartsWithIsPrefix(s: string, t: string)
    ensures Matches(t, Escaped(s) + "%") <==> IsPrefix(s, t)
  {
    EscapedMatchesItself(s, "%", t);
    if s <= t {
      PercentMatchesAll(t[|s|..]);
    }
  }

  lemma {:induction false} ContainsIsSubstring(s: string, t: string)
    ensures Matches(t, "%" + (Escaped(s) + "%")) <==> IsSubstring(s, t)
  {
    PercentSkips(Escaped(s) + "%", t);
    forall k | 0 <= k <= |t|
      ensures Matches(t[k..], Escaped(s) + "%") <==> s <= t[k..]
    {
      StartsWithIsPrefix(s, t[k..]);
    }
  }

  lemma {:induction false} EndsWithIsSuffix(s: string, t: string)
    ensures Matches(t, "%" + Escaped(s)) <==> IsSuffix(s, t)
  {
    PercentSkips(Escaped(s), t);
    assert Escaped(s) + "" == Escaped(s);
    forall k | 0 <= k <= |t|
      ensures Matches(t[k..], Escaped(s)) <==> t[k..] == s
    {
      EscapedMatchesItself(s, "", t[k..]);
    }
    if IsSuffix(s, t) {
      assert t[|t| - |s|..] == s;
    }
  }

  /** Every pattern built from an escaped text is well formed. */
  lemma {:induction false} EscapedIsWellFormed(s: string, p: string)
    requires WellFormed(p)
    ensures WellFormed(Escaped(s) + p)
  {
    if s == "" {
      assert Escaped(s) + p == p;
    } else {
      EscapedIsWellFormed(s[1..], p);
      var rest := Escaped(s[1..]) + p;
      assert Escaped(s) + p == EscapedChar(s[0]) + rest;
      if Special(s[0]) {
        assert (EscapedChar(s[0]) + rest)[2..] == rest;
      } else {
        assert (EscapedChar(s[0]) + rest)[1..] == rest;
      }
    }
  }
}
