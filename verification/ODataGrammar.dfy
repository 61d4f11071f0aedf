/**
  A reader for the filters of ODataQuery, written from the grammar of OData Version 4.0 Part 2 (URL
  Conventions), sections 5.1.1.1 and 5.1.1.6.1, restricted to `eq`, `and`, parentheses and
  string literals. Blanks are one or more spaces or tabs where the grammar requires them.
*/
module ODataGrammar {
  import opened Wrappers
  import opened ODataQuery

  datatype Expr = Eq(field: string, value: string) | And(left: Expr, right: Expr)

  function Conjuncts(e: Expr): seq<Equality> {
    match e
    case Eq(f, v) => [Equality(f, v)]
    case And(l, r) => Conjuncts(l) + Conjuncts(r)
  }

  function SkipBlanks(s: string): (rest: string)
    ensures |rest| <= |s|
  {
    if s != "" && (s[0] == ' ' || s[0] == '\t') then SkipBlanks(s[1..]) else s
  }

  /** At least one blank. */
  function Blanks(s: string): (rest: Option<string>)
    ensures rest.Some? ==> |rest.value| < |s|
  {
    if s != "" && (s[0] == ' ' || s[0] == '\t') then Some(SkipBlanks(s[1..])) else None
  }

  function Token(s: string, word: string): (rest: Option<string>)
    ensures rest.Some? ==> |rest.value| + |word| == |s|
  {
    if word <= s then Some(s[|word|..]) else None
  }

  /** The longest run of name characters. */
  function NameLength(s: string): (n: nat)
    ensures n <= |s|
  {
    if s != "" && IsNamePart(s[0]) then 1 + NameLength(s[1..]) else 0
  }

  /** The content of a string literal after its opening quote; two quotes in a row stand for one. */
  function StringBody(s: string): (r: Option<(string, string)>)
    ensures r.Some? ==> |r.value.1| < |s|
  {
    if s == "" then None
    else if s[0] != '\'' then
      var tail := StringBody(s[1..]);
      if tail.None? then None else Some(([s[0]] + tail.value.0, tail.value.1))
    else if |s| >= 2 && s[1] == '\'' then
      var tail := StringBody(s[2..]);
      if tail.None? then None else Some((['\''] + tail.value.0, tail.value.1))
    else Some(("", s[1..]))
  }

  /** name BLANKS "eq" BLANKS "'" body */
  function Comparison(s: string): (r: Option<(Expr, string)>)
    ensures r.Some? ==> |r.value.1| < |s|
  {
    var n := NameLength(s);
    var name := s[..n];
    if !IsIdentifier(name) then None
    else
      var s1 := Blanks(s[n..]);
      if s1.None? then None
      else
        var s2 := Token(s1.value, "eq");
        if s2.None? then None
        else
          var s3 := Blanks(s2.value);
          if s3.None? then None
          else
            var s4 := Token(s3.value, "'");
            if s4.None? then None
            else
              var body := StringBody(s4.value);
              if body.None? then None else Some((Eq(name, body.value.0), body.value.1))
  }

  /** A comparison, or an expression in parentheses. */
  function Term(s: string): (r: Option<(Expr, string)>)
    ensures r.Some? ==> |r.value.1| < |s|
    decreases |s|, 0
  {
    if s != "" && s[0] == '(' then
      var inner := Expression(SkipBlanks(s[1..]));
      if inner.None? then None
      else
        var close := Token(SkipBlanks(inner.value.1), ")");
        if close.None? then None else Some((inner.value.0, close.value))
    else Comparison(s)
  }

  /** term [ BLANKS "and" BLANKS expression ] */
  function Expression(s: string): (r: Option<(Expr, string)>)
    ensures r.Some? ==> |r.value.1| < |s|
    decreases |s|, 1
  {
    var first := Term(s);
    if first.None? then None
    else
      var s1 := Blanks(first.value.1);
      if s1.None? then first
      else
        var s2 := Token(s1.value, "and");
        if s2.None? then first
        else
          var s3 := Blanks(s2.value);
          if s3.None? then first
          else
            var second := Expression(s3.value);
            if second.None? then None
            else Some((And(first.value.0, second.value.0), second.value.1))
  }

  /** The expression a filter text denotes, when the grammar covers the whole text. */
  function Parsed(text: string): Option<Expr> {
    var r := Expression(text);
    if r.Some? && r.value.1 == "" then Some(r.value.0) else None
  }

  /** The equalities a filter text asks for. */
  function Read(text: string): Option<seq<Equality>> {
    if Parsed(text).Some? then Some(Conjuncts(Parsed(text).value)) else None
  }

  lemma {:induction false} StringBodyReadsBack(v: string, rest: string)
    requires rest == "" || rest[0] != '\''
    ensures StringBody(DoubleQuotes(v) + "'" + rest) == Some((v, rest))
  {
    if v == "" {
      assert DoubleQuotes(v) + "'" + rest == "'" + rest;
    } else {
      var tail := DoubleQuotes(v[1..]) + "'" + rest;
      StringBodyReadsBack(v[1..], rest);
      assert v == [v[0]] + v[1..];
      if v[0] == '\'' {
        assert DoubleQuotes(v) + "'" + rest == "''" + tail;
        assert ("''" + tail)[2..] == tail;
      } else {
        assert DoubleQuotes(v) + "'" + rest == [v[0]] + tail;
        assert ([v[0]] + tail)[1..] == tail;
      }
    }
  }

  lemma {:induction false} NameReadsBack(name: string, rest: string)
    requires forall c :: c in name ==> IsNamePart(c)
    requires rest != "" && !IsNamePart(rest[0])
    ensures NameLength(name + rest) == |name|
  {
    if name == "" {
      assert name + rest == rest;
    } else {
      assert name[0] in name;
      assert (name + rest)[1..] == name[1..] + rest;
      NameReadsBack(name[1..], rest);
    }
  }

  lemma EqReadsBack(body: string)
    ensures Blanks(" eq '" + body) == Some("eq '" + body)
    ensures Token("eq '" + body, "eq") == Some(" '" + body)
    ensures Blanks(" '" + body) == Some("'" + body)
    ensures Token("'" + body, "'") == Some(body)
  {
    assert (" eq '" + body)[1..] == "eq '" + body;
    assert ("eq '" + body)[2..] == " '" + body && "eq" <= "eq '" + body;
    assert (" '" + body)[1..] == "'" + body;
    assert ("'" + body)[1..] == body && "'" <= "'" + body;
  }

  lemma ComparisonReadsBack(e: Equality, rest: string)
    requires Equals(e).Ok?
    requires rest == "" || rest[0] != '\''
    ensures Comparison(Equals(e).value + rest) == Some((Eq(e.field, e.value), rest))
  {
    var body := DoubleQuotes(e.value) + "'" + rest;
    var tail := " eq '" + body;
    var s := Equals(e).value + rest;
    assert s == e.field + tail;
    NameReadsBack(e.field, tail);
    assert s[..|e.field|] == e.field && s[|e.field|..] == tail;
    EqReadsBack(body);
    StringBodyReadsBack(e.value, rest);
  }

  lemma TermReadsBack(e: Equality, rest: string)
    requires Equals(e).Ok?
    ensures Term("(" + Equals(e).value + ")" + rest) == Some((Eq(e.field, e.value), rest))
  {
    var s := "(" + Equals(e).value + ")" + rest;
    var close := ")" + rest;
    assert s[1..] == Equals(e).value + close;
    ComparisonReadsBack(e, close);
    assert s[1] == e.field[0];
    assert SkipBlanks(s[1..]) == s[1..];
    assert Term(s[1..]) == Comparison(s[1..]);
    assert Blanks(close) == None;
    assert close[1..] == rest;
  }

  lemma AndTokenReadsBack(next: string)
    requires next != "" && next[0] == '('
    ensures Blanks(" and " + next) == Some("and " + next)
    ensures Token("and " + next, "and") == Some(" " + next)
    ensures Blanks(" " + next) == Some(next)
  {
    assert (" and " + next)[1..] == "and " + next;
    assert ("and " + next)[3..] == " " + next && "and" <= "and " + next;
    assert (" " + next)[1..] == next;
  }

  lemma AndReadsBack(e: Equality, next: string)
    requires Equals(e).Ok? && next != "" && next[0] == '(' && Expression(next).Some?
    ensures Expression("(" + Equals(e).value + ") and " + next) ==
            Some((And(Eq(e.field, e.value), Expression(next).value.0), Expression(next).value.1))
  {
    var rest := " and " + next;
    var s := "(" + Equals(e).value + ") and " + next;
    assert s == "(" + Equals(e).value + ")" + rest;
    TermReadsBack(e, rest);
    assert Term(s) == Some((Eq(e.field, e.value), rest));
    AndTokenReadsBack(next);
  }

  lemma {:induction false} ExpressionReadsBack(es: seq<Equality>)
    requires es != [] && EqualsAll(es).Ok?
    ensures var r := Expression(Parenthesised(EqualsAll(es).value));
            r.Some? && r.value.1 == "" && Conjuncts(r.value.0) == es
  {
    var texts := EqualsAll(es).value;
    if |es| == 1 {
      TermReadsBack(es[0], "");
      assert EqualsAll(es[1..]) == Ok([]);
      assert Parenthesised(texts) == "(" + Equals(es[0]).value + ")" + "";
      assert es == [es[0]];
    } else {
      assert texts[1..] == EqualsAll(es[1..]).value;
      ExpressionReadsBack(es[1..]);
      AndReadsBack(es[0], Parenthesised(texts[1..]));
      assert es == [es[0]] + es[1..];
    }
  }

  lemma {:induction false} EqualsAllAccepts(es: seq<Equality>)
    ensures EqualsAll(es).Ok? <==> forall e :: e in es ==> IsIdentifier(e.field) && IsPrintable(e.value)
    ensures EqualsAll(es).Ok? ==> |EqualsAll(es).value| == |es| && "" !in EqualsAll(es).value
  {
    if es != [] {
      EqualsAllAccepts(es[1..]);
      assert es == [es[0]] + es[1..];
    }
  }

  /** A filter is printed exactly when every part is admissible, and it reads back as the same equalities in order. */
  lemma FilterReadsBack(es: seq<Equality>)
    ensures Filter(es).Ok? <==> es != [] && forall e :: e in es ==> IsIdentifier(e.field) && IsPrintable(e.value)
    ensures Filter(es).Ok? ==> Read(Filter(es).value) == Some(es)
  {
    EqualsAllAccepts(es);
    if Filter(es).Ok? {
      ExpressionReadsBack(es);
    }
  }

  /** No two lists of equalities share a filter text, whatever quotes or keywords their values contain. */
  lemma FilterInjective(es: seq<Equality>, fs: seq<Equality>)
    requires Filter(es).Ok? && Filter(es) == Filter(fs)
    ensures es == fs
  {
    FilterReadsBack(es);
    FilterReadsBack(fs);
  }
}
