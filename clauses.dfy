/**
 * The clause fragments the setters of multi-db/mysql/builder.go write:
 * Where/OrWhere conditions with an inlined third argument, the IN lists of
 * WhereIn/OrWhereIn, the four joins, ORDER BY / GROUP BY / HAVING and
 * LIMIT / OFFSET.
 */
module Clauses {
  import opened Wrappers
  import opened GoStrings
  import opened Values

  // ---------------------------------------------------------------------
  // Where and OrWhere

  /** The third argument of Where/OrWhere inlined into the SQL text: a string
      between single quotes, an integer in decimal, a float as fmt prints it,
      a bool as `true`/`false`. */
  function Literal(v: Value): string
    requires v.Text? || v.Int? || v.Int64? || v.Float? || v.Bool?
  {
    match v
    case Text(s) => "'" + s + "'"
    case Int(n) => Itoa(n)
    case Int64(n) => Itoa(n)
    case Float(text) => text
    case Bool(b) => FormatBool(b)
  }

  /** The kinds the type switch accepts in third place; OrWhere has no
      int64 case, so an int64 there falls through to the string assertion. */
  predicate ThirdOk(v: Value, orWhere: bool)
  {
    v.Text? || v.Int? || (v.Int64? && !orWhere) || v.Float? || v.Bool?
  }

  /** Arguments that pass every type assertion: strings everywhere except in
      third place. */
  predicate ArgsOk(args: seq<Value>, orWhere: bool)
  {
    forall i :: 0 <= i < |args| ==> if i == 2 then ThirdOk(args[i], orWhere) else args[i].Text?
  }

  /** The text one argument contributes to the condition. */
  function Term(i: nat, v: Value, orWhere: bool): string
    requires if i == 2 then ThirdOk(v, orWhere) else v.Text?
  {
    if i == 2 then Literal(v) else v.s
  }

  /** paramSlice after the loop over the arguments. */
  function Terms(args: seq<Value>, orWhere: bool): (r: seq<string>)
    requires ArgsOk(args, orWhere)
    ensures |r| == |args| && forall i :: 0 <= i < |args| ==> r[i] == Term(i, args[i], orWhere)
    decreases |args|
  {
    if |args| == 0 then []
    else
      assert ArgsOk(args[..|args| - 1], orWhere);
      Terms(args[..|args| - 1], orWhere) + [Term(|args| - 1, args[|args| - 1], orWhere)]
  }

  /** The condition: the terms with nothing between them. */
  function Condition(args: seq<Value>, orWhere: bool): string
    requires ArgsOk(args, orWhere)
  {
    Join(Terms(args, orWhere), "")
  }

  /** A condition between parentheses. */
  function Paren(c: string): string { "(" + c + ")" }

  /** Where: ` WHERE (cond)` first, then ` AND (cond)` appended. */
  function AndGroup(where: string, cond: string): string
  {
    if |where| > 0 then where + " AND " + Paren(cond) else " WHERE " + Paren(cond)
  }

  /** OrWhere: `WHERE (cond)` first, then ` OR (cond)` appended. */
  function OrGroup(where: string, cond: string): string
  {
    if |where| > 0 then where + " OR " + Paren(cond) else "WHERE " + Paren(cond)
  }

  /** The fragments as Where and OrWhere spell them, with the parenthesis
      inside the connecting literal. */
  lemma GroupSpelling(where: string, cond: string)
    ensures where + " AND (" + cond + ")" == where + " AND " + Paren(cond)
    ensures " WHERE (" + cond + ")" == " WHERE " + Paren(cond)
    ensures where + " OR (" + cond + ")" == where + " OR " + Paren(cond)
    ensures "WHERE (" + cond + ")" == "WHERE " + Paren(cond)
  {
    assert " AND (" == " AND " + "(";
    assert " WHERE (" == " WHERE " + "(";
    assert " OR (" == " OR " + "(";
    assert "WHERE (" == "WHERE " + "(";
  }

  function Parens(conds: seq<string>): (r: seq<string>)
    ensures |r| == |conds| && forall i :: 0 <= i < |conds| ==> r[i] == Paren(conds[i])
  {
    seq(|conds|, i requires 0 <= i < |conds| => Paren(conds[i]))
  }

  /** The where fragment after one Where call per condition, on a query
      with no where fragment yet. */
  function AfterWheres(conds: seq<string>): string
    decreases |conds|
  {
    if |conds| == 0 then "" else AndGroup(AfterWheres(conds[..|conds| - 1]), conds[|conds| - 1])
  }

  /** The same for OrWhere calls. */
  function AfterOrWheres(conds: seq<string>): string
    decreases |conds|
  {
    if |conds| == 0 then "" else OrGroup(AfterOrWheres(conds[..|conds| - 1]), conds[|conds| - 1])
  }

  lemma ParensSnoc(xs: seq<string>, c: string)
    ensures Parens(xs + [c]) == Parens(xs) + [Paren(c)]
  {
    var a, b := Parens(xs + [c]), Parens(xs) + [Paren(c)];
    assert |a| == |b|;
    forall i | 0 <= i < |a|
      ensures a[i] == b[i]
    {
      if i < |xs| {
        assert (xs + [c])[i] == xs[i];
      }
    }
  }

  /** Appending one more part to a prefixed join. */
  lemma ChainStep(kw: string, parts: seq<string>, p: string, sep: string)
    requires |parts| > 0
    ensures kw + Join(parts, sep) + sep + p == kw + Join(parts + [p], sep)
  {
    JoinSnoc(parts, p, sep);
  }

  /** Successive Where calls AND their parenthesised conditions together, in
      call order, behind a leading ` WHERE `. */
  lemma {:induction false} WhereChain(conds: seq<string>)
    requires |conds| > 0
    ensures AfterWheres(conds) == " WHERE " + Join(Parens(conds), " AND ")
    decreases |conds|
  {
    if |conds| > 1 {
      var init := conds[..|conds| - 1];
      WhereChain(init);
      assert conds == init + [conds[|conds| - 1]];
      WhereChainStep(init, conds[|conds| - 1]);
    }
  }

  lemma AfterWheresSnoc(init: seq<string>, c: string)
    ensures AfterWheres(init + [c]) == AndGroup(AfterWheres(init), c)
  {
    assert (init + [c])[..|init|] == init;
  }

  lemma WhereChainStep(init: seq<string>, c: string)
    requires |init| > 0
    requires AfterWheres(init) == " WHERE " + Join(Parens(init), " AND ")
    ensures AfterWheres(init + [c]) == " WHERE " + Join(Parens(init + [c]), " AND ")
  {
    AfterWheresSnoc(init, c);
    assert |AfterWheres(init)| > 0;
    ParensSnoc(init, c);
    ChainStep(" WHERE ", Parens(init), Paren(c), " AND ");
  }

  /** Successive OrWhere calls OR them together behind `WHERE `. */
  lemma {:induction false} OrWhereChain(conds: seq<string>)
    requires |conds| > 0
    ensures AfterOrWheres(conds) == "WHERE " + Join(Parens(conds), " OR ")
    decreases |conds|
  {
    if |conds| > 1 {
      var init := conds[..|conds| - 1];
      OrWhereChain(init);
      assert conds == init + [conds[|conds| - 1]];
      OrWhereChainStep(init, conds[|conds| - 1]);
    }
  }

  lemma AfterOrWheresSnoc(init: seq<string>, c: string)
    ensures AfterOrWheres(init + [c]) == OrGroup(AfterOrWheres(init), c)
  {
    assert (init + [c])[..|init|] == init;
  }

  lemma OrWhereChainStep(init: seq<string>, c: string)
    requires |init| > 0
    requires AfterOrWheres(init) == "WHERE " + Join(Parens(init), " OR ")
    ensures AfterOrWheres(init + [c]) == "WHERE " + Join(Parens(init + [c]), " OR ")
  {
    AfterOrWheresSnoc(init, c);
    assert |AfterOrWheres(init)| > 0;
    ParensSnoc(init, c);
    ChainStep("WHERE ", Parens(init), Paren(c), " OR ");
  }

  /** An inlined int or int64 reads back as the same number. */
  lemma LiteralIntReadsBack(v: Value)
    requires (v.Int? || v.Int64?) && MinInt64 <= v.i <= MaxInt64
    ensures Atoi(Literal(v)) == Parsed(v.i)
  {
    AtoiItoa(v.i);
  }

  /** An inlined string is the string between single quotes. */
  lemma LiteralTextQuoted(s: string)
    ensures var r := Literal(Text(s)); |r| == |s| + 2 && r[0] == '\'' && r[|r| - 1] == '\'' && r[1..|r| - 1] == s
  {
  }

  /** The usual three-argument call: column, operator, value. */
  lemma ConditionOfThree(col: string, op: string, v: Value, orWhere: bool)
    requires ThirdOk(v, orWhere)
    ensures Condition([Text(col), Text(op), v], orWhere) == col + op + Literal(v)
  {
    var ts := Terms([Text(col), Text(op), v], orWhere);
    assert ts == [col, op, Literal(v)];
    assert [col, op] + [Literal(v)] == ts;
    assert [col] + [op] == [col, op];
    JoinSnoc([col], op, "");
    JoinSnoc([col, op], Literal(v), "");
  }

  /** Where("id", "=", 5) yields the condition `id=5`. */
  lemma ConditionExample()
    ensures Condition([Text("id"), Text("="), Int(5)], false) == "id=5"
  {
    ConditionOfThree("id", "=", Int(5), false);
    assert Itoa(5) == "5";
  }

  // ---------------------------------------------------------------------
  // WhereIn and OrWhereIn

  /** One token of the comma list: the decimal value when strconv.Atoi
      accepts it, otherwise the token between single quotes. */
  function RenderToken(p: string): string
  {
    match Atoi(p)
    case Parsed(n) => Itoa(n)
    case _ => "'" + p + "'"
  }

  function RenderTokens(ps: seq<string>): (r: seq<string>)
    ensures |r| == |ps| && forall i :: 0 <= i < |ps| ==> r[i] == RenderToken(ps[i])
  {
    seq(|ps|, i requires 0 <= i < |ps| => RenderToken(ps[i]))
  }

  /** The IN list for a non-empty comma separated value string. */
  function InList(values: string): string
  {
    Join(RenderTokens(Split(values, ',')), ",")
  }

  /** The decimal text of an integer holds no comma and ends in a digit. */
  lemma ItoaShape(n: int)
    ensures var r := Itoa(n); |r| > 0 && ',' !in r && IsDigit(r[|r| - 1])
  {
    var d := if n < 0 then Digits(-n) else Digits(n);
    assert forall i :: 0 <= i < |d| ==> d[i] != ',';
    if n < 0 { assert Itoa(n) == "-" + d; }
  }

  /** A rendered token holds a comma only when the token did, and never ends in one. */
  lemma TokenShape(p: string)
    ensures var r := RenderToken(p); |r| > 0 && r[|r| - 1] != ',' && (',' !in p ==> ',' !in r)
  {
    if Atoi(p).Parsed? { ItoaShape(Atoi(p).n); }
  }

  /** strconv.Atoi only accepts values in the 64-bit range. */
  lemma AtoiParsedInRange(s: string)
    requires Atoi(s).Parsed?
    ensures MinInt64 <= Atoi(s).n <= MaxInt64
  {
  }

  /** A rendered token is numeric exactly when the original token was, and a
      numeric one reads back as the same value. */
  lemma TokenClassified(p: string)
    ensures Atoi(RenderToken(p)).Parsed? <==> Atoi(p).Parsed?
    ensures Atoi(p).Parsed? ==> Atoi(RenderToken(p)) == Atoi(p)
  {
    if Atoi(p).Parsed? {
      AtoiParsedInRange(p);
      AtoiItoa(Atoi(p).n);
    } else {
      var r := "'" + p + "'";
      assert r[0] == '\'';
      assert ScanDigits(r, 0) == BadDigit;
    }
  }

  /** Splitting the IN list at its commas gives back one rendered token per
      original token, in order. */
  lemma InListTokens(values: string)
    ensures Split(InList(values), ',') == RenderTokens(Split(values, ','))
  {
    var ps := Split(values, ',');
    var rs := RenderTokens(ps);
    forall k | 0 <= k < |rs| ensures ',' !in rs[k] { TokenShape(ps[k]); }
    JoinSplit(rs, ',');
  }

  /** The accumulator of the WhereIn loop: each token followed by a comma. */
  function Terminated(toks: seq<string>): string
    decreases |toks|
  {
    if |toks| == 0 then "" else Terminated(toks[..|toks| - 1]) + toks[|toks| - 1] + ","
  }

  /** Every token followed by a comma is the join plus one trailing comma. */
  lemma {:induction false} TerminatedJoin(toks: seq<string>)
    requires |toks| > 0
    ensures Terminated(toks) == Join(toks, ",") + ","
    decreases |toks|
  {
    if |toks| > 1 {
      TerminatedJoin(toks[..|toks| - 1]);
      JoinSnoc(toks[..|toks| - 1], toks[|toks| - 1], ",");
      assert toks[..|toks| - 1] + [toks[|toks| - 1]] == toks;
    } else {
      assert toks[..0] == [];
    }
  }

  /** TrimRight(",") removes exactly the one trailing comma the loop adds,
      because no rendered token ends in a comma. */
  lemma TrimmedInList(values: string)
    ensures TrimRightChar(Terminated(RenderTokens(Split(values, ','))), ',') == InList(values)
  {
    var ts := RenderTokens(Split(values, ','));
    TerminatedJoin(ts);
    var j := Join(ts, ",");
    TokenShape(Split(values, ',')[|ts| - 1]);
    JoinLast(ts, ",");
    assert j[|j| - 1] != ',';
    TrimRightCharNoop(j, ',');
    assert (j + ",")[..|j|] == j;
  }

  /** A join ends with its last part. */
  lemma JoinLast(parts: seq<string>, sep: string)
    requires |parts| > 0 && |parts[|parts| - 1]| > 0
    ensures var j := Join(parts, sep); |j| > 0 && j[|j| - 1] == parts[|parts| - 1][|parts[|parts| - 1]| - 1]
  {
  }

  lemma SplitExample()
    ensures Split("1,2,abc", ',') == ["1", "2", "abc"]
  {
    SplitNoSep("1", ',');
    assert "1,2" == "1" + [','] + "2";
    SplitAfterSep("1", "2", ',');
    assert "1,2,abc" == "1,2" + [','] + "abc";
    SplitAfterSep("1,2", "abc", ',');
  }

  lemma TokenExamples()
    ensures RenderToken("1") == "1" && RenderToken("2") == "2" && RenderToken("abc") == "'abc'"
  {
    assert ScanDigits("1", 0) == AllDigits(1);
    assert ScanDigits("2", 0) == AllDigits(2);
    assert ScanDigits("abc", 0) == BadDigit;
  }

  lemma ThreeTokens(a: string, b: string, c: string)
    ensures Join(RenderTokens([a, b, c]), ",") == RenderToken(a) + "," + RenderToken(b) + "," + RenderToken(c)
  {
    var r := RenderTokens([a, b, c]);
    assert r == [RenderToken(a), RenderToken(b), RenderToken(c)];
    assert r[..2] == [r[0], r[1]];
    assert r[..2][..1] == [r[0]];
    assert Join(r[..2], ",") == r[0] + "," + r[1];
  }

  /** WhereIn("col", "1,2,abc") tests `col IN (1,2,'abc')`: the numbers
      stay bare and the word is quoted. */
  lemma InListExample()
    ensures InClause("col", "1,2,abc") == "col IN (1,2,'abc')"
  {
    SplitExample();
    TokenExamples();
    ThreeTokens("1", "2", "abc");
    ExampleSpelling();
  }

  lemma ExampleSpelling()
    ensures "1" + "," + "2" + "," + "'abc'" == "1,2,'abc'"
    ensures "col" + " IN (" + "1,2,'abc'" + ")" == "col IN (1,2,'abc')"
  {
  }

  /** `col IN (list)`. */
  function InClause(col: string, values: string): string
  {
    col + " IN (" + InList(values) + ")"
  }

  /** WhereIn: `WHERE (sql)` first, then ` AND (sql)` appended. */
  function InGroup(where: string, sql: string): string
  {
    if |where| > 0 then where + " AND (" + sql + ")" else "WHERE (" + sql + ")"
  }

  /** OrWhereIn: one trailing `)` removed and ` OR sql)` appended, or
      `WHERE (sql)` first. */
  function OrInGroup(where: string, sql: string): string
  {
    if |where| > 0 then TrimSuffix(where, ")") + " OR " + sql + ")" else "WHERE (" + sql + ")"
  }

  /** On a where fragment that ends in `)`, OrWhereIn reopens the last group. */
  lemma OrInGroupReopens(where: string, sql: string)
    requires |where| > 0 && where[|where| - 1] == ')'
    ensures OrInGroup(where, sql) == where[..|where| - 1] + " OR " + sql + ")"
  {
    assert where[|where| - 1..] == ")";
  }

  /** WhereIn followed by OrWhereIn puts both tests in one parenthesised group. */
  lemma InThenOrIn(a: string, b: string)
    ensures OrInGroup(InGroup("", a), b) == "WHERE (" + a + " OR " + b + ")"
  {
    var w := InGroup("", a);
    OrInGroupReopens(w, b);
    assert w[..|w| - 1] == "WHERE (" + a;
  }

  // ---------------------------------------------------------------------
  // Joins

  datatype JoinKind = Inner | Left | Right | FullOuter

  function Keyword(k: JoinKind): string
  {
    match k
    case Inner => "INNER JOIN"
    case Left => "LEFT JOIN"
    case Right => "RIGHT JOIN"
    case FullOuter => "FULL OUTER JOIN"
  }

  predicate AllText(args: seq<Value>)
  {
    forall i :: 0 <= i < |args| ==> args[i].Text?
  }

  /** The strings of all-string arguments. */
  function Texts(args: seq<Value>): (r: seq<string>)
    requires AllText(args)
    ensures |r| == |args| && forall i :: 0 <= i < |args| ==> r[i] == args[i].s
  {
    seq(|args|, i requires 0 <= i < |args| => args[i].s)
  }

  /** `KIND JOIN table ON cond`: the first argument names the table and the
      rest are concatenated into the condition. */
  function JoinClause(k: JoinKind, args: seq<Value>): string
    requires AllText(args)
  {
    var table := if |args| > 0 then args[0].s else "";
    var cond := if |args| > 0 then Join(Texts(args[1..]), "") else "";
    Keyword(k) + " " + table + " ON " + cond
  }

  /** A join clause appended after a space, or on its own first. */
  function AddJoin(join: string, clause: string): string
  {
    if |join| > 0 then join + " " + clause else clause
  }

  function AfterJoins(clauses: seq<string>): string
    decreases |clauses|
  {
    if |clauses| == 0 then "" else AddJoin(AfterJoins(clauses[..|clauses| - 1]), clauses[|clauses| - 1])
  }

  /** Join clauses accumulate in call order, separated by single spaces. */
  lemma {:induction false} JoinChain(clauses: seq<string>)
    requires forall i :: 0 <= i < |clauses| ==> |clauses[i]| > 0
    ensures AfterJoins(clauses) == Join(clauses, " ")
    decreases |clauses|
  {
    var n := |clauses|;
    if n > 1 {
      var init := clauses[..n - 1];
      JoinChain(init);
      assert |Join(init, " ")| > 0 by { JoinLast(init, " "); }
      JoinSnoc(init, clauses[n - 1], " ");
      assert init + [clauses[n - 1]] == clauses;
    } else if n == 1 {
      assert clauses[..0] == [];
    }
  }

  // ---------------------------------------------------------------------
  // ORDER BY, GROUP BY, HAVING, LIMIT, OFFSET

  /** `kw + s`, or nothing for an empty `s`. */
  function Prefixed(kw: string, s: string): string
  {
    if s == "" then "" else kw + s
  }

  const OrderBy: string := "ORDER BY "
  const GroupBy: string := "GROUP BY "
  const HavingKw: string := "HAVING "

  /** The shapes Order can leave: nothing, or ORDER BY and a non-empty list. */
  predicate OrderForm(o: string)
  {
    o == "" || (|o| > |OrderBy| && o[..|OrderBy|] == OrderBy)
  }

  /** Every Order call leaves an order fragment of that shape. */
  lemma PrefixedOrderForm(s: string)
    ensures OrderForm(Prefixed(OrderBy, s))
  {
  }

  /** Count's `strings.Replace(order, "ORDER BY ", "", 1)` recovers the list
      Order was given, and Order of that list rebuilds the fragment. */
  lemma OrderRestore(o: string)
    requires OrderForm(o)
    ensures Prefixed(OrderBy, ReplaceFirst(o, OrderBy, "")) == o
  {
    if o != "" {
      var rest := o[|OrderBy|..];
      assert o == OrderBy + rest;
      ReplaceFirstAtFront(OrderBy, rest, "");
    }
  }

  /** The list given to Order comes back out of the fragment. */
  lemma OrderListRecovered(s: string)
    ensures ReplaceFirst(Prefixed(OrderBy, s), OrderBy, "") == s
  {
    if s != "" { ReplaceFirstAtFront(OrderBy, s, ""); }
  }

  /** `LIMIT n` / `OFFSET n` with n in decimal. */
  function NumberClause(kw: string, n: int): string
  {
    kw + " " + Itoa(n)
  }

  /** The number in a LIMIT or OFFSET fragment reads back as itself. */
  lemma NumberClauseReadsBack(kw: string, n: int)
    requires MinInt64 <= n <= MaxInt64
    ensures var c := NumberClause(kw, n); Atoi(c[|kw| + 1..]) == Parsed(n)
  {
    AtoiItoa(n);
    assert NumberClause(kw, n)[|kw| + 1..] == Itoa(n);
  }
}
