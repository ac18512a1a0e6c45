/**
 * How a Query renders (multi-db/mysql/builder.go, QueryString and the small
 * helpers it calls): `trim` for select fields, `table()` and `pk()`, the
 * base clause, the fixed concatenation of the clause fragments and the
 * two-pass space clean-up before the `;`.
 */
module Rendering {
  import opened GoStrings
  import opened Values
  import opened Db

  // ---------------------------------------------------------------------
  // trim: regexp `[\s]+` replaced by one space, then strings.TrimSpace

  /** The leading `\s` characters removed. */
  function SkipReSpace(s: string): (r: string)
    ensures |r| <= |s| && r == s[|s| - |r|..]
    ensures |r| > 0 ==> !IsReSpace(r[0])
    decreases |s|
  {
    if |s| > 0 && IsReSpace(s[0]) then SkipReSpace(s[1..]) else s
  }

  /** No `\s` character other than the space itself. */
  predicate NoControlSpace(s: string)
  {
    forall i :: 0 <= i < |s| ==> !IsReSpace(s[i]) || s[i] == ' '
  }

  /** No two spaces next to each other. */
  predicate NoDoubleSpace(s: string)
  {
    forall i :: 0 <= i < |s| - 1 ==> s[i] != ' ' || s[i + 1] != ' '
  }

  predicate Collapsed(s: string)
  {
    NoControlSpace(s) && NoDoubleSpace(s)
  }

  /** ReplaceAllString(`[\s]+`, " "): every maximal run of `\s` becomes a
      single space; everything else is kept. */
  function Collapse(s: string): (r: string)
    ensures Collapsed(r)
    ensures |s| == 0 <==> |r| == 0
    ensures |s| > 0 && IsReSpace(s[0]) ==> r[0] == ' '
    ensures |s| > 0 && !IsReSpace(s[0]) ==> r[0] == s[0]
    decreases |s|
  {
    if |s| == 0 then ""
    else if IsReSpace(s[0]) then
      var rest := Collapse(SkipReSpace(s[1..]));
      ConsCollapsed(' ', rest);
      " " + rest
    else
      var rest := Collapse(s[1..]);
      ConsCollapsed(s[0], rest);
      [s[0]] + rest
  }

  /** A character in front of collapsed text keeps it collapsed, unless it
      makes a double space or is a `\s` other than the space. */
  lemma ConsCollapsed(c: char, r: string)
    requires Collapsed(r) && (IsReSpace(c) ==> c == ' ')
    requires c == ' ' ==> |r| == 0 || r[0] != ' '
    ensures Collapsed([c] + r)
  {
    var t := [c] + r;
    forall i | 0 <= i < |t| ensures !IsReSpace(t[i]) || t[i] == ' ' {
      if i > 0 { assert t[i] == r[i - 1]; }
    }
    forall i | 0 <= i < |t| - 1 ensures t[i] != ' ' || t[i + 1] != ' ' {
      if i > 0 { assert t[i] == r[i - 1] && t[i + 1] == r[i]; }
    }
  }

  /** A collapsed string is its own collapse. */
  lemma {:induction false} CollapseFixed(s: string)
    requires Collapsed(s)
    ensures Collapse(s) == s
    decreases |s|
  {
    if |s| > 0 {
      var tail := s[1..];
      CollapsedSlice(s, 1, |s|);
      assert tail == s[1..|s|];
      CollapseFixed(tail);
      if IsReSpace(s[0]) {
        SpaceHead(s);
      }
      assert s == [s[0]] + tail;
    }
  }

  /** In collapsed text a `\s` is a lone space: nothing after it is skipped. */
  lemma SpaceHead(s: string)
    requires Collapsed(s) && |s| > 0 && IsReSpace(s[0])
    ensures s[0] == ' ' && SkipReSpace(s[1..]) == s[1..]
  {
    if |s| > 1 {
      assert s[1] != ' ';
      assert !IsReSpace(s[1..][0]);
    }
  }

  /** What `trim` leaves: collapsed, with no Unicode space at either end. */
  predicate Normal(s: string)
  {
    Collapsed(s) && (|s| > 0 ==> !IsUnicodeSpace(s[0]) && !IsUnicodeSpace(s[|s| - 1]))
  }

  /** trim(str) of builder.go. */
  function Trim(s: string): string
  {
    TrimSpace(Collapse(s))
  }

  /** A slice of collapsed text is collapsed. */
  lemma CollapsedSlice(s: string, a: nat, b: nat)
    requires Collapsed(s) && a <= b <= |s|
    ensures Collapsed(s[a..b])
  {
    var t := s[a..b];
    assert forall i :: 0 <= i < |t| ==> t[i] == s[a + i];
  }

  /** Every trimmed select field is normal. */
  lemma TrimNormal(s: string)
    ensures Normal(Trim(s))
  {
    var c := Collapse(s);
    var l := TrimLeftSpace(c);
    CollapsedSlice(c, |c| - |l|, |c|);
    assert l == c[|c| - |l|..|c|];
    var r := TrimRightSpace(l);
    CollapsedSlice(l, 0, |r|);
    assert r == l[0..|r|];
    if |r| > 0 {
      assert r[0] == l[0];
    }
  }

  /** A normal field is left as it is. */
  lemma TrimFixed(s: string)
    requires Normal(s)
    ensures Trim(s) == s
  {
    CollapseFixed(s);
    assert TrimLeftSpace(s) == s;
    assert TrimRightSpace(s) == s;
  }

  /** trim is idempotent. */
  lemma TrimIdempotent(s: string)
    ensures Trim(Trim(s)) == Trim(s)
  {
    TrimNormal(s);
    TrimFixed(Trim(s));
  }

  /** The select list after trimming each field. */
  function TrimEach(sel: seq<string>): (r: seq<string>)
    ensures |r| == |sel| && forall i :: 0 <= i < |sel| ==> r[i] == Trim(sel[i])
  {
    seq(|sel|, i requires 0 <= i < |sel| => Trim(sel[i]))
  }

  /** Every field of the trimmed select list is normal. */
  lemma TrimEachNormal(sel: seq<string>)
    ensures forall i :: 0 <= i < |sel| ==> Normal(TrimEach(sel)[i])
  {
    forall i | 0 <= i < |sel| ensures Normal(TrimEach(sel)[i]) {
      TrimNormal(sel[i]);
    }
  }

  // ---------------------------------------------------------------------
  // table(), pk() and the base clause

  /** table(): the From override when one is set, otherwise the quoted table name. */
  function Table(from: string, tableName: string): string
  {
    if |from| > 0 then from else QuoteField(tableName)
  }

  /** pk(): the quoted primary key. */
  function Pk(primaryKey: string): string
  {
    QuoteField(primaryKey)
  }

  /** The clause fragments and bound arguments of a Query. */
  datatype QueryParts = QueryParts(
    sel: seq<string>,
    from: string,
    update: string,
    join: string,
    where: string,
    group: string,
    having: string,
    order: string,
    limit: string,
    offset: string,
    args: seq<Value>)

  /** The parts of a freshly built Query: everything empty. */
  const EmptyParts := QueryParts([], "", "", "", "", "", "", "", "", "", [])

  /** The base clause: the update template when one is set, otherwise a
      SELECT of the trimmed fields (or of every column) from table(). */
  function Base(tableName: string, p: QueryParts): string
  {
    var t := Table(p.from, tableName);
    if |p.update| > 0 then p.update
    else if |p.sel| == 0 then "SELECT " + t + ".* FROM " + t
    else "SELECT " + Join(TrimEach(p.sel), ",") + " FROM " + t
  }

  /** The eight pieces in the order QueryString formats them. */
  function Pieces(tableName: string, p: QueryParts): seq<string>
  {
    [Base(tableName, p), p.join, p.where, p.group, p.having, p.order, p.limit, p.offset]
  }

  /** The format string of QueryString: the pieces separated by single spaces. */
  function Assemble(tableName: string, p: QueryParts): string
  {
    Join(Pieces(tableName, p), " ")
  }

  /** TrimRight(" "), then Replace("  ", " ", -1), then Replace("   ", " ", -1). */
  function Tidy(s: string): string
  {
    ReplaceAll(ReplaceAll(TrimRightChar(s, ' '), "  ", " "), "   ", " ")
  }

  /** The statement QueryString caches: the tidied pieces and a `;`. */
  function Render(tableName: string, p: QueryParts): string
  {
    Tidy(Assemble(tableName, p)) + ";"
  }

  // ---------------------------------------------------------------------
  // What the clean-up does and does not change

  /** The string with every space removed. */
  function NonSpace(s: string): (r: string)
    ensures ' ' !in r && |r| <= |s|
    decreases |s|
  {
    if |s| == 0 then "" else (if s[0] == ' ' then "" else [s[0]]) + NonSpace(s[1..])
  }

  lemma {:induction false} NonSpaceConcat(a: string, b: string)
    ensures NonSpace(a + b) == NonSpace(a) + NonSpace(b)
    decreases |a|
  {
    if |a| == 0 {
      assert a + b == b;
    } else {
      var head := if a[0] == ' ' then "" else [a[0]];
      assert (a + b)[0] == a[0] && (a + b)[1..] == a[1..] + b;
      NonSpaceConcat(a[1..], b);
      calc {
        NonSpace(a + b);
        head + NonSpace(a[1..] + b);
        head + (NonSpace(a[1..]) + NonSpace(b));
        (head + NonSpace(a[1..])) + NonSpace(b);
        NonSpace(a) + NonSpace(b);
      }
    }
  }

  /** A string of spaces only has no non-space content. */
  lemma {:induction false} NonSpaceOfSpaces(s: string)
    requires forall i :: 0 <= i < |s| ==> s[i] == ' '
    ensures NonSpace(s) == ""
    decreases |s|
  {
    if |s| > 0 { NonSpaceOfSpaces(s[1..]); }
  }

  /** Replacing runs of spaces by spaces keeps every other character, in order. */
  lemma {:induction false} ReplaceSpacesKeepsText(s: string, pat: string)
    requires |pat| > 0 && forall i :: 0 <= i < |pat| ==> pat[i] == ' '
    ensures NonSpace(ReplaceAll(s, pat, " ")) == NonSpace(s)
    decreases |s|
  {
    if |s| < |pat| {
    } else if s[..|pat|] == pat {
      ReplaceSpacesKeepsText(s[|pat|..], pat);
      NonSpaceConcat(" ", ReplaceAll(s[|pat|..], pat, " "));
      NonSpaceOfSpaces(pat);
      assert s == pat + s[|pat|..];
      NonSpaceConcat(pat, s[|pat|..]);
    } else {
      ReplaceSpacesKeepsText(s[1..], pat);
      NonSpaceConcat([s[0]], ReplaceAll(s[1..], pat, " "));
      assert s == [s[0]] + s[1..];
      NonSpaceConcat([s[0]], s[1..]);
    }
  }

  /** The clean-up changes spacing only: the text without spaces is the same. */
  lemma TidyKeepsText(s: string)
    ensures NonSpace(Tidy(s)) == NonSpace(s)
  {
    var t := TrimRightChar(s, ' ');
    assert s == t + s[|t|..];
    NonSpaceConcat(t, s[|t|..]);
    NonSpaceOfSpaces(s[|t|..]);
    ReplaceSpacesKeepsText(t, "  ");
    ReplaceSpacesKeepsText(ReplaceAll(t, "  ", " "), "   ");
  }

  /** The clean-up never leaves a trailing space. */
  lemma TidyNoTrailingSpace(s: string)
    ensures var r := Tidy(s); |r| == 0 || r[|r| - 1] != ' '
  {
    var t := TrimRightChar(s, ' ');
    if |t| > 0 {
      ReplaceAllKeepsLast(t, "  ", ' ');
      ReplaceAllKeepsLast(ReplaceAll(t, "  ", " "), "   ", ' ');
    } else {
      assert ReplaceAll(t, "  ", " ") == "";
    }
  }

  /** Text without a double space is not touched by either replace pass. */
  lemma {:induction false} ReplaceAllNoMatch(s: string, pat: string)
    requires |pat| >= 2 && pat[0] == ' ' && pat[1] == ' ' && NoDoubleSpace(s)
    ensures ReplaceAll(s, pat, " ") == s
    decreases |s|
  {
    if |s| >= |pat| {
      assert s[0] != ' ' || s[1] != ' ';
      assert s[..|pat|][0] == s[0] && s[..|pat|][1] == s[1];
      ReplaceAllNoMatch(s[1..], pat);
      assert s == [s[0]] + s[1..];
    }
  }

  /** Already tidy text is left as it is. */
  lemma TidyNoop(s: string)
    requires NoDoubleSpace(s) && (|s| == 0 || s[|s| - 1] != ' ')
    ensures Tidy(s) == s
  {
    TrimRightCharNoop(s, ' ');
    ReplaceAllNoMatch(s, "  ");
    ReplaceAllNoMatch(s, "   ");
  }

  // ---------------------------------------------------------------------
  // Properties of the rendered statement

  /** The statement ends in exactly one `;`, with no space before it. */
  lemma RenderEnds(tableName: string, p: QueryParts)
    ensures var r := Render(tableName, p);
      |r| > 0 && r[|r| - 1] == ';' && (|r| == 1 || r[|r| - 2] != ' ')
  {
    TidyNoTrailingSpace(Assemble(tableName, p));
  }

  /** Joining with spaces adds only spaces. */
  lemma {:induction false} NonSpaceOfJoin(parts: seq<string>)
    ensures NonSpace(Join(parts, " ")) == NonSpace(Join(parts, ""))
    decreases |parts|
  {
    if |parts| > 1 {
      var init, last := parts[..|parts| - 1], parts[|parts| - 1];
      NonSpaceOfJoin(init);
      NonSpaceConcat(Join(init, " ") + " ", last);
      NonSpaceConcat(Join(init, " "), " ");
      assert NonSpace(" ") == "";
      assert Join(init, "") + "" == Join(init, "");
      NonSpaceConcat(Join(init, ""), last);
    }
  }

  /** Eight pieces joined with no separator are their concatenation. */
  lemma ConcatEight(x1: string, x2: string, x3: string, x4: string, x5: string, x6: string, x7: string, x8: string)
    ensures Join([x1, x2, x3, x4, x5, x6, x7, x8], "") == x1 + x2 + x3 + x4 + x5 + x6 + x7 + x8
  {
    var l1 := [x1];
    var l2 := l1 + [x2];
    var l3 := l2 + [x3];
    var l4 := l3 + [x4];
    var l5 := l4 + [x5];
    var l6 := l5 + [x6];
    var l7 := l6 + [x7];
    JoinSnoc(l1, x2, ""); JoinSnoc(l2, x3, ""); JoinSnoc(l3, x4, "");
    JoinSnoc(l4, x5, ""); JoinSnoc(l5, x6, ""); JoinSnoc(l6, x7, "");
    JoinSnoc(l7, x8, "");
    assert l7 + [x8] == [x1, x2, x3, x4, x5, x6, x7, x8];
  }

  /** Eight pieces joined by single spaces. */
  lemma JoinEight(x1: string, x2: string, x3: string, x4: string, x5: string, x6: string, x7: string, x8: string)
    ensures Join([x1, x2, x3, x4, x5, x6, x7, x8], " ") ==
      x1 + " " + x2 + " " + x3 + " " + x4 + " " + x5 + " " + x6 + " " + x7 + " " + x8
  {
    var l1 := [x1];
    var l2 := l1 + [x2];
    var l3 := l2 + [x3];
    var l4 := l3 + [x4];
    var l5 := l4 + [x5];
    var l6 := l5 + [x6];
    var l7 := l6 + [x7];
    JoinSnoc(l1, x2, " "); JoinSnoc(l2, x3, " "); JoinSnoc(l3, x4, " ");
    JoinSnoc(l4, x5, " "); JoinSnoc(l5, x6, " "); JoinSnoc(l6, x7, " ");
    JoinSnoc(l7, x8, " ");
    assert l7 + [x8] == [x1, x2, x3, x4, x5, x6, x7, x8];
  }

  /** Apart from spacing the statement is the base clause, then join, where,
      group, having, order, limit and offset, in that order, then `;`. */
  lemma RenderOrder(tableName: string, p: QueryParts)
    ensures NonSpace(Render(tableName, p)) ==
      NonSpace(Base(tableName, p) + p.join + p.where + p.group + p.having + p.order + p.limit + p.offset) + ";"
  {
    var b := Base(tableName, p);
    TidyKeepsText(Assemble(tableName, p));
    NonSpaceConcat(Tidy(Assemble(tableName, p)), ";");
    NonSpaceOfJoin(Pieces(tableName, p));
    ConcatEight(b, p.join, p.where, p.group, p.having, p.order, p.limit, p.offset);
    assert NonSpace(";") == ";";
  }

  // ---------------------------------------------------------------------
  // The exact spacing the two replace passes leave

  /** `n` spaces. */
  function Spaces(n: nat): (r: string)
    ensures |r| == n && forall i :: 0 <= i < n ==> r[i] == ' '
  {
    if n == 0 then "" else " " + Spaces(n - 1)
  }

  /** Text with no double space that neither starts nor ends with a space. */
  predicate Word(s: string)
  {
    |s| > 0 && NoDoubleSpace(s) && s[0] != ' ' && s[|s| - 1] != ' '
  }

  lemma SpaceFreeWord(s: string)
    requires |s| > 0 && ' ' !in s
    ensures Word(s)
  {
    assert s[0] in s && s[|s| - 1] in s;
    forall i | 0 <= i < |s| - 1 ensures s[i] != ' ' { assert s[i] in s; }
  }

  /** Two words with one space between them form a word. */
  lemma WordsJoin(a: string, b: string)
    requires Word(a) && Word(b)
    ensures Word(a + " " + b)
  {
    var s := a + " " + b;
    forall i | 0 <= i < |s| - 1 ensures s[i] != ' ' || s[i + 1] != ' ' {
      if i < |a| - 1 {
        assert s[i] == a[i] && s[i + 1] == a[i + 1];
      } else if i == |a| - 1 {
        assert s[i] == a[|a| - 1];
      } else if i == |a| {
        assert s[i + 1] == b[0];
      } else {
        assert s[i] == b[i - |a| - 1] && s[i + 1] == b[i - |a|];
      }
    }
  }

  /** How many spaces a run of `n` spaces keeps after one replace pass
      with a pattern of `k` spaces. */
  function PassRun(n: nat, k: nat): nat
    requires k > 0
  {
    if n >= k then 1 + PassRun(n - k, k) else n
  }

  /** The run a gap of `n` spaces leaves after both passes. */
  function Gap(n: nat): nat
  {
    PassRun(PassRun(n, 2), 3)
  }

  predicate SpacePattern(pat: string)
  {
    |pat| > 0 && forall i :: 0 <= i < |pat| ==> pat[i] == ' '
  }

  /** A match of a space pattern cannot straddle a non-space character, so a
      prefix ending in one is replaced on its own. */
  lemma {:induction false} ReplaceAllSplit(x: string, z: string, pat: string)
    requires SpacePattern(pat) && |x| > 0 && x[|x| - 1] != ' '
    ensures ReplaceAll(x + z, pat, " ") == ReplaceAll(x, pat, " ") + ReplaceAll(z, pat, " ")
    decreases |x|
  {
    var s := x + z;
    var n := |pat|;
    if |s| < n {
      assert ReplaceAll(x, pat, " ") == x && ReplaceAll(z, pat, " ") == z;
    } else if s[..n] == pat {
      assert forall j :: 0 <= j < n ==> s[j] == ' ';
      assert s[|x| - 1] == x[|x| - 1];
      assert |x| > n;
      assert x[..n] == pat;
      assert s[n..] == x[n..] + z;
      ReplaceAllSplit(x[n..], z, pat);
      assert ReplaceAll(s, pat, " ") == " " + ReplaceAll(s[n..], pat, " ");
      assert ReplaceAll(x, pat, " ") == " " + ReplaceAll(x[n..], pat, " ");
      Assoc(" ", ReplaceAll(x[n..], pat, " "), ReplaceAll(z, pat, " "));
    } else if |x| == 1 {
      assert s[1..] == z;
      assert |x| < n || x[..n] != pat;
      assert ReplaceAll(x, pat, " ") == x;
      assert ReplaceAll(s, pat, " ") == [s[0]] + ReplaceAll(z, pat, " ");
      assert [s[0]] == x;
    } else {
      assert s[1..] == x[1..] + z;
      assert |x| < n || x[..n] != pat;
      ReplaceAllSplit(x[1..], z, pat);
      assert ReplaceAll(s, pat, " ") == [s[0]] + ReplaceAll(s[1..], pat, " ");
      assert s[0] == x[0];
      if |x| >= n {
        assert ReplaceAll(x, pat, " ") == [x[0]] + ReplaceAll(x[1..], pat, " ");
      } else {
        assert ReplaceAll(x, pat, " ") == x;
        assert ReplaceAll(x[1..], pat, " ") == x[1..];
        assert x == [x[0]] + x[1..];
      }
      Assoc([x[0]], ReplaceAll(x[1..], pat, " "), ReplaceAll(z, pat, " "));
    }
  }

  /** Concatenation is associative. */
  lemma Assoc(a: string, b: string, c: string)
    ensures a + (b + c) == (a + b) + c
  {
  }

  /** A match at the front is replaced and the scan goes on after it. */
  lemma ReplaceAllAt(pat: string, rest: string, rep: string)
    requires |pat| > 0
    ensures ReplaceAll(pat + rest, pat, rep) == rep + ReplaceAll(rest, pat, rep)
  {
    var s := pat + rest;
    assert s[..|pat|] == pat;
    assert s[|pat|..] == rest;
  }

  /** A character that does not start a match is kept. */
  lemma ReplaceAllSkip(s: string, pat: string, rep: string)
    requires |pat| > 0 && |s| > 0 && (|s| >= |pat| ==> s[..|pat|] != pat)
    ensures ReplaceAll(s, pat, rep) == [s[0]] + ReplaceAll(s[1..], pat, rep)
  {
  }

  /** A space pattern is a run of spaces. */
  lemma PatternSpaces(pat: string)
    requires SpacePattern(pat)
    ensures pat == Spaces(|pat|)
  {
  }

  /** Two runs of spaces in a row are one run. */
  lemma {:induction false} SpacesAdd(a: nat, b: nat, y: string)
    ensures Spaces(a + b) + y == Spaces(a) + (Spaces(b) + y)
  {
    if a > 0 {
      SpacesAdd(a - 1, b, y);
      assert Spaces(a + b) == " " + Spaces(a - 1 + b);
    }
  }

  lemma SpacesSucc(m: nat)
    ensures Spaces(m + 1) == " " + Spaces(m)
  {
  }

  lemma PassRunStep(n: nat, k: nat)
    requires 0 < k <= n
    ensures PassRun(n, k) == PassRun(n - k, k) + 1
  {
  }

  /** A run at least as long as the pattern starts with the pattern. */
  lemma RunFront(n: nat, k: nat, y: string, pat: string)
    requires SpacePattern(pat) && k == |pat| <= n
    ensures Spaces(n) + y == pat + (Spaces(n - k) + y)
  {
    SpacesAdd(k, n - k, y);
    PatternSpaces(pat);
  }

  /** Replacing the pattern at the front adds one space to what follows. */
  lemma RunStep(pat: string, rest: string, tail: string, m: nat)
    requires |pat| > 0 && ReplaceAll(rest, pat, " ") == Spaces(m) + tail
    ensures ReplaceAll(pat + rest, pat, " ") == Spaces(m + 1) + tail
  {
    ReplaceAllAt(pat, rest, " ");
    SpacesSucc(m);
  }

  /** A run shorter than the pattern in front of a non-space is kept. */
  lemma {:induction false} ReplaceAllShortRun(n: nat, y: string, pat: string)
    requires SpacePattern(pat) && n < |pat| && (|y| == 0 || y[0] != ' ')
    ensures ReplaceAll(Spaces(n) + y, pat, " ") == Spaces(n) + ReplaceAll(y, pat, " ")
    decreases n
  {
    if n > 0 {
      ReplaceAllShortRun(n - 1, y, pat);
      ShortRun(n, y, pat);
    } else {
      assert Spaces(n) + y == y;
    }
  }

  /** The inductive step of ReplaceAllShortRun: the first space is kept. */
  lemma ShortRun(n: nat, y: string, pat: string)
    requires SpacePattern(pat) && 0 < n < |pat| && (|y| == 0 || y[0] != ' ')
    requires ReplaceAll(Spaces(n - 1) + y, pat, " ") == Spaces(n - 1) + ReplaceAll(y, pat, " ")
    ensures ReplaceAll(Spaces(n) + y, pat, " ") == Spaces(n) + ReplaceAll(y, pat, " ")
  {
    ShortFront(n, y, pat);
    SkipStep(Spaces(n - 1) + y, pat, ReplaceAll(y, pat, " "), n - 1);
  }

  /** A run shorter than the pattern, then a non-space: no match at the front. */
  lemma ShortFront(n: nat, y: string, pat: string)
    requires SpacePattern(pat) && 0 < n < |pat| && (|y| == 0 || y[0] != ' ')
    ensures Spaces(n) + y == " " + (Spaces(n - 1) + y)
    ensures var s := " " + (Spaces(n - 1) + y); |s| >= |pat| ==> s[..|pat|] != pat
  {
    var s := Spaces(n) + y;
    if |s| >= |pat| {
      assert s[n] == y[0];
      assert s[..|pat|][n] != pat[n];
    }
    SpacesAdd(1, n - 1, y);
    assert Spaces(1) == " ";
  }

  /** A space that does not start a match adds one space to what follows. */
  lemma SkipStep(rest: string, pat: string, tail: string, m: nat)
    requires |pat| > 0 && ReplaceAll(rest, pat, " ") == Spaces(m) + tail
    requires var s := " " + rest; |s| >= |pat| ==> s[..|pat|] != pat
    ensures ReplaceAll(" " + rest, pat, " ") == Spaces(m + 1) + tail
  {
    var s := " " + rest;
    ReplaceAllSkip(s, pat, " ");
    assert s[1..] == rest;
    SpacesSucc(m);
  }

  /** The inductive step of ReplaceAllRun: one match at the front. */
  lemma LongRun(n: nat, y: string, pat: string)
    requires SpacePattern(pat) && |pat| <= n
    requires ReplaceAll(Spaces(n - |pat|) + y, pat, " ")
      == Spaces(PassRun(n - |pat|, |pat|)) + ReplaceAll(y, pat, " ")
    ensures ReplaceAll(Spaces(n) + y, pat, " ") == Spaces(PassRun(n, |pat|)) + ReplaceAll(y, pat, " ")
  {
    var k := |pat|;
    RunFront(n, k, y, pat);
    RunStep(pat, Spaces(n - k) + y, ReplaceAll(y, pat, " "), PassRun(n - k, k));
    PassRunStep(n, k);
  }

  /** A run of `n` spaces in front of a non-space comes out as PassRun(n). */
  lemma {:induction false} ReplaceAllRun(n: nat, y: string, pat: string)
    requires SpacePattern(pat) && (|y| == 0 || y[0] != ' ')
    ensures ReplaceAll(Spaces(n) + y, pat, " ") == Spaces(PassRun(n, |pat|)) + ReplaceAll(y, pat, " ")
    decreases n
  {
    if n >= |pat| {
      ReplaceAllRun(n - |pat|, y, pat);
      LongRun(n, y, pat);
    } else {
      ReplaceAllShortRun(n, y, pat);
    }
  }


  lemma {:induction false} TrimRightSpaces(x: string, n: nat)
    requires |x| > 0 && x[|x| - 1] != ' '
    ensures TrimRightChar(x + Spaces(n), ' ') == x
    decreases n
  {
    if n > 0 {
      assert (x + Spaces(n))[..|x| + n - 1] == x + Spaces(n - 1);
      TrimRightSpaces(x, n - 1);
    } else {
      assert x + Spaces(0) == x;
    }
  }

  /** One replace pass on two words separated by `n` spaces. */
  lemma PassGap(x: string, n: nat, y: string, pat: string)
    requires Word(x) && Word(y) && SpacePattern(pat) && |pat| >= 2
    ensures ReplaceAll(x + Spaces(n) + y, pat, " ") == x + Spaces(PassRun(n, |pat|)) + y
  {
    assert x + Spaces(n) + y == x + (Spaces(n) + y);
    ReplaceAllSplit(x, Spaces(n) + y, pat);
    ReplaceAllNoMatch(x, pat);
    ReplaceAllRun(n, y, pat);
    ReplaceAllNoMatch(y, pat);
  }

  /** Two words separated by `n` spaces and followed by `m` spaces come out
      of the clean-up separated by Gap(n) spaces. */
  lemma TidyGap(x: string, n: nat, y: string, m: nat)
    requires Word(x) && Word(y)
    ensures Tidy(x + Spaces(n) + y + Spaces(m)) == x + Spaces(Gap(n)) + y
  {
    var body := x + Spaces(n) + y;
    TrimRightSpaces(body, m);
    PassGap(x, n, y, "  ");
    PassGap(x, PassRun(n, 2), y, "   ");
  }

  /** A word followed by `m` spaces comes out as the word. */
  lemma TidyWord(x: string, m: nat)
    requires Word(x)
    ensures Tidy(x + Spaces(m)) == x
  {
    TrimRightSpaces(x, m);
    ReplaceAllNoMatch(x, "  ");
    ReplaceAllNoMatch(x, "   ");
  }

  /** The format string spelled out. */
  lemma AssembleSpread(t: string, p: QueryParts)
    ensures Assemble(t, p) == Base(t, p) + " " + p.join + " " + p.where + " " + p.group + " "
      + p.having + " " + p.order + " " + p.limit + " " + p.offset
  {
    JoinEight(Base(t, p), p.join, p.where, p.group, p.having, p.order, p.limit, p.offset);
  }

  /** A format string made of two words and runs of spaces renders as the
      two words separated by the gap the clean-up leaves. */
  lemma RenderTwoWords(t: string, p: QueryParts, x: string, n: nat, y: string, m: nat)
    requires Assemble(t, p) == x + Spaces(n) + y + Spaces(m) && Word(x) && Word(y)
    ensures Render(t, p) == x + Spaces(Gap(n)) + y + ";"
  {
    TidyGap(x, n, y, m);
  }

  /** The gaps that one to eight spaces leave: 1, 1, 2, 2, 1, 1, 2, 2. */
  lemma GapValues()
    ensures Gap(1) == 1 && Gap(2) == 1 && Gap(3) == 2 && Gap(4) == 2
    ensures Gap(5) == 1 && Gap(6) == 1 && Gap(7) == 2 && Gap(8) == 2
  {
  }

  // ---------------------------------------------------------------------
  // Renderings of small queries

  /** No `\s` character at all. */
  predicate NoReSpace(s: string)
  {
    forall i :: 0 <= i < |s| ==> !IsReSpace(s[i])
  }

  /** The default base clause `SELECT <tbl>.* FROM <tbl>` is a word when the
      table name holds no space. */
  lemma StarBaseWord(t: string)
    requires ' ' !in t
    ensures Word("SELECT " + QuoteField(t) + ".* FROM " + QuoteField(t))
  {
    var q := QuoteField(t);
    SpaceFreeWord("SELECT"); SpaceFreeWord(q + ".*"); SpaceFreeWord("FROM"); SpaceFreeWord(q);
    WordsJoin("SELECT", q + ".*");
    WordsJoin("SELECT" + " " + (q + ".*"), "FROM");
    WordsJoin("SELECT" + " " + (q + ".*") + " " + "FROM", q);
    assert "SELECT" + " " + (q + ".*") + " " + "FROM" + " " + q == "SELECT " + q + ".* FROM " + q;
  }

  /** The base clause of a query with no select list, update or From. */
  lemma StarBase(t: string, p: QueryParts)
    requires ' ' !in t && p.update == "" && p.sel == [] && p.from == ""
    ensures Base(t, p) == "SELECT " + QuoteField(t) + ".* FROM " + QuoteField(t)
    ensures Word(Base(t, p))
  {
    StarBaseWord(t);
  }

  /** A non-empty update template is the base clause whatever the select
      list and the From override are. */
  lemma UpdateOverridesSelect(t: string, p: QueryParts, sel: seq<string>, from: string)
    requires |p.update| > 0
    ensures Base(t, p) == p.update && Base(t, p.(sel := sel, from := from)) == p.update
  {
  }

  /** Concatenation regrouped. */
  lemma Regroup(a: string, b: string, c: string, d: string)
    ensures a + (b + c) + d == a + b + c + d
  {
  }

  /** The format strings of the small queries below, with the spaces counted. */
  lemma SpreadNone(b: string)
    ensures b + " " + "" + " " + "" + " " + "" + " " + "" + " " + "" + " " + "" + " " + "" == b + Spaces(7)
  {
  }

  lemma SpreadWhere(b: string, y: string)
    ensures b + " " + "" + " " + (" " + y) + " " + "" + " " + "" + " " + "" + " " + "" + " " + ""
      == b + Spaces(3) + y + Spaces(5)
  {
  }

  lemma SpreadLimit(b: string, y: string)
    ensures b + " " + "" + " " + "" + " " + "" + " " + "" + " " + "" + " " + y + " " + ""
      == b + Spaces(6) + y + Spaces(1)
  {
  }

  lemma SpreadOffset(b: string, y: string)
    ensures b + " " + "" + " " + "" + " " + "" + " " + "" + " " + "" + " " + "" + " " + y
      == b + Spaces(7) + y + Spaces(0)
  {
  }

  lemma SpreadPage(b: string, x: string, y: string)
    ensures b + " " + "" + " " + "" + " " + "" + " " + "" + " " + "" + " " + x + " " + y
      == b + Spaces(6) + (x + " " + y) + Spaces(0)
  {
  }

  /** A query with nothing set renders as `SELECT <tbl>.* FROM <tbl>;`. */
  lemma RenderEmpty(t: string)
    requires ' ' !in t
    ensures Render(t, EmptyParts) == "SELECT " + QuoteField(t) + ".* FROM " + QuoteField(t) + ";"
  {
    var b := Base(t, EmptyParts);
    StarBase(t, EmptyParts);
    AssembleSpread(t, EmptyParts);
    SpreadNone(b);
    TidyWord(b, 7);
  }

  /** A parenthesised condition without a double space is a word. */
  lemma ParenWord(cond: string)
    requires NoDoubleSpace(cond)
    ensures Word("(" + cond + ")")
  {
    var s := "(" + cond + ")";
    forall i | 0 <= i < |s| - 1 ensures s[i] != ' ' || s[i + 1] != ' ' {
      if 0 < i && i + 1 < |s| - 1 {
        assert s[i] == cond[i - 1] && s[i + 1] == cond[i];
      }
    }
  }

  /** The first Where on an empty query leaves two spaces before WHERE,
      because its fragment starts with a space of its own. */
  lemma RenderWhereOnly(t: string, cond: string)
    requires ' ' !in t && NoDoubleSpace(cond)
    ensures Render(t, EmptyParts.(where := " WHERE (" + cond + ")")) ==
      "SELECT " + QuoteField(t) + ".* FROM " + QuoteField(t) + "  " + "WHERE (" + cond + ")" + ";"
  {
    var p := EmptyParts.(where := " WHERE (" + cond + ")");
    var b := Base(t, p);
    var y := "WHERE" + " " + ("(" + cond + ")");
    StarBase(t, p);
    SpaceFreeWord("WHERE");
    ParenWord(cond);
    WordsJoin("WHERE", "(" + cond + ")");
    assert p.where == " " + y;
    AssembleSpread(t, p);
    SpreadWhere(b, y);
    RenderTwoWords(t, p, b, 3, y, 5);
    assert Spaces(Gap(3)) == "  ";
  }

  /** A word made of a keyword, a space and a decimal number. */
  lemma KeywordNumberWord(kw: string, n: int)
    requires |kw| > 0 && ' ' !in kw
    ensures Word(kw + " " + Itoa(n))
  {
    var d := Itoa(n);
    assert |d| > 0 && ' ' !in d by {
      if n < 0 {
        assert d == "-" + Digits(-n);
        var e := Digits(-n);
        assert forall i :: 0 <= i < |e| ==> e[i] != ' ';
      } else {
        assert forall i :: 0 <= i < |Digits(n)| ==> Digits(n)[i] != ' ';
      }
    }
    SpaceFreeWord(kw);
    SpaceFreeWord(d);
    WordsJoin(kw, d);
  }

  /** A lone fragment in the LIMIT slot is separated from the base clause by one space. */
  lemma RenderLimitSlot(t: string, w: string)
    requires ' ' !in t && Word(w)
    ensures Render(t, EmptyParts.(limit := w)) == "SELECT " + QuoteField(t) + ".* FROM " + QuoteField(t) + " " + w + ";"
  {
    var p := EmptyParts.(limit := w);
    var b := Base(t, p);
    StarBase(t, p);
    AssembleSpread(t, p);
    SpreadLimit(b, w);
    RenderTwoWords(t, p, b, 6, w, 1);
    assert Spaces(Gap(6)) == " ";
  }

  /** A lone fragment in the OFFSET slot is separated from the base clause by two spaces. */
  lemma RenderOffsetSlot(t: string, w: string)
    requires ' ' !in t && Word(w)
    ensures Render(t, EmptyParts.(offset := w)) == "SELECT " + QuoteField(t) + ".* FROM " + QuoteField(t) + "  " + w + ";"
  {
    var p := EmptyParts.(offset := w);
    var b := Base(t, p);
    StarBase(t, p);
    AssembleSpread(t, p);
    SpreadOffset(b, w);
    RenderTwoWords(t, p, b, 7, w, 0);
    assert Spaces(Gap(7)) == "  ";
  }

  /** Fragments in both the LIMIT and the OFFSET slot are separated by single spaces. */
  lemma RenderPageSlots(t: string, x: string, y: string)
    requires ' ' !in t && Word(x) && Word(y)
    ensures Render(t, EmptyParts.(limit := x, offset := y)) ==
      "SELECT " + QuoteField(t) + ".* FROM " + QuoteField(t) + " " + x + " " + y + ";"
  {
    var p := EmptyParts.(limit := x, offset := y);
    var b := Base(t, p);
    StarBase(t, p);
    WordsJoin(x, y);
    AssembleSpread(t, p);
    SpreadPage(b, x, y);
    RenderTwoWords(t, p, b, 6, x + " " + y, 0);
    assert Spaces(Gap(6)) == " ";
  }

  /** `LIMIT n` on its own: one space before it. */
  lemma RenderLimitOnly(t: string, n: int)
    requires ' ' !in t
    ensures Render(t, EmptyParts.(limit := "LIMIT " + Itoa(n))) ==
      "SELECT " + QuoteField(t) + ".* FROM " + QuoteField(t) + " " + "LIMIT " + Itoa(n) + ";"
  {
    KeywordNumberWord("LIMIT", n);
    RenderLimitSlot(t, "LIMIT " + Itoa(n));
    Regroup("SELECT " + QuoteField(t) + ".* FROM " + QuoteField(t) + " ", "LIMIT ", Itoa(n), ";");
  }

  /** `OFFSET n` on its own: two spaces before it. */
  lemma RenderOffsetOnly(t: string, n: int)
    requires ' ' !in t
    ensures Render(t, EmptyParts.(offset := "OFFSET " + Itoa(n))) ==
      "SELECT " + QuoteField(t) + ".* FROM " + QuoteField(t) + "  " + "OFFSET " + Itoa(n) + ";"
  {
    KeywordNumberWord("OFFSET", n);
    RenderOffsetSlot(t, "OFFSET " + Itoa(n));
    Regroup("SELECT " + QuoteField(t) + ".* FROM " + QuoteField(t) + "  ", "OFFSET ", Itoa(n), ";");
  }

  /** A page, `LIMIT n OFFSET m`: single spaces throughout. */
  lemma RenderPage(t: string, n: int, m: int)
    requires ' ' !in t
    ensures Render(t, EmptyParts.(limit := "LIMIT " + Itoa(n), offset := "OFFSET " + Itoa(m))) ==
      "SELECT " + QuoteField(t) + ".* FROM " + QuoteField(t) + " " + "LIMIT " + Itoa(n) + " " + "OFFSET " + Itoa(m) + ";"
  {
    var a, c := Itoa(n), Itoa(m);
    var head := "SELECT " + QuoteField(t) + ".* FROM " + QuoteField(t);
    KeywordNumberWord("LIMIT", n);
    KeywordNumberWord("OFFSET", m);
    RenderPageSlots(t, "LIMIT " + a, "OFFSET " + c);
    Regroup(head + " ", "LIMIT ", a, " " + ("OFFSET " + c) + ";");
    Regroup(head + " " + "LIMIT " + a + " ", "OFFSET ", c, ";");
  }

  /** The select part of a one-field query: the three keywords and names
      separated by single spaces, forming one word. */
  lemma OneFieldBase(t: string, field: string)
    requires ' ' !in t && Normal(field)
    ensures Base(t, EmptyParts.(sel := [field])) == "SELECT " + field + " FROM " + QuoteField(t)
  {
    TrimFixed(field);
    assert TrimEach([field]) == [field];
  }

  lemma OneFieldWord(t: string, field: string)
    requires ' ' !in t && Word(field)
    ensures Word("SELECT " + field + " FROM " + QuoteField(t))
  {
    var q := QuoteField(t);
    SpaceFreeWord("SELECT"); SpaceFreeWord("FROM"); SpaceFreeWord(q);
    WordsJoin("SELECT", field);
    WordsJoin("SELECT" + " " + field, "FROM");
    WordsJoin("SELECT" + " " + field + " " + "FROM", q);
    assert "SELECT" + " " + field + " " + "FROM" + " " + q == "SELECT " + field + " FROM " + q;
  }

  /** A query with no part set but a select part that is one word renders
      as that word and a `;`. */
  lemma RenderBaseOnly(t: string, p: QueryParts)
    requires p.join == p.where == p.group == p.having == p.order == p.limit == p.offset == ""
    requires Word(Base(t, p))
    ensures Render(t, p) == Base(t, p) + ";"
  {
    var b := Base(t, p);
    AssembleSpread(t, p);
    SpreadNone(b);
    TidyWord(b, 7);
  }

  /** A select list of one normal field renders as `SELECT <field> FROM <tbl>;`. */
  lemma RenderOneField(t: string, field: string)
    requires ' ' !in t && Normal(field) && Word(field)
    ensures Render(t, EmptyParts.(sel := [field])) == "SELECT " + field + " FROM " + QuoteField(t) + ";"
  {
    OneFieldBase(t, field);
    OneFieldWord(t, field);
    RenderBaseOnly(t, EmptyParts.(sel := [field]));
  }
}
