/**
 * The parts of Go's `strings`, `strconv` and `unicode` packages that the
 * builder calls, written out so that the rest of the model can state what
 * they compute.  A Go string is modelled as the sequence of Unicode code
 * points it decodes to, which is what `unicode.IsSpace` and
 * `strings.TrimSpace` inspect.
 */
module GoStrings {

  // ---------------------------------------------------------------------
  // strings.Join

  /** strings.Join(parts, sep): the parts with `sep` between neighbours. */
  function Join(parts: seq<string>, sep: string): string
  {
    if |parts| == 0 then ""
    else if |parts| == 1 then parts[0]
    else Join(parts[..|parts| - 1], sep) + sep + parts[|parts| - 1]
  }

  /** Joining is associative with the last part split off. */
  lemma JoinSnoc(parts: seq<string>, p: string, sep: string)
    requires |parts| > 0
    ensures Join(parts + [p], sep) == Join(parts, sep) + sep + p
  {
    assert (parts + [p])[..|parts|] == parts;
  }

  /** Joining with no separator is plain concatenation. */
  lemma {:induction false} JoinEmptySep(parts: seq<string>, p: string)
    ensures Join(parts + [p], "") == Join(parts, "") + p
  {
    if |parts| == 0 {
      assert parts + [p] == [p];
    } else {
      JoinSnoc(parts, p, "");
    }
  }

  // ---------------------------------------------------------------------
  // strings.Replace, strings.TrimRight, strings.TrimSuffix, strings.Contains

  /** strings.Replace(s, pat, rep, -1) for a non-empty `pat`: every
      non-overlapping occurrence, scanned from the left, is replaced. */
  function ReplaceAll(s: string, pat: string, rep: string): string
    requires |pat| > 0
    decreases |s|
  {
    if |s| < |pat| then s
    else if s[..|pat|] == pat then rep + ReplaceAll(s[|pat|..], pat, rep)
    else [s[0]] + ReplaceAll(s[1..], pat, rep)
  }

  /** Deleting every copy of a character leaves none behind. */
  lemma {:induction false} ReplaceAllRemovesChar(s: string, c: char)
    ensures c !in ReplaceAll(s, [c], "")
    decreases |s|
  {
    if |s| >= 1 {
      ReplaceAllRemovesChar(s[1..], c);
      if s[..1] != [c] {
        assert s[0] != c;
      }
    }
  }

  /** strings.Replace(s, pat, rep, 1) for a non-empty `pat`: only the
      leftmost occurrence is replaced. */
  function ReplaceFirst(s: string, pat: string, rep: string): string
    requires |pat| > 0
    decreases |s|
  {
    if |s| < |pat| then s
    else if s[..|pat|] == pat then rep + s[|pat|..]
    else [s[0]] + ReplaceFirst(s[1..], pat, rep)
  }

  /** Replacing a string by itself changes nothing. */
  lemma {:induction false} ReplaceFirstSelf(s: string, x: string)
    requires |x| > 0
    ensures ReplaceFirst(s, x, x) == s
    decreases |s|
  {
    if |s| < |x| {
    } else if s[..|x|] == x {
      assert x + s[|x|..] == s[..|x|] + s[|x|..] == s;
    } else {
      ReplaceFirstSelf(s[1..], x);
      assert [s[0]] + s[1..] == s;
    }
  }

  /** A string that starts with `pat` loses exactly that prefix. */
  lemma ReplaceFirstAtFront(pat: string, rest: string, rep: string)
    requires |pat| > 0
    ensures ReplaceFirst(pat + rest, pat, rep) == rep + rest
  {
    assert (pat + rest)[..|pat|] == pat;
    assert (pat + rest)[|pat|..] == rest;
  }

  /** Replacing runs of a character `c` by `c` again cannot change the
      last character of a string that does not end in `c`. */
  lemma {:induction false} ReplaceAllKeepsLast(s: string, pat: string, c: char)
    requires |pat| > 0 && forall i :: 0 <= i < |pat| ==> pat[i] == c
    requires |s| > 0 && s[|s| - 1] != c
    ensures var r := ReplaceAll(s, pat, [c]); |r| > 0 && r[|r| - 1] == s[|s| - 1]
    decreases |s|
  {
    if |s| < |pat| {
    } else if s[..|pat|] == pat {
      assert s[|pat| - 1] == c;
      assert |s| > |pat|;
      ReplaceAllKeepsLast(s[|pat|..], pat, c);
    } else if |s| > 1 {
      ReplaceAllKeepsLast(s[1..], pat, c);
    } else {
      assert |pat| == 1 && s[..1] == [s[0]];
      assert pat == [pat[0]];
    }
  }

  /** strings.TrimRight(s, [c]): all trailing copies of `c` removed. */
  function TrimRightChar(s: string, c: char): (r: string)
    ensures |r| <= |s| && r == s[..|r|]
    ensures |r| > 0 ==> r[|r| - 1] != c
    ensures forall i :: |r| <= i < |s| ==> s[i] == c
    decreases |s|
  {
    if |s| > 0 && s[|s| - 1] == c then TrimRightChar(s[..|s| - 1], c) else s
  }

  /** A string that does not end in `c` is left as it is. */
  lemma TrimRightCharNoop(s: string, c: char)
    requires |s| == 0 || s[|s| - 1] != c
    ensures TrimRightChar(s, c) == s
  {
  }

  /** strings.TrimSuffix(s, suffix): one copy of `suffix` at the end removed. */
  function TrimSuffix(s: string, suffix: string): (r: string)
    ensures r + (if |r| < |s| then suffix else "") == s
  {
    if |s| >= |suffix| && s[|s| - |suffix|..] == suffix then s[..|s| - |suffix|] else s
  }

  /** strings.Contains(s, sub). */
  predicate Contains(s: string, sub: string)
    decreases |s|
  {
    |sub| <= |s| && (s[..|sub|] == sub || (|s| > 0 && Contains(s[1..], sub)))
  }

  /** A string that contains `sub` contains each of its characters. */
  lemma {:induction false} ContainsChars(s: string, sub: string, k: nat)
    requires Contains(s, sub) && k < |sub|
    ensures sub[k] in s
    decreases |s|
  {
    if s[..|sub|] == sub {
      assert s[k] == sub[k];
    } else {
      ContainsChars(s[1..], sub, k);
      assert s[1..] <= s[1..];
      var t := s[1..];
      assert forall c :: c in t ==> c in s;
    }
  }

  // ---------------------------------------------------------------------
  // strings.Split on a one-character separator

  /** strings.Split(s, [sep]): the pieces between the separators; the
      empty string gives one empty piece.  No piece holds the separator. */
  function Split(s: string, sep: char): (r: seq<string>)
    ensures |r| > 0
    ensures forall k :: 0 <= k < |r| ==> sep !in r[k]
    decreases |s|
  {
    if |s| == 0 then [""]
    else
      var init := Split(s[..|s| - 1], sep);
      if s[|s| - 1] == sep then init + [""]
      else init[..|init| - 1] + [init[|init| - 1] + [s[|s| - 1]]]
  }

  /** The pieces join back, with the separator between them, to the input. */
  lemma {:induction false} SplitJoin(s: string, sep: char)
    ensures Join(Split(s, sep), [sep]) == s
    decreases |s|
  {
    if |s| > 0 {
      var t := s[..|s| - 1];
      SplitJoin(t, sep);
      assert s == t + [s[|s| - 1]];
      if s[|s| - 1] == sep {
        JoinSnoc(Split(t, sep), "", [sep]);
      } else {
        SplitJoinPiece(t, s[|s| - 1], sep);
      }
    }
  }

  /** The step of SplitJoin where the last character extends the last piece. */
  lemma SplitJoinPiece(t: string, c: char, sep: char)
    requires c != sep && Join(Split(t, sep), [sep]) == t
    ensures Join(Split(t + [c], sep), [sep]) == t + [c]
  {
    var init := Split(t, sep);
    assert (t + [c])[..|t|] == t;
    var front := init[..|init| - 1];
    var piece := init[|init| - 1] + [c];
    assert init == front + [init[|init| - 1]];
    assert Split(t + [c], sep) == front + [piece];
    if |front| > 0 {
      JoinSnoc(front, init[|init| - 1], [sep]);
      JoinSnoc(front, piece, [sep]);
    }
  }

  /** A string without the separator is a single piece. */
  lemma {:induction false} SplitNoSep(p: string, sep: char)
    requires sep !in p
    ensures Split(p, sep) == [p]
    decreases |p|
  {
    if |p| > 0 {
      var q := p[..|p| - 1];
      assert p[|p| - 1] in p;
      assert sep !in q by { forall i | 0 <= i < |q| ensures q[i] != sep { assert q[i] == p[i]; } }
      SplitNoSep(q, sep);
      assert p == q + [p[|p| - 1]];
    }
  }

  /** What follows the last separator is the last piece. */
  lemma {:induction false} SplitAfterSep(s: string, p: string, sep: char)
    requires sep !in p
    ensures Split(s + [sep] + p, sep) == Split(s, sep) + [p]
    decreases |p|
  {
    if |p| == 0 {
      assert s + [sep] + p == s + [sep];
      assert (s + [sep])[..|s|] == s;
    } else {
      var q := p[..|p| - 1];
      var c := p[|p| - 1];
      assert c in p;
      assert sep !in q by { forall i | 0 <= i < |q| ensures q[i] != sep { assert q[i] == p[i]; } }
      SplitAfterSep(s, q, sep);
      var whole := s + [sep] + p;
      assert whole[..|whole| - 1] == s + [sep] + q;
      assert whole[|whole| - 1] == c;
      assert q + [c] == p;
    }
  }

  /** Joining separator-free pieces and splitting again gives the pieces back. */
  lemma {:induction false} JoinSplit(parts: seq<string>, sep: char)
    requires |parts| > 0 && forall k :: 0 <= k < |parts| ==> sep !in parts[k]
    ensures Split(Join(parts, [sep]), sep) == parts
    decreases |parts|
  {
    if |parts| == 1 {
      SplitNoSep(parts[0], sep);
    } else {
      var init := parts[..|parts| - 1];
      JoinSplit(init, sep);
      SplitAfterSep(Join(init, [sep]), parts[|parts| - 1], sep);
      assert parts == init + [parts[|parts| - 1]];
    }
  }

  // ---------------------------------------------------------------------
  // Whitespace: unicode.IsSpace, RE2's \s, strings.TrimSpace

  /** unicode.IsSpace: the characters with the Unicode White_Space property. */
  predicate IsUnicodeSpace(c: char)
  {
    c == '\t' || c == '\n' || c == '\U{B}' || c == '\U{C}' || c == '\r' || c == ' '
    || c == '\U{85}' || c == '\U{A0}' || c == '\U{1680}'
    || ('\U{2000}' <= c <= '\U{200A}')
    || c == '\U{2028}' || c == '\U{2029}' || c == '\U{202F}' || c == '\U{205F}' || c == '\U{3000}'
  }

  /** The RE2 class `\s`: tab, newline, form feed, carriage return, space. */
  predicate IsReSpace(c: char)
  {
    c == '\t' || c == '\n' || c == '\U{C}' || c == '\r' || c == ' '
  }

  /** Every `\s` character is a Unicode space. */
  lemma ReSpaceIsUnicodeSpace(c: char)
    requires IsReSpace(c)
    ensures IsUnicodeSpace(c)
  {
  }

  /** Leading Unicode white space removed. */
  function TrimLeftSpace(s: string): (r: string)
    ensures |r| <= |s| && r == s[|s| - |r|..]
    ensures |r| > 0 ==> !IsUnicodeSpace(r[0])
    ensures forall i :: 0 <= i < |s| - |r| ==> IsUnicodeSpace(s[i])
    decreases |s|
  {
    if |s| > 0 && IsUnicodeSpace(s[0]) then TrimLeftSpace(s[1..]) else s
  }

  /** Trailing Unicode white space removed. */
  function TrimRightSpace(s: string): (r: string)
    ensures |r| <= |s| && r == s[..|r|]
    ensures |r| > 0 ==> !IsUnicodeSpace(r[|r| - 1])
    ensures forall i :: |r| <= i < |s| ==> IsUnicodeSpace(s[i])
    decreases |s|
  {
    if |s| > 0 && IsUnicodeSpace(s[|s| - 1]) then TrimRightSpace(s[..|s| - 1]) else s
  }

  /** strings.TrimSpace: leading and trailing Unicode white space removed. */
  function TrimSpace(s: string): string
  {
    TrimRightSpace(TrimLeftSpace(s))
  }

  // ---------------------------------------------------------------------
  // strconv.Itoa and strconv.Atoi on a 64-bit platform

  const MaxInt64: int := 0x7fff_ffff_ffff_ffff
  const MinInt64: int := -0x8000_0000_0000_0000
  const MaxUint64: int := 0xffff_ffff_ffff_ffff

  predicate IsDigit(c: char) { '0' <= c <= '9' }

  function DigitChar(d: nat): (c: char)
    requires d < 10
    ensures IsDigit(c) && c as int - '0' as int == d
  {
    ('0' as int + d) as char
  }

  /** The decimal digits of `n`, most significant first, with no leading zero. */
  function Digits(n: nat): (r: string)
    ensures |r| > 0 && (forall i :: 0 <= i < |r| ==> IsDigit(r[i]))
    ensures r[0] == '0' ==> n == 0
    decreases n
  {
    if n < 10 then [DigitChar(n)] else Digits(n / 10) + [DigitChar(n % 10)]
  }

  /** strconv.Itoa / fmt's %d: a minus sign for negative values, then the digits. */
  function Itoa(n: int): string
  {
    if n < 0 then "-" + Digits(-n) else Digits(n)
  }

  /** strconv.Atoi's outcome: a value, a syntax error (value 0) or a range
      error (value clamped to the nearest 64-bit bound). */
  datatype AtoiResult = Parsed(n: int) | SyntaxError | RangeError(clamped: int)
  {
    /** The integer Atoi returns next to its error. */
    function Value(): int
    {
      match this
      case Parsed(n) => n
      case SyntaxError => 0
      case RangeError(c) => c
    }
  }

  /** What strconv.ParseUint's digit loop reports. */
  datatype DigitScan = AllDigits(value: nat) | BadDigit | Overflow

  /** strconv.ParseUint's base-10 loop: a non-digit is a syntax error and a
      partial value above 2^64 - 1 is a range error, whichever comes first. */
  function ScanDigits(s: string, acc: nat): DigitScan
    decreases |s|
  {
    if |s| == 0 then AllDigits(acc)
    else if !IsDigit(s[0]) then BadDigit
    else
      var n := acc * 10 + (s[0] as int - '0' as int);
      if n > MaxUint64 then Overflow else ScanDigits(s[1..], n)
  }

  /** strconv.Atoi: an optional `+` or `-`, then base-10 digits, within the
      signed 64-bit range. */
  function Atoi(s: string): AtoiResult
  {
    if |s| == 0 then SyntaxError
    else
      var neg := s[0] == '-';
      var body := if s[0] == '-' || s[0] == '+' then s[1..] else s;
      if |body| == 0 then SyntaxError
      else match ScanDigits(body, 0)
        case BadDigit => SyntaxError
        case Overflow => RangeError(if neg then MinInt64 else MaxInt64)
        case AllDigits(u) =>
          if !neg && u > MaxInt64 then RangeError(MaxInt64)
          else if neg && u > -MinInt64 then RangeError(MinInt64)
          else Parsed(if neg then -(u as int) else u)
  }

  /** A decimal integer literal: an optional sign, then one or more digits. */
  predicate IsDecimal(s: string)
  {
    var body := if |s| > 0 && (s[0] == '-' || s[0] == '+') then s[1..] else s;
    |body| > 0 && forall i :: 0 <= i < |body| ==> IsDigit(body[i])
  }

  /** The digit loop fails with a syntax error exactly when it meets a
      non-digit before it overflows. */
  lemma {:induction false} ScanDigitsBad(s: string, acc: nat)
    ensures ScanDigits(s, acc).BadDigit? ==> exists i :: 0 <= i < |s| && !IsDigit(s[i])
    ensures ScanDigits(s, acc).AllDigits? ==> forall i :: 0 <= i < |s| ==> IsDigit(s[i])
    decreases |s|
  {
    if |s| > 0 && IsDigit(s[0]) {
      var n := acc * 10 + (s[0] as int - '0' as int);
      if n <= MaxUint64 {
        ScanDigitsBad(s[1..], n);
        if ScanDigits(s, acc).BadDigit? {
          var i :| 0 <= i < |s| - 1 && !IsDigit(s[1..][i]);
          assert !IsDigit(s[i + 1]);
        }
        if ScanDigits(s, acc).AllDigits? {
          forall i | 0 <= i < |s| ensures IsDigit(s[i]) {
            if i > 0 { assert s[i] == s[1..][i - 1]; }
          }
        }
      }
    }
  }

  /** Only a decimal literal parses. */
  lemma AtoiParsedIsDecimal(s: string)
    requires Atoi(s).Parsed?
    ensures IsDecimal(s)
  {
    var body := if s[0] == '-' || s[0] == '+' then s[1..] else s;
    ScanDigitsBad(body, 0);
  }

  function Pow10(k: nat): (r: nat)
    ensures r >= 1
  {
    if k == 0 then 1 else 10 * Pow10(k - 1)
  }

  /** Scanning the digits of `n` after a partial value `acc` continues
      with `acc` shifted left by those digits, plus `n`. */
  lemma {:induction false} ScanDigitsOfDigits(n: nat, rest: string, acc: nat)
    requires acc * Pow10(|Digits(n)|) + n <= MaxUint64
    ensures ScanDigits(Digits(n) + rest, acc) == ScanDigits(rest, acc * Pow10(|Digits(n)|) + n)
    decreases n
  {
    if n < 10 {
      assert Digits(n) + rest == [DigitChar(n)] + rest;
      assert ([DigitChar(n)] + rest)[1..] == rest;
    } else {
      var d := DigitChar(n % 10);
      var L := |Digits(n / 10)|;
      assert |Digits(n)| == L + 1;
      assert Pow10(L + 1) == 10 * Pow10(L);
      assert Digits(n) + rest == Digits(n / 10) + ([d] + rest);
      var v := acc * Pow10(L) + n / 10;
      assert v * 10 + n % 10 == acc * Pow10(L + 1) + n by {
        assert acc * (10 * Pow10(L)) == (acc * Pow10(L)) * 10;
      }
      ScanDigitsOfDigits(n / 10, [d] + rest, acc);
      assert ([d] + rest)[0] == d && ([d] + rest)[1..] == rest;
    }
  }

  /** Atoi reads back what Itoa writes, for every 64-bit value. */
  lemma AtoiItoa(n: int)
    requires MinInt64 <= n <= MaxInt64
    ensures Atoi(Itoa(n)) == Parsed(n)
  {
    var m: nat := if n < 0 then -n else n;
    ScanDigitsOfDigits(m, "", 0);
    assert Digits(m) + "" == Digits(m);
    if n < 0 {
      assert Itoa(n)[1..] == Digits(m);
    }
  }

  /** A short decimal literal always parses, so on strings of fewer than
      19 characters Atoi succeeds exactly on decimal literals. */
  lemma ShortDecimalParses(s: string)
    requires IsDecimal(s) && |s| < 19
    ensures Atoi(s).Parsed?
  {
    var body := if s[0] == '-' || s[0] == '+' then s[1..] else s;
    ScanShort(body, 0);
    Pow10Eighteen();
  }

  lemma {:induction false} Pow10Monotone(a: nat, b: nat)
    requires a <= b
    ensures Pow10(a) <= Pow10(b)
    decreases b
  {
    if a < b { Pow10Monotone(a, b - 1); }
  }

  lemma Pow10Eighteen()
    ensures Pow10(18) == 1_000_000_000_000_000_000
  {
    assert Pow10(6) == 1_000_000;
    assert Pow10(12) == 1_000_000_000_000;
  }

  /** One more digit after a value below 10^k gives a value below 10^(k + 1),
      which for k < 18 is still a valid unsigned 64-bit value. */
  lemma DigitStep(acc: nat, d: int, k: nat)
    requires acc < Pow10(k) && 0 <= d <= 9 && k < 18
    ensures acc * 10 + d < Pow10(k + 1) && acc * 10 + d <= MaxUint64
  {
    Pow10Monotone(k + 1, 18);
    Pow10Eighteen();
  }

  /** Scanning at most 18 digits never overflows. */
  lemma {:induction false} ScanShort(s: string, acc: nat)
    requires |s| <= 18 && forall i :: 0 <= i < |s| ==> IsDigit(s[i])
    requires acc < Pow10(18 - |s|)
    ensures ScanDigits(s, acc).AllDigits? && ScanDigits(s, acc).value < Pow10(18)
    decreases |s|
  {
    if |s| > 0 {
      var d := s[0] as int - '0' as int;
      assert IsDigit(s[0]);
      DigitStep(acc, d, 18 - |s|);
      var tail := s[1..];
      assert forall i :: 0 <= i < |tail| ==> IsDigit(tail[i]);
      var n := acc * 10 + d;
      ScanStep(s, acc, n);
      ScanShort(tail, n);
    }
  }

  /** A digit that does not overflow moves the scan one character on. */
  lemma ScanStep(s: string, acc: nat, n: nat)
    requires |s| > 0 && IsDigit(s[0]) && n == acc * 10 + (s[0] as int - '0' as int) <= MaxUint64
    ensures ScanDigits(s, acc) == ScanDigits(s[1..], n)
  {
  }

  // ---------------------------------------------------------------------
  // Go's ordering of strings: byte-wise lexicographic

  /** `a < b` on Go strings. */
  predicate Less(a: string, b: string)
    decreases |a|
  {
    if |a| == 0 then |b| > 0
    else if |b| == 0 then false
    else if a[0] != b[0] then a[0] < b[0]
    else Less(a[1..], b[1..])
  }

  lemma {:induction false} LessIrreflexive(a: string)
    ensures !Less(a, a)
    decreases |a|
  {
    if |a| > 0 { LessIrreflexive(a[1..]); }
  }

  lemma {:induction false} LessAsymmetric(a: string, b: string)
    ensures Less(a, b) ==> !Less(b, a)
    decreases |a|
  {
    if |a| > 0 && |b| > 0 && a[0] == b[0] { LessAsymmetric(a[1..], b[1..]); }
  }

  lemma {:induction false} LessTransitive(a: string, b: string, c: string)
    requires Less(a, b) && Less(b, c)
    ensures Less(a, c)
    decreases |a|
  {
    if |a| > 0 && a[0] == b[0] && b[0] == c[0] { LessTransitive(a[1..], b[1..], c[1..]); }
  }

  lemma {:induction false} LessTotal(a: string, b: string)
    requires a != b
    ensures Less(a, b) || Less(b, a)
    decreases |a|
  {
    if |a| > 0 && |b| > 0 && a[0] == b[0] {
      assert a == [a[0]] + a[1..] && b == [b[0]] + b[1..];
      LessTotal(a[1..], b[1..]);
    }
  }
}
