/** Which names the file manager gives, which it recognises and what it reads from them, exactly. */
module FileNamesExact {
  import opened Common
  import opened FileNames

  // ---------------------------------------------------------------- the names given

  lemma NamesSpelledOut()
    ensures GenerateFileName("app", 42, true) == "app.log"
    ensures GenerateFileName("app", 42, false) == "app_42.log"
    ensures HistoryName("app", 7) == "app.7.log"
  {
    assert Decimal(4) == "4";
    assert Decimal(42) == "42" && Decimal(7) == "7";
  }

  /** Processes that are not first get a name each, and none gets the first one's. */
  lemma ProcessNamesDiffer(base: string, p: nat, q: nat)
    ensures GenerateFileName(base, p, false) != GenerateFileName(base, q, true)
    ensures p != q ==> GenerateFileName(base, p, false) != GenerateFileName(base, q, false)
  {
    var f, g := PidName(base, p), PidName(base, q);
    assert f[|base|] == '_' && LiveName(base)[|base|] == '.';
    assert f[|base| + 1..|f| - 4] == Decimal(p) && g[|base| + 1..|g| - 4] == Decimal(q);
    DecimalValue(p);
    DecimalValue(q);
  }

  /** The bare name of a path is what follows its last slash, if any. */
  lemma {:induction false} BareName(dir: string, f: string)
    requires '/' !in f
    ensures FileName(f) == f && FileName(dir + "/" + f) == f
  {
    var path := dir + "/" + f;
    assert path[|dir|] == '/';
    if dir == "" {
      assert path[1..] == f;
    } else {
      assert path[1..] == dir[1..] + "/" + f;
      BareName(dir[1..], f);
    }
  }

  /** Making a path absolute keeps its bare name, and changes nothing else about an absolute one. */
  lemma AbsoluteKeepsName(cwd: string, dir: string, f: string)
    requires '/' !in f
    ensures FileName(Absolute(cwd, f)) == f
    ensures FileName(Absolute(cwd, dir + "/" + f)) == f
    ensures Absolute(cwd, "/" + f) == "/" + f
  {
    BareName(cwd, f);
    BareName(dir, f);
    BareName(cwd + "/" + dir, f);
    assert cwd + "/" + (dir + "/" + f) == cwd + "/" + dir + "/" + f;
  }

  // ---------------------------------------------------------------- the names recognised

  /** After base and a dot, f goes on with digits up to the dot at k. */
  predicate NumberUpTo(base: string, f: string, k: nat) {
    && |base| + 1 < k < |f|
    && f[..|base| + 1] == base + "."
    && f[k] == '.'
    && forall i | |base| + 1 <= i < k :: IsDigit(f[i])
  }

  ghost predicate Numbered(base: string, f: string) {
    exists k: nat :: NumberUpTo(base, f, k)
  }

  /** The first ".log" of f is its end. */
  predicate EndsInFirstLog(f: string) {
    && |f| >= 4 && OccursAt(f, ".log", |f| - 4)
    && forall j | 0 <= j < |f| - 4 :: !OccursAt(f, ".log", j)
  }

  lemma FoundAtFront(s: string, pat: string)
    ensures Find(s, pat) == 0 <==> OccursAt(s, pat, 0)
  {
    if OccursAt(s, pat, 0) {
      FindIs(s, pat, 0, 0);
    }
  }

  lemma DotAt(s: string, j: nat)
    ensures OccursAt(s, ".", j) <==> j < |s| && s[j] == '.'
  {
    if j + 1 <= |s| {
      assert s[j..j + 1] == [s[j]];
    }
  }

  /** The test of the extension: a wrapped length stands for the three characters before the end of
      the numbers, so a name of three characters passes without one. */
  lemma ExtensionTest(f: string)
    requires |f| < NPOS
    ensures Find(f, ".log") == WordSub(|f|, 4) <==> EndsInFirstLog(f) || |f| == 3
  {
    if |f| < 4 {
      assert forall j | 0 <= j <= |f| :: !OccursAt(f, ".log", j);
      FindNothing(f, ".log", 0);
    } else if EndsInFirstLog(f) {
      FindIs(f, ".log", 0, |f| - 4);
    } else if Find(f, ".log") == |f| - 4 {
      forall j | 0 <= j < |f| - 4 ensures !OccursAt(f, ".log", j) {
        if OccursAt(f, ".log", j) {
          FindNotPast(f, ".log", 0, j);
        }
      }
    }
  }

  lemma NumberedStarts(base: string, f: string)
    ensures Numbered(base, f) ==> OccursAt(f, base + ".", 0)
  {
    assert |base| + 1 <= |f| ==> f[0..|base| + 1] == f[..|base| + 1];
  }

  lemma DigitsUpToDot(base: string, f: string)
    requires OccursAt(f, base + ".", 0) && |f| < NPOS
    ensures var remaining := f[|base| + 1..];
      var dot := Find(remaining, ".");
      Numbered(base, f) <==> dot != NPOS && remaining[..dot] != [] && forall c | c in remaining[..dot] :: IsDigit(c)
  {
    var remaining, start := f[|base| + 1..], |base| + 1;
    var dot := Find(remaining, ".");
    if dot != NPOS && remaining[..dot] != [] && forall c | c in remaining[..dot] :: IsDigit(c) {
      DotAt(remaining, dot);
      forall i | start <= i < start + dot ensures IsDigit(f[i]) {
        assert remaining[..dot][i - start] == f[i];
      }
      assert NumberUpTo(base, f, start + dot);
    }
    if Numbered(base, f) {
      var k: nat :| NumberUpTo(base, f, k);
      var d := k - start;
      forall j | 0 <= j < d ensures !OccursAt(remaining, ".", j) {
        DotAt(remaining, j);
        assert remaining[j] == f[start + j] && IsDigit(f[start + j]);
      }
      DotAt(remaining, d);
      FindIs(remaining, ".", 0, d);
      forall c | c in remaining[..d] ensures IsDigit(c) {
        var j :| 0 <= j < d && remaining[..d][j] == c;
        assert c == f[start + j];
      }
    }
  }

  /** Recognition, exactly, of any name: base, a dot, digits and another dot, and the first ".log" at
      the end - or nothing after that dot, in a name of three characters. */
  lemma RecognisedExactly(base: string, f: string)
    requires |f| < NPOS
    ensures IsHistoricalLogFile(f, base + ".") <==> Numbered(base, f) && (EndsInFirstLog(f) || |f| == 3)
  {
    FoundAtFront(f, base + ".");
    ExtensionTest(f);
    if OccursAt(f, base + ".", 0) {
      DigitsUpToDot(base, f);
    }
    NumberedStarts(base, f);
  }

  /** What is listed is numbered, for names of any length. */
  lemma ListedIsNumbered(base: string, path: string)
    ensures IsListed(path, base) ==> Numbered(base, FileName(path))
  {
    var f := FileName(path);
    FoundAtFront(f, base + ".");
    if IsListed(path, base) {
      var remaining, start := f[|base| + 1..], |base| + 1;
      var dot := Find(remaining, ".");
      DotAt(remaining, dot);
      assert f[0..start] == f[..start];
      forall i | start <= i < start + dot ensures IsDigit(f[i]) {
        assert remaining[..dot][i - start] == f[i];
      }
      assert NumberUpTo(base, f, start + dot);
    }
  }

  /** So for every base that is not empty, the extension is required. */
  lemma RecognisedIffNumbered(base: string, f: string)
    requires |f| < NPOS && base != ""
    ensures IsHistoricalLogFile(f, base + ".") <==> Numbered(base, f) && EndsInFirstLog(f)
  {
    RecognisedExactly(base, f);
  }

  /** For the empty base it is not. */
  lemma RecognisedWithoutExtension()
    ensures IsHistoricalLogFile(".1.", "" + ".") && !EndsInFirstLog(".1.")
  {
    var f := ".1.";
    assert f[..1] == "" + ".";
    assert NumberUpTo("", f, 2);
    RecognisedExactly("", f);
  }

  // ---------------------------------------------------------------- the numbers read

  /** The six spaces of the C locale. */
  lemma SpacesAreSix(c: char)
    ensures IsSpace(c) <==> c in {' ', '\t', '\n', '\r', 11 as char, 12 as char}
  {
  }

  predicate AllOf(s: string, p: char -> bool) {
    forall c | c in s :: p(c)
  }

  lemma {:induction false} SpacesSkipped(spaces: string, t: string)
    requires AllOf(spaces, c => IsSpace(c)) && (t == [] || !IsSpace(t[0]))
    ensures SkipSpaces(spaces + t) == t
  {
    if spaces == [] {
      assert spaces + t == t;
    } else {
      assert spaces[0] in spaces;
      assert (spaces + t)[1..] == spaces[1..] + t;
      SpacesSkipped(spaces[1..], t);
    }
  }

  lemma {:induction false} DigitsRead(digits: string, rest: string)
    requires AllOf(digits, c => IsDigit(c)) && (rest == [] || !IsDigit(rest[0]))
    ensures LeadingDigits(digits + rest) == digits
  {
    if digits == [] {
      assert digits + rest == rest;
    } else {
      assert digits[0] in digits;
      assert (digits + rest)[1..] == digits[1..] + rest;
      DigitsRead(digits[1..], rest);
    }
  }

  /** What `stoi` makes of spaces, a sign, digits and a rest: the signed value, or an exception when
      there is no digit or the value is no `int`. */
  lemma StoiExactly(spaces: string, sign: string, digits: string, rest: string)
    requires AllOf(spaces, c => IsSpace(c)) && sign in {"", "+", "-"} && AllOf(digits, c => IsDigit(c))
    requires rest == [] || !IsDigit(rest[0])
    requires sign == "" && digits == "" && rest != [] ==> !IsSpace(rest[0]) && rest[0] !in "+-"
    ensures var v := if sign == "-" then -(ValueOf(digits) as int) else ValueOf(digits);
      Stoi(spaces + (sign + (digits + rest)))
      == if digits != "" && INT_MIN <= v <= INT_MAX then Some(v) else None
  {
    var t := sign + (digits + rest);
    DigitsRead(digits, rest);
    assert digits != "" ==> digits[0] in digits;
    SpacesSkipped(spaces, t);
    if sign == "" {
      assert t == digits + rest;
    } else {
      assert t[1..] == digits + rest;
    }
  }

  /** Digits that are no decimal numeral of ours still have a value: zeros in front do not count. */
  lemma {:induction false} LeadingZero(digits: string)
    requires AllOf(digits, c => IsDigit(c))
    ensures AllOf("0" + digits, c => IsDigit(c)) && ValueOf("0" + digits) == ValueOf(digits)
  {
    var all := "0" + digits;
    if digits == [] {
      assert all[..0] == [];
    } else {
      var init := digits[..|digits| - 1];
      assert all[..|all| - 1] == "0" + init;
      LeadingZero(init);
    }
  }

  /** And digits without a zero in front are the numeral of their value. */
  lemma {:induction false} ValueDecimal(digits: string)
    requires digits != "" && AllOf(digits, c => IsDigit(c)) && (digits[0] == '0' ==> |digits| == 1)
    ensures Decimal(ValueOf(digits)) == digits
    ensures |digits| > 1 ==> ValueOf(digits) >= 10
  {
    var init, last := digits[..|digits| - 1], digits[|digits| - 1];
    assert last in digits;
    if |digits| == 1 {
      assert init == [];
    } else {
      ValueDecimal(init);
      assert init[0] == digits[0];
      assert ValueOf(init) > 0;
      assert digits == init + [last];
    }
  }

  lemma LastDotOf(a: string, e: string)
    requires '.' !in e && |a + "." + e| < NPOS
    ensures FindLastDot(a + "." + e, NPOS) == |a|
  {
    var f := a + "." + e;
    forall j | |a| < j < |f| ensures f[j] != '.' {
      assert f[j] == e[j - |a| - 1];
    }
    LastDotIs(f, |f| - 1, |a|);
  }

  /** The number of a name with two dots or more is what stands between the last two. */
  lemma ReadBetweenDots(a: string, d: string, e: string)
    requires '.' !in d && '.' !in e && |a + "." + d + "." + e| < NPOS
    ensures ExtractSequenceNumber(a + "." + d + "." + e) == StoiOr(d, -1)
  {
    var f := a + "." + d + "." + e;
    var last := |a + "." + d|;
    LastDotOf(a + "." + d, e);
    forall j | |a| < j <= last - 1 ensures f[j] != '.' {
      assert f[j] == d[j - |a| - 1];
    }
    assert f[|a|] == '.';
    LastDotIs(f, last - 1, |a|);
    ExtractBetweenDots(f, last, |a|);
    assert f[|a| + 1..last] == d;
  }

  lemma {:induction false} NoDotUpTo(s: string, i: nat)
    requires i < |s| && forall j | 0 <= j <= i :: s[j] != '.'
    ensures LastDotUpTo(s, i) == NPOS
  {
    if i > 0 {
      NoDotUpTo(s, i - 1);
    }
  }

  /** With fewer there is none - except that a lone dot in front counts twice. */
  lemma ReadWithoutDots(a: string, e: string)
    requires '.' !in a && '.' !in e && |a + "." + e| < NPOS
    ensures ExtractSequenceNumber(a) == -1
    ensures ExtractSequenceNumber(a + "." + e) == if a == "" then StoiOr(e, -1) else -1
  {
    if a != "" {
      NoDotUpTo(a, |a| - 1);
    }
    var f := a + "." + e;
    LastDotOf(a, e);
    if a == "" {
      assert FindLastDot(f, WordSub(0, 1)) == 0;
      assert f[1..] == e;
    } else {
      NoDotUpTo(f, |a| - 1);
    }
  }

  /** A number too large for `int` is listed, and read as -1: the oldest of all. */
  lemma HugeNumberIsOldest(base: string, digits: string)
    requires AllOf(digits, c => IsDigit(c)) && digits != "" && ValueOf(digits) > INT_MAX
    requires |base + "." + digits + "." + "log"| < NPOS
    ensures ExtractSequenceNumber(base + "." + digits + "." + "log") == -1
  {
    assert '.' !in digits;
    ReadBetweenDots(base, digits, "log");
    assert "" + ("" + (digits + "")) == digits;
    StoiExactly("", "", digits, "");
  }
}
