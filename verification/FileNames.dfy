/** The names of log files: how they are formed, recognised and read back. */
module FileNames {
  import opened Common

  const NPOS: nat := WORD - 1
  const INT_MAX: int := 0x7FFF_FFFF
  const INT_MIN: int := -0x8000_0000

  // ---------------------------------------------------------------- std::string

  predicate OccursAt(s: string, pat: string, i: nat) {
    i + |pat| <= |s| && s[i..i + |pat|] == pat
  }

  predicate Contains(s: string, pat: string) {
    exists i | 0 <= i <= |s| :: OccursAt(s, pat, i)
  }

  /** `s.find(pat, i)`. */
  function FindFrom(s: string, pat: string, i: nat): (r: nat)
    ensures r == NPOS || (i <= r && OccursAt(s, pat, r))
    decreases |s| - i
  {
    if i + |pat| > |s| then NPOS else if OccursAt(s, pat, i) then i else FindFrom(s, pat, i + 1)
  }

  /** `s.find(pat)`. */
  function Find(s: string, pat: string): (r: nat) {
    FindFrom(s, pat, 0)
  }

  function LastDotUpTo(s: string, i: nat): (r: nat)
    requires i < |s|
    ensures r == NPOS || (r <= i && s[r] == '.')
  {
    if s[i] == '.' then i else if i == 0 then NPOS else LastDotUpTo(s, i - 1)
  }

  /** `s.find_last_of('.', pos)`. */
  function FindLastDot(s: string, pos: nat): nat {
    if s == [] then NPOS else LastDotUpTo(s, if pos < |s| then pos else |s| - 1)
  }

  /** `s.substr(pos, n)` for a position within the string. */
  function Substr(s: string, pos: nat, n: nat): string
    requires pos <= |s|
  {
    if pos + n <= |s| then s[pos..pos + n] else s[pos..]
  }

  predicate IsDigit(c: char) {
    '0' <= c <= '9'
  }

  predicate IsSpace(c: char) {
    c == ' ' || '\t' <= c <= '\r'
  }

  function SkipSpaces(s: string): string {
    if s != [] && IsSpace(s[0]) then SkipSpaces(s[1..]) else s
  }

  function LeadingDigits(s: string): (digits: string)
    ensures forall c | c in digits :: IsDigit(c)
  {
    if s != [] && IsDigit(s[0]) then [s[0]] + LeadingDigits(s[1..]) else []
  }

  function ValueOf(digits: string): nat
    requires forall c | c in digits :: IsDigit(c)
  {
    if digits == [] then 0
    else
      var last := digits[|digits| - 1];
      assert last in digits && IsDigit(last);
      10 * ValueOf(digits[..|digits| - 1]) + (last - '0') as nat
  }

  /** `std::stoi`: optional spaces and sign, then digits; anything may follow. None stands for
      the exceptions it throws: no digits, or a value outside `int`. */
  function Stoi(s: string): Option<int> {
    var t := SkipSpaces(s);
    var negative := t != [] && t[0] == '-';
    var digits := LeadingDigits(if t != [] && (t[0] == '-' || t[0] == '+') then t[1..] else t);
    if digits == [] then None
    else
      var v := if negative then -(ValueOf(digits) as int) else ValueOf(digits);
      if INT_MIN <= v <= INT_MAX then Some(v) else None
  }

  function StoiOr(s: string, otherwise: int): int {
    match Stoi(s)
    case Some(n) => n
    case None => otherwise
  }

  /** A non-negative number as `std::format` prints it. */
  function Decimal(n: nat): (digits: string)
    ensures digits != [] && forall c | c in digits :: IsDigit(c)
  {
    var last := ['0' + (n % 10) as char];
    if n < 10 then last else Decimal(n / 10) + last
  }

  // ---------------------------------------------------------------- the file manager's names

  function LiveName(base: string): string {
    base + ".log"
  }

  function PidName(base: string, pid: nat): string {
    base + "_" + Decimal(pid) + ".log"
  }

  function GenerateFileName(base: string, pid: nat, firstProcess: bool): string {
    if firstProcess then LiveName(base) else PidName(base, pid)
  }

  function HistoryName(base: string, n: nat): string {
    base + "." + Decimal(n) + ".log"
  }

  /** The number between the last two dots, or -1. */
  function ExtractSequenceNumber(filename: string): int {
    var last := FindLastDot(filename, NPOS);
    if last == NPOS then -1
    else
      var second := FindLastDot(filename, WordSub(last, 1));
      if second == NPOS then -1
      else StoiOr(Substr(filename, second + 1, WordSub(last, second + 1)), -1)
  }

  predicate IsHistoricalLogFile(filename: string, pattern: string) {
    if Find(filename, pattern) != 0 || Find(filename, ".log") != WordSub(|filename|, 4) then false
    else
      var remaining := filename[|pattern|..];
      var dot := Find(remaining, ".");
      if dot == NPOS then false
      else remaining[..dot] != [] && forall c | c in remaining[..dot] :: IsDigit(c)
  }

  /** The part of a path after its last slash. */
  function FileName(path: string): (f: string)
    ensures '/' !in f && |f| <= |path|
  {
    if '/' !in path then path else FileName(path[1..])
  }

  /** A path made absolute from the working directory. */
  function Absolute(cwd: string, path: string): (absolute: string)
    ensures '/' in absolute
  {
    if path != [] && path[0] == '/' then path
    else
      assert (cwd + "/")[|cwd|] == '/';
      cwd + "/" + path
  }

  /** How a directory entry is judged: its bare name against the base as it stands. */
  predicate IsListed(path: string, base: string) {
    IsHistoricalLogFile(FileName(path), base + ".")
  }

  // ---------------------------------------------------------------- searching

  lemma {:induction false} FindIs(s: string, pat: string, i: nat, k: nat)
    requires i <= k && OccursAt(s, pat, k) && forall j | i <= j < k :: !OccursAt(s, pat, j)
    ensures FindFrom(s, pat, i) == k
    decreases k - i
  {
    if i < k {
      FindIs(s, pat, i + 1, k);
    }
  }

  lemma {:induction false} FindNothing(s: string, pat: string, i: nat)
    requires forall j | i <= j <= |s| :: !OccursAt(s, pat, j)
    ensures FindFrom(s, pat, i) == NPOS
    decreases |s| - i
  {
    if i + |pat| <= |s| {
      FindNothing(s, pat, i + 1);
    }
  }

  lemma {:induction false} FindNotPast(s: string, pat: string, i: nat, k: nat)
    requires i <= k && OccursAt(s, pat, k)
    ensures i <= FindFrom(s, pat, i) <= k
    decreases k - i
  {
    if i < k {
      FindNotPast(s, pat, i + 1, k);
    }
  }

  lemma {:induction false} LastDotIs(s: string, i: nat, k: nat)
    requires k <= i < |s| && s[k] == '.' && forall j | k < j <= i :: s[j] != '.'
    ensures LastDotUpTo(s, i) == k
    decreases i - k
  {
    if k < i {
      LastDotIs(s, i - 1, k);
    }
  }

  lemma {:induction false} AllDigits(s: string)
    requires forall c | c in s :: IsDigit(c)
    ensures LeadingDigits(s) == s
  {
    if s != [] {
      AllDigits(s[1..]);
    }
  }

  lemma {:induction false} DecimalValue(n: nat)
    ensures ValueOf(Decimal(n)) == n
  {
    var last := '0' + (n % 10) as char;
    if n >= 10 {
      DecimalValue(n / 10);
      assert Decimal(n)[..|Decimal(n)| - 1] == Decimal(n / 10);
    } else {
      assert Decimal(n)[..0] == [];
    }
  }

  lemma StoiDecimal(n: nat)
    requires n <= INT_MAX
    ensures Stoi(Decimal(n)) == Some(n)
  {
    var d := Decimal(n);
    assert IsDigit(d[0]);
    AllDigits(d);
    DecimalValue(n);
  }

  // ---------------------------------------------------------------- the shape of a numbered name

  /** Where the characters of a numbered name are. */
  lemma NameParts(base: string, n: nat)
    ensures var f, d := HistoryName(base, n), Decimal(n);
      && |f| == |base| + 1 + |d| + 4
      && f[..|base|] == base && f[|base|] == '.' && f[|base| + 1..|f| - 4] == d && f[|f| - 4..] == ".log"
      && forall j | |base| < j < |f| - 4 :: IsDigit(f[j])
  {
    var f, d := HistoryName(base, n), Decimal(n);
    forall j | |base| < j < |f| - 4 ensures IsDigit(f[j]) {
      assert f[j] == d[j - |base| - 1];
    }
  }

  lemma DotPositions(base: string, n: nat)
    ensures var f := HistoryName(base, n);
      FindLastDot(f, NPOS) == |f| - 4 || |f| > NPOS
    ensures var f := HistoryName(base, n); FindLastDot(f, |f| - 5) == |base|
  {
    var f := HistoryName(base, n);
    NameParts(base, n);
    var last, e := |f| - 4, f[|f| - 4..];
    assert e[0] == f[last] && e[1] == f[last + 1] && e[2] == f[last + 2] && e[3] == f[last + 3];
    LastDotIs(f, |f| - 1, last);
    LastDotIs(f, last - 1, |base|);
  }

  lemma SubstrBetween(f: string, last: nat, second: nat)
    requires second < last < |f| < NPOS
    ensures Substr(f, second + 1, WordSub(last, second + 1)) == f[second + 1..last]
  {
    assert WordSub(last, second + 1) == last - second - 1;
  }

  lemma ExtractBetweenDots(f: string, last: nat, second: nat)
    requires second < last < |f| < NPOS
    requires FindLastDot(f, NPOS) == last && FindLastDot(f, last - 1) == second
    ensures ExtractSequenceNumber(f) == StoiOr(f[second + 1..last], -1)
  {
    SubstrBetween(f, last, second);
  }

  /** Number round trip, for every base: what is read back from a numbered name is its number. */
  lemma ExtractReadsBack(base: string, n: nat)
    requires n <= INT_MAX && |HistoryName(base, n)| < NPOS
    ensures ExtractSequenceNumber(HistoryName(base, n)) == n
  {
    var f := HistoryName(base, n);
    NameParts(base, n);
    DotPositions(base, n);
    ExtractBetweenDots(f, |f| - 4, |base|);
    StoiDecimal(n);
  }

  /** A numbered name contains ".log" before its end only if its base does. */
  lemma EarlyExtension(base: string, n: nat, j: nat)
    requires j < |HistoryName(base, n)| - 4 && OccursAt(HistoryName(base, n), ".log", j)
    ensures OccursAt(base, ".log", j)
  {
    var f := HistoryName(base, n);
    NameParts(base, n);
    var w := f[j..j + 4];
    assert w[0] == f[j] && w[1] == f[j + 1] && w[2] == f[j + 2] && w[3] == f[j + 3];
    assert f[j] == '.' && f[j + 1] == 'l' && f[j + 2] == 'o' && f[j + 3] == 'g';
    if j + 4 <= |base| {
      assert base[j..j + 4] == w;
    }
  }

  lemma PatternAtFront(base: string, n: nat)
    ensures Find(HistoryName(base, n), base + ".") == 0
  {
    var f := HistoryName(base, n);
    NameParts(base, n);
    assert f[0..|base| + 1] == base + ".";
    FindIs(f, base + ".", 0, 0);
  }

  lemma ExtensionAtEnd(base: string, n: nat)
    ensures var f := HistoryName(base, n);
      Find(f, ".log") == |f| - 4 <==> !Contains(base, ".log")
  {
    var f := HistoryName(base, n);
    NameParts(base, n);
    if Contains(base, ".log") {
      var j :| 0 <= j <= |base| && OccursAt(base, ".log", j);
      assert f[j..j + 4] == base[j..j + 4];
      FindNotPast(f, ".log", 0, j);
    } else {
      forall j | 0 <= j < |f| - 4 ensures !OccursAt(f, ".log", j) {
        if OccursAt(f, ".log", j) {
          EarlyExtension(base, n, j);
          assert Contains(base, ".log");
        }
      }
      FindIs(f, ".log", 0, |f| - 4);
    }
  }

  lemma NumberBetweenDots(d: string)
    requires forall c | c in d :: IsDigit(c)
    ensures Find(d + ".log", ".") == |d| && (d + ".log")[..|d|] == d
  {
    var r := d + ".log";
    forall j | 0 <= j < |d| ensures !OccursAt(r, ".", j) {
      assert r[j..j + 1][0] == d[j] && IsDigit(d[j]);
    }
    FindIs(r, ".", 0, |d|);
  }

  /** Recognition, exactly: a numbered name is taken for a historical file of its base if and only
      if the base does not itself contain ".log". */
  lemma RecognisedIffNoInnerExtension(base: string, n: nat)
    requires |HistoryName(base, n)| < NPOS
    ensures IsHistoricalLogFile(HistoryName(base, n), base + ".") <==> !Contains(base, ".log")
  {
    var f := HistoryName(base, n);
    NameParts(base, n);
    PatternAtFront(base, n);
    ExtensionAtEnd(base, n);
    assert f[|base + "."|..] == Decimal(n) + ".log";
    NumberBetweenDots(Decimal(n));
  }

  /** The live file is never taken for a historical one, whatever the base. */
  lemma LiveNameNotHistorical(base: string)
    ensures !IsHistoricalLogFile(LiveName(base), base + ".")
  {
    var remaining := LiveName(base)[|base| + 1..];
    assert remaining == "log";
    forall j | 0 <= j <= |remaining| ensures !OccursAt(remaining, ".", j) {
      if j + 1 <= |remaining| {
        assert remaining[j..j + 1][0] == remaining[j];
      }
    }
    FindNothing(remaining, ".", 0);
  }

  /** Nor is the file of another process. */
  lemma PidNameNotHistorical(base: string, pid: nat)
    ensures !IsHistoricalLogFile(PidName(base, pid), base + ".")
  {
    var f, pattern := PidName(base, pid), base + ".";
    assert f[|base|] == '_' && pattern[|base|] == '.';
    assert !OccursAt(f, pattern, 0) by {
      assert |pattern| <= |f| ==> f[0..|pattern|][|base|] == f[|base|];
    }
  }

  /** Different numbers give different names, none of them the live name. */
  lemma NamesDiffer(base: string, n: nat, m: nat)
    requires n <= INT_MAX && m <= INT_MAX && n != m
    requires |HistoryName(base, n)| < NPOS && |HistoryName(base, m)| < NPOS
    ensures HistoryName(base, n) != HistoryName(base, m) && HistoryName(base, n) != LiveName(base)
  {
    ExtractReadsBack(base, n);
    ExtractReadsBack(base, m);
    NameParts(base, n);
    assert |HistoryName(base, n)| > |LiveName(base)|;
  }

  // ---------------------------------------------------------------- bare names against the base

  /** A bare name never starts with a base that has a directory part. */
  lemma DirectoryHidesHistory(base: string, f: string)
    requires '/' in base && '/' !in f
    ensures !IsHistoricalLogFile(f, base + ".")
  {
    var i :| 0 <= i < |base| && base[i] == '/';
    var pattern := base + ".";
    assert pattern[i] == '/';
    assert !OccursAt(f, pattern, 0) by {
      assert |pattern| <= |f| ==> f[0..|pattern|][i] == f[i];
    }
  }

  lemma BareNames(base: string, n: nat)
    requires '/' !in base
    ensures FileName(HistoryName(base, n)) == HistoryName(base, n)
    ensures FileName(LiveName(base)) == LiveName(base)
  {
    NameParts(base, n);
  }

  /** What a listing shows, exactly: a base's numbered file is listed if and only if the base has no
      directory part and does not contain ".log". */
  lemma ListedIffBare(base: string, n: nat)
    requires |HistoryName(base, n)| < NPOS
    ensures IsListed(HistoryName(base, n), base) <==> '/' !in base && !Contains(base, ".log")
  {
    if '/' in base {
      DirectoryHidesHistory(base, FileName(HistoryName(base, n)));
    } else {
      BareNames(base, n);
      RecognisedIffNoInnerExtension(base, n);
    }
  }

  lemma LiveNameNotListed(base: string)
    ensures !IsListed(LiveName(base), base)
  {
    if '/' in base {
      DirectoryHidesHistory(base, FileName(LiveName(base)));
    } else {
      BareNames(base, 0);
      LiveNameNotHistorical(base);
    }
  }
}
