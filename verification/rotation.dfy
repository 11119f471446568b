/** Log-file naming and the daily split decision (logger.go:181-213), plus
    the file paths the rotation loop of `WithFileLog` derives from them
    (logger_options.go:138-172). Clock readings are calendar dates here. */
module Rotation {
  import opened Wrappers
  import opened Text

  /** A calendar date of the proleptic Gregorian calendar. */
  datatype Date = Date(year: nat, month: nat, day: nat)

  predicate IsLeap(y: nat) {
    y % 4 == 0 && (y % 100 != 0 || y % 400 == 0)
  }

  function DaysIn(y: nat, m: nat): (n: nat)
    requires 1 <= m <= 12
    ensures 28 <= n <= 31
  {
    if m == 2 then (if IsLeap(y) then 29 else 28)
    else if m == 4 || m == 6 || m == 9 || m == 11 then 30
    else 31
  }

  predicate ValidDate(d: Date) {
    1 <= d.month <= 12 && 1 <= d.day <= DaysIn(d.year, d.month)
  }

  /** The date 24 hours earlier. */
  function PrevDay(d: Date): (p: Date)
    requires ValidDate(d)
    requires d.year > 0 || d.month > 1 || d.day > 1
    ensures ValidDate(p)
    ensures d.day > 1 ==> p == d.(day := d.day - 1)
    ensures d.day == 1 ==> p.day == DaysIn(p.year, p.month)
  {
    if d.day > 1 then d.(day := d.day - 1)
    else if d.month > 1 then Date(d.year, d.month - 1, DaysIn(d.year, d.month - 1))
    else Date(d.year - 1, 12, 31)
  }

  /** `t.Format("20060102")`: four-digit year, two-digit month and day. */
  function DateStamp(d: Date): (s: string)
    ensures AllDigits(s)
    ensures 8 <= |s|
  {
    Padded(d.year, 4) + Padded(d.month, 2) + Padded(d.day, 2)
  }

  /** Reads a stamp of a year below 10000 back. */
  function ParseDateStamp(s: string): Option<Date> {
    if |s| == 8 && AllDigits(s) then
      Some(Date(DigitsValue(s[..4]), DigitsValue(s[4..6]), DigitsValue(s[6..])))
    else None
  }

  function Pow10(k: nat): (p: nat)
    ensures 0 < p
  {
    if k == 0 then 1 else 10 * Pow10(k - 1)
  }

  lemma {:induction false} NatToStringLength(n: nat, k: nat)
    requires 0 < k && n < Pow10(k)
    ensures |NatToString(n)| <= k
    decreases k
  {
    if n >= 10 {
      NatToStringLength(n / 10, k - 1);
    }
  }

  lemma AllDigitsSlices(s: string, i: nat, j: nat)
    requires AllDigits(s) && i <= j <= |s|
    ensures AllDigits(s[i..j])
  {
  }

  /** The date stamp of a valid date before year 10000 reads back as that date. */
  lemma DateStampRoundTrip(d: Date)
    requires ValidDate(d) && d.year < 10000
    ensures ParseDateStamp(DateStamp(d)) == Some(d)
  {
    NatToStringLength(d.year, 4);
    NatToStringLength(d.month, 2);
    NatToStringLength(d.day, 2);
    var y := Padded(d.year, 4);
    var m := Padded(d.month, 2);
    var dd := Padded(d.day, 2);
    var s := DateStamp(d);
    assert s[..4] == y && s[4..6] == m && s[6..] == dd;
    PaddedValue(d.year, 4);
    PaddedValue(d.month, 2);
    PaddedValue(d.day, 2);
  }

  /** A date stamp is digits only, so it never holds a '-'. */
  lemma DateStampHasNoDash(d: Date)
    ensures '-' !in DateStamp(d)
  {
    var s := DateStamp(d);
    forall i | 0 <= i < |s|
      ensures s[i] != '-'
    {
      assert IsDigit(s[i]);
    }
  }

  /** `s` with every trailing '/' removed. */
  function TrimSlashes(s: string): (r: string)
    ensures |r| <= |s| && r == s[..|r|]
    ensures |r| == 0 || r[|r| - 1] != '/'
  {
    if |s| > 0 && s[|s| - 1] == '/' then TrimSlashes(s[..|s| - 1]) else s
  }

  /** `path.Join(dir, name)` for the arguments this code passes: empty
      elements are skipped and exactly one '/' separates the two. */
  function Join(dir: string, name: string): (r: string)
    ensures dir == "" ==> r == name
    ensures dir != "" && name != "" ==>
      |name| < |r| && r[|r| - |name|..] == name && r[|r| - |name| - 1] == '/'
  {
    if dir == "" then name
    else if name == "" then dir
    else
      var r := TrimSlashes(dir) + "/" + name;
      assert r[|r| - |name|..] == name;
      r
  }

  /** Joining onto a directory without a trailing '/' inserts one. */
  lemma JoinPlain(dir: string, name: string)
    requires dir != "" && name != "" && dir[|dir| - 1] != '/'
    ensures Join(dir, name) == dir + "/" + name
  {
  }

  /** Joining onto a directory with exactly one trailing '/' keeps it. */
  lemma JoinSlashed(dir: string, name: string)
    requires 1 < |dir| && dir[|dir| - 1] == '/' && dir[|dir| - 2] != '/' && name != ""
    ensures Join(dir, name) == dir + name
  {
    var d := dir[..|dir| - 1];
    assert TrimSlashes(d) == d;
    assert TrimSlashes(dir) == d;
    assert d + "/" == dir;
  }

  /** The last path element: what follows the last '/'. */
  function Base(p: string): string {
    p[LastIndex(p, '/') + 1..]
  }

  lemma JoinBase(dir: string, name: string)
    requires dir != "" && name != "" && '/' !in name
    ensures Base(Join(dir, name)) == name
  {
    BaseAfterSlash(Join(dir, name), name);
  }

  /** A path that ends in '/' and then a slash-free name has that name as
      its last element. */
  lemma BaseAfterSlash(r: string, name: string)
    requires |name| < |r| && r[|r| - |name|..] == name && r[|r| - |name| - 1] == '/' && '/' !in name
    ensures Base(r) == name
  {
    var k := |r| - |name| - 1;
    forall i | k < i < |r|
      ensures r[i] != '/'
    {
      assert r[i] == name[i - k - 1];
    }
    LastIndexIs(r, '/', k);
  }

  /** The file name with ".log" added unless it already ends so (the
      suffix step of `assembleFilename`, logger.go:195-197). */
  function LogName(filename: string, autoSuffix: bool): (r: string)
    ensures |filename| <= |r| && r[..|filename|] == filename
    ensures autoSuffix ==> HasSuffix(r, ".log")
    ensures r == filename <==> !autoSuffix || HasSuffix(filename, ".log")
  {
    if autoSuffix && !HasSuffix(filename, ".log") then filename + ".log" else filename
  }

  /** A name whose last character is not 'g' gets the suffix. */
  lemma LogNameAdds(filename: string)
    requires filename != "" && filename[|filename| - 1] != 'g'
    ensures LogName(filename, true) == filename + ".log"
  {
    if 4 <= |filename| {
      var tail := filename[|filename| - 4..];
      assert tail[3] == filename[|filename| - 1] != ".log"[3];
    }
  }

  /** Suffixing twice is suffixing once. */
  lemma LogNameIdempotent(filename: string)
    ensures LogName(LogName(filename, true), true) == LogName(filename, true)
  {
  }

  /** `assembleFilename` (logger.go:194-200). */
  function AssembleFilename(dir: string, filename: string, autoSuffix: bool): (r: string)
    ensures dir != "" && filename != "" && '/' !in filename ==> Base(r) == LogName(filename, autoSuffix)
  {
    AssembleBase(dir, filename, autoSuffix);
    Join(dir, LogName(filename, autoSuffix))
  }

  lemma AssembleBase(dir: string, filename: string, autoSuffix: bool)
    ensures dir != "" && filename != "" && '/' !in filename ==>
      Base(Join(dir, LogName(filename, autoSuffix))) == LogName(filename, autoSuffix)
  {
    var name := LogName(filename, autoSuffix);
    if dir != "" && filename != "" && '/' !in filename {
      forall i | 0 <= i < |name|
        ensures name[i] != '/'
      {
        if i < |filename| {
          assert name[i] == filename[i];
        }
      }
      JoinBase(dir, name);
    }
  }

  /** `rotateFilename` (logger.go:202-207): the name with "-" and the date
      stamp of the last split appended. */
  function RotateFilename(filename: string, lastSplit: Date): (r: string)
    ensures LastIndex(r, '-') == |filename|
  {
    DateStampHasNoDash(lastSplit);
    LastDashBefore(filename, DateStamp(lastSplit));
    filename + "-" + DateStamp(lastSplit)
  }

  lemma LastDashBefore(filename: string, stamp: string)
    requires '-' !in stamp
    ensures LastIndex(filename + "-" + stamp, '-') == |filename|
  {
    var r := filename + "-" + stamp;
    NoDashAfter(filename, stamp);
    LastIndexIs(r, '-', |filename|);
  }

  lemma NoDashAfter(filename: string, stamp: string)
    requires '-' !in stamp
    ensures var r := filename + "-" + stamp;
      r[|filename|] == '-' && forall i | |filename| < i < |r| :: r[i] != '-'
  {
    var pre := filename + "-";
    var r := pre + stamp;
    assert |pre| == |filename| + 1 && pre[|filename|] == '-';
    forall i | |pre| <= i < |r|
      ensures r[i] != '-'
    {
      var j := i - |pre|;
      assert r[i] == stamp[j];
      assert stamp[j] in stamp;
    }
  }

  /** Reads a rotated name back into the original name and the date. */
  function ParseRotated(r: string): Option<(string, Date)> {
    var k := LastIndex(r, '-');
    if k < 0 then None
    else match ParseDateStamp(r[k + 1..])
      case None => None
      case Some(d) => Some((r[..k], d))
  }

  /** The rotated name keeps both the original name and the split date. */
  lemma RotateFilenameRoundTrip(filename: string, lastSplit: Date)
    requires ValidDate(lastSplit) && lastSplit.year < 10000
    ensures ParseRotated(RotateFilename(filename, lastSplit)) == Some((filename, lastSplit))
  {
    var r := RotateFilename(filename, lastSplit);
    assert r[|filename| + 1..] == DateStamp(lastSplit);
    assert r[..|filename|] == filename;
    DateStampRoundTrip(lastSplit);
  }

  /** `shouldSplitByTime` (logger.go:209-213): the day of the month of the
      tick differs from that of the last split. */
  predicate ShouldSplitByTime(now: Date, lastSplit: Date) {
    now.day != lastSplit.day
  }

  /** No split at the moment of the last split; a split 24 and 48 hours
      after it. */
  lemma SplitDecisions(now: Date)
    requires ValidDate(now) && now.year > 1
    ensures !ShouldSplitByTime(now, now)
    ensures ShouldSplitByTime(now, PrevDay(now))
    ensures ShouldSplitByTime(now, PrevDay(PrevDay(now)))
  {
  }

  /** Only the day of the month counts: the same day number in another month
      or year does not split. */
  lemma SplitIgnoresMonthAndYear(now: Date, lastSplit: Date)
    requires now.day == lastSplit.day
    ensures !ShouldSplitByTime(now, lastSplit)
  {
  }

  /** Nothing after the last `c` is a `c`. */
  lemma AfterLastIndex(s: string, c: char)
    ensures c !in s[LastIndex(s, c) + 1..]
  {
    var k := LastIndex(s, c);
    var t := s[k + 1..];
    forall i | 0 <= i < |t|
      ensures t[i] != c
    {
      assert t[i] == s[k + 1 + i];
    }
  }

  /** `filepath.Split(abs)`: the directory with its trailing '/', and the
      last element. */
  function SplitPath(abs: string): (r: (string, string))
    ensures r.0 + r.1 == abs
    ensures '/' !in r.1
  {
    var k := LastIndex(abs, '/');
    AfterLastIndex(abs, '/');
    assert abs[..k + 1] + abs[k + 1..] == abs;
    (abs[..k + 1], abs[k + 1..])
  }

  /** The four paths one rotation involves: the file opened first, the file
      renamed away, the name it is renamed to, and the file opened anew. */
  datatype RotationPaths = RotationPaths(logFile: string, renamedFrom: string, renamedTo: string, reopened: string)

  /** The paths as the code derives them (logger_options.go:138-164,
      logger.go:182-187): the first open uses `abs` as it is, the rename
      adds ".log" to the last element, and the reopen joins the directory
      with the `file` argument as the caller wrote it. */
  function RotationPathsAsWritten(file: string, abs: string, lastSplit: Date): RotationPaths {
    var (dir, pureFilename) := SplitPath(abs);
    RotationPaths(abs,
                  AssembleFilename(dir, pureFilename, true),
                  AssembleFilename(dir, RotateFilename(pureFilename, lastSplit), false),
                  AssembleFilename(dir, file, true))
  }

  /** What the code opens, renames from and reopens, in terms of the split
      of `abs`. */
  lemma AsWrittenPaths(file: string, abs: string, lastSplit: Date)
    ensures var p := RotationPathsAsWritten(file, abs, lastSplit);
      p.logFile == abs
      && p.renamedFrom == Join(SplitPath(abs).0, LogName(SplitPath(abs).1, true))
      && p.reopened == Join(SplitPath(abs).0, LogName(file, true))
  {
  }

  lemma SplitExample()
    ensures SplitPath("/w/logs/app.log") == ("/w/logs/", "app.log")
  {
    var abs := "/w/logs/app.log";
    LastIndexIs(abs, '/', 7);
    assert abs[..8] == "/w/logs/";
    assert abs[8..] == "app.log";
  }

  lemma JoinExample()
    ensures Join("/w/logs/", "logs/app.log") == "/w/logs/logs/app.log"
    ensures Join("/w/logs/", "app.log") == "/w/logs/app.log"
  {
    JoinSlashed("/w/logs/", "logs/app.log");
    JoinSlashed("/w/logs/", "app.log");
  }

  /** A relative `file` with a directory part: the reopened file is not the
      one that was logged to. */
  lemma ReopenMissesFileAsWritten(lastSplit: Date)
    ensures var p := RotationPathsAsWritten("logs/app.log", "/w/logs/app.log", lastSplit);
      p.logFile == "/w/logs/app.log" && p.renamedFrom == "/w/logs/app.log"
      && p.reopened == "/w/logs/logs/app.log"
  {
    AsWrittenPaths("logs/app.log", "/w/logs/app.log", lastSplit);
    SplitExample();
    JoinExample();
    SuffixedExamples();
  }

  lemma SuffixedExamples()
    ensures LogName("logs/app.log", true) == "logs/app.log"
    ensures LogName("app.log", true) == "app.log"
  {
    assert "logs/app.log"[8..] == ".log";
    assert "app.log"[3..] == ".log";
  }

  /** A path whose last element does not end in ".log": the rename looks
      for the suffixed name, a file that was never opened. With
      `WithFileLog("app", true)` run from "/w", "/w/app" is opened and
      "/w/app.log" is renamed. */
  lemma RenameMissesFileAsWritten(file: string, abs: string, lastSplit: Date)
    requires '/' in abs && Base(abs) != "" && !HasSuffix(Base(abs), ".log")
    ensures var p := RotationPathsAsWritten(file, abs, lastSplit);
      p.logFile == abs && p.renamedFrom != p.logFile
      && Base(p.renamedFrom) == Base(abs) + ".log"
  {
    AsWrittenPaths(file, abs, lastSplit);
    SplitPathParts(abs);
    var (dir, pure) := SplitPath(abs);
    var name := pure + ".log";
    assert LogName(pure, true) == name;
    SuffixedHasNoSlash(pure);
    JoinBase(dir, name);
  }

  /** With a '/' in the path, the directory part ends in it and the element
      is the base name. */
  lemma SplitPathParts(abs: string)
    requires '/' in abs
    ensures SplitPath(abs).0 != "" && SplitPath(abs).0[|SplitPath(abs).0| - 1] == '/'
    ensures SplitPath(abs).1 == Base(abs)
  {
    var k := LastIndex(abs, '/');
    var i :| 0 <= i < |abs| && abs[i] == '/';
    assert k >= i;
    assert SplitPath(abs).0 == abs[..k + 1];
  }

  lemma SuffixedHasNoSlash(name: string)
    requires '/' !in name
    ensures '/' !in name + ".log"
  {
    var r := name + ".log";
    forall i | 0 <= i < |r|
      ensures r[i] != '/'
    {
      if i < |name| {
        assert r[i] == name[i];
      }
    }
  }

  /** The paths with one name used throughout: the suffixed last element of
      `abs` is opened, renamed away and opened again. */
  function RotationPathsFor(abs: string, lastSplit: Date): (p: RotationPaths)
    ensures p.logFile == p.renamedFrom == p.reopened
    ensures var (dir, pure) := SplitPath(abs);
      dir != "" && pure != "" ==>
        Base(p.logFile) == LogName(pure, true)
        && Base(p.renamedTo) == RotateFilename(pure, lastSplit)
  {
    var (dir, pureFilename) := SplitPath(abs);
    var current := AssembleFilename(dir, pureFilename, true);
    var rotated := RotateFilename(pureFilename, lastSplit);
    RotatedHasNoSlash(pureFilename, lastSplit);
    RotationPaths(current, current, AssembleFilename(dir, rotated, false), current)
  }

  lemma RotatedHasNoSlash(name: string, d: Date)
    requires '/' !in name
    ensures '/' !in RotateFilename(name, d)
  {
    var rotated := RotateFilename(name, d);
    assert rotated == name + "-" + DateStamp(d);
    forall i | 0 <= i < |rotated|
      ensures rotated[i] != '/'
    {
      if i < |name| {
        assert rotated[i] == name[i];
      } else if i > |name| {
        DateStampHasNoSlash(d, i - |name| - 1);
      }
    }
  }

  lemma DateStampHasNoSlash(d: Date, i: nat)
    requires i < |DateStamp(d)|
    ensures DateStamp(d)[i] != '/'
  {
    assert IsDigit(DateStamp(d)[i]);
  }
}
