/**
 * Selection of the newest access log in a directory listing
 * (`find_recent_log_file`). A name qualifies when it fully matches
 * `^nginx-access-ui.log-(\d{8})(\.gz)?$` and its eight digits form a valid
 * `%Y%m%d` date; the newest such date wins, the first one scanned among
 * equal dates.
 */
module LogSelector {
  import opened Outcomes
  import opened Text

  /** A calendar date; `datetime.strptime(_, '%Y%m%d')` yields midnight of it. */
  datatype Date = Date(year: int, month: int, day: int)

  /** `datetime.min`, the start value of the scan. */
  const MIN_DATE := Date(1, 1, 1)

  const NAME_PREFIX := "nginx-access-ui"

  /** The result of the scan: `NginxLog(log_path, date)`. */
  datatype NginxLog = NginxLog(logPath: Option<string>, date: Date)

  predicate IsLeapYear(y: int) {
    (y % 4 == 0 && y % 100 != 0) || y % 400 == 0
  }

  function DaysInMonth(y: int, m: int): (n: int)
    requires 1 <= m <= 12
    ensures 28 <= n <= 31
    ensures n == 29 <==> m == 2 && IsLeapYear(y)
  {
    if m == 2 then (if IsLeapYear(y) then 29 else 28)
    else if m == 4 || m == 6 || m == 9 || m == 11 then 30
    else 31
  }

  /** The dates `datetime` accepts (years 1 to 9999, proleptic Gregorian). */
  predicate ValidDate(d: Date) {
    1 <= d.year <= 9999 && 1 <= d.month <= 12 && 1 <= d.day <= DaysInMonth(d.year, d.month)
  }

  /** Chronological order of dates (the `>` of datetime, read backwards). */
  predicate Before(a: Date, b: Date) {
    a.year < b.year
    || (a.year == b.year && a.month < b.month)
    || (a.year == b.year && a.month == b.month && a.day < b.day)
  }

  /**
   * `int()` of a field the date pattern matched: its digits in decimal. A
   * leading space, which only the `%d` alternative ` [1-9]` lets in and
   * which `int` strips, counts as a leading zero.
   */
  function FieldValue(t: string): nat
    decreases |t|
  {
    if t == [] then 0
    else FieldValue(t[..|t| - 1]) * 10 + (if IsDigit(t[|t| - 1]) then DigitValue(t[|t| - 1]) else 0)
  }

  /** The lengths the `%m` group `1[0-2]|0[1-9]|[1-9]` can match at `i`, in the order its alternatives are tried. */
  function MonthWidths(s: string, i: nat): (ws: seq<nat>)
    ensures forall k :: 0 <= k < |ws| ==> 1 <= ws[k] <= 2 && i + ws[k] <= |s|
  {
    (if i + 2 <= |s| && s[i] == '1' && '0' <= s[i + 1] <= '2' then [2] else [])
    + (if i + 2 <= |s| && s[i] == '0' && '1' <= s[i + 1] <= '9' then [2] else [])
    + (if i + 1 <= |s| && '1' <= s[i] <= '9' then [1] else [])
  }

  /** The lengths the `%d` group `3[01]|[12]\d|0[1-9]|[1-9]| [1-9]` can match at `i`, in the order its alternatives are tried. */
  function DayWidths(s: string, i: nat): (ws: seq<nat>)
    ensures forall k :: 0 <= k < |ws| ==> 1 <= ws[k] <= 2 && i + ws[k] <= |s|
  {
    (if i + 2 <= |s| && s[i] == '3' && '0' <= s[i + 1] <= '1' then [2] else [])
    + (if i + 2 <= |s| && '1' <= s[i] <= '2' && IsDigit(s[i + 1]) then [2] else [])
    + (if i + 2 <= |s| && s[i] == '0' && '1' <= s[i + 1] <= '9' then [2] else [])
    + (if i + 1 <= |s| && '1' <= s[i] <= '9' then [1] else [])
    + (if i + 2 <= |s| && s[i] == ' ' && '1' <= s[i + 1] <= '9' then [2] else [])
  }

  /**
   * `re.match` backtracking over the month alternatives `ws` (the year has
   * taken positions 0-3): the first month width after which the day group
   * matches, with the day's first matching alternative there. The pattern
   * has no `$`, so the match need not reach the end of `s`.
   */
  function MonthDay(s: string, ws: seq<nat>): (r: Option<(nat, nat)>)
    ensures r.Some? ==> r.value.0 in ws && DayWidths(s, 4 + r.value.0) != [] && r.value.1 == DayWidths(s, 4 + r.value.0)[0]
    ensures ws != [] && DayWidths(s, 4 + ws[0]) != [] ==> r == Some((ws[0], DayWidths(s, 4 + ws[0])[0]))
    decreases |ws|
  {
    if ws == [] then None
    else if DayWidths(s, 4 + ws[0]) != [] then Some((ws[0], DayWidths(s, 4 + ws[0])[0]))
    else MonthDay(s, ws[1..])
  }

  /** The day group finds no alternative after a month of width `w`. */
  predicate NoDay(s: string, w: nat) {
    DayWidths(s, 4 + w) == []
  }

  /**
   * The backtracking takes the first month alternative after which the day
   * group matches, and fails only when none does.
   */
  lemma {:induction false} MonthDayIsFirst(s: string, ws: seq<nat>)
    ensures MonthDay(s, ws).None? <==> forall k :: 0 <= k < |ws| ==> NoDay(s, ws[k])
    ensures MonthDay(s, ws).Some? ==> exists k :: (0 <= k < |ws| && ws[k] == MonthDay(s, ws).value.0
      && forall k' :: 0 <= k' < k ==> NoDay(s, ws[k']))
    decreases |ws|
  {
    if ws == [] {
    } else if NoDay(s, ws[0]) {
      var rest := ws[1..];
      MonthDayIsFirst(s, rest);
      assert MonthDay(s, ws) == MonthDay(s, rest);
      assert forall k :: 0 < k < |ws| ==> ws[k] == rest[k - 1];
      assert (forall k :: 0 <= k < |ws| ==> NoDay(s, ws[k])) <==> (forall k :: 0 <= k < |rest| ==> NoDay(s, rest[k]));
      if MonthDay(s, ws).Some? {
        var k :| 0 <= k < |rest| && rest[k] == MonthDay(s, rest).value.0
          && forall k' :: 0 <= k' < k ==> NoDay(s, rest[k']);
        assert ws[k + 1] == MonthDay(s, ws).value.0;
        assert forall k' :: 0 <= k' < k + 1 ==> NoDay(s, ws[k']);
      }
    } else {
      assert MonthDay(s, ws).Some? && ws[0] == MonthDay(s, ws).value.0;
      assert !NoDay(s, ws[0]);
    }
  }

  /**
   * `datetime.strptime(s, '%Y%m%d')`: the format becomes the pattern
   * `(\d\d\d\d)(1[0-2]|0[1-9]|[1-9])(3[01]|[12]\d|0[1-9]|[1-9]| [1-9])`,
   * matched at the start of `s`; no match, unconverted characters after
   * it, or fields `datetime` rejects raise `ValueError`, modelled as None.
   */
  function ParseDate(s: string): (r: Option<Date>)
    ensures r.Some? ==> ValidDate(r.value)
  {
    if |s| < 4 || !AllDigits(s[..4]) then None
    else match MonthDay(s, MonthWidths(s, 4))
      case None => None
      case Some((mw, dw)) =>
        if 4 + mw + dw != |s| then None
        else
          var d := Date(FieldValue(s[..4]), FieldValue(s[4..4 + mw]), FieldValue(s[4 + mw..]));
          if ValidDate(d) then Some(d) else None
  }

  /** The date spelled `YYYYMMDD` by eight digits. */
  function DigitsDate(s: string): (d: Date)
    requires |s| == 8 && AllDigits(s)
    ensures 0 <= d.year <= 9999 && 0 <= d.month <= 99 && 0 <= d.day <= 99
  {
    Date(DigitValue(s[0]) * 1000 + DigitValue(s[1]) * 100 + DigitValue(s[2]) * 10 + DigitValue(s[3]),
         DigitValue(s[4]) * 10 + DigitValue(s[5]),
         DigitValue(s[6]) * 10 + DigitValue(s[7]))
  }

  /** Two digits at `i` read as a field. */
  lemma TwoDigitField(s: string, i: nat)
    requires i + 2 <= |s| && IsDigit(s[i]) && IsDigit(s[i + 1])
    ensures FieldValue(s[i..i + 2]) == DigitValue(s[i]) * 10 + DigitValue(s[i + 1])
  {
    var t := s[i..i + 2];
    assert t[..1][..0] == [] && t[..1][0] == s[i] && t[1] == s[i + 1];
    assert FieldValue(t[..1]) == DigitValue(s[i]);
  }

  /** The first four digits read as the year field. */
  lemma YearField(s: string)
    requires |s| >= 4 && AllDigits(s[..4])
    ensures FieldValue(s[..4]) == DigitValue(s[0]) * 1000 + DigitValue(s[1]) * 100 + DigitValue(s[2]) * 10 + DigitValue(s[3])
  {
    var t := s[..4];
    assert IsDigit(t[0]) && IsDigit(t[1]) && IsDigit(t[2]) && IsDigit(t[3]);
    assert t[..3] == s[..3] && t[..3][..2] == s[..2] && s[..2] == s[0..2];
    TwoDigitField(s, 0);
  }

  /** On two digits, a month alternative of width 2 matches exactly when they spell 1 to 12, and is then tried first. */
  lemma TwoDigitMonth(s: string, i: nat)
    requires i + 2 <= |s| && IsDigit(s[i]) && IsDigit(s[i + 1])
    ensures 2 in MonthWidths(s, i) <==> 1 <= DigitValue(s[i]) * 10 + DigitValue(s[i + 1]) <= 12
    ensures 2 in MonthWidths(s, i) ==> MonthWidths(s, i)[0] == 2
  {
  }

  /** On two digits, the first day alternative has width 2 exactly when they spell 1 to 31. */
  lemma TwoDigitDay(s: string, i: nat)
    requires i + 2 <= |s| && IsDigit(s[i]) && IsDigit(s[i + 1])
    ensures (DayWidths(s, i) != [] && DayWidths(s, i)[0] == 2) <==> 1 <= DigitValue(s[i]) * 10 + DigitValue(s[i + 1]) <= 31
  {
  }

  /** On eight digits the pattern reaches the end only with two-digit month and day fields spelling 1-12 and 1-31. */
  lemma FullMatchShape(s: string)
    requires |s| == 8 && AllDigits(s)
    ensures var md := MonthDay(s, MonthWidths(s, 4));
      md.Some? && 4 + md.value.0 + md.value.1 == 8 ==>
        && md.value == (2, 2)
        && 1 <= DigitsDate(s).month <= 12 && 1 <= DigitsDate(s).day <= 31
  {
    var ws := MonthWidths(s, 4);
    var md := MonthDay(s, ws);
    if md.Some? && 4 + md.value.0 + md.value.1 == 8 {
      var mw, dw := md.value.0, md.value.1;
      var k :| 0 <= k < |ws| && ws[k] == mw;
      var days := DayWidths(s, 4 + mw);
      assert dw == days[0] && dw <= 2;
      assert mw == 2 && dw == 2;
      assert 2 in ws;
      TwoDigitMonth(s, 4);
      TwoDigitDay(s, 6);
    }
  }

  /**
   * On eight ASCII digits, `strptime`'s route agrees with reading them as
   * `YYYYMMDD`: it succeeds exactly when that reading is a valid date, and
   * yields it.
   */
  lemma ParseDateOnDigits(s: string)
    requires |s| == 8 && AllDigits(s)
    ensures ParseDate(s) == if ValidDate(DigitsDate(s)) then Some(DigitsDate(s)) else None
  {
    assert AllDigits(s[..4]);
    if 1 <= DigitsDate(s).month <= 12 && 1 <= DigitsDate(s).day <= 31 {
      TwoDigitFieldsMatch(s);
    } else {
      FullMatchShape(s);
    }
  }

  /** Eight digits with a month 1-12 and a day 1-31 match as four, two and two digits, read as `YYYYMMDD`. */
  lemma TwoDigitFieldsMatch(s: string)
    requires |s| == 8 && AllDigits(s)
    requires 1 <= DigitsDate(s).month <= 12 && 1 <= DigitsDate(s).day <= 31
    ensures MonthDay(s, MonthWidths(s, 4)) == Some((2, 2))
    ensures FieldValue(s[..4]) == DigitsDate(s).year
    ensures FieldValue(s[4..6]) == DigitsDate(s).month && FieldValue(s[6..]) == DigitsDate(s).day
  {
    var ws := MonthWidths(s, 4);
    TwoDigitMonth(s, 4);
    TwoDigitDay(s, 6);
    assert ws[0] == 2 && DayWidths(s, 6)[0] == 2;
    DigitFields(s);
  }

  /** The fields of eight digits cut as four, two and two read as `YYYYMMDD`. */
  lemma DigitFields(s: string)
    requires |s| == 8 && AllDigits(s)
    ensures FieldValue(s[..4]) == DigitsDate(s).year
    ensures FieldValue(s[4..6]) == DigitsDate(s).month && FieldValue(s[6..]) == DigitsDate(s).day
  {
    assert AllDigits(s[..4]);
    YearField(s);
    TwoDigitField(s, 4);
    TwoDigitField(s, 6);
    assert s[6..] == s[6..8];
  }

  /** Single-digit fields are accepted: `201765` is 5 June 2017. */
  lemma StrptimeShortFields()
    ensures ParseDate("201765") == Some(Date(2017, 6, 5))
  {
    var short := "201765";
    assert MonthWidths(short, 4) == [1] && DayWidths(short, 5) == [1];
    assert AllDigits(short[..4]);
    YearField(short);
    assert FieldValue(short[4..5]) == 6 && FieldValue(short[5..]) == 5;
  }

  /** In `201711` the two-digit month `11` leaves no day, so the backtracking settles on month `1` and day `1`. */
  lemma BacktrackedWidths(s: string)
    requires s == "201711"
    ensures MonthDay(s, MonthWidths(s, 4)) == Some((1, 1))
  {
    assert |s| == 6 && s[4] == '1' && s[5] == '1';
    assert MonthWidths(s, 4) == [2, 1];
    assert DayWidths(s, 6) == [] && DayWidths(s, 5) == [1];
  }

  /** A month `11` with no day after it is backtracked to month 1, day 1: `201711` is 1 January 2017. */
  lemma StrptimeBacktracksMonth()
    ensures ParseDate("201711") == Some(Date(2017, 1, 1))
  {
    var s := "201711";
    BacktrackedWidths(s);
    BacktrackedFields(s);
  }

  /** The fields of `201711` as that match cuts them: year 2017, month 1, day 1. */
  lemma BacktrackedFields(s: string)
    requires s == "201711"
    ensures |s| == 6 && AllDigits(s[..4])
    ensures FieldValue(s[..4]) == 2017 && FieldValue(s[4..5]) == 1 && FieldValue(s[5..]) == 1
  {
    assert |s| == 6 && AllDigits(s[..4]);
    YearField(s);
    var month, day := s[4..5], s[5..];
    assert month == ['1'] && day == ['1'] && month[..0] == [] && day[..0] == [];
  }

  /** A month 13 is read as month 1, and the character left over is "unconverted data". */
  lemma StrptimeUnconvertedData()
    ensures ParseDate("20171301") == None
  {
    var s := "20171301";
    assert MonthWidths(s, 4) == [1] && DayWidths(s, 5) == [2, 1];
  }

  /**
   * `re.search(r"^nginx-access-ui.log-(\d{8})(\.gz)?$", name)`: the whole
   * match (group 0) and the digits (group 1). The `.` after `ui` is
   * unescaped and takes any character but a newline, and `$` also matches
   * just before a final newline, which group 0 then leaves out.
   */
  function MatchLogName(name: string): (r: Option<(string, string)>)
    ensures r.Some? ==> r.value.0 == name || r.value.0 + "\n" == name
    ensures r.Some? ==> |r.value.0| in {28, 31} && r.value.1 == r.value.0[20..28] && AllDigits(r.value.1)
    ensures r.Some? ==> r.value.0[..15] == NAME_PREFIX && r.value.0[15] != '\n' && r.value.0[16..20] == "log-"
    ensures r.Some? && |r.value.0| == 31 ==> r.value.0[28..] == ".gz"
  {
    var body := if |name| > 0 && name[|name| - 1] == '\n' then name[..|name| - 1] else name;
    if (|body| == 28 || (|body| == 31 && body[28..] == ".gz"))
       && body[..15] == NAME_PREFIX && body[15] != '\n' && body[16..20] == "log-"
       && AllDigits(body[20..28])
    then Some((body, body[20..28]))
    else None
  }

  /**
   * Lines 36-39: the matched name and its date, or None where the source
   * catches an exception: no match, or digits that do not spell a valid date.
   */
  function ParseLogName(name: string): (r: Option<(string, Date)>)
    ensures r.None? <==> MatchLogName(name).None? || !ValidDate(DigitsDate(MatchLogName(name).value.1))
    ensures r.Some? ==> r.value == (MatchLogName(name).value.0, DigitsDate(MatchLogName(name).value.1))
  {
    match MatchLogName(name)
    case None => None
    case Some((matched, digits)) =>
      ParseDateOnDigits(digits);
      match ParseDate(digits)
      case None => None
      case Some(d) => Some((matched, d))
  }

  /** The name can replace the sentinel: it parses and is dated after `datetime.min`. */
  predicate Qualifies(name: string) {
    ParseLogName(name).Some? && Before(MIN_DATE, ParseLogName(name).value.1)
  }

  /**
   * `names[i]` is the entry the scan keeps: it qualifies, no entry is newer,
   * every earlier entry is strictly older, and `log` is its path and date.
   */
  ghost predicate Chosen(logDir: string, names: seq<string>, i: int, log: NginxLog) {
    && 0 <= i < |names|
    && Qualifies(names[i])
    && log == NginxLog(Some(logDir + "/" + ParseLogName(names[i]).value.0), ParseLogName(names[i]).value.1)
    && (forall j :: 0 <= j < |names| && ParseLogName(names[j]).Some? ==>
          !Before(log.date, ParseLogName(names[j]).value.1))
    && (forall j :: 0 <= j < i && ParseLogName(names[j]).Some? ==>
          Before(ParseLogName(names[j]).value.1, log.date))
  }

  /** A date newer than one that no entry beats is not beaten either. */
  lemma NewerStaysNewest(a: Date, b: Date, c: Date)
    requires Before(a, b) && !Before(a, c)
    ensures !Before(b, c)
  {
  }

  /** `find_recent_log_file`: `names` is the `os.listdir` result in its order. */
  method FindRecentLogFile(logDir: string, names: seq<string>) returns (log: NginxLog)
    ensures log.logPath.None? <==> forall j :: 0 <= j < |names| ==> !Qualifies(names[j])
    ensures log.logPath.None? ==> log == NginxLog(None, MIN_DATE)
    ensures log.logPath.Some? ==> exists i :: Chosen(logDir, names, i, log)
  {
    log := NginxLog(None, MIN_DATE);
    ghost var best := -1;
    for k := 0 to |names|
      invariant log.logPath.None? ==> log == NginxLog(None, MIN_DATE) && best == -1
      invariant log.logPath.Some? ==> 0 <= best < k && Qualifies(names[best])
      invariant log.logPath.Some? ==>
        log == NginxLog(Some(logDir + "/" + ParseLogName(names[best]).value.0), ParseLogName(names[best]).value.1)
      invariant forall j :: 0 <= j < k && ParseLogName(names[j]).Some? ==>
        !Before(log.date, ParseLogName(names[j]).value.1)
      invariant forall j :: 0 <= j < best && ParseLogName(names[j]).Some? ==>
        Before(ParseLogName(names[j]).value.1, log.date)
    {
      var parsed := ParseLogName(names[k]);
      ghost var previous := log.date;
      if parsed.Some? && Before(log.date, parsed.value.1) {
        log := NginxLog(Some(logDir + "/" + parsed.value.0), parsed.value.1);
        best := k;
      }
      forall j | 0 <= j < k + 1 && ParseLogName(names[j]).Some?
        ensures !Before(log.date, ParseLogName(names[j]).value.1)
      {
        if j == k {
          assert ParseLogName(names[j]) == parsed;
        } else if log.date != previous {
          NewerStaysNewest(previous, log.date, ParseLogName(names[j]).value.1);
        }
      }
    }
    if log.logPath.Some? {
      assert Chosen(logDir, names, best, log);
    }
  }
  /** The contract of `FindRecentLogFile` leaves no choice: one index, one result. */
  lemma ChosenIsUnique(logDir: string, names: seq<string>, i: int, log: NginxLog, i': int, log': NginxLog)
    requires Chosen(logDir, names, i, log) && Chosen(logDir, names, i', log')
    ensures i == i' && log == log'
  {
  }

  /** A name dated `0001-01-01` equals the sentinel date and can never replace it. */
  lemma MinDateNeverQualifies(name: string)
    requires ParseLogName(name).Some? && ParseLogName(name).value.1 == MIN_DATE
    ensures !Qualifies(name)
  {
  }

  /**
   * The converse of `MatchLogName`'s contract: the prefix, any character but
   * a newline, `log-`, eight digits and an optional `.gz` match, also before
   * a final newline, with the digits as group 1.
   */
  lemma NameMatches(c: char, digits: string, gz: bool, nl: bool)
    requires c != '\n' && |digits| == 8 && AllDigits(digits)
    ensures var m := NAME_PREFIX + [c] + "log-" + digits + (if gz then ".gz" else "");
      MatchLogName(m + (if nl then "\n" else "")) == Some((m, digits))
  {
    var m := NAME_PREFIX + [c] + "log-" + digits + (if gz then ".gz" else "");
    var name := m + (if nl then "\n" else "");
    assert m[..15] == NAME_PREFIX && m[15] == c && m[16..20] == "log-" && m[20..28] == digits;
    assert |m| == if gz then 31 else 28;
    assert gz ==> m[28..] == ".gz";
    assert m[|m| - 1] != '\n' by {
      if !gz { assert m[|m| - 1] == digits[7]; }
    }
    var body := if |name| > 0 && name[|name| - 1] == '\n' then name[..|name| - 1] else name;
    if nl {
      assert name[|name| - 1] == '\n' && name[..|name| - 1] == m;
    } else {
      assert name == m;
    }
    assert body == m;
  }

  /** The fixture logs of the test suite, plain and gzip, qualify with their date. */
  lemma FixtureNamesQualify()
    ensures ParseLogName("nginx-access-ui.log-20170630") == Some(("nginx-access-ui.log-20170630", Date(2017, 6, 30)))
    ensures ParseLogName("nginx-access-ui.log-20170630.gz") == Some(("nginx-access-ui.log-20170630.gz", Date(2017, 6, 30)))
  {
    var digits := "20170630";
    assert AllDigits(digits) && DigitsDate(digits) == Date(2017, 6, 30);
    NameMatches('.', digits, false, false);
    NameMatches('.', digits, true, false);
    assert NAME_PREFIX + ['.'] + "log-" + digits + "" + "" == "nginx-access-ui.log-20170630";
    assert NAME_PREFIX + ['.'] + "log-" + digits + ".gz" + "" == "nginx-access-ui.log-20170630.gz";
  }

  /** A suffix other than `.gz` is skipped. */
  lemma OtherSuffixSkipped()
    ensures ParseLogName("nginx-access-ui.log-20170630.bz2") == None
  {
    var name := "nginx-access-ui.log-20170630.bz2";
    assert |name| == 32 && name[|name| - 1] == '2';
  }

  /** February 29th of a common year is no date: the name is skipped. */
  lemma CommonLeapDaySkipped()
    ensures ParseLogName("nginx-access-ui.log-20170229") == None
  {
    var digits := "20170229";
    assert AllDigits(digits) && DigitsDate(digits) == Date(2017, 2, 29) && !IsLeapYear(2017);
    NameMatches('.', digits, false, false);
    assert NAME_PREFIX + ['.'] + "log-" + digits + "" + "" == "nginx-access-ui.log-20170229";
  }

  /** February 29th of a leap year is a date: the name qualifies. */
  lemma LeapDayAccepted()
    ensures ParseLogName("nginx-access-ui.log-20160229") == Some(("nginx-access-ui.log-20160229", Date(2016, 2, 29)))
  {
    var digits := "20160229";
    assert AllDigits(digits) && DigitsDate(digits) == Date(2016, 2, 29) && IsLeapYear(2016);
    NameMatches('.', digits, false, false);
    assert NAME_PREFIX + ['.'] + "log-" + digits + "" + "" == "nginx-access-ui.log-20160229";
  }
}
