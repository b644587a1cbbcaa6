/**
 * `parse_file_info`: the streaming loop that counts lines and builds one
 * record per URL (accumulation phase), then the pass that adds the median
 * and the percentages, rounds, and drops the raw samples (finalisation).
 * Request times are whole milliseconds; `time_avg` is a real, in
 * milliseconds while accumulating.
 */
module Aggregator {
  import opened Outcomes
  import opened LineExtractor
  import opened Statistics
  import opened Rounding

  /** The share of unparsed lines from which a diagnostic is logged. */
  const ERROR_THRESHOLD := 0.5

  /** A URL's record while lines are read; `time_values` is the raw sample sequence. */
  datatype UrlAcc = UrlAcc(count: nat, timeSum: nat, timeMax: nat, timeAvg: real, timeValues: seq<nat>)

  /**
   * The loop's variables: `requests_num`, `errors_num`, `sum_request_time`
   * and `stat_dict`, whose insertion order is kept in `order`.
   */
  datatype AggState = AggState(requests: nat, errors: nat, sumTime: nat, stats: map<string, UrlAcc>, order: seq<string>)

  /** The record created for a URL seen for the first time. */
  const EMPTY_ACC := UrlAcc(0, 0, 0, 0.0, [])

  const INITIAL := AggState(0, 0, 0, map[], [])

  /** One sample added to a record (the updates of `time_sum`, `time_max`, `time_avg`, `time_values`, `count`). */
  function Observe(a: UrlAcc, t: nat): UrlAcc {
    UrlAcc(a.count + 1,
           a.timeSum + t,
           if t > a.timeMax then t else a.timeMax,
           RunningMean(a.timeAvg, a.count, t),
           a.timeValues + [t])
  }

  /** Line 70: the mean of `count` samples, `avg`, updated with one more sample `t`. */
  function RunningMean(avg: real, count: nat, t: nat): real {
    (avg * count as real + t as real) / (count as real + 1.0)
  }

  /** One iteration of the loop over the lines. */
  function Step(s: AggState, line: string): AggState {
    match Extract(line)
    case None => s.(requests := s.requests + 1, errors := s.errors + 1)
    case Some((url, t)) => Record(s, url, t)
  }

  /** A matched line: the URL's record (created if new) takes the sample, and so does the global total. */
  function Record(s: AggState, url: string, t: nat): AggState {
    var known := url in s.stats;
    AggState(s.requests + 1, s.errors, s.sumTime + t,
             s.stats[url := Observe(if known then s.stats[url] else EMPTY_ACC, t)],
             if known then s.order else s.order + [url])
  }

  /** The loop's state after reading `lines`. */
  function Accumulate(lines: seq<string>): (s: AggState)
    ensures s.requests == |lines|
    decreases |lines|
  {
    if lines == [] then INITIAL
    else Step(Accumulate(lines[..|lines| - 1]), lines[|lines| - 1])
  }

  // ---- Invariants of the accumulation phase ----

  /** The bookkeeping of one record: count, sum, maximum and running mean agree with the samples. */
  ghost predicate AccOk(a: UrlAcc) {
    && a.count == |a.timeValues|
    && a.count > 0
    && a.timeSum == Sum(a.timeValues)
    && a.timeMax == Max0(a.timeValues)
    && a.timeAvg == a.timeSum as real / a.count as real
  }

  predicate Distinct(order: seq<string>) {
    forall i, j :: 0 <= i < j < |order| ==> order[i] != order[j]
  }

  function Count(a: UrlAcc): nat { a.count }

  function TimeSum(a: UrlAcc): nat { a.timeSum }

  /** `f` summed over the records of `order`. */
  function SumBy(order: seq<string>, stats: map<string, UrlAcc>, f: UrlAcc -> nat): nat {
    if order == [] then 0
    else SumBy(order[..|order| - 1], stats, f)
         + (if order[|order| - 1] in stats then f(stats[order[|order| - 1]]) else 0)
  }

  /**
   * The invariant of the loop: `order` lists each key once, every record is
   * consistent, `sum_request_time` is the sum of the records' `time_sum`,
   * and every line is either an error or counted in exactly one record.
   */
  ghost predicate WellFormed(s: AggState) {
    && Finishable(s)
    && (forall u :: u in s.stats ==> AccOk(s.stats[u]))
    && s.sumTime == SumBy(s.order, s.stats, TimeSum)
    && s.requests == s.errors + SumBy(s.order, s.stats, Count)
  }

  /**
   * What the finalisation needs of the loop's state: `order` lists each key
   * once, every record has samples, and there are records only after a line
   * was read.
   */
  ghost predicate Finishable(s: AggState) {
    && Distinct(s.order)
    && (forall u :: u in s.stats <==> u in s.order)
    && (forall u :: u in s.stats ==> |s.stats[u].timeValues| > 0)
    && (s.stats != map[] ==> s.requests > 0)
  }

  lemma {:induction false} SumByAppend(order: seq<string>, stats: map<string, UrlAcc>, f: UrlAcc -> nat, u: string)
    ensures SumBy(order + [u], stats, f) == SumBy(order, stats, f) + (if u in stats then f(stats[u]) else 0)
  {
    assert (order + [u])[..|order|] == order;
  }

  lemma {:induction false} SumByUpdateAbsent(order: seq<string>, stats: map<string, UrlAcc>, f: UrlAcc -> nat, u: string, x: UrlAcc)
    requires u !in order
    ensures SumBy(order, stats[u := x], f) == SumBy(order, stats, f)
  {
    if order != [] {
      SumByUpdateAbsent(order[..|order| - 1], stats, f, u, x);
    }
  }

  lemma {:induction false} SumByUpdatePresent(order: seq<string>, stats: map<string, UrlAcc>, f: UrlAcc -> nat, u: string, x: UrlAcc)
    requires Distinct(order) && u in order && u in stats
    ensures SumBy(order, stats[u := x], f) + f(stats[u]) == SumBy(order, stats, f) + f(x)
  {
    var init, last := order[..|order| - 1], order[|order| - 1];
    assert order == init + [last];
    if last == u {
      assert u !in init;
      SumByUpdateAbsent(init, stats, f, u, x);
    } else {
      assert u in init;
      SumByUpdatePresent(init, stats, f, u, x);
    }
  }

  lemma {:induction false} SumByMember(order: seq<string>, stats: map<string, UrlAcc>, f: UrlAcc -> nat, u: string)
    requires u in order && u in stats
    ensures f(stats[u]) <= SumBy(order, stats, f)
  {
    var init, last := order[..|order| - 1], order[|order| - 1];
    assert order == init + [last];
    if last != u {
      assert u in init;
      SumByMember(init, stats, f, u);
    }
  }

  /** The running update of line 70 gives exactly the mean of the samples so far. */
  lemma RunningMeanIsMean(avg: real, count: nat, sum: nat, t: nat)
    requires (count == 0 && avg == 0.0) || (count > 0 && avg == sum as real / count as real)
    ensures RunningMean(avg, count, t) == ((if count == 0 then 0 else sum) + t) as real / (count + 1) as real
  {
    if count > 0 {
      var c := count as real;
      assert avg * c == sum as real;
    }
  }

  /** Lines 68-72 keep a record consistent. */
  lemma ObserveKeepsAccOk(a: UrlAcc, t: nat)
    requires a == EMPTY_ACC || AccOk(a)
    ensures AccOk(Observe(a, t))
  {
    SumAppend(a.timeValues, t);
    Max0Append(a.timeValues, t);
    RunningMeanIsMean(a.timeAvg, a.count, a.timeSum, t);
  }

  /** A sample for a known URL updates only its record and keeps the invariant; the key order is unchanged. */
  lemma RecordKnownKeepsWellFormed(s: AggState, url: string, t: nat)
    requires WellFormed(s) && url in s.stats
    ensures WellFormed(Record(s, url, t))
    ensures Record(s, url, t).order == s.order
    ensures Record(s, url, t).stats == s.stats[url := Observe(s.stats[url], t)]
  {
    var s', a := Record(s, url, t), s.stats[url];
    var x := Observe(a, t);
    assert s'.stats == s.stats[url := x] && s'.order == s.order;
    ObserveKeepsAccOk(a, t);
    assert forall u :: u in s'.stats ==> AccOk(s'.stats[u]);
    SumByUpdatePresent(s.order, s.stats, TimeSum, url, x);
    SumByUpdatePresent(s.order, s.stats, Count, url, x);
  }

  lemma DistinctAppend(order: seq<string>, url: string)
    requires Distinct(order) && url !in order
    ensures Distinct(order + [url])
  {
    var o := order + [url];
    forall i, j | 0 <= i < j < |o| ensures o[i] != o[j] {
      if j < |order| {
        assert o[i] == order[i] && o[j] == order[j];
      } else {
        assert o[i] == order[i] && o[j] == url;
      }
    }
  }

  /** A new key appended with its record adds that record to a sum. */
  lemma SumByNewKey(order: seq<string>, stats: map<string, UrlAcc>, f: UrlAcc -> nat, url: string, x: UrlAcc)
    requires url !in order
    ensures SumBy(order + [url], stats[url := x], f) == SumBy(order, stats, f) + f(x)
  {
    SumByUpdateAbsent(order, stats, f, url, x);
    SumByAppend(order, stats[url := x], f, url);
  }

  /** A sample for a new URL creates its record from the empty one and appends the URL to the key order. */
  lemma RecordNewKeepsWellFormed(s: AggState, url: string, t: nat)
    requires WellFormed(s) && url !in s.stats
    ensures WellFormed(Record(s, url, t))
    ensures Record(s, url, t).order == s.order + [url]
    ensures Record(s, url, t).stats == s.stats[url := Observe(EMPTY_ACC, t)]
  {
    var s' := Record(s, url, t);
    var x := Observe(EMPTY_ACC, t);
    assert s'.stats == s.stats[url := x] && s'.order == s.order + [url];
    DistinctAppend(s.order, url);
    ObserveKeepsAccOk(EMPTY_ACC, t);
    SumByNewKey(s.order, s.stats, TimeSum, url, x);
    SumByNewKey(s.order, s.stats, Count, url, x);
  }

  lemma StepKeepsWellFormed(s: AggState, line: string)
    requires WellFormed(s)
    ensures WellFormed(Step(s, line))
    ensures Step(s, line).requests == s.requests + 1
  {
    match Extract(line)
    case None =>
    case Some((url, t)) =>
      if url in s.stats {
        RecordKnownKeepsWellFormed(s, url, t);
      } else {
        RecordNewKeepsWellFormed(s, url, t);
      }
  }

  // ---- Reference definitions on the lines themselves ----

  /** The times of the lines that match with URL `url`, in line order. */
  function Samples(lines: seq<string>, url: string): seq<nat>
    decreases |lines|
  {
    if lines == [] then []
    else
      Samples(lines[..|lines| - 1], url)
      + match Extract(lines[|lines| - 1])
        case Some((u, t)) => if u == url then [t] else []
        case None => []
  }

  /** The number of lines the pattern rejects. */
  function ErrorCount(lines: seq<string>): nat
    decreases |lines|
  {
    if lines == [] then 0
    else ErrorCount(lines[..|lines| - 1]) + if Extract(lines[|lines| - 1]).None? then 1 else 0
  }

  /** The total time of the lines the pattern accepts. */
  function MatchedTime(lines: seq<string>): nat
    decreases |lines|
  {
    if lines == [] then 0
    else MatchedTime(lines[..|lines| - 1])
         + match Extract(lines[|lines| - 1])
           case Some((_, t)) => t
           case None => 0
  }

  /** After the loop, `errors_num` counts the rejected lines and `sum_request_time` the matched time. */
  lemma {:induction false} AccumulateCounts(lines: seq<string>)
    ensures Accumulate(lines).errors == ErrorCount(lines)
    ensures Accumulate(lines).sumTime == MatchedTime(lines)
  {
    if lines != [] {
      AccumulateCounts(lines[..|lines| - 1]);
    }
  }

  /** After the loop, `url` has a record exactly when it occurs, holding exactly its samples. */
  lemma {:induction false} AccumulateSamples(lines: seq<string>, url: string)
    ensures url in Accumulate(lines).stats <==> Samples(lines, url) != []
    ensures url in Accumulate(lines).stats ==> Accumulate(lines).stats[url].timeValues == Samples(lines, url)
  {
    if lines != [] {
      var init, last := lines[..|lines| - 1], lines[|lines| - 1];
      AccumulateSamples(init, url);
      var prev := Accumulate(init);
      assert Accumulate(lines) == Step(prev, last);
      match Extract(last)
      case None =>
        assert Samples(lines, url) == Samples(init, url);
      case Some((u, t)) =>
        if u == url {
          assert Samples(lines, url) == Samples(init, url) + [t];
        } else {
          assert Samples(lines, url) == Samples(init, url);
        }
    }
  }

  /**
   * The loop computes what the lines say: the error count, the total time,
   * a record exactly for the URLs that occur, holding exactly their samples.
   */
  lemma AccumulateAgreesWithLines(lines: seq<string>)
    ensures Accumulate(lines).errors == ErrorCount(lines)
    ensures Accumulate(lines).sumTime == MatchedTime(lines)
    ensures forall u :: u in Accumulate(lines).stats <==> Samples(lines, u) != []
    ensures forall u :: u in Accumulate(lines).stats ==> Accumulate(lines).stats[u].timeValues == Samples(lines, u)
  {
    AccumulateCounts(lines);
    forall u
      ensures u in Accumulate(lines).stats <==> Samples(lines, u) != []
      ensures u in Accumulate(lines).stats ==> Accumulate(lines).stats[u].timeValues == Samples(lines, u)
    {
      AccumulateSamples(lines, u);
    }
  }

  /** The loop keeps its invariant on every input. */
  lemma {:induction false} AccumulateWellFormed(lines: seq<string>)
    ensures WellFormed(Accumulate(lines))
  {
    if lines != [] {
      AccumulateWellFormed(lines[..|lines| - 1]);
      StepKeepsWellFormed(Accumulate(lines[..|lines| - 1]), lines[|lines| - 1]);
    }
  }

  /** Each URL's record summarises its samples: count, sum, maximum and mean. */
  lemma RecordSummarisesSamples(lines: seq<string>, url: string)
    requires url in Accumulate(lines).stats
    ensures var a := Accumulate(lines).stats[url];
      && a.count == |Samples(lines, url)| > 0
      && a.timeSum == Sum(Samples(lines, url))
      && a.timeMax == Max0(Samples(lines, url))
      && a.timeAvg == Sum(Samples(lines, url)) as real / |Samples(lines, url)| as real
  {
    AccumulateWellFormed(lines);
    AccumulateAgreesWithLines(lines);
  }

  /** A rejected line raises both counters and touches no record. */
  lemma RejectedLineOnlyCounts(s: AggState, line: string)
    requires Extract(line).None?
    ensures Step(s, line) == s.(requests := s.requests + 1, errors := s.errors + 1)
  {
  }

  lemma {:induction false} SumByCountZero(order: seq<string>, stats: map<string, UrlAcc>)
    requires forall u :: u in order ==> u in stats && stats[u].count > 0
    ensures SumBy(order, stats, Count) == 0 <==> order == []
  {
    if order != [] {
      SumByMember(order, stats, Count, order[|order| - 1]);
    }
  }

  /** Every line is an error or a sample of exactly one URL, and there are records iff some line matched. */
  lemma CountConservation(lines: seq<string>)
    ensures |lines| == ErrorCount(lines) + SumBy(Accumulate(lines).order, Accumulate(lines).stats, Count)
    ensures Accumulate(lines).stats != map[] <==> ErrorCount(lines) < |lines|
  {
    var s := Accumulate(lines);
    AccumulateWellFormed(lines);
    AccumulateAgreesWithLines(lines);
    SumByCountZero(s.order, s.stats);
    if s.order != [] {
      assert s.order[0] in s.stats;
    }
    if s.stats != map[] {
      var u :| u in s.stats;
      assert u in s.order;
    }
  }

  lemma AccumulateNext(lines: seq<string>, i: nat)
    requires i < |lines|
    ensures Accumulate(lines[..i + 1]) == Step(Accumulate(lines[..i]), lines[i])
  {
    assert lines[..i + 1][..i] == lines[..i];
  }

  /** The streaming loop of lines 49-78. */
  method AccumulateLines(lines: seq<string>) returns (s: AggState)
    ensures s == Accumulate(lines)
    ensures WellFormed(s)
  {
    var requestsNum, errorsNum, sumRequestTime := 0, 0, 0;
    var statDict: map<string, UrlAcc> := map[];
    var order: seq<string> := [];
    for i := 0 to |lines|
      invariant AggState(requestsNum, errorsNum, sumRequestTime, statDict, order) == Accumulate(lines[..i])
    {
      AccumulateNext(lines, i);
      ghost var prev := AggState(requestsNum, errorsNum, sumRequestTime, statDict, order);
      match Extract(lines[i]) {
        case None =>
          errorsNum := errorsNum + 1;
          assert AggState(requestsNum + 1, errorsNum, sumRequestTime, statDict, order) == Step(prev, lines[i]);
        case Some((url, requestTime)) =>
          // lines 59-67: a URL seen for the first time gets a fresh record, at the end of the key order
          var rec := if url in statDict then statDict[url] else EMPTY_ACC;
          if url !in statDict {
            order := order + [url];
          }
          var timeSum := rec.timeSum + requestTime;
          var timeMax := if requestTime > rec.timeMax then requestTime else rec.timeMax;
          var timeAvg := RunningMean(rec.timeAvg, rec.count, requestTime);
          var timeValues := rec.timeValues + [requestTime];
          var count := rec.count + 1;
          statDict := statDict[url := UrlAcc(count, timeSum, timeMax, timeAvg, timeValues)];
          sumRequestTime := sumRequestTime + requestTime;
          assert timeAvg == Observe(rec, requestTime).timeAvg;
          assert timeValues == Observe(rec, requestTime).timeValues;
          assert UrlAcc(count, timeSum, timeMax, timeAvg, timeValues) == Observe(rec, requestTime);
          assert AggState(requestsNum + 1, errorsNum, sumRequestTime, statDict, order) == Record(prev, url, requestTime);
          assert Step(prev, lines[i]) == Record(prev, url, requestTime);
      }
      requestsNum := requestsNum + 1;
    }
    assert lines[..|lines|] == lines;
    s := AggState(requestsNum, errorsNum, sumRequestTime, statDict, order);
    AccumulateWellFormed(lines);
  }

  // ---- Finalisation (lines 80-95) ----

  /**
   * A URL's finished record: the seven fields left once `time_values` is
   * popped. Times are in seconds, percentages in percent, all rounded to
   * three decimals.
   */
  datatype UrlStat = UrlStat(count: nat, timeSum: real, timeMax: real, timeAvg: real,
                             timeMed: real, countPerc: real, timePerc: real)

  /** The dictionary `parse_file_info` returns, with its key order. */
  datatype Report = Report(stats: map<string, UrlStat>, order: seq<string>)

  /** The key order lists every key of the table exactly once. */
  ghost predicate Listed(rep: Report) {
    Distinct(rep.order) && forall u :: u in rep.stats <==> u in rep.order
  }

  /** Lines 81-87 for one record. */
  function Finalized(a: UrlAcc, requests: nat, sumTime: nat): UrlStat
    requires |a.timeValues| > 0 && requests > 0 && sumTime > 0
  {
    UrlStat(a.count,
            Seconds(a.timeSum as real),
            Seconds(a.timeMax as real),
            Seconds(a.timeAvg),
            Seconds(Median(a.timeValues)),
            Percent(a.count as real, requests as real),
            Percent(a.timeSum as real, sumTime as real))
  }

  /**
   * `rep` is the loop's state `s` finalised: the same keys in the same
   * order, each record finalised against the run's totals.
   */
  ghost predicate FinalizedFrom(rep: Report, s: AggState) {
    && rep.order == s.order
    && rep.stats.Keys == s.stats.Keys
    && forall u :: u in rep.stats ==>
         && |s.stats[u].timeValues| > 0 && s.requests > 0 && s.sumTime > 0
         && rep.stats[u] == Finalized(s.stats[u], s.requests, s.sumTime)
  }

  /**
   * The loop of lines 80-87. With records but a zero total time, line 83
   * divides by zero and the `ZeroDivisionError` escapes.
   */
  method Finalize(s: AggState) returns (r: Result<Report>)
    requires Finishable(s)
    ensures r.Err? <==> s.stats != map[] && s.sumTime == 0
    ensures r.Err? ==> r.error == ZeroDivision
    ensures r.Ok? ==> FinalizedFrom(r.value, s) && Listed(r.value)
  {
    var out: map<string, UrlStat> := map[];
    for i := 0 to |s.order|
      invariant i > 0 ==> s.sumTime > 0
      invariant forall j :: 0 <= j < i ==> s.order[j] in out
      invariant forall u :: u in out ==> u in s.stats && s.sumTime > 0 && out[u] == Finalized(s.stats[u], s.requests, s.sumTime)
    {
      var url := s.order[i];
      if s.sumTime == 0 {
        return Err(ZeroDivision);
      }
      out := out[url := Finalized(s.stats[url], s.requests, s.sumTime)];
    }
    FinishedTable(s, out);
    r := Ok(Report(out, s.order));
  }

  /** Once every listed key is finalised, the map is the finished table and has records only if there was time. */
  lemma FinishedTable(s: AggState, out: map<string, UrlStat>)
    requires Finishable(s)
    requires forall j :: 0 <= j < |s.order| ==> s.order[j] in out
    requires forall u :: u in out ==> u in s.stats && s.sumTime > 0 && out[u] == Finalized(s.stats[u], s.requests, s.sumTime)
    ensures s.stats != map[] ==> s.sumTime > 0
    ensures FinalizedFrom(Report(out, s.order), s) && Listed(Report(out, s.order))
  {
    assert out.Keys == s.stats.Keys by {
      forall u | u in s.stats ensures u in out {
        var j :| 0 <= j < |s.order| && s.order[j] == u;
      }
    }
    if s.stats != map[] {
      var u :| u in s.stats;
      assert u in out;
    }
  }

  /** The finished fields say what the samples say: exact sum and maximum, rounded mean and median, shares within 0-100. */
  lemma FinalizedFields(a: UrlAcc, requests: nat, sumTime: nat)
    requires AccOk(a) && a.count <= requests && a.timeSum <= sumTime && sumTime > 0
    ensures var r := Finalized(a, requests, sumTime);
      && r.count == |a.timeValues|
      && r.timeSum == Sum(a.timeValues) as real / 1000.0
      && r.timeMax == Max0(a.timeValues) as real / 1000.0
      && r.timeAvg == Seconds(Sum(a.timeValues) as real / |a.timeValues| as real)
      && r.timeMed == Seconds(Median(a.timeValues))
      && 0.0 <= r.timeMed <= r.timeMax
      && 0.0 <= r.countPerc <= 100.0
      && 0.0 <= r.timePerc <= 100.0
  {
    SecondsExact(a.timeSum);
    SecondsExact(a.timeMax);
    Max0IsMaximum(a.timeValues);
    MedianBetween(a.timeValues, 0, a.timeMax);
    SecondsBetween(Median(a.timeValues), a.timeMax);
    PercentBetween(a.count, requests);
    PercentBetween(a.timeSum, sumTime);
  }

  /** In a run, every record's count and time are bounded by the totals the shares divide by. */
  lemma RecordWithinTotals(s: AggState, u: string)
    requires WellFormed(s) && u in s.stats
    ensures s.stats[u].count <= s.requests && s.stats[u].timeSum <= s.sumTime
  {
    SumByMember(s.order, s.stats, Count, u);
    SumByMember(s.order, s.stats, TimeSum, u);
  }

  /** With a single URL its time share is 100; with no errors besides, so is its count share. */
  lemma SingleUrlShares(s: AggState)
    requires WellFormed(s) && |s.order| == 1 && s.sumTime > 0
    ensures var u := s.order[0]; var f := Finalized(s.stats[u], s.requests, s.sumTime);
      && f.timePerc == 100.0
      && (s.errors == 0 ==> f.countPerc == 100.0)
  {
    var u := s.order[0];
    assert s.order == [] + [u];
    SumByAppend([], s.stats, TimeSum, u);
    SumByAppend([], s.stats, Count, u);
    assert s.stats[u].timeSum == s.sumTime;
    PercentOfWhole(s.sumTime);
    if s.errors == 0 {
      assert s.stats[u].count == s.requests;
      PercentOfWhole(s.requests);
    }
  }

  /** Three matching lines out of seven give a count share of 42.857. */
  lemma ThreeOfSevenShare(a: UrlAcc, sumTime: nat)
    requires |a.timeValues| > 0 && a.count == 3 && sumTime > 0
    ensures Finalized(a, 7, sumTime).countPerc == 42.857
  {
    var y := 3 as real / 7 as real * 100.0 * 1000.0;
    assert y == 300000.0 / 7.0;
    assert 42857.0 <= y < 42858.0;
    assert y.Floor == 42857;
  }

  // ---- The whole of parse_file_info ----

  /** Line 91: the condition of the diagnostic about unparsed lines. */
  predicate HighErrorRate(requests: nat, errors: nat) {
    requests > 0 && errors as real / requests as real >= ERROR_THRESHOLD
  }

  /**
   * `parse_file_info` on the lines of a file. `warn` is whether the
   * diagnostic of line 92 is logged; when the input is empty,
   * `errors_num / requests_num` raises and is caught, and `{}` is returned.
   */
  method ParseFileInfo(lines: seq<string>) returns (r: Result<Report>, warn: bool)
    ensures r.Err? <==> ErrorCount(lines) < |lines| && MatchedTime(lines) == 0
    ensures r.Ok? ==> FinalizedFrom(r.value, Accumulate(lines))
    ensures lines == [] ==> r == Ok(Report(map[], []))
    ensures r.Ok? ==> Listed(r.value)
    ensures warn <==> r.Ok? && HighErrorRate(|lines|, ErrorCount(lines))
  {
    var s := AccumulateLines(lines);
    AccumulateAgreesWithLines(lines);
    CountConservation(lines);
    r := Finalize(s);
    warn := r.Ok? && HighErrorRate(s.requests, s.errors);
    if lines == [] {
      assert s == INITIAL;
    }
  }

  /**
   * What a URL's row of the returned table says about the lines: how many
   * matched it, their total and maximum time in seconds, their rounded mean
   * and median, and shares between 0 and 100 percent.
   */
  lemma ReportSummarisesLines(lines: seq<string>, rep: Report, u: string)
    requires FinalizedFrom(rep, Accumulate(lines)) && u in rep.stats
    ensures var samples := Samples(lines, u); var r := rep.stats[u];
      && |samples| > 0
      && r.count == |samples|
      && r.timeSum == Sum(samples) as real / 1000.0
      && r.timeMax == Max0(samples) as real / 1000.0
      && r.timeAvg == Seconds(Sum(samples) as real / |samples| as real)
      && r.timeMed == Seconds(Median(samples))
      && 0.0 <= r.timeMed <= r.timeMax
      && |lines| > 0 && MatchedTime(lines) > 0
      && r.countPerc == Percent(|samples| as real, |lines| as real)
      && r.timePerc == Percent(Sum(samples) as real, MatchedTime(lines) as real)
      && 0.0 <= r.countPerc <= 100.0
      && 0.0 <= r.timePerc <= 100.0
  {
    var s := Accumulate(lines);
    var a, samples := s.stats[u], Samples(lines, u);
    AccumulateWellFormed(lines);
    AccumulateAgreesWithLines(lines);
    RecordWithinTotals(s, u);
    FinalizedFields(a, s.requests, s.sumTime);
    assert a.timeValues == samples && AccOk(a);
    assert rep.stats[u].countPerc == Percent(a.count as real, s.requests as real);
    assert rep.stats[u].timePerc == Percent(a.timeSum as real, s.sumTime as real);
  }
}
