/**
 * `prepare_dict_for_template`: the finished per-URL table sorted by total
 * time, largest first, cut to the configured size, and turned into the list
 * of rows the report template receives, each row carrying its URL.
 */
module Ranker {
  import opened Aggregator

  /** One `(key, value)` pair of `stat_dict.items()`. */
  type Entry = (string, UrlStat)

  /** A row of `table_json`: the record's fields plus its `url`. */
  datatype ReportRow = ReportRow(url: string, stat: UrlStat)

  /** The sort key, `x[1]["time_sum"]`. */
  function Key(e: Entry): real { e.1.timeSum }

  /** `stat_dict.items()`: the entries in insertion order. */
  function Items(order: seq<string>, stats: map<string, UrlStat>): (r: seq<Entry>)
    ensures |r| <= |order|
    ensures forall e :: e in r ==> e.0 in stats && e.1 == stats[e.0]
  {
    if order == [] then []
    else (if order[0] in stats then [(order[0], stats[order[0]])] else []) + Items(order[1..], stats)
  }

  /** Every key of `order` yields an entry, in key order, when all of them are keys of the table. */
  lemma {:induction false} ItemsLength(order: seq<string>, stats: map<string, UrlStat>)
    requires forall u :: u in order ==> u in stats
    ensures |Items(order, stats)| == |order|
    ensures forall i :: 0 <= i < |order| ==> Items(order, stats)[i] == (order[i], stats[order[i]])
    ensures forall u :: u in order ==> exists e :: e in Items(order, stats) && e.0 == u
  {
    if order != [] {
      ItemsLength(order[1..], stats);
      var r := Items(order, stats);
      assert r == [(order[0], stats[order[0]])] + Items(order[1..], stats);
      forall i | 0 < i < |order| ensures r[i] == (order[i], stats[order[i]]) {
        assert r[i] == Items(order[1..], stats)[i - 1] && order[1..][i - 1] == order[i];
      }
      forall u | u in order ensures exists e :: e in r && e.0 == u {
        if u == order[0] {
          assert r[0] in r;
        } else {
          assert u in order[1..];
          var e :| e in Items(order[1..], stats) && e.0 == u;
          assert e in r;
        }
      }
    }
  }

  /** A sequence without repetitions has as many distinct elements as it is long. */
  lemma {:induction false} DistinctCardinality(order: seq<string>)
    requires Distinct(order)
    ensures |set u | u in order| == |order|
  {
    if order != [] {
      var rest := order[1..];
      assert Distinct(rest) by {
        forall i, j | 0 <= i < j < |rest| ensures rest[i] != rest[j] {
          assert rest[i] == order[i + 1] && rest[j] == order[j + 1];
        }
      }
      DistinctCardinality(rest);
      assert order[0] !in rest by {
        forall i | 0 <= i < |rest| ensures rest[i] != order[0] {
          assert rest[i] == order[i + 1];
        }
      }
      assert (set u | u in order) == (set u | u in rest) + {order[0]} by {
        assert order == [order[0]] + rest;
      }
    }
  }

  /** Largest key first. */
  predicate NonIncreasing(s: seq<Entry>) {
    forall i, j :: 0 <= i < j < |s| ==> Key(s[j]) <= Key(s[i])
  }

  /**
   * Places `x`, which came before every element of `t`, after the elements
   * with a larger key and before the rest, so that equal keys keep their
   * order.
   */
  function Insert(x: Entry, t: seq<Entry>): (r: seq<Entry>)
    ensures |r| == |t| + 1
  {
    if t == [] || Key(t[0]) <= Key(x) then [x] + t
    else [t[0]] + Insert(x, t[1..])
  }

  /** Insertion adds exactly `x`. */
  lemma {:induction false} InsertPermutes(x: Entry, t: seq<Entry>)
    ensures multiset(Insert(x, t)) == multiset(t) + multiset{x}
  {
    if t != [] && Key(t[0]) > Key(x) {
      InsertPermutes(x, t[1..]);
      assert t == [t[0]] + t[1..];
      assert Insert(x, t) == [t[0]] + Insert(x, t[1..]);
    }
  }

  /** Insertion into a largest-first sequence keeps it largest-first. */
  lemma {:induction false} InsertKeepsOrder(x: Entry, t: seq<Entry>)
    requires NonIncreasing(t)
    ensures NonIncreasing(Insert(x, t))
    ensures Insert(x, t)[0] == x || (|t| > 0 && Insert(x, t)[0] == t[0])
  {
    if t != [] && Key(t[0]) > Key(x) {
      var rest := Insert(x, t[1..]);
      InsertKeepsOrder(x, t[1..]);
      var r := [t[0]] + rest;
      assert Insert(x, t) == r;
      assert Key(rest[0]) <= Key(t[0]);
      forall i, j | 0 <= i < j < |r| ensures Key(r[j]) <= Key(r[i]) {
        if i > 0 {
          assert r[i] == rest[i - 1] && r[j] == rest[j - 1];
        } else {
          assert r[j] == rest[j - 1];
          assert Key(rest[j - 1]) <= Key(rest[0]);
        }
      }
    }
  }

  /** `sorted(..., key=time_sum, reverse=True)`: stable, largest first. */
  function SortByTime(s: seq<Entry>): (r: seq<Entry>)
    ensures NonIncreasing(r) && multiset(r) == multiset(s)
  {
    if s == [] then []
    else
      var rest := SortByTime(s[1..]);
      InsertKeepsOrder(s[0], rest);
      InsertPermutes(s[0], rest);
      assert s == [s[0]] + s[1..];
      Insert(s[0], rest)
  }

  /** The entries whose key is `v`, in order. */
  function WithKey(s: seq<Entry>, v: real): seq<Entry> {
    if s == [] then [] else (if Key(s[0]) == v then [s[0]] else []) + WithKey(s[1..], v)
  }

  lemma {:induction false} WithKeyAppend(a: seq<Entry>, b: seq<Entry>, v: real)
    ensures WithKey(a + b, v) == WithKey(a, v) + WithKey(b, v)
  {
    if a != [] {
      assert (a + b)[1..] == a[1..] + b;
      WithKeyAppend(a[1..], b, v);
    } else {
      assert a + b == b;
    }
  }

  lemma WithKeyCons(e: Entry, s: seq<Entry>, v: real)
    ensures WithKey([e] + s, v) == (if Key(e) == v then [e] else []) + WithKey(s, v)
  {
    var c := [e] + s;
    assert c[0] == e && c[1..] == s;
  }

  lemma {:induction false} InsertWithKey(x: Entry, t: seq<Entry>, v: real)
    ensures WithKey(Insert(x, t), v) == (if Key(x) == v then [x] else []) + WithKey(t, v)
  {
    if t != [] && Key(t[0]) > Key(x) {
      var rest := Insert(x, t[1..]);
      assert Insert(x, t) == [t[0]] + rest;
      InsertWithKey(x, t[1..], v);
      WithKeyCons(t[0], rest, v);
      WithKeyCons(t[0], t[1..], v);
      assert t == [t[0]] + t[1..];
    } else {
      assert Insert(x, t) == [x] + t;
      WithKeyCons(x, t, v);
    }
  }

  /** The sort is stable: entries with equal keys come out in the order they went in. */
  lemma {:induction false} SortIsStable(s: seq<Entry>, v: real)
    ensures WithKey(SortByTime(s), v) == WithKey(s, v)
  {
    if s != [] {
      SortIsStable(s[1..], v);
      InsertWithKey(s[0], SortByTime(s[1..]), v);
    }
  }

  /**
   * Python's rule for index `i` of a list of length `len` under `[:n]`: a
   * non-negative `n` keeps the indices below it; a negative `n` drops the
   * last `-n` entries, so `i` survives when more than `-n` entries start at it.
   */
  predicate SurvivesSlice(n: int, len: nat, i: nat) {
    if n >= 0 then i < n else len - i > -n
  }

  /** The end of the slice `[:n]` on a list of length `len`: exactly the surviving indices lie before it. */
  function SliceEnd(n: int, len: nat): (k: nat)
    ensures k <= len
    ensures forall i: nat :: i < len ==> (i < k <==> SurvivesSlice(n, len, i))
  {
    if n >= 0 then (if n < len then n else len)
    else if len + n > 0 then len + n else 0
  }

  /** `sorted(stat_dict.items(), ...)[:report_size]`. */
  function Ranked(rep: Report, reportSize: int): seq<Entry> {
    var sorted := SortByTime(Items(rep.order, rep.stats));
    sorted[..SliceEnd(reportSize, |sorted|)]
  }

  /** The slice keeps as many entries as `[:report_size]` says, largest time first. */
  lemma RankedShape(rep: Report, reportSize: int)
    ensures |Ranked(rep, reportSize)| == SliceEnd(reportSize, |Items(rep.order, rep.stats)|)
    ensures NonIncreasing(Ranked(rep, reportSize))
  {
    var sorted := SortByTime(Items(rep.order, rep.stats));
    assert |sorted| == |multiset(sorted)| == |Items(rep.order, rep.stats)|;
  }

  /** Every ranked entry is a record of the table, and none is ranked more often than it occurs. */
  lemma RankedFromTable(rep: Report, reportSize: int)
    ensures multiset(Ranked(rep, reportSize)) <= multiset(Items(rep.order, rep.stats))
    ensures forall e :: e in Ranked(rep, reportSize) ==> e.0 in rep.stats && e.1 == rep.stats[e.0]
  {
    var items := Items(rep.order, rep.stats);
    var sorted := SortByTime(items);
    var k := SliceEnd(reportSize, |sorted|);
    assert sorted == sorted[..k] + sorted[k..];
    assert multiset(sorted) == multiset(sorted[..k]) + multiset(sorted[k..]);
    forall e | e in sorted[..k] ensures e in items {
      assert e in multiset(items);
    }
  }

  /** No entry left out has a larger time than the last one kept. */
  lemma RankedIsTop(rep: Report, reportSize: int, e: Entry)
    requires e in Items(rep.order, rep.stats) && e !in Ranked(rep, reportSize)
    requires |Ranked(rep, reportSize)| > 0
    ensures Key(e) <= Key(Ranked(rep, reportSize)[|Ranked(rep, reportSize)| - 1])
  {
    var sorted := SortByTime(Items(rep.order, rep.stats));
    var k := SliceEnd(reportSize, |sorted|);
    assert e in multiset(sorted);
    var j :| 0 <= j < |sorted| && sorted[j] == e;
    assert sorted[..k][k - 1] == sorted[k - 1];
  }

  /** Kept entries with equal times are the first of those entries in table order. */
  lemma RankedIsStable(rep: Report, reportSize: int, v: real)
    ensures WithKey(Ranked(rep, reportSize), v) <= WithKey(Items(rep.order, rep.stats), v)
  {
    var items := Items(rep.order, rep.stats);
    var sorted := SortByTime(items);
    var k := SliceEnd(reportSize, |sorted|);
    assert sorted == sorted[..k] + sorted[k..];
    SortIsStable(items, v);
    WithKeyAppend(sorted[..k], sorted[k..], v);
  }

  /**
   * With a table whose order lists each key once, the rows are
   * `min(report_size, len(stat_dict))` for a non-negative size, and
   * `max(0, len(stat_dict) + report_size)` for a negative one.
   */
  lemma RankedLength(rep: Report, reportSize: int)
    requires Listed(rep)
    ensures reportSize >= 0 ==> |Ranked(rep, reportSize)| == if reportSize < |rep.stats| then reportSize else |rep.stats|
    ensures reportSize < 0 ==> |Ranked(rep, reportSize)| == if |rep.stats| + reportSize > 0 then |rep.stats| + reportSize else 0
  {
    ItemsLength(rep.order, rep.stats);
    DistinctCardinality(rep.order);
    assert rep.stats.Keys == set u | u in rep.order;
    RankedShape(rep, reportSize);
  }

  /** Every key of the table ranks somewhere, so a size at least the table's keeps each of its records. */
  lemma RankedKeepsAll(rep: Report, reportSize: int, u: string)
    requires forall w :: w in rep.order ==> w in rep.stats
    requires reportSize >= |rep.order| && u in rep.order
    ensures (u, rep.stats[u]) in Ranked(rep, reportSize)
  {
    var items := Items(rep.order, rep.stats);
    ItemsLength(rep.order, rep.stats);
    var e :| e in items && e.0 == u;
    var sorted := SortByTime(items);
    assert |sorted| == |multiset(sorted)| == |items|;
    assert Ranked(rep, reportSize) == sorted;
    assert e in multiset(sorted);
  }

  function RowOf(e: Entry): ReportRow { ReportRow(e.0, e.1) }

  /**
   * The function of lines 117-124: ranks and cuts the table, then builds the
   * rows one by one, writing each key into its record as `url`.
   */
  method PrepareForTemplate(rep: Report, reportSize: int) returns (table: seq<ReportRow>)
    ensures |table| == |Ranked(rep, reportSize)|
    ensures forall i :: 0 <= i < |table| ==> table[i] == RowOf(Ranked(rep, reportSize)[i])
    ensures |table| == SliceEnd(reportSize, |Items(rep.order, rep.stats)|)
    ensures forall i, j :: 0 <= i < j < |table| ==> table[j].stat.timeSum <= table[i].stat.timeSum
    ensures forall row :: row in table ==> row.url in rep.stats && row.stat == rep.stats[row.url]
  {
    var ranked := Ranked(rep, reportSize);
    table := [];
    for i := 0 to |ranked|
      invariant |table| == i
      invariant forall k :: 0 <= k < i ==> table[k] == RowOf(ranked[k])
    {
      var (k, v) := ranked[i];
      table := table + [ReportRow(k, v)];
    }
    RankedShape(rep, reportSize);
    RankedFromTable(rep, reportSize);
    forall row | row in table ensures row.url in rep.stats && row.stat == rep.stats[row.url] {
      var k :| 0 <= k < |table| && table[k] == row;
      assert ranked[k] in ranked;
    }
  }
}
