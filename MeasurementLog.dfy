/**
 * The client's append-only measurement log (web/index.js) and the per-URL average computed
 * from it: the count of entries for the URL and the rounded mean of each timing.
 */
module MeasurementLog {
  import opened Measure
  import opened Rounding
  import opened Sequences

  /** The three timings that are averaged; the score is not. */
  datatype Field = Lcp | Fcp | Tbt

  function FieldValue(m: Metrics, f: Field): int {
    match f
    case Lcp => m.lcpMs
    case Fcp => m.fcpMs
    case Tbt => m.tbtMs
  }

  /** `log.filter(m => m.url === url)`. */
  function ForUrl(log: seq<Measurement>, url: string): (r: seq<Measurement>)
    ensures |r| <= |log| && forall m :: m in r ==> m.url == url
  {
    Filter(log, (m: Measurement) => m.url == url)
  }

  /** `log.filter(m => m.url !== url)`. */
  function OtherThan(log: seq<Measurement>, url: string): (r: seq<Measurement>)
    ensures |r| <= |log| && forall m :: m in r ==> m.url != url
  {
    Filter(log, (m: Measurement) => m.url != url)
  }

  /** `ms.reduce((sum, m) => sum + m.metrics.<field>, 0)`. */
  function SumOf(ms: seq<Measurement>, f: Field): (r: int)
    ensures (forall i :: 0 <= i < |ms| ==> FieldValue(ms[i].metrics, f) >= 0) ==> r >= 0
  {
    if ms == [] then 0 else FieldValue(ms[0].metrics, f) + SumOf(ms[1..], f)
  }

  /** What the results table shows for one URL: `'-'` in every column when it has no entries. */
  datatype Average = NoData | Averaged(count: nat, lcpMs: int, fcpMs: int, tbtMs: int) {

    function Count(): nat {
      if NoData? then 0 else count
    }

    function Figure(f: Field): int
      requires Averaged?
    {
      match f
      case Lcp => lcpMs
      case Fcp => fcpMs
      case Tbt => tbtMs
    }
  }

  /** `Math.round(ms.reduce(...) / ms.length)`: the integer nearest the mean of one timing, halves rounding up. */
  function RoundedMean(ms: seq<Measurement>, f: Field): (r: int)
    requires ms != []
    ensures r as real - 0.5 <= SumOf(ms, f) as real / |ms| as real < r as real + 0.5
  {
    Round(SumOf(ms, f) as real / |ms| as real)
  }

  /**
   * `calculateAverage(url)`: the number of log entries for `url` and, when there are any,
   * the rounded mean of each timing over those entries.
   */
  function CalculateAverage(log: seq<Measurement>, url: string): (a: Average)
    ensures a.Count() == |ForUrl(log, url)|
    ensures a.NoData? <==> forall i :: 0 <= i < |log| ==> log[i].url != url
    ensures a.Averaged? ==> a.count > 0
  {
    var matching := ForUrl(log, url);
    FilterCounts(log, (m: Measurement) => m.url == url);
    assert forall i :: 0 <= i < |log| && log[i].url == url ==> multiset(matching)[log[i]] > 0;
    if |matching| == 0 then NoData
    else Averaged(|matching|, RoundedMean(matching, Lcp), RoundedMean(matching, Fcp), RoundedMean(matching, Tbt))
  }

  // ---------------------------------------------------------------------------
  // Facts about the log
  // ---------------------------------------------------------------------------

  /** The entries for `url` are exactly its entries in the log, each as often, in log order. */
  lemma ForUrlIsItsEntries(log: seq<Measurement>, url: string)
    ensures forall m :: multiset(ForUrl(log, url))[m] == if m.url == url then multiset(log)[m] else 0
    ensures IsSubsequence(ForUrl(log, url), log)
  {
    FilterCounts(log, (m: Measurement) => m.url == url);
    FilterIsSubsequence(log, (m: Measurement) => m.url == url);
  }

  /** Removing `url` keeps every other entry, as often and in log order, and nothing of `url`. */
  lemma OtherThanKeepsTheRest(log: seq<Measurement>, url: string)
    ensures forall m :: multiset(OtherThan(log, url))[m] == if m.url != url then multiset(log)[m] else 0
    ensures IsSubsequence(OtherThan(log, url), log)
  {
    FilterCounts(log, (m: Measurement) => m.url != url);
    FilterIsSubsequence(log, (m: Measurement) => m.url != url);
  }

  /** After the cascade delete for `url`, its average is the no-data value. */
  lemma RemovedUrlHasNoData(log: seq<Measurement>, url: string)
    ensures CalculateAverage(OtherThan(log, url), url) == NoData
  {
  }

  /** The cascade delete for `url` does not change the average of any other URL. */
  lemma RemovalKeepsOtherAverages(log: seq<Measurement>, url: string, other: string)
    requires other != url
    ensures CalculateAverage(OtherThan(log, url), other) == CalculateAverage(log, other)
  {
    FilterFilter(log, (m: Measurement) => m.url != url, (m: Measurement) => m.url == other);
  }

  /** Appending `m` adds one entry to the count of `m.url` and leaves every other URL's average alone. */
  lemma AppendAccumulates(log: seq<Measurement>, m: Measurement, url: string)
    ensures url == m.url ==> CalculateAverage(log + [m], url).Count() == CalculateAverage(log, url).Count() + 1
    ensures url != m.url ==> CalculateAverage(log + [m], url) == CalculateAverage(log, url)
  {
    var keep := (e: Measurement) => e.url == url;
    FilterAppend(log, [m], keep);
    assert [m][1..] == [];
    assert Filter([m], keep) == Head([m], keep);
    if url != m.url {
      assert ForUrl(log + [m], url) == ForUrl(log, url);
    }
  }

  lemma ForUrlAppend(a: seq<Measurement>, b: seq<Measurement>, url: string)
    ensures ForUrl(a + b, url) == ForUrl(a, url) + ForUrl(b, url)
  {
    FilterAppend(a, b, (m: Measurement) => m.url == url);
  }

  lemma ForUrlSingle(m: Measurement, url: string)
    ensures ForUrl([m], url) == if m.url == url then [m] else []
  {
    assert [m][1..] == [];
  }

  /** A sequence holding no entry for `url` gives nothing for it. */
  lemma ForUrlNone(ms: seq<Measurement>, url: string)
    requires forall m :: m in ms ==> m.url != url
    ensures ForUrl(ms, url) == []
  {
    FilterNone(ms, (m: Measurement) => m.url == url);
  }

  /** Appending entries none of which is for `url` leaves the average of `url` as it was. */
  lemma AppendOthersKeepsAverage(log: seq<Measurement>, more: seq<Measurement>, url: string)
    requires forall m :: m in more ==> m.url != url
    ensures CalculateAverage(log + more, url) == CalculateAverage(log, url)
  {
    ForUrlAppend(log, more, url);
    ForUrlNone(more, url);
    assert ForUrl(log + more, url) == ForUrl(log, url);
  }

  /** Appending a batch of entries adds the batch's entries for `url` to its count. */
  lemma AppendAddsCounts(log: seq<Measurement>, more: seq<Measurement>, url: string)
    ensures CalculateAverage(log + more, url).Count() == CalculateAverage(log, url).Count() + CalculateAverage(more, url).Count()
  {
    FilterAppend(log, more, (e: Measurement) => e.url == url);
  }

  /** The positions of the log entries whose URL is `url`. */
  ghost function Positions(log: seq<Measurement>, url: string): set<int> {
    set i | 0 <= i < |log| && log[i].url == url
  }

  lemma PositionsAppend(init: seq<Measurement>, m: Measurement, url: string)
    ensures |Positions(init + [m], url)| == |Positions(init, url)| + (if m.url == url then 1 else 0)
  {
    var log := init + [m];
    assert forall i :: 0 <= i < |init| ==> log[i] == init[i];
    if m.url == url {
      assert Positions(log, url) == Positions(init, url) + {|init|};
    } else {
      assert Positions(log, url) == Positions(init, url);
    }
  }

  /** The count is the number of log entries whose URL is `url`. */
  lemma {:induction false} CountIsOccurrences(log: seq<Measurement>, url: string)
    ensures CalculateAverage(log, url).Count() == |Positions(log, url)|
  {
    if log != [] {
      var n := |log| - 1;
      var init := log[..n];
      assert log == init + [log[n]];
      CountIsOccurrences(init, url);
      AppendAccumulates(init, log[n], url);
      PositionsAppend(init, log[n], url);
    }
  }

  lemma {:induction false} SumWithin(ms: seq<Measurement>, f: Field, lo: int, hi: int)
    requires forall i :: 0 <= i < |ms| ==> lo <= FieldValue(ms[i].metrics, f) <= hi
    ensures |ms| * lo <= SumOf(ms, f) <= |ms| * hi
  {
    if ms != [] {
      var rest := ms[1..];
      assert forall i :: 0 <= i < |rest| ==> rest[i] == ms[i + 1];
      SumWithin(rest, f, lo, hi);
      MulSucc(|rest|, lo);
      MulSucc(|rest|, hi);
    }
  }

  lemma MulSucc(k: int, c: int)
    ensures (k + 1) * c == k * c + c
  {
  }

  /** Each averaged timing lies between the smallest and the largest value of that timing among the URL's entries. */
  lemma AverageWithin(log: seq<Measurement>, url: string, f: Field, lo: int, hi: int)
    requires forall i :: 0 <= i < |log| && log[i].url == url ==> lo <= FieldValue(log[i].metrics, f) <= hi
    ensures CalculateAverage(log, url).Averaged? ==> lo <= CalculateAverage(log, url).Figure(f) <= hi
  {
    var matching := ForUrl(log, url);
    if matching != [] {
      ForUrlIsItsEntries(log, url);
      forall i | 0 <= i < |matching|
        ensures lo <= FieldValue(matching[i].metrics, f) <= hi
      {
        assert multiset(matching)[matching[i]] > 0;
      }
      SumWithin(matching, f, lo, hi);
      MeanWithin(SumOf(matching, f), |matching|, lo, hi);
    }
  }

  /** When all of a URL's entries agree on a timing, that timing's average is that value. */
  lemma AverageOfEqualValues(log: seq<Measurement>, url: string, f: Field, v: int)
    requires forall i :: 0 <= i < |log| && log[i].url == url ==> FieldValue(log[i].metrics, f) == v
    ensures CalculateAverage(log, url).Averaged? ==> CalculateAverage(log, url).Figure(f) == v
  {
    AverageWithin(log, url, f, v, v);
  }

  /**
   * A URL with a single entry in the log, among any number of other URLs' entries, averages to
   * exactly that entry's timings, with count 1.
   */
  lemma SingleEntryAverage(log: seq<Measurement>, i: int)
    requires 0 <= i < |log|
    requires forall j :: 0 <= j < |log| && j != i ==> log[j].url != log[i].url
    ensures CalculateAverage(log, log[i].url) == Averaged(1, log[i].metrics.lcpMs, log[i].metrics.fcpMs, log[i].metrics.tbtMs)
  {
    var m := log[i];
    CountIsOccurrences(log, m.url);
    assert Positions(log, m.url) == {i};
    AverageOfEqualValues(log, m.url, Lcp, m.metrics.lcpMs);
    AverageOfEqualValues(log, m.url, Fcp, m.metrics.fcpMs);
    AverageOfEqualValues(log, m.url, Tbt, m.metrics.tbtMs);
  }

  lemma {:induction false} SumsAgree(a: seq<Measurement>, b: seq<Measurement>, f: Field)
    requires |a| == |b|
    requires forall i :: 0 <= i < |a| ==> FieldValue(a[i].metrics, f) == FieldValue(b[i].metrics, f)
    ensures SumOf(a, f) == SumOf(b, f)
  {
    if a != [] {
      SumsAgree(a[1..], b[1..], f);
    }
  }

  /**
   * Each timing is averaged on its own: two logs whose entries for `url` agree, position by
   * position, on timing `f` give the same average for `f`, whatever the other timings or the scores are.
   */
  lemma FieldsAveragedIndependently(log1: seq<Measurement>, log2: seq<Measurement>, url: string, f: Field)
    requires |ForUrl(log1, url)| == |ForUrl(log2, url)|
    requires forall i :: 0 <= i < |ForUrl(log1, url)| ==>
      FieldValue(ForUrl(log1, url)[i].metrics, f) == FieldValue(ForUrl(log2, url)[i].metrics, f)
    ensures CalculateAverage(log1, url).Averaged? ==> CalculateAverage(log2, url).Averaged?
    ensures CalculateAverage(log1, url).Averaged? ==>
      CalculateAverage(log1, url).Figure(f) == CalculateAverage(log2, url).Figure(f)
  {
    SumsAgree(ForUrl(log1, url), ForUrl(log2, url), f);
  }

  /** Two runs of one page: 1000/500/50 ms and 1200/600/150 ms average to 1100/550/100 ms over 2 runs. */
  lemma TwoRunsExample(u: string, t1: string, t2: string)
    ensures CalculateAverage([Measurement(u, t1, Metrics(90, 1000, 500, 50)), Measurement(u, t2, Metrics(80, 1200, 600, 150))], u)
         == Averaged(2, 1100, 550, 100)
  {
    var log := [Measurement(u, t1, Metrics(90, 1000, 500, 50)), Measurement(u, t2, Metrics(80, 1200, 600, 150))];
    FilterAll(log, (m: Measurement) => m.url == u);
    assert ForUrl(log, u) == log;
    assert log[1..][1..] == [];
    assert SumOf(log[1..], Lcp) == 1200 && SumOf(log[1..], Fcp) == 600 && SumOf(log[1..], Tbt) == 150;
    assert SumOf(log, Lcp) == 2200 && SumOf(log, Fcp) == 1100 && SumOf(log, Tbt) == 200;
    RoundOfInteger(1100);
    RoundOfInteger(550);
    RoundOfInteger(100);
  }
}
