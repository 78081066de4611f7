/**
 * The browser client (web/index.js): the tracked URL list and the measurement log, both kept
 * in the page's storage, and the operations that change them. The two stored collections are
 * the fields of `Store`; reading one back (`getUrls`, `getMeasurements`) is reading the field and
 * writing it (`saveUrls`, `saveMeasurements`) is assigning it.
 */
module Client {
  import opened Measure
  import opened MeasurementLog
  import opened Sequences
  import Text

  /** Why `addUrl` did or did not add the typed text; each rejection is a status message in the page. */
  datatype AddOutcome = Added | EmptyInput | InvalidUrl | DuplicateUrl

  /** What the request to the measuring server gave for one URL: its result record, or a thrown error. */
  datatype FetchOutcome = Ok(result: Measurement) | Err(message: string)

  /** The error status shown for a URL whose measurement failed. */
  datatype FailureReport = FailureReport(url: string, message: string)

  /** The results of a round, in URL order; failed requests contribute nothing. */
  function Successes(outcomes: seq<FetchOutcome>): (r: seq<Measurement>)
    ensures |r| <= |outcomes|
  {
    if outcomes == [] then []
    else
      var n := |outcomes| - 1;
      Successes(outcomes[..n]) + (match outcomes[n] case Ok(m) => [m] case Err(_) => [])
  }

  /** The results of a round are exactly the results of its successful requests. */
  lemma {:induction false} SuccessesAreResults(outcomes: seq<FetchOutcome>)
    ensures forall m :: m in Successes(outcomes) <==> Ok(m) in outcomes
  {
    if outcomes != [] {
      var n := |outcomes| - 1;
      assert outcomes == outcomes[..n] + [outcomes[n]];
      SuccessesAreResults(outcomes[..n]);
    }
  }

  /** The failure reports of a round, in URL order: one for each failed request, naming its URL and error. */
  function Failures(urls: seq<string>, outcomes: seq<FetchOutcome>): (r: seq<FailureReport>)
    requires |urls| == |outcomes|
    ensures |r| <= |outcomes|
  {
    if outcomes == [] then []
    else
      var n := |outcomes| - 1;
      Failures(urls[..n], outcomes[..n])
      + (match outcomes[n] case Ok(_) => [] case Err(e) => [FailureReport(urls[n], e)])
  }

  /** Every failed request is reported, with its URL and its error. */
  lemma {:induction false} ErrorsAreReported(urls: seq<string>, outcomes: seq<FetchOutcome>, i: int)
    requires |urls| == |outcomes|
    requires 0 <= i < |outcomes| && outcomes[i].Err?
    ensures FailureReport(urls[i], outcomes[i].message) in Failures(urls, outcomes)
  {
    var n := |outcomes| - 1;
    if i < n {
      ErrorsAreReported(urls[..n], outcomes[..n], i);
      assert urls[..n][i] == urls[i] && outcomes[..n][i] == outcomes[i];
    }
  }

  /** Every failure report comes from a failed request and names the URL that request was for. */
  lemma {:induction false} FailuresComeFromErrors(urls: seq<string>, outcomes: seq<FetchOutcome>, f: FailureReport)
    requires |urls| == |outcomes|
    requires f in Failures(urls, outcomes)
    ensures exists i :: 0 <= i < |outcomes| && urls[i] == f.url && outcomes[i] == Err(f.message)
  {
    var n := |outcomes| - 1;
    if f in Failures(urls[..n], outcomes[..n]) {
      FailuresComeFromErrors(urls[..n], outcomes[..n], f);
      var i :| 0 <= i < n && urls[..n][i] == f.url && outcomes[..n][i] == Err(f.message);
      assert urls[i] == f.url && outcomes[i] == Err(f.message);
    } else {
      assert urls[n] == f.url && outcomes[n] == Err(f.message);
    }
  }

  /** The server names in each result the URL it was asked to measure; `outcomes[i]` answers `urls[i]`. */
  predicate EchoesUrls(urls: seq<string>, outcomes: seq<FetchOutcome>)
    requires |urls| == |outcomes|
  {
    forall i :: 0 <= i < |outcomes| && outcomes[i].Ok? ==> outcomes[i].result.url == urls[i]
  }

  /** The failure reports of a round that name `url`. */
  function FailuresFor(failures: seq<FailureReport>, url: string): seq<FailureReport> {
    Filter(failures, (f: FailureReport) => f.url == url)
  }

  /** A failure stops nothing: the outcomes after it contribute their results all the same. */
  lemma {:induction false} SuccessesAppend(a: seq<FetchOutcome>, b: seq<FetchOutcome>)
    ensures Successes(a + b) == Successes(a) + Successes(b)
  {
    if b == [] {
      assert a + b == a;
    } else {
      var n := |b| - 1;
      assert (a + b)[..|a| + n] == a + b[..n];
      SuccessesAppend(a, b[..n]);
    }
  }

  lemma {:induction false} FailuresAppend(u1: seq<string>, o1: seq<FetchOutcome>, u2: seq<string>, o2: seq<FetchOutcome>)
    requires |u1| == |o1| && |u2| == |o2|
    ensures Failures(u1 + u2, o1 + o2) == Failures(u1, o1) + Failures(u2, o2)
  {
    if o2 == [] {
      assert u1 + u2 == u1 && o1 + o2 == o1;
    } else {
      var n := |o2| - 1;
      var u, o := u1 + u2, o1 + o2;
      assert u[..|u1| + n] == u1 + u2[..n];
      assert o[..|o1| + n] == o1 + o2[..n];
      FailuresAppend(u1, o1, u2[..n], o2[..n]);
      var last := match o2[n] case Ok(_) => [] case Err(e) => [FailureReport(u2[n], e)];
      assert Failures(u, o) == Failures(u1 + u2[..n], o1 + o2[..n]) + last;
      assert Failures(u2, o2) == Failures(u2[..n], o2[..n]) + last;
    }
  }

  /** A round over URLs other than `url` yields no result and no failure report for `url`. */
  lemma NothingForOtherUrls(urls: seq<string>, outcomes: seq<FetchOutcome>, url: string)
    requires |urls| == |outcomes| && EchoesUrls(urls, outcomes)
    requires url !in urls
    ensures ForUrl(Successes(outcomes), url) == []
    ensures FailuresFor(Failures(urls, outcomes), url) == []
  {
    SuccessesAreResults(outcomes);
    forall m | m in Successes(outcomes) ensures m.url != url {
      var j :| 0 <= j < |outcomes| && outcomes[j] == Ok(m);
    }
    ForUrlNone(Successes(outcomes), url);
    forall f | f in Failures(urls, outcomes) ensures f.url != url {
      FailuresComeFromErrors(urls, outcomes, f);
    }
    FilterNone(Failures(urls, outcomes), (f: FailureReport) => f.url == url);
  }

  /** The URLs before and after position `i` of a distinct list do not include `urls[i]`, and the server still echoes them. */
  lemma SplitAt(urls: seq<string>, outcomes: seq<FetchOutcome>, i: int)
    requires |urls| == |outcomes| && Distinct(urls) && EchoesUrls(urls, outcomes)
    requires 0 <= i < |urls|
    ensures urls == urls[..i] + [urls[i]] + urls[i + 1..]
    ensures outcomes == outcomes[..i] + [outcomes[i]] + outcomes[i + 1..]
    ensures urls[i] !in urls[..i] && urls[i] !in urls[i + 1..]
    ensures EchoesUrls(urls[..i], outcomes[..i]) && EchoesUrls(urls[i + 1..], outcomes[i + 1..])
  {
    assert urls == urls[..i] + [urls[i]] + urls[i + 1..];
    assert outcomes == outcomes[..i] + [outcomes[i]] + outcomes[i + 1..];
    forall j | 0 <= j < |urls| && j != i ensures urls[j] != urls[i] {
      if j < i { assert urls[j] != urls[i]; } else { assert urls[i] != urls[j]; }
    }
    forall j | i + 1 <= j < |outcomes|
      ensures outcomes[i + 1..][j - i - 1] == outcomes[j] && urls[i + 1..][j - i - 1] == urls[j]
    {
    }
  }

  /** In a round over distinct URLs, URL `urls[i]` gets the server's result when its request succeeded, and nothing otherwise. */
  lemma ResultsForUrl(urls: seq<string>, outcomes: seq<FetchOutcome>, i: int)
    requires |urls| == |outcomes| && Distinct(urls) && EchoesUrls(urls, outcomes)
    requires 0 <= i < |urls|
    ensures ForUrl(Successes(outcomes), urls[i]) == (match outcomes[i] case Ok(m) => [m] case Err(_) => [])
  {
    SplitAt(urls, outcomes, i);
    var u := urls[i];
    var pre, one, post := outcomes[..i], [outcomes[i]], outcomes[i + 1..];
    NothingForOtherUrls(urls[..i], pre, u);
    NothingForOtherUrls(urls[i + 1..], post, u);
    var sPre, sOne, sPost := Successes(pre), Successes(one), Successes(post);
    assert one[..0] == [];
    assert sOne == (match outcomes[i] case Ok(m) => [m] case Err(_) => []);
    SuccessesAppend(pre + one, post);
    SuccessesAppend(pre, one);
    assert Successes(outcomes) == sPre + sOne + sPost;
    ForUrlAppend(sPre + sOne, sPost, u);
    ForUrlAppend(sPre, sOne, u);
    assert ForUrl(Successes(outcomes), u) == ForUrl(sOne, u);
    if outcomes[i].Ok? {
      ForUrlSingle(outcomes[i].result, u);
    } else {
      assert sOne == [];
    }
  }

  /** The failure reports of a round are those before position `i`, the one for position `i` (if it failed), and those after it. */
  lemma FailuresAround(urls: seq<string>, outcomes: seq<FetchOutcome>, i: int)
    requires |urls| == |outcomes| && 0 <= i < |urls|
    ensures Failures(urls, outcomes)
         == Failures(urls[..i], outcomes[..i])
          + (match outcomes[i] case Ok(_) => [] case Err(e) => [FailureReport(urls[i], e)])
          + Failures(urls[i + 1..], outcomes[i + 1..])
  {
    var uPre, uPost := urls[..i], urls[i + 1..];
    var pre, one, post := outcomes[..i], [outcomes[i]], outcomes[i + 1..];
    assert urls == uPre + [urls[i]] + uPost;
    assert outcomes == pre + one + post;
    assert one[..0] == [] && [urls[i]][..0] == [];
    FailuresAppend(uPre + [urls[i]], pre + one, uPost, post);
    FailuresAppend(uPre, pre, [urls[i]], one);
  }

  /** In a round over distinct URLs, URL `urls[i]` gets one failure report, with its error, when its request failed, and none otherwise. */
  lemma ReportsForUrl(urls: seq<string>, outcomes: seq<FetchOutcome>, i: int)
    requires |urls| == |outcomes| && Distinct(urls) && EchoesUrls(urls, outcomes)
    requires 0 <= i < |urls|
    ensures FailuresFor(Failures(urls, outcomes), urls[i])
         == (match outcomes[i] case Ok(_) => [] case Err(e) => [FailureReport(urls[i], e)])
  {
    SplitAt(urls, outcomes, i);
    var u := urls[i];
    NothingForOtherUrls(urls[..i], outcomes[..i], u);
    NothingForOtherUrls(urls[i + 1..], outcomes[i + 1..], u);
    var fPre, fPost := Failures(urls[..i], outcomes[..i]), Failures(urls[i + 1..], outcomes[i + 1..]);
    var fOne := match outcomes[i] case Ok(_) => [] case Err(e) => [FailureReport(u, e)];
    FailuresAround(urls, outcomes, i);
    FilterAppend(fPre + fOne, fPost, (f: FailureReport) => f.url == u);
    FilterAppend(fPre, fOne, (f: FailureReport) => f.url == u);
    if outcomes[i].Err? {
      assert fOne[1..] == [];
    } else {
      assert fOne == [];
    }
  }

  /**
   * Every URL of a round ends in exactly one of a result and a failure report: in all, as many
   * of them as there are URLs, and, for distinct URLs, exactly one for each URL.
   */
  lemma {:induction false} EveryUrlAccountedFor(urls: seq<string>, outcomes: seq<FetchOutcome>)
    requires |urls| == |outcomes|
    ensures |Successes(outcomes)| + |Failures(urls, outcomes)| == |outcomes|
    ensures Distinct(urls) && EchoesUrls(urls, outcomes) ==> forall i :: 0 <= i < |urls| ==>
      |ForUrl(Successes(outcomes), urls[i])| + |FailuresFor(Failures(urls, outcomes), urls[i])| == 1
  {
    if outcomes != [] {
      var n := |outcomes| - 1;
      EveryUrlAccountedFor(urls[..n], outcomes[..n]);
    }
    if Distinct(urls) && EchoesUrls(urls, outcomes) {
      forall i | 0 <= i < |urls|
        ensures |ForUrl(Successes(outcomes), urls[i])| + |FailuresFor(Failures(urls, outcomes), urls[i])| == 1
      {
        ResultsForUrl(urls, outcomes, i);
        ReportsForUrl(urls, outcomes, i);
      }
    }
  }

  /** What a round does to the average of one of its distinct URLs: one more entry when its request succeeded, no change when it failed. */
  lemma RoundEffectOnUrl(log: seq<Measurement>, urls: seq<string>, outcomes: seq<FetchOutcome>, i: int)
    requires |urls| == |outcomes| && Distinct(urls) && EchoesUrls(urls, outcomes)
    requires 0 <= i < |urls|
    ensures match outcomes[i]
      case Ok(_) => CalculateAverage(log + Successes(outcomes), urls[i]).Count() == CalculateAverage(log, urls[i]).Count() + 1
      case Err(_) => CalculateAverage(log + Successes(outcomes), urls[i]) == CalculateAverage(log, urls[i])
  {
    ResultsForUrl(urls, outcomes, i);
    AppendAddsCounts(log, Successes(outcomes), urls[i]);
    if outcomes[i].Err? {
      forall m | m in Successes(outcomes) ensures m.url != urls[i] {
        ForUrlIsItsEntries(Successes(outcomes), urls[i]);
        assert multiset(Successes(outcomes))[m] > 0;
      }
      AppendOthersKeepsAverage(log, Successes(outcomes), urls[i]);
    }
  }

  /** When every request succeeds, the round yields every result, in URL order. */
  lemma {:induction false} AllSucceeded(outcomes: seq<FetchOutcome>)
    requires forall i :: 0 <= i < |outcomes| ==> outcomes[i].Ok?
    ensures |Successes(outcomes)| == |outcomes|
    ensures forall i :: 0 <= i < |outcomes| ==> Successes(outcomes)[i] == outcomes[i].result
  {
    if outcomes != [] {
      var n := |outcomes| - 1;
      var init := outcomes[..n];
      assert forall i :: 0 <= i < n ==> init[i] == outcomes[i];
      AllSucceeded(init);
      assert Successes(outcomes) == Successes(init) + [outcomes[n].result];
    }
  }

  /** When every request fails, the round yields no result. */
  lemma {:induction false} AllFailed(outcomes: seq<FetchOutcome>)
    requires forall i :: 0 <= i < |outcomes| ==> outcomes[i].Err?
    ensures Successes(outcomes) == []
  {
    if outcomes != [] {
      AllFailed(outcomes[..|outcomes| - 1]);
    }
  }

  class Store {
    /** The page's `new URL(text)` check (true when it does not throw), which the model does not look into. */
    const validUrl: string -> bool

    var urls: seq<string>
    var log: seq<Measurement>

    /** A URL `addUrl` can have added: non-empty, already trimmed and accepted by the URL check. */
    predicate Trackable(url: string) {
      url != [] && Text.Trim(url) == url && validUrl(url)
    }

    /** The URL list has no duplicates and holds only trackable URLs. */
    ghost predicate Valid()
      reads this
    {
      Distinct(urls) && forall u :: u in urls ==> Trackable(u)
    }

    /** A client whose storage holds nothing yet (`getUrls` and `getMeasurements` give `[]`). */
    constructor Fresh(validUrl: string -> bool)
      ensures this.validUrl == validUrl && urls == [] && log == []
      ensures Valid()
    {
      this.validUrl := validUrl;
      urls := [];
      log := [];
    }

    /** A client over collections already in storage. */
    constructor Load(validUrl: string -> bool, storedUrls: seq<string>, storedLog: seq<Measurement>)
      ensures this.validUrl == validUrl && urls == storedUrls && log == storedLog
    {
      this.validUrl := validUrl;
      urls := storedUrls;
      log := storedLog;
    }

    /** `addUrl()`: trims the typed text and appends it unless it is empty, not a URL or already tracked. */
    method AddUrl(input: string) returns (outcome: AddOutcome)
      modifies this
      ensures var url := Text.Trim(input);
        && (outcome == EmptyInput <==> url == [])
        && (outcome == InvalidUrl <==> url != [] && !validUrl(url))
        && (outcome == DuplicateUrl <==> url != [] && validUrl(url) && url in old(urls))
        && (outcome == Added <==> Trackable(url) && url !in old(urls))
        && urls == (if outcome == Added then old(urls) + [url] else old(urls))
      ensures log == old(log)
      ensures old(Valid()) ==> Valid()
    {
      var url := Text.Trim(input);
      Text.TrimIdempotent(input);
      if url == [] {
        return EmptyInput;
      }
      if !validUrl(url) {
        return InvalidUrl;
      }
      if url in urls {
        return DuplicateUrl;
      }
      urls := urls + [url];
      outcome := Added;
    }

    /** `removeUrl(url)`: stops tracking `url` and deletes every log entry for it. */
    method RemoveUrl(url: string)
      modifies this
      ensures urls == Without(old(urls), url)
      ensures log == OtherThan(old(log), url)
      ensures IsSubsequence(urls, old(urls)) && IsSubsequence(log, old(log))
      ensures url !in urls && CalculateAverage(log, url) == NoData
      ensures forall u :: u in urls <==> u in old(urls) && u != url
      ensures old(Valid()) ==> Valid()
    {
      ghost var before := urls;
      urls := Without(urls, url);
      log := OtherThan(log, url);
      RemovedUrlHasNoData(old(log), url);
      OtherThanKeepsTheRest(old(log), url);
      if Distinct(before) {
        WithoutKeepsDistinct(before, url);
      }
    }

    /** `saveMeasurement(result)`: appends the result to the log, with no deduplication. */
    method SaveMeasurement(result: Measurement)
      modifies this
      ensures log == old(log) + [result]
      ensures urls == old(urls)
    {
      log := log + [result];
    }

    /**
     * `measureAll()`: requests a measurement of every tracked URL in list order, `outcomes[i]`
     * being what the request for `urls[i]` gave; each result is saved as it arrives, and a
     * failure is reported and the loop goes on with the next URL.
     */
    method MeasureAll(outcomes: seq<FetchOutcome>) returns (failures: seq<FailureReport>)
      requires |outcomes| == |urls|
      modifies this
      ensures urls == old(urls)
      ensures log == old(log) + Successes(outcomes)
      ensures failures == Failures(urls, outcomes)
      ensures old(Valid()) ==> Valid()
      ensures old(Valid()) && EchoesUrls(urls, outcomes) ==> forall i :: 0 <= i < |urls| ==>
        match outcomes[i]
        case Ok(_) => CalculateAverage(log, urls[i]).Count() == CalculateAverage(old(log), urls[i]).Count() + 1
        case Err(_) => CalculateAverage(log, urls[i]) == CalculateAverage(old(log), urls[i])
    {
      var targets := urls;
      failures := [];
      if |targets| == 0 {
        return;
      }
      for i := 0 to |targets|
        invariant urls == targets
        invariant log == old(log) + Successes(outcomes[..i])
        invariant failures == Failures(targets[..i], outcomes[..i])
      {
        assert outcomes[..i + 1][..i] == outcomes[..i];
        assert targets[..i + 1][..i] == targets[..i];
        match outcomes[i] {
          case Ok(result) =>
            SaveMeasurement(result);
          case Err(message) =>
            failures := failures + [FailureReport(targets[i], message)];
        }
      }
      assert outcomes[..|targets|] == outcomes;
      assert targets[..|targets|] == targets;
      if old(Valid()) && EchoesUrls(urls, outcomes) {
        forall i | 0 <= i < |urls|
          ensures match outcomes[i]
            case Ok(_) => CalculateAverage(log, urls[i]).Count() == CalculateAverage(old(log), urls[i]).Count() + 1
            case Err(_) => CalculateAverage(log, urls[i]) == CalculateAverage(old(log), urls[i])
        {
          RoundEffectOnUrl(old(log), urls, outcomes, i);
        }
      }
    }
  }

}
