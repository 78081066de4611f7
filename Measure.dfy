/**
 * The server side of one measurement (measure.js): the fixed audit options, and the
 * normalisation of an audit report into the result record the client stores.
 * Launching the browser and running the audit are outside the model: the report is an input.
 */
module Measure {
  import opened Wrappers
  import opened Rounding

  // ---------------------------------------------------------------------------
  // Audit options
  // ---------------------------------------------------------------------------

  datatype ScreenEmulation = ScreenEmulation(mobile: bool, width: nat, height: nat, deviceScaleFactor: nat, disabled: bool)

  datatype Throttling = Throttling(
    rttMs: nat, throughputKbps: nat, cpuSlowdownMultiplier: nat,
    requestLatencyMs: nat, downloadThroughputKbps: nat, uploadThroughputKbps: nat)

  datatype AuditOptions = AuditOptions(
    logLevel: string, output: string, onlyCategories: seq<string>, formFactor: string,
    screenEmulation: ScreenEmulation, throttlingMethod: string, throttling: Throttling)

  /** The one option block every audit runs with. */
  const LIGHTHOUSE_OPTIONS := AuditOptions(
    "error", "json", ["performance"], "desktop",
    ScreenEmulation(false, 1350, 940, 1, false),
    "provided",
    Throttling(0, 0, 1, 0, 0, 0))

  /** A desktop screen of 1350 by 940 pixels at scale 1 whose emulation is switched on. */
  predicate IsFixedDesktopScreen(s: ScreenEmulation) {
    !s.mobile && s.width == 1350 && s.height == 940 && s.deviceScaleFactor == 1 && !s.disabled
  }

  /** No network delay or bandwidth cap and no CPU slowdown. */
  predicate IsUnthrottled(t: Throttling) {
    t.rttMs == 0 && t.throughputKbps == 0 && t.requestLatencyMs == 0
    && t.downloadThroughputKbps == 0 && t.uploadThroughputKbps == 0 && t.cpuSlowdownMultiplier == 1
  }

  lemma OptionsAreFixed()
    ensures LIGHTHOUSE_OPTIONS.onlyCategories == ["performance"] && LIGHTHOUSE_OPTIONS.formFactor == "desktop"
    ensures IsFixedDesktopScreen(LIGHTHOUSE_OPTIONS.screenEmulation)
    ensures LIGHTHOUSE_OPTIONS.throttlingMethod == "provided" && IsUnthrottled(LIGHTHOUSE_OPTIONS.throttling)
  {
  }

  // ---------------------------------------------------------------------------
  // Audit report and result record
  // ---------------------------------------------------------------------------

  datatype Category = Category(score: Option<real>)
  datatype Audit = Audit(numericValue: Option<real>)

  /** The parts of a report that are read: the performance category and the audits by id. */
  datatype Report = Report(performance: Option<Category>, audits: map<string, Audit>)

  const LCP_AUDIT := "largest-contentful-paint"
  const FCP_AUDIT := "first-contentful-paint"
  const TBT_AUDIT := "total-blocking-time"

  datatype Metrics = Metrics(score: int, lcpMs: int, fcpMs: int, tbtMs: int)
  datatype Measurement = Measurement(url: string, measuredAt: string, metrics: Metrics)

  /** `categories.performance?.score || 0`: the report's score when it has one, and 0 otherwise. */
  function PerformanceScore(report: Report): (s: real)
    ensures report.performance.Some? && report.performance.value.score.Some?
      ==> s == report.performance.value.score.value
    ensures report.performance.None? || report.performance.value.score.None? ==> s == 0.0
  {
    match report.performance
    case Some(category) => category.score.GetOr(0.0)
    case None => 0.0
  }

  /** `audits[id]?.numericValue || 0`: the audit's value when the report has one, and 0 otherwise. */
  function NumericValue(report: Report, id: string): (v: real)
    ensures id in report.audits && report.audits[id].numericValue.Some?
      ==> v == report.audits[id].numericValue.value
    ensures id !in report.audits || report.audits[id].numericValue.None? ==> v == 0.0
  {
    if id in report.audits then report.audits[id].numericValue.GetOr(0.0) else 0.0
  }

  /**
   * The four figures of a report: the score scaled to 0..100, the three timings in whole
   * milliseconds, each the nearest integer to the (defaulted) figure.
   */
  function Extract(report: Report): (m: Metrics)
    ensures 0.0 <= PerformanceScore(report) <= 1.0 ==> 0 <= m.score <= 100
    ensures NumericValue(report, LCP_AUDIT) >= 0.0 ==> m.lcpMs >= 0
    ensures NumericValue(report, FCP_AUDIT) >= 0.0 ==> m.fcpMs >= 0
    ensures NumericValue(report, TBT_AUDIT) >= 0.0 ==> m.tbtMs >= 0
  {
    Metrics(
      Round(PerformanceScore(report) * 100.0),
      Round(NumericValue(report, LCP_AUDIT)),
      Round(NumericValue(report, FCP_AUDIT)),
      Round(NumericValue(report, TBT_AUDIT)))
  }

  /**
   * The record returned for `url`, stamped with the completion time `measuredAt`: it names the
   * URL that was audited, and for a report whose score is in 0..1 and whose timings are not
   * negative it holds a score in 0..100 and non-negative milliseconds.
   */
  function MeasurementResult(url: string, measuredAt: string, report: Report): (r: Measurement)
    ensures r.url == url && r.measuredAt == measuredAt
    ensures r.metrics == Extract(report)
    ensures 0.0 <= PerformanceScore(report) <= 1.0 ==> 0 <= r.metrics.score <= 100
    ensures NumericValue(report, LCP_AUDIT) >= 0.0 ==> r.metrics.lcpMs >= 0
    ensures NumericValue(report, FCP_AUDIT) >= 0.0 ==> r.metrics.fcpMs >= 0
    ensures NumericValue(report, TBT_AUDIT) >= 0.0 ==> r.metrics.tbtMs >= 0
  {
    Measurement(url, measuredAt, Extract(report))
  }

  /** Each figure is within half a unit of the report's figure (the score of the score times 100). */
  lemma FiguresAreNearest(report: Report)
    ensures var m := Extract(report);
      && -0.5 <= m.score as real - PerformanceScore(report) * 100.0 <= 0.5
      && -0.5 <= m.lcpMs as real - NumericValue(report, LCP_AUDIT) <= 0.5
      && -0.5 <= m.fcpMs as real - NumericValue(report, FCP_AUDIT) <= 0.5
      && -0.5 <= m.tbtMs as real - NumericValue(report, TBT_AUDIT) <= 0.5
  {
  }

  /** Each figure the report lacks becomes 0 on its own, whatever the other figures are; nothing fails. */
  lemma AbsentFiguresAreZero(report: Report)
    ensures report.performance.None? || report.performance.value.score.None?
      ==> Extract(report).score == 0
    ensures LCP_AUDIT !in report.audits || report.audits[LCP_AUDIT].numericValue.None?
      ==> Extract(report).lcpMs == 0
    ensures FCP_AUDIT !in report.audits || report.audits[FCP_AUDIT].numericValue.None?
      ==> Extract(report).fcpMs == 0
    ensures TBT_AUDIT !in report.audits || report.audits[TBT_AUDIT].numericValue.None?
      ==> Extract(report).tbtMs == 0
  {
  }

  /** Whole-millisecond timings and a score that is a whole percentage pass through exactly. */
  lemma WholeFiguresPassThrough(report: Report, score: int, lcp: int, fcp: int, tbt: int)
    requires report.performance == Some(Category(Some(score as real / 100.0)))
    requires LCP_AUDIT in report.audits && report.audits[LCP_AUDIT].numericValue == Some(lcp as real)
    requires FCP_AUDIT in report.audits && report.audits[FCP_AUDIT].numericValue == Some(fcp as real)
    requires TBT_AUDIT in report.audits && report.audits[TBT_AUDIT].numericValue == Some(tbt as real)
    ensures Extract(report) == Metrics(score, lcp, fcp, tbt)
  {
  }
}
