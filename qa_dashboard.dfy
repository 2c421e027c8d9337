/**
 * The QA dashboard of src/components/qa/QADashboard.tsx: health-score banding, the mock results
 * a test run produces, and the per-category counts the breakdown shows. The categories and the
 * health thresholds come from src/config/qa.config.ts.
 */
module QADashboard {
  import opened Wrappers

  /** TestCategory. */
  datatype TestCategory =
    | CodeCorrectness | WiringIntegration | Security | Deployment | UiUx
    | Performance | RuntimeRendering | Accessibility | DataIntegrity | DuplicatesLegacy

  /** An entry of QA_CATEGORIES, without its icon and colour. */
  datatype QACategory = QACategory(id: TestCategory, name: string)

  const QACategories: seq<QACategory> := [
    QACategory(CodeCorrectness, "Code Correctness"),
    QACategory(WiringIntegration, "Wiring & Integration"),
    QACategory(Security, "Security"),
    QACategory(Deployment, "Deployment"),
    QACategory(UiUx, "UI/UX"),
    QACategory(Performance, "Performance & Timing"),
    QACategory(RuntimeRendering, "Runtime Rendering"),
    QACategory(Accessibility, "Accessibility"),
    QACategory(DataIntegrity, "Data Integrity"),
    QACategory(DuplicatesLegacy, "Duplicates & Legacy")
  ]

  /** CategoryResults, without its (always empty) list of tests. */
  datatype CategoryResults = CategoryResults(category: TestCategory, total: int, passed: int, failed: int, skipped: int)

  /** QAResults; `timestamp` is the run's time in milliseconds. */
  datatype QAResults = QAResults(
    totalTests: int, passed: int, failed: int, skipped: int,
    categories: seq<CategoryResults>, systemHealth: real, timestamp: int)

  // ---------------------------------------------------------------------------------------------
  // Health banding

  datatype HealthBand = Excellent | Good | Fair | Poor

  /** What the dashboard shows for a score. */
  datatype HealthStatus = HealthStatus(labelText: string, color: string, icon: string)

  /** HEALTH_THRESHOLDS, best band first. */
  const HealthThresholds: seq<(HealthBand, real)> := [(Excellent, 90.0), (Good, 70.0), (Fair, 50.0), (Poor, 0.0)]

  /** How good a band is: 3 for Excellent down to 0 for Poor. */
  function Rank(b: HealthBand): nat
  {
    match b
    case Excellent => 3
    case Good => 2
    case Fair => 1
    case Poor => 0
  }

  function StatusOf(b: HealthBand): HealthStatus
  {
    match b
    case Excellent => HealthStatus("Excellent", "text-green-500", "\U{2764}\U{FE0F}")
    case Good => HealthStatus("Good", "text-yellow-500", "\U{1F49B}")
    case Fair => HealthStatus("Fair", "text-orange-500", "\U{1F9E1}")
    case Poor => HealthStatus("Poor", "text-red-500", "\U{1F494}")
  }

  /** The first band of `table` whose threshold the score reaches; Poor when it reaches none. */
  function BandByTable(score: real, table: seq<(HealthBand, real)>): (b: HealthBand)
    ensures b != Poor ==> exists i :: 0 <= i < |table| && table[i].0 == b && score >= table[i].1
    ensures (forall i :: 0 <= i < |table| ==> score < table[i].1) ==> b == Poor
  {
    if table == [] then Poor
    else if score >= table[0].1 then table[0].0
    else BandByTable(score, table[1..])
  }

  /** Reading the thresholds table: at least 90, 70 or 50 for the top three bands, Poor below. */
  lemma {:induction false} ThresholdBands(score: real)
    ensures BandByTable(score, HealthThresholds) ==
      if score >= 90.0 then Excellent else if score >= 70.0 then Good else if score >= 50.0 then Fair else Poor
  {
    var t := HealthThresholds;
    assert t[1..] == [(Good, 70.0), (Fair, 50.0), (Poor, 0.0)];
    assert t[1..][1..] == [(Fair, 50.0), (Poor, 0.0)];
    assert t[1..][1..][1..] == [(Poor, 0.0)];
    assert t[1..][1..][1..][1..] == [];
    assert BandByTable(score, t[1..][1..][1..]) == Poor;
    assert BandByTable(score, t[1..][1..]) == if score >= 50.0 then Fair else Poor;
    assert BandByTable(score, t[1..]) == if score >= 70.0 then Good else if score >= 50.0 then Fair else Poor;
  }

  /** getHealthStatus: the if-chain over 90, 70 and 50, which is the thresholds table read in order. */
  function GetHealthStatus(score: real): (s: HealthStatus)
    ensures s == StatusOf(BandByTable(score, HealthThresholds))
  {
    ThresholdBands(score);
    if score >= 90.0 then HealthStatus("Excellent", "text-green-500", "\U{2764}\U{FE0F}")
    else if score >= 70.0 then HealthStatus("Good", "text-yellow-500", "\U{1F49B}")
    else if score >= 50.0 then HealthStatus("Fair", "text-orange-500", "\U{1F9E1}")
    else HealthStatus("Poor", "text-red-500", "\U{1F494}")
  }

  /** The band a status names. */
  function BandOf(s: HealthStatus): Option<HealthBand>
  {
    if s.labelText == "Excellent" then Some(Excellent)
    else if s.labelText == "Good" then Some(Good)
    else if s.labelText == "Fair" then Some(Fair)
    else if s.labelText == "Poor" then Some(Poor)
    else None
  }

  /** Every score gets one of the four bands, with that band's label, colour and icon. */
  lemma GetHealthStatusNamesItsBand(score: real)
    ensures BandOf(GetHealthStatus(score)) == Some(BandByTable(score, HealthThresholds))
  {
  }

  /** The bands include their lower bound: 90 is Excellent, 89 Good, 50 Fair and 49 Poor. */
  lemma HealthBoundaries()
    ensures GetHealthStatus(90.0).labelText == "Excellent"
    ensures GetHealthStatus(89.0).labelText == "Good"
    ensures GetHealthStatus(70.0).labelText == "Good"
    ensures GetHealthStatus(69.0).labelText == "Fair"
    ensures GetHealthStatus(50.0).labelText == "Fair"
    ensures GetHealthStatus(49.0).labelText == "Poor"
  {
  }

  /** A higher score never gets a worse band. */
  lemma HealthMonotone(lo: real, hi: real)
    requires lo <= hi
    ensures Rank(BandByTable(lo, HealthThresholds)) <= Rank(BandByTable(hi, HealthThresholds))
  {
    ThresholdBands(lo);
    ThresholdBands(hi);
  }

  // ---------------------------------------------------------------------------------------------
  // The mock results of a run

  /** The entry of one category in the mock results. */
  function MockCategory(c: QACategory): CategoryResults
  {
    CategoryResults(c.id, 16, 0, 16, 0)
  }

  /** The results handleRunTests records: every one of the 160 tests failed. */
  function MockResults(timestamp: int): (r: QAResults)
    ensures |r.categories| == |QACategories|
    ensures forall i :: 0 <= i < |QACategories| ==> r.categories[i].category == QACategories[i].id
  {
    QAResults(160, 0, 160, 0, seq(|QACategories|, i requires 0 <= i < |QACategories| => MockCategory(QACategories[i])), 0.0, timestamp)
  }

  /** The sum of the category totals. */
  function SumTotals(cs: seq<CategoryResults>): int
  {
    if cs == [] then 0 else cs[0].total + SumTotals(cs[1..])
  }

  /** Each category's counts add up, and the overall counts add up to the sum of the categories. */
  predicate Consistent(r: QAResults) {
    && (forall i :: 0 <= i < |r.categories| ==>
          r.categories[i].passed + r.categories[i].failed + r.categories[i].skipped == r.categories[i].total)
    && r.passed + r.failed + r.skipped == r.totalTests
    && r.totalTests == SumTotals(r.categories)
  }

  lemma {:induction false} SumTotalsUniform(cs: seq<CategoryResults>, t: int)
    requires forall i :: 0 <= i < |cs| ==> cs[i].total == t
    ensures SumTotals(cs) == |cs| * t
  {
    if cs != [] {
      assert forall i :: 0 <= i < |cs[1..]| ==> cs[1..][i] == cs[i + 1];
      SumTotalsUniform(cs[1..], t);
    }
  }

  /** The mock results are consistent: 16 tests in each of the 10 categories make 160. */
  lemma MockResultsConsistent(timestamp: int)
    ensures Consistent(MockResults(timestamp))
    ensures MockResults(timestamp).systemHealth == 0.0 && GetHealthStatus(MockResults(timestamp).systemHealth).labelText == "Poor"
  {
    var r := MockResults(timestamp);
    SumTotalsUniform(r.categories, 16);
  }

  // ---------------------------------------------------------------------------------------------
  // The breakdown by category

  /** The entry at `k` is the first one with `id`. */
  predicate FirstWithId(categories: seq<CategoryResults>, id: TestCategory, k: nat) {
    && k < |categories|
    && categories[k].category == id
    && forall j :: 0 <= j < k ==> categories[j].category != id
  }

  /** `categories.find(c => c.category === id)`: the first entry with the id, if any. */
  function FindCategory(categories: seq<CategoryResults>, id: TestCategory): (r: Option<CategoryResults>)
    ensures r.Some? ==> r.value in categories && r.value.category == id
    ensures r.Some? ==> exists k: nat :: FirstWithId(categories, id, k) && categories[k] == r.value
    ensures r.None? ==> forall c :: c in categories ==> c.category != id
  {
    if categories == [] then None
    else if categories[0].category == id then
      assert FirstWithId(categories, id, 0);
      Some(categories[0])
    else
      var r := FindCategory(categories[1..], id);
      assert r.Some? ==> exists k: nat :: FirstWithId(categories, id, k) && categories[k] == r.value by {
        if r.Some? {
          var k: nat :| FirstWithId(categories[1..], id, k) && categories[1..][k] == r.value;
          assert forall j :: 0 < j <= k + 1 ==> categories[j] == categories[1..][j - 1];
          assert FirstWithId(categories, id, k + 1);
        }
      }
      r
  }

  /** `categoryResult?.passed || 0` and `categoryResult?.failed || 0`. */
  function ShownCounts(results: QAResults, id: TestCategory): (counts: (int, int))
    ensures FindCategory(results.categories, id).None? ==> counts == (0, 0)
    ensures FindCategory(results.categories, id).Some? ==>
      var c := FindCategory(results.categories, id).value; counts == (c.passed, c.failed)
  {
    match FindCategory(results.categories, id)
    case Some(c) => (if c.passed != 0 then c.passed else 0, if c.failed != 0 then c.failed else 0)
    case None => (0, 0)
  }

  /** After a run every category of QA_CATEGORIES shows 0 passed and 16 failed. */
  lemma MockBreakdown(timestamp: int, i: nat)
    requires i < |QACategories|
    ensures ShownCounts(MockResults(timestamp), QACategories[i].id) == (0, 16)
  {
    var cs := MockResults(timestamp).categories;
    assert cs[i].category == QACategories[i].id;
    assert forall j :: 0 <= j < |cs| ==> cs[j].passed == 0 && cs[j].failed == 16;
  }

  /** The state of the dashboard: the last results, and whether a run is in progress. */
  class Dashboard {
    var qaResults: Option<QAResults>
    var isRunning: bool

    constructor()
      ensures qaResults.None? && !isRunning && ShowsNoResults()
    {
      qaResults, isRunning := None, false;
    }

    /** The "No Test Results Yet" panel is shown. */
    predicate ShowsNoResults()
      reads this
    {
      qaResults.None? && !isRunning
    }

    /** handleRunTests before its timer fires. */
    method StartRun()
      modifies this
      ensures isRunning && qaResults == old(qaResults)
      ensures !ShowsNoResults()
    {
      isRunning := true;
    }

    /** The timer callback: the mock results, and the run over. */
    method FinishRun(timestamp: int)
      modifies this
      ensures qaResults == Some(MockResults(timestamp)) && !isRunning
      ensures Consistent(qaResults.value) && !ShowsNoResults()
    {
      qaResults := Some(MockResults(timestamp));
      isRunning := false;
      MockResultsConsistent(timestamp);
    }
  }
}
