/** The common verification receipt: its builder accumulates checks in one pass, and a separately
    written validator checks the finished document. */
module VerificationReceipt {
  import opened Ordering
  import opened Outcomes
  import opened Prefixes
  import opened Texts

  const MAX_FAILURES_IN_RECEIPT := 128

  datatype Kind = Resources | NativeTimeline | FaultInjection

  datatype Category =
    | ArtifactBinding | Allocator | Stack | StaticRam | TraceBuffer | ClockAlignment | CallDepth | AnalysisSummary
    | Function | Task | Isr | ContextSwitch | Interrupt | FunctionActivation
    | Health | FaultPublication | Recovery

  datatype Scenario =
    | TraceOverflow | FlowError | SamplingBufferFull | ElfMismatch
    | Trace32DisconnectRecovery | DriverDisconnectRecovery | CmmAbortRecovery

  predicate RecoveryScenario(s: Option<Scenario>) {
    s in {Some(Trace32DisconnectRecovery), Some(DriverDisconnectRecovery), Some(CmmAbortRecovery)}
  }

  function Categories(kind: Kind): seq<Category> {
    match kind
    case Resources => [ArtifactBinding, Allocator, Stack, StaticRam, TraceBuffer, ClockAlignment, CallDepth, AnalysisSummary]
    case NativeTimeline => [ArtifactBinding, Function, Task, Isr, ContextSwitch, Interrupt, FunctionActivation]
    case FaultInjection => [ArtifactBinding, Health, FaultPublication, Recovery]
  }

  /** The categories that must not be empty. */
  function Required(kind: Kind, scenario: Option<Scenario>): seq<Category> {
    if kind.FaultInjection? && !RecoveryScenario(scenario) then [ArtifactBinding, Health, FaultPublication]
    else Categories(kind)
  }

  predicate KindFitsScenario(kind: Kind, scenario: Option<Scenario>) {
    kind.FaultInjection? <==> scenario.Some?
  }

  const MAX_NAME := 512
  const MAX_REASON := 2048

  datatype Check = Check(category: Category, name: string, passed: bool, reason: string,
                         absolute: Option<real>, relative: Option<real>)

  datatype Counts = Counts(total: int, passed: int, failed: int)

  datatype CategoryRow = CategoryRow(category: Category, counts: Counts)

  datatype Failure = Failure(check: string, reason: string)

  datatype MaxError = MaxError(check: Option<string>, absolute: real, relative: real)

  datatype Receipt = Receipt(
    kind: Kind, scenario: Option<Scenario>,
    checks: Counts, categories: seq<CategoryRow>, maxError: MaxError,
    failureCount: int, failures: seq<Failure>, truncated: bool, pass: bool)

  datatype Fault =
    | KindScenario | ForeignCategory | BadName | HalfError | NegativeError | BadReason | EmptyCategory
    | CountsDoNotAdd | DuplicateCategory | WrongCategories | TotalsDiffer | BadMaxError
    | BadFailures | WrongFailureCount | WrongTruncation | OmittedFailures | WrongVerdict

  // ---------------------------------------------------------------- what the checks say

  predicate WellFormed(c: Check, kind: Kind) {
    && c.category in Categories(kind)
    && Bounded(c.name, MAX_NAME)
    && (c.absolute.Some? <==> c.relative.Some?)
    && (c.absolute.Some? ==> 0.0 <= c.absolute.value && 0.0 <= c.relative.value)
    && (!c.passed ==> Bounded(c.reason, MAX_REASON))
  }

  function Tally(checks: seq<Check>, category: Category): Counts {
    if checks == [] then Counts(0, 0, 0)
    else
      var before, c := Tally(checks[..|checks| - 1], category), checks[|checks| - 1];
      if c.category == category then AddCheck(before, c.passed) else before
  }

  function AddCheck(n: Counts, passed: bool): Counts {
    if passed then Counts(n.total + 1, n.passed + 1, n.failed) else Counts(n.total + 1, n.passed, n.failed + 1)
  }

  function TallyAll(checks: seq<Check>): Counts {
    if checks == [] then Counts(0, 0, 0) else AddCheck(TallyAll(checks[..|checks| - 1]), checks[|checks| - 1].passed)
  }

  function Failures(checks: seq<Check>): seq<Failure> {
    if checks == [] then []
    else
      var c := checks[|checks| - 1];
      Failures(checks[..|checks| - 1]) + if c.passed then [] else [Failure(c.name, c.reason)]
  }

  function Rows(categories: seq<Category>, checks: seq<Check>): seq<CategoryRow> {
    if categories == [] then []
    else
      var last := categories[|categories| - 1];
      Rows(categories[..|categories| - 1], checks) + [CategoryRow(last, Tally(checks, last))]
  }

  /** Errors are ordered by relative error first, then by absolute error. */
  predicate ErrorLess(a: MaxError, c: Check) {
    c.absolute.Some? && c.relative.Some?
    && (a.relative < c.relative.value || (a.relative == c.relative.value && a.absolute < c.absolute.value))
  }

  /** The greatest error, reported at the first check that reaches it; (0, 0) and no check when no
      check has a positive error. */
  ghost predicate IsMaxError(m: MaxError, checks: seq<Check>) {
    && (forall i :: 0 <= i < |checks| ==> !ErrorLess(m, checks[i]))
    && if m.check.None? then m.absolute == 0.0 && m.relative == 0.0
       else exists i :: FirstReach(m, checks, i)
  }

  ghost predicate FirstReach(m: MaxError, checks: seq<Check>, i: int) {
    && 0 <= i < |checks|
    && m.check == Some(checks[i].name)
    && checks[i].absolute == Some(m.absolute) && checks[i].relative == Some(m.relative)
    && ErrorLess(MaxError(None, 0.0, 0.0), checks[i])
    && forall k :: 0 <= k < i ==> checks[k].absolute.Some? && checks[k].relative.Some? ==>
         || checks[k].relative.value < m.relative
         || (checks[k].relative.value == m.relative && checks[k].absolute.value < m.absolute)
  }

  ghost predicate NoneEmpty(kind: Kind, scenario: Option<Scenario>, checks: seq<Check>) {
    forall c :: c in Required(kind, scenario) ==> Tally(checks, c).total != 0
  }

  ghost predicate Buildable(kind: Kind, scenario: Option<Scenario>, checks: seq<Check>) {
    && KindFitsScenario(kind, scenario)
    && AllWellFormed(checks, kind)
    && NoneEmpty(kind, scenario, checks)
  }

  ghost predicate Summarises(r: Receipt, kind: Kind, scenario: Option<Scenario>, checks: seq<Check>) {
    && r.kind == kind && r.scenario == scenario
    && r.checks == TallyAll(checks)
    && r.categories == Rows(Categories(kind), checks)
    && IsMaxError(r.maxError, checks)
    && var failures := Failures(checks);
       && r.failureCount == |failures|
       && r.failures == (if |failures| <= MAX_FAILURES_IN_RECEIPT then failures else failures[..MAX_FAILURES_IN_RECEIPT])
       && r.truncated == (MAX_FAILURES_IN_RECEIPT < |failures|)
       && r.pass == (failures == [])
  }

  // ---------------------------------------------------------------- the builder

  datatype Totals = Totals(counts: map<Category, Counts>, failureCount: nat, failures: seq<Failure>, maxError: MaxError)

  ghost predicate Accumulated(t: Totals, categories: seq<Category>, checks: seq<Check>) {
    && t.counts.Keys == (set c | c in categories)
    && (forall c :: c in categories ==> t.counts[c] == Tally(checks, c))
    && t.failureCount == |Failures(checks)|
    && t.failures == Kept(Failures(checks))
    && IsMaxError(t.maxError, checks)
  }

  predicate AllWellFormed(checks: seq<Check>, kind: Kind) {
    forall i :: 0 <= i < |checks| ==> WellFormed(checks[i], kind)
  }

  method CheckShape(check: Check, kind: Kind) returns (fault: Option<Fault>)
    ensures fault.None? <==> WellFormed(check, kind)
  {
    if check.category !in Categories(kind) { return Some(ForeignCategory); }
    if !Bounded(check.name, MAX_NAME) { return Some(BadName); }
    if check.absolute.None? != check.relative.None? { return Some(HalfError); }
    if check.absolute.Some? && (check.absolute.value < 0.0 || check.relative.value < 0.0) { return Some(NegativeError); }
    if !check.passed && !Bounded(check.reason, MAX_REASON) { return Some(BadReason); }
    return None;
  }

  /** The accumulating loop over the checks. */
  method Accumulate(kind: Kind, checks: seq<Check>) returns (r: Result<Totals, Fault>)
    ensures r.Ok? <==> AllWellFormed(checks, kind)
    ensures r.Ok? ==> Accumulated(r.value, Categories(kind), checks)
  {
    var counts := map c | c in Categories(kind) :: Counts(0, 0, 0);
    var failures: seq<Failure> := [];
    var failureCount := 0;
    var maxError := MaxError(None, 0.0, 0.0);
    for i := 0 to |checks|
      invariant AllWellFormed(checks[..i], kind)
      invariant Accumulated(Totals(counts, failureCount, failures, maxError), Categories(kind), checks[..i])
    {
      var check := checks[i];
      var fault := CheckShape(check, kind);
      if fault.Some? { return Raised(fault.value); }
      ghost var t := Totals(counts, failureCount, failures, maxError);
      AccumulateNext(t, kind, checks[..i], check);
      counts := counts[check.category := AddCheck(counts[check.category], check.passed)];
      failureCount := failureCount + if check.passed then 0 else 1;
      failures := AddFailure(failures, check);
      maxError := Raise(maxError, check);
      assert Totals(counts, failureCount, failures, maxError) == Next(t, check);
      PrefixGrows(checks, i);
    }
    assert checks[..|checks|] == checks;
    return Ok(Totals(counts, failureCount, failures, maxError));
  }

  function AddFailure(failures: seq<Failure>, c: Check): seq<Failure> {
    if !c.passed && |failures| < MAX_FAILURES_IN_RECEIPT then failures + [Failure(c.name, c.reason)] else failures
  }

  function Raise(m: MaxError, c: Check): MaxError {
    if ErrorLess(m, c) then MaxError(Some(c.name), c.absolute.value, c.relative.value) else m
  }

  function Next(t: Totals, c: Check): Totals
    requires c.category in t.counts
  {
    Totals(t.counts[c.category := AddCheck(t.counts[c.category], c.passed)],
           t.failureCount + if c.passed then 0 else 1, AddFailure(t.failures, c), Raise(t.maxError, c))
  }

  lemma {:induction false} AccumulateNext(t: Totals, kind: Kind, before: seq<Check>, c: Check)
    requires Accumulated(t, Categories(kind), before)
    requires AllWellFormed(before, kind) && WellFormed(c, kind)
    ensures AllWellFormed(before + [c], kind)
    ensures c.category in t.counts && Accumulated(Next(t, c), Categories(kind), before + [c])
  {
    MaxErrorNext(t.maxError, before, c);
  }

  function Assemble(kind: Kind, scenario: Option<Scenario>, t: Totals, rows: seq<CategoryRow>, totals: Counts): Receipt {
    Receipt(kind, scenario, totals, rows, t.maxError, t.failureCount, t.failures,
            |t.failures| < t.failureCount, totals.failed == 0)
  }

  lemma {:induction false} AssembledSummarises(kind: Kind, scenario: Option<Scenario>, t: Totals, checks: seq<Check>)
    requires AllWellFormed(checks, kind) && Accumulated(t, Categories(kind), checks)
    ensures var rows := Rows(Categories(kind), checks);
            Summarises(Assemble(kind, scenario, t, rows, SumRows(rows)), kind, scenario, checks)
  {
    RowsAddUp(Categories(kind), checks);
    FailuresAreFailed(checks);
  }

  method BuildReceipt(kind: Kind, scenario: Option<Scenario>, checks: seq<Check>) returns (r: Result<Receipt, Fault>)
    ensures r.Ok? <==> Buildable(kind, scenario, checks)
    ensures r.Ok? ==> Summarises(r.value, kind, scenario, checks) && Validates(r.value)
  {
    if !KindFitsScenario(kind, scenario) { return Raised(KindScenario); }
    var accumulated := Accumulate(kind, checks);
    if accumulated.Raised? { return Raised(accumulated.fault); }
    var t := accumulated.value;
    var rows, totals := CollectRows(Categories(kind), t.counts, checks);
    var filled := RequiredFilled(kind, scenario, t.counts, checks);
    if !filled { return Raised(EmptyCategory); }
    var receipt := Assemble(kind, scenario, t, rows, totals);
    AssembledSummarises(kind, scenario, t, checks);
    BuiltReceiptValidates(receipt, checks);
    var rejected := ValidateReceipt(receipt);
    if rejected.Some? { assert false; }
    return Ok(receipt);
  }

  method RequiredFilled(kind: Kind, scenario: Option<Scenario>, counts: map<Category, Counts>, ghost checks: seq<Check>)
    returns (filled: bool)
    requires forall c :: c in Categories(kind) ==> c in counts && counts[c] == Tally(checks, c)
    ensures filled <==> NoneEmpty(kind, scenario, checks)
  {
    filled := forall c :: c in Required(kind, scenario) ==> counts[c].total != 0;
  }

  function Kept(failures: seq<Failure>): seq<Failure> {
    if |failures| <= MAX_FAILURES_IN_RECEIPT then failures else failures[..MAX_FAILURES_IN_RECEIPT]
  }

  method CollectRows(categories: seq<Category>, counts: map<Category, Counts>, ghost checks: seq<Check>)
    returns (rows: seq<CategoryRow>, totals: Counts)
    requires forall c :: c in categories ==> c in counts && counts[c] == Tally(checks, c)
    ensures rows == Rows(categories, checks) && totals == SumRows(rows)
  {
    rows, totals := [], Counts(0, 0, 0);
    for i := 0 to |categories|
      invariant rows == Rows(categories[..i], checks) && totals == SumRows(rows)
    {
      assert categories[..i + 1][..i] == categories[..i];
      var n := counts[categories[i]];
      rows := rows + [CategoryRow(categories[i], n)];
      totals := Plus(totals, n);
    }
    assert categories[..|categories|] == categories;
  }

  function Plus(a: Counts, b: Counts): Counts {
    Counts(a.total + b.total, a.passed + b.passed, a.failed + b.failed)
  }

  function SumRows(rows: seq<CategoryRow>): Counts {
    if rows == [] then Counts(0, 0, 0) else Plus(SumRows(rows[..|rows| - 1]), rows[|rows| - 1].counts)
  }

  lemma {:induction false} MaxErrorNext(m: MaxError, checks: seq<Check>, c: Check)
    requires IsMaxError(m, checks) && (c.absolute.Some? <==> c.relative.Some?)
    requires forall i :: 0 <= i < |checks| ==> (checks[i].absolute.Some? <==> checks[i].relative.Some?)
    requires 0.0 <= m.absolute && 0.0 <= m.relative
    ensures var next := if ErrorLess(m, c) then MaxError(Some(c.name), c.absolute.value, c.relative.value) else m;
            IsMaxError(next, checks + [c])
  {
    var all := checks + [c];
    assert all[|checks|] == c && forall i :: 0 <= i < |checks| ==> all[i] == checks[i];
    if ErrorLess(m, c) {
      assert FirstReach(MaxError(Some(c.name), c.absolute.value, c.relative.value), all, |checks|);
    } else if m.check.Some? {
      var i :| FirstReach(m, checks, i);
      assert FirstReach(m, all, i);
    }
  }

  // ---------------------------------------------------------------- category counts add up

  lemma {:induction false} TallyNext(checks: seq<Check>, c: Check, category: Category)
    ensures Tally(checks + [c], category) ==
            if c.category == category then AddCheck(Tally(checks, category), c.passed) else Tally(checks, category)
  {
    assert (checks + [c])[..|checks|] == checks;
  }

  lemma {:induction false} SumRowsNext(categories: seq<Category>, last: Category, checks: seq<Check>)
    ensures SumRows(Rows(categories + [last], checks)) == Plus(SumRows(Rows(categories, checks)), Tally(checks, last))
  {
    var rows, row := Rows(categories, checks), CategoryRow(last, Tally(checks, last));
    assert (categories + [last])[..|categories|] == categories;
    assert (rows + [row])[..|rows|] == rows;
  }

  lemma {:induction false} CheckInEitherSummand(a: Counts, b: Counts, passed: bool)
    ensures AddCheck(Plus(a, b), passed) == Plus(AddCheck(a, passed), b) == Plus(a, AddCheck(b, passed))
  {
  }

  lemma {:induction false} LastIsNew<T>(s: seq<T>, last: T)
    requires Distinct(s + [last])
    ensures Distinct(s) && last !in s
  {
    var all := s + [last];
    assert all[|s|] == last && forall i :: 0 <= i < |s| ==> all[i] == s[i];
  }

  /** Adding one check changes exactly one row of distinct categories. */
  lemma {:induction false} RowsAddOne(categories: seq<Category>, checks: seq<Check>, c: Check)
    requires Distinct(categories)
    ensures SumRows(Rows(categories, checks + [c])) ==
            if c.category in categories then AddCheck(SumRows(Rows(categories, checks)), c.passed)
            else SumRows(Rows(categories, checks))
  {
    if categories != [] {
      var init, last := categories[..|categories| - 1], categories[|categories| - 1];
      assert categories == init + [last];
      LastIsNew(init, last);
      RowsAddOne(init, checks, c);
      SumRowsNext(init, last, checks);
      SumRowsNext(init, last, checks + [c]);
      TallyNext(checks, c, last);
      CheckInEitherSummand(SumRows(Rows(init, checks)), Tally(checks, last), c.passed);
      assert c.category in categories <==> c.category in init || c.category == last;
    }
  }

  /** The category counts always sum to the totals over all checks. */
  lemma {:induction false} RowsAddUp(categories: seq<Category>, checks: seq<Check>)
    requires Distinct(categories) && forall i :: 0 <= i < |checks| ==> checks[i].category in categories
    ensures SumRows(Rows(categories, checks)) == TallyAll(checks)
  {
    if checks == [] {
      EmptyRows(categories);
    } else {
      var init, last := checks[..|checks| - 1], checks[|checks| - 1];
      assert checks == init + [last];
      RowsAddUp(categories, init);
      RowsAddOne(categories, init, last);
    }
  }

  lemma {:induction false} EmptyRows(categories: seq<Category>)
    ensures SumRows(Rows(categories, [])) == Counts(0, 0, 0)
  {
    if categories != [] {
      var init, last := categories[..|categories| - 1], categories[|categories| - 1];
      assert categories == init + [last];
      EmptyRows(init);
    }
  }

  lemma {:induction false} FailuresAreFailed(checks: seq<Check>)
    ensures |Failures(checks)| == TallyAll(checks).failed
    ensures forall f :: f in Failures(checks) ==> exists i :: 0 <= i < |checks| && !checks[i].passed && f == Failure(checks[i].name, checks[i].reason)
    ensures Failures(checks) == [] <==> forall i :: 0 <= i < |checks| ==> checks[i].passed
  {
    if checks != [] {
      var init, last := checks[..|checks| - 1], checks[|checks| - 1];
      FailuresAreFailed(init);
      assert forall i :: 0 <= i < |init| ==> checks[i] == init[i];
      forall f | f in Failures(checks)
        ensures exists i :: 0 <= i < |checks| && !checks[i].passed && f == Failure(checks[i].name, checks[i].reason)
      {
        if f in Failures(init) {
          var i :| 0 <= i < |init| && !init[i].passed && f == Failure(init[i].name, init[i].reason);
          assert !checks[i].passed && f == Failure(checks[i].name, checks[i].reason);
        } else {
          assert f == Failure(last.name, last.reason);
        }
      }
    }
  }

  // ---------------------------------------------------------------- the validator

  predicate AddsUp(n: Counts) {
    0 <= n.total && 0 <= n.passed && 0 <= n.failed && n.passed + n.failed == n.total
  }

  predicate RowsAddUpEach(rows: seq<CategoryRow>) {
    forall i :: 0 <= i < |rows| ==> AddsUp(rows[i].counts)
  }

  predicate RowsNamed(rows: seq<CategoryRow>, categories: seq<Category>) {
    |rows| == |categories| && forall i :: 0 <= i < |rows| ==> rows[i].category == categories[i]
  }

  predicate Validates(r: Receipt) {
    && KindFitsScenario(r.kind, r.scenario)
    && AddsUp(r.checks)
    && RowsAddUpEach(r.categories)
    && RowsNamed(r.categories, Categories(r.kind))
    && SumRows(r.categories) == r.checks
    && (forall i :: 0 <= i < |r.categories| && r.categories[i].category in Required(r.kind, r.scenario) ==>
          r.categories[i].counts.total != 0)
    && (r.maxError.check.Some? ==> Bounded(r.maxError.check.value, MAX_NAME))
    && 0.0 <= r.maxError.absolute && 0.0 <= r.maxError.relative
    && |r.failures| <= MAX_FAILURES_IN_RECEIPT
    && FailuresBounded(r.failures)
    && r.failureCount == r.checks.failed
    && r.truncated == (|r.failures| < r.failureCount)
    && (!r.truncated ==> r.failureCount == |r.failures|)
    && r.pass == (r.checks.failed == 0)
  }

  method ValidateReceipt(r: Receipt) returns (fault: Option<Fault>)
    ensures fault.None? <==> Validates(r)
  {
    if !KindFitsScenario(r.kind, r.scenario) { return Some(KindScenario); }
    if !AddsUp(r.checks) { return Some(CountsDoNotAdd); }
    var rows := ValidateRows(r.categories, Categories(r.kind), r.checks);
    if rows.Some? { return rows; }
    if exists row :: row in r.categories && row.category in Required(r.kind, r.scenario) && row.counts.total == 0 {
      return Some(EmptyCategory);
    }
    if r.maxError.check.Some? && !Bounded(r.maxError.check.value, MAX_NAME) { return Some(BadMaxError); }
    if r.maxError.absolute < 0.0 || r.maxError.relative < 0.0 { return Some(BadMaxError); }
    var bounded := ValidateFailures(r.failures);
    if r.failureCount < 0 || !bounded { return Some(BadFailures); }
    if r.failureCount != r.checks.failed { return Some(WrongFailureCount); }
    if r.truncated != (|r.failures| < r.failureCount) { return Some(WrongTruncation); }
    if !r.truncated && r.failureCount != |r.failures| { return Some(OmittedFailures); }
    if r.pass != (r.checks.failed == 0) { return Some(WrongVerdict); }
    return None;
  }

  method ValidateRows(rows: seq<CategoryRow>, expected: seq<Category>, totals: Counts) returns (fault: Option<Fault>)
    requires Distinct(expected)
    ensures fault.None? <==> RowsNamed(rows, expected) && RowsAddUpEach(rows) && SumRows(rows) == totals
  {
    var actual: seq<Category> := [];
    var accumulated := Counts(0, 0, 0);
    for i := 0 to |rows|
      invariant RowsNamed(rows[..i], actual) && Distinct(actual) && RowsAddUpEach(rows[..i])
      invariant accumulated == SumRows(rows[..i])
    {
      assert rows[..i + 1][..i] == rows[..i];
      var row := rows[i];
      if row.category in actual {
        var k :| 0 <= k < |actual| && actual[k] == row.category;
        assert rows[..i][k].category == rows[k].category == rows[i].category;
        return Some(DuplicateCategory);
      }
      actual := actual + [row.category];
      if !AddsUp(row.counts) { return Some(CountsDoNotAdd); }
      accumulated := Plus(accumulated, row.counts);
    }
    assert rows[..|rows|] == rows;
    if actual != expected { return Some(WrongCategories); }
    if accumulated != totals { return Some(TotalsDiffer); }
    return None;
  }

  predicate FailuresBounded(failures: seq<Failure>) {
    forall i :: 0 <= i < |failures| ==> Bounded(failures[i].check, MAX_NAME) && Bounded(failures[i].reason, MAX_REASON)
  }

  method ValidateFailures(failures: seq<Failure>) returns (ok: bool)
    ensures ok <==> |failures| <= MAX_FAILURES_IN_RECEIPT && FailuresBounded(failures)
  {
    if MAX_FAILURES_IN_RECEIPT < |failures| { return false; }
    for i := 0 to |failures|
      invariant FailuresBounded(failures[..i])
    {
      assert forall k :: 0 <= k < i ==> failures[..i][k] == failures[k];
      if !Bounded(failures[i].check, MAX_NAME) || !Bounded(failures[i].reason, MAX_REASON) { return false; }
    }
    assert failures[..|failures|] == failures;
    return true;
  }

  // ---------------------------------------------------------------- builder meets validator

  lemma {:induction false} TalliesAddUp(checks: seq<Check>, category: Category)
    ensures AddsUp(Tally(checks, category)) && AddsUp(TallyAll(checks))
    ensures |checks| == TallyAll(checks).total
  {
    if checks != [] {
      TalliesAddUp(checks[..|checks| - 1], category);
    }
  }

  lemma {:induction false} RowsName(categories: seq<Category>, checks: seq<Check>)
    ensures RowsNamed(Rows(categories, checks), categories)
    ensures forall i :: 0 <= i < |categories| ==> Rows(categories, checks)[i].counts == Tally(checks, categories[i])
  {
    if categories != [] {
      RowsName(categories[..|categories| - 1], checks);
    }
  }

  lemma {:induction false} BuiltRowsValidate(kind: Kind, scenario: Option<Scenario>, checks: seq<Check>)
    requires AllWellFormed(checks, kind) && NoneEmpty(kind, scenario, checks)
    ensures var rows := Rows(Categories(kind), checks);
            && RowsAddUpEach(rows) && RowsNamed(rows, Categories(kind)) && SumRows(rows) == TallyAll(checks)
            && forall i :: 0 <= i < |rows| && rows[i].category in Required(kind, scenario) ==> rows[i].counts.total != 0
  {
    RowsAddUp(Categories(kind), checks);
    RowsName(Categories(kind), checks);
    var rows := Rows(Categories(kind), checks);
    forall i | 0 <= i < |rows| ensures AddsUp(rows[i].counts) {
      TalliesAddUp(checks, Categories(kind)[i]);
    }
  }

  lemma {:induction false} KeptFailuresValidate(kind: Kind, checks: seq<Check>)
    requires AllWellFormed(checks, kind)
    ensures var kept := Kept(Failures(checks));
            |kept| <= MAX_FAILURES_IN_RECEIPT && FailuresBounded(kept) && |kept| <= |Failures(checks)|
  {
    FailuresAreBounded(kind, checks);
    var kept := Kept(Failures(checks));
    assert forall i :: 0 <= i < |kept| ==> kept[i] == Failures(checks)[i];
  }

  /** Whatever checks the builder accepts, the accumulators it wrote satisfy every rule of the
      validator, so the validation at its end never rejects. */
  lemma {:induction false} BuiltReceiptValidates(r: Receipt, checks: seq<Check>)
    requires Buildable(r.kind, r.scenario, checks) && Summarises(r, r.kind, r.scenario, checks)
    ensures Validates(r)
  {
    BuiltRowsValidate(r.kind, r.scenario, checks);
    KeptFailuresValidate(r.kind, checks);
    FailuresAreFailed(checks);
    TalliesAddUp(checks, ArtifactBinding);
  }

  lemma {:induction false} FailuresAreBounded(kind: Kind, checks: seq<Check>)
    requires AllWellFormed(checks, kind)
    ensures FailuresBounded(Failures(checks))
  {
    FailuresAreFailed(checks);
    var failures := Failures(checks);
    forall i | 0 <= i < |failures| ensures Bounded(failures[i].check, MAX_NAME) && Bounded(failures[i].reason, MAX_REASON) {
      assert failures[i] in failures;
      var k :| 0 <= k < |checks| && !checks[k].passed && failures[i] == Failure(checks[k].name, checks[k].reason);
      assert WellFormed(checks[k], kind);
    }
  }

  /** A built receipt says PASS exactly when every check passed, and otherwise lists the first failures
      in check order. */
  lemma {:induction false} VerdictMeansAllPassed(r: Receipt, checks: seq<Check>)
    requires Buildable(r.kind, r.scenario, checks) && Summarises(r, r.kind, r.scenario, checks)
    ensures r.pass <==> forall i :: 0 <= i < |checks| ==> checks[i].passed
    ensures r.failures <= Failures(checks)
    ensures |r.failures| == if r.failureCount <= MAX_FAILURES_IN_RECEIPT then r.failureCount else MAX_FAILURES_IN_RECEIPT
    ensures r.checks.total == |checks|
  {
    FailuresAreFailed(checks);
    TalliesAddUp(checks, ArtifactBinding);
  }

  /** The greatest error is unique, so the report does not depend on how it was found. */
  lemma {:induction false} MaxErrorIsUnique(m: MaxError, n: MaxError, checks: seq<Check>)
    requires IsMaxError(m, checks) && IsMaxError(n, checks)
    ensures m == n
  {
    if m.check.Some? {
      var i :| FirstReach(m, checks, i);
      assert !ErrorLess(n, checks[i]);
      if n.check.Some? {
        var j :| FirstReach(n, checks, j);
        assert !ErrorLess(m, checks[j]);
      }
    }
  }
}
