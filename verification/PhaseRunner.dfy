/** Phase gates of one session: streaks of failing tools, verification evidence, and what each transition reports. */
module PhaseRunners {
  import opened Prelude

  datatype Phase = Understand | Plan | Execute | Verify | Distill
  datatype GateLevel = Hard | Soft | Off
  datatype Severity = Info | Warning | Blocking
  datatype Rule = PlanBeforeExecute | VerifyEvidence | DistillOnComplex | DriftDetection

  datatype Detail =
    | NoPlan
    | NoPassedEvidence
    | NoVerification
    | NoLesson
    | Drifted(family: string, failures: nat)
    | DriftedAgain(family: string, failures: nat)

  datatype Violation = Violation(gate: Rule, phase: Phase, severity: Severity, detail: Detail)
  datatype Finding = Finding(family: string, failures: nat)
  datatype Gate = Gate(rule: Rule, level: GateLevel)

  datatype Context = Context(
    phase: Phase, verifyConfigured: bool, passed: nat, failed: nat, toolCalls: nat,
    failures: map<string, nat>, hasLesson: bool, hasPlanText: bool)

  const DRIFT_THRESHOLD: nat := 3
  const COMPLEX_RUN: nat := 20

  function Count(m: map<string, nat>, family: string): nat {
    if family in m then m[family] else 0
  }

  // ----- The gates -----

  /** The first family, in the order in which the table is walked, whose failures reached the threshold. */
  function FirstDrifted(order: seq<string>, failures: map<string, nat>): Option<string> {
    if order == [] then None
    else if Count(failures, order[0]) >= DRIFT_THRESHOLD then Some(order[0])
    else FirstDrifted(order[1..], failures)
  }

  function CheckBase(rule: Rule, ctx: Context, order: seq<string>): Option<Violation> {
    match rule
    case PlanBeforeExecute =>
      if ctx.phase != Execute || ctx.hasPlanText then None
      else Some(Violation(rule, ctx.phase, Warning, NoPlan))
    case VerifyEvidence =>
      if (ctx.phase != Verify && ctx.phase != Distill) || !ctx.verifyConfigured || ctx.passed >= 1 then None
      else if ctx.failed > 0 then Some(Violation(rule, ctx.phase, Blocking, NoPassedEvidence))
      else Some(Violation(rule, ctx.phase, Info, NoVerification))
    case DistillOnComplex =>
      if ctx.phase != Distill || ctx.toolCalls <= COMPLEX_RUN || ctx.hasLesson then None
      else Some(Violation(rule, ctx.phase, Warning, NoLesson))
    case DriftDetection =>
      if ctx.phase != Execute then None
      else
        match FirstDrifted(order, ctx.failures)
        case None => None
        case Some(family) => Some(Violation(rule, ctx.phase, Warning, Drifted(family, Count(ctx.failures, family))))
  }

  /** A gate that is off reports nothing; a hard one lifts a warning to blocking. */
  function Check(gate: Gate, ctx: Context, order: seq<string>): seq<Violation> {
    if gate.level == Off then []
    else
      match CheckBase(gate.rule, ctx, order)
      case None => []
      case Some(v) => [if gate.level == Hard && v.severity == Warning then v.(severity := Blocking) else v]
  }

  function LevelOf(levels: map<Rule, GateLevel>, rule: Rule): GateLevel {
    if rule in levels then levels[rule] else if rule == VerifyEvidence then Hard else Soft
  }

  /** The built-in gates; drift detection is left out of the list when it is off. */
  function BuiltinGates(levels: map<Rule, GateLevel>): seq<Gate> {
    [Gate(PlanBeforeExecute, LevelOf(levels, PlanBeforeExecute)),
     Gate(VerifyEvidence, LevelOf(levels, VerifyEvidence)),
     Gate(DistillOnComplex, LevelOf(levels, DistillOnComplex))]
    + if LevelOf(levels, DriftDetection) == Off then [] else [Gate(DriftDetection, LevelOf(levels, DriftDetection))]
  }

  // ----- The runner's state -----

  datatype State = State(
    transitions: nat, violations: nat, passed: nat, failed: nat, events: nat, toolCalls: nat,
    failStreak: map<string, nat>, driftReported: map<string, nat>,
    driftEnabled: bool, hasPlanText: bool, hasLesson: bool)

  const FRESH := State(0, 0, 0, 0, 0, 0, map[], map[], true, false, false)

  function BuildCtx(st: State, phase: Phase, verifyConfigured: bool): Context {
    Context(phase, verifyConfigured, st.passed, st.failed, st.toolCalls, st.failStreak, st.hasLesson, st.hasPlanText)
  }

  predicate HasDriftGate(gates: seq<Gate>) {
    gates != [] && (gates[|gates| - 1].rule == DriftDetection || HasDriftGate(gates[..|gates| - 1]))
  }

  function CheckAll(gates: seq<Gate>, ctx: Context, order: seq<string>): seq<Violation> {
    if gates == [] then [] else CheckAll(gates[..|gates| - 1], ctx, order) + Check(gates[|gates| - 1], ctx, order)
  }

  predicate DriftedBefore(family: string, failures: map<string, nat>, reported: map<string, nat>) {
    Count(failures, family) >= DRIFT_THRESHOLD && Count(reported, family) >= 2
  }

  /** One warning for every family walked that drifts and was reported at least twice. */
  function Again(order: seq<string>, failures: map<string, nat>, reported: map<string, nat>, phase: Phase): seq<Violation> {
    if order == [] then []
    else
      Again(order[..|order| - 1], failures, reported, phase) + WarningFor(order[|order| - 1], failures, reported, phase)
  }

  function WarningFor(family: string, failures: map<string, nat>, reported: map<string, nat>, phase: Phase): seq<Violation> {
    if DriftedBefore(family, failures, reported)
    then [Violation(DriftDetection, phase, Warning, DriftedAgain(family, Count(failures, family)))] else []
  }

  function Warnings(st: State, phase: Phase, gates: seq<Gate>, ctx: Context, order: seq<string>): seq<Violation> {
    if HasDriftGate(gates) && phase == Execute then Again(order, ctx.failures, st.driftReported, phase) else []
  }

  function Reports(st: State, phase: Phase, gates: seq<Gate>, ctx: Context, order: seq<string>): seq<Violation> {
    CheckAll(gates, ctx, order) + Warnings(st, phase, gates, ctx, order)
  }

  function Transit(st: State, phase: Phase, gates: seq<Gate>, ctx: Context, order: seq<string>): State {
    st.(transitions := st.transitions + 1, driftEnabled := HasDriftGate(gates),
        violations := st.violations + |Reports(st, phase, gates, ctx, order)|)
  }

  function NoteTool(st: State, family: string, succeeded: bool): State {
    var counted := st.(toolCalls := st.toolCalls + 1);
    if !st.driftEnabled then counted
    else if succeeded then counted.(failStreak := st.failStreak[family := 0])
    else
      var count := Count(st.failStreak, family) + 1;
      counted.(failStreak := st.failStreak[family := count],
               driftReported := if count == DRIFT_THRESHOLD
                                then st.driftReported[family := Count(st.driftReported, family) + 1]
                                else st.driftReported)
  }

  function NoteFinding(st: State, family: string, succeeded: bool): Option<Finding> {
    if st.driftEnabled && !succeeded && Count(st.failStreak, family) + 1 == DRIFT_THRESHOLD
    then Some(Finding(family, DRIFT_THRESHOLD)) else None
  }

  class PhaseRunner {
    var transitions: nat
    var violations: nat
    var verifyPassed: nat
    var verifyFailed: nat
    var verifyEvents: nat
    var toolCalls: nat
    var failStreak: map<string, nat>
    var driftReported: map<string, nat>
    var driftEnabled: bool
    var hasPlanText: bool
    var hasLesson: bool

    ghost function Now(): State
      reads this
    {
      State(transitions, violations, verifyPassed, verifyFailed, verifyEvents, toolCalls,
            failStreak, driftReported, driftEnabled, hasPlanText, hasLesson)
    }

    constructor ()
      ensures Now() == FRESH
    {
      transitions, violations, verifyPassed, verifyFailed, verifyEvents, toolCalls := 0, 0, 0, 0, 0, 0;
      failStreak, driftReported := map[], map[];
      driftEnabled, hasPlanText, hasLesson := true, false, false;
    }

    /** Enter a phase: ask every gate, then warn about families that drift again. `order` is how the table is walked. */
    method Transition(phase: Phase, gates: seq<Gate>, ctx: Context, order: seq<string>) returns (reports: seq<Violation>)
      modifies this
      ensures reports == Reports(old(Now()), phase, gates, ctx, order)
      ensures Now() == Transit(old(Now()), phase, gates, ctx, order)
    {
      transitions := transitions + 1;
      var enabled, found := AskGates(gates, ctx, order);
      reports := found;
      driftEnabled := enabled;
      if driftEnabled && phase == Execute {
        var again := WarnAgain(order, ctx.failures, phase);
        reports := reports + again;
      }
      violations := violations + |reports|;
    }

    method AskGates(gates: seq<Gate>, ctx: Context, order: seq<string>) returns (enabled: bool, reports: seq<Violation>)
      ensures enabled == HasDriftGate(gates) && reports == CheckAll(gates, ctx, order)
    {
      reports, enabled := [], false;
      for i := 0 to |gates|
        invariant enabled == HasDriftGate(gates[..i]) && reports == CheckAll(gates[..i], ctx, order)
      {
        assert gates[..i + 1][..i] == gates[..i];
        enabled := enabled || gates[i].rule == DriftDetection;
        reports := reports + Check(gates[i], ctx, order);
      }
      assert gates[..|gates|] == gates;
    }

    method WarnAgain(order: seq<string>, failures: map<string, nat>, phase: Phase) returns (again: seq<Violation>)
      ensures again == Again(order, failures, driftReported, phase)
    {
      again := [];
      for i := 0 to |order|
        invariant again == Again(order[..i], failures, driftReported, phase)
      {
        assert order[..i + 1][..i] == order[..i];
        var count := Count(failures, order[i]);
        if count >= DRIFT_THRESHOLD && Count(driftReported, order[i]) >= 2 {
          again := again + [Violation(DriftDetection, phase, Warning, DriftedAgain(order[i], count))];
        }
      }
      assert order[..|order|] == order;
    }

    /** Record a tool result: a success clears the family's streak, the third failure in a row is a finding. */
    method NoteToolFailure(family: string, succeeded: bool) returns (finding: Option<Finding>)
      modifies this
      ensures finding == NoteFinding(old(Now()), family, succeeded)
      ensures Now() == NoteTool(old(Now()), family, succeeded)
    {
      toolCalls := toolCalls + 1;
      if !driftEnabled {
        return None;
      }
      if succeeded {
        failStreak := failStreak[family := 0];
        return None;
      }
      var count := Count(failStreak, family) + 1;
      failStreak := failStreak[family := count];
      if count == DRIFT_THRESHOLD {
        driftReported := driftReported[family := Count(driftReported, family) + 1];
        finding := Some(Finding(family, count));
      } else {
        finding := None;
      }
    }

    method ObserveVerify(passed: bool)
      modifies this
      ensures Now() == Observe(old(Now()), passed)
    {
      verifyEvents := verifyEvents + 1;
      if passed {
        verifyPassed := verifyPassed + 1;
      } else {
        verifyFailed := verifyFailed + 1;
      }
    }

    /** Plan text, once seen, stays seen. */
    method SetHasPlanText(v: bool)
      modifies this
      ensures Now() == old(Now()).(hasPlanText := old(hasPlanText) || v)
    {
      if v {
        hasPlanText := true;
      }
    }

    method SetHasLesson(v: bool)
      modifies this
      ensures Now() == old(Now()).(hasLesson := v)
    {
      hasLesson := v;
    }
  }

  function Observe(st: State, passed: bool): State {
    st.(events := st.events + 1,
        passed := st.passed + (if passed then 1 else 0), failed := st.failed + (if passed then 0 else 1))
  }

  // ----- Runs -----

  datatype Event =
    | Tool(family: string, succeeded: bool)
    | Verified(passed: bool)
    | PlanText(seen: bool)
    | Lesson(written: bool)
    | Enter(phase: Phase, verifyConfigured: bool, gates: seq<Gate>, order: seq<string>)

  function Apply(st: State, e: Event): State {
    match e
    case Tool(family, succeeded) => NoteTool(st, family, succeeded)
    case Verified(passed) => Observe(st, passed)
    case PlanText(seen) => st.(hasPlanText := st.hasPlanText || seen)
    case Lesson(written) => st.(hasLesson := written)
    case Enter(phase, configured, gates, order) => Transit(st, phase, gates, BuildCtx(st, phase, configured), order)
  }

  /** The state after a run; every transition is given the runner's own context. */
  function Run(run: seq<Event>): State {
    if run == [] then FRESH else Apply(Run(run[..|run| - 1]), run[|run| - 1])
  }

  /** What the last event reported, if it was a transition. */
  function ReportsOf(st: State, e: Event): seq<Violation> {
    match e
    case Enter(phase, configured, gates, order) => Reports(st, phase, gates, BuildCtx(st, phase, configured), order)
    case _ => []
  }

  // ----- Streaks, read off the results of one family -----

  /** The results of one family recorded while drift detection was on, oldest first. */
  function Results(run: seq<Event>, family: string): seq<bool> {
    if run == [] then []
    else
      var before, e := Results(run[..|run| - 1], family), run[|run| - 1];
      if e.Tool? && e.family == family && Run(run[..|run| - 1]).driftEnabled then before + [e.succeeded] else before
  }

  /** How many failures the results end with. */
  function Trailing(results: seq<bool>): (n: nat)
    ensures n <= |results|
  {
    if results == [] || results[|results| - 1] then 0 else Trailing(results[..|results| - 1]) + 1
  }

  lemma {:induction false} TrailingMeans(results: seq<bool>)
    ensures forall k | |results| - Trailing(results) <= k < |results| :: !results[k]
    ensures Trailing(results) < |results| ==> results[|results| - Trailing(results) - 1]
  {
    if results != [] && !results[|results| - 1] {
      TrailingMeans(results[..|results| - 1]);
    }
  }

  /** A maximal run of at least three failures starts at `s`. */
  predicate LongRunAt(results: seq<bool>, s: nat) {
    s + 2 < |results| && !results[s] && !results[s + 1] && !results[s + 2] && (s == 0 || results[s - 1])
  }

  function LongRuns(results: seq<bool>): set<nat> {
    set s: nat | s < |results| && LongRunAt(results, s)
  }

  /** A result adds a long run exactly when it is the third failure in a row. */
  lemma {:induction false} LongRunsSnoc(results: seq<bool>, succeeded: bool)
    ensures LongRuns(results + [succeeded]) ==
              if !succeeded && Trailing(results) == 2 then LongRuns(results) + {|results| - 2} else LongRuns(results)
    ensures Trailing(results + [succeeded]) == if succeeded then 0 else Trailing(results) + 1
  {
    var more := results + [succeeded];
    assert more[..|results|] == results;
    TrailingMeans(results);
    var n := |results|;
    forall s: nat ensures LongRunAt(more, s) <==> LongRunAt(results, s) || (!succeeded && Trailing(results) == 2 && s == n - 2) {
      if LongRunAt(more, s) && s + 2 == n {
        assert !results[s] && !results[s + 1];
      }
    }
  }

  lemma {:induction false} ToolCounts(st: State, noted: string, succeeded: bool, family: string)
    ensures var after, hit := NoteTool(st, noted, succeeded), noted == family && st.driftEnabled;
            && Count(after.failStreak, family) == (if !hit then Count(st.failStreak, family)
                                                   else if succeeded then 0 else Count(st.failStreak, family) + 1)
            && Count(after.driftReported, family) == Count(st.driftReported, family)
                 + if hit && !succeeded && Count(st.failStreak, family) == 2 then 1 else 0
  {
  }

  lemma {:induction false} LongRunsCount(results: seq<bool>, succeeded: bool)
    ensures |LongRuns(results + [succeeded])| ==
              |LongRuns(results)| + if !succeeded && Trailing(results) == 2 then 1 else 0
  {
    LongRunsSnoc(results, succeeded);
    assert |results| >= 2 ==> |results| - 2 !in LongRuns(results);
  }

  /** The two tables agree with one family's results. */
  predicate Agrees(st: State, results: seq<bool>, family: string) {
    Count(st.failStreak, family) == Trailing(results) && Count(st.driftReported, family) == |LongRuns(results)|
  }

  lemma {:induction false} StaysAgreed(st: State, results: seq<bool>, noted: string, succeeded: bool, family: string)
    requires Agrees(st, results, family)
    ensures Agrees(NoteTool(st, noted, succeeded),
                   if noted == family && st.driftEnabled then results + [succeeded] else results, family)
  {
    ToolCounts(st, noted, succeeded, family);
    LongRunsSnoc(results, succeeded);
    LongRunsCount(results, succeeded);
  }

  /** The streak and the report count of every family, after any run. */
  lemma {:induction false} DriftIsCounted(run: seq<Event>, family: string)
    ensures Agrees(Run(run), Results(run, family), family)
  {
    if run == [] {
      assert LongRuns([]) == {};
    } else {
      var before, e := run[..|run| - 1], run[|run| - 1];
      DriftIsCounted(before, family);
      if e.Tool? {
        StaysAgreed(Run(before), Results(before, family), e.family, e.succeeded, family);
      }
    }
  }

  /** The findings returned for a family in a run. */
  function Findings(run: seq<Event>, family: string): nat {
    if run == [] then 0
    else
      var before, e := run[..|run| - 1], run[|run| - 1];
      Findings(before, family)
      + if e.Tool? && NoteFinding(Run(before), e.family, e.succeeded) == Some(Finding(family, DRIFT_THRESHOLD)) then 1 else 0
  }

  /** One finding for every maximal run of at least three failures. */
  lemma {:induction false} FindingsAreLongRuns(run: seq<Event>, family: string)
    ensures Findings(run, family) == |LongRuns(Results(run, family))|
  {
    DriftIsCounted(run, family);
    FindingsAreReported(run, family);
  }

  lemma {:induction false} FindingsAreReported(run: seq<Event>, family: string)
    ensures Findings(run, family) == Count(Run(run).driftReported, family)
  {
    if run != [] {
      FindingsAreReported(run[..|run| - 1], family);
    }
  }

  // ----- What a transition reports -----

  /** How many reports say that this family drifts again. */
  function AgainCount(reports: seq<Violation>, family: string): nat {
    if reports == [] then 0
    else
      var last := reports[|reports| - 1].detail;
      AgainCount(reports[..|reports| - 1], family) + if last.DriftedAgain? && last.family == family then 1 else 0
  }

  lemma {:induction false} AgainCountJoin(a: seq<Violation>, b: seq<Violation>, family: string)
    ensures AgainCount(a + b, family) == AgainCount(a, family) + AgainCount(b, family)
  {
    if b == [] {
      assert a + b == a;
    } else {
      assert (a + b)[..|a + b| - 1] == a + b[..|b| - 1];
      AgainCountJoin(a, b[..|b| - 1], family);
    }
  }

  lemma {:induction false} GateNeverAgain(gate: Gate, ctx: Context, order: seq<string>, family: string)
    ensures AgainCount(Check(gate, ctx, order), family) == 0
  {
  }

  lemma {:induction false} CheckNeverAgain(gates: seq<Gate>, ctx: Context, order: seq<string>, family: string)
    ensures AgainCount(CheckAll(gates, ctx, order), family) == 0
  {
    if gates != [] {
      CheckNeverAgain(gates[..|gates| - 1], ctx, order, family);
      GateNeverAgain(gates[|gates| - 1], ctx, order, family);
      AgainCountJoin(CheckAll(gates[..|gates| - 1], ctx, order), Check(gates[|gates| - 1], ctx, order), family);
    }
  }

  /** The walk of a table visits every family of it once. */
  predicate Walks(order: seq<string>, table: map<string, nat>) {
    && (forall a, b | 0 <= a < b < |order| :: order[a] != order[b])
    && (forall family | family in table :: family in order)
  }

  lemma {:induction false} AgainOnce(order: seq<string>, failures: map<string, nat>, reported: map<string, nat>, phase: Phase, family: string)
    requires forall a, b | 0 <= a < b < |order| :: order[a] != order[b]
    ensures AgainCount(Again(order, failures, reported, phase), family)
              == if family in order && DriftedBefore(family, failures, reported) then 1 else 0
  {
    if order != [] {
      var front, last := order[..|order| - 1], order[|order| - 1];
      AgainOnce(front, failures, reported, phase, family);
      assert order == front + [last];
      AgainCountJoin(Again(front, failures, reported, phase), WarningFor(last, failures, reported, phase), family);
    }
  }

  /** Entering Execute warns about a family once if it ends with three failures and has had two long runs, else never. */
  lemma {:induction false} DriftsAgainIff(run: seq<Event>, configured: bool, gates: seq<Gate>, order: seq<string>, family: string)
    requires Walks(order, Run(run).failStreak)
    ensures var results := Results(run, family);
            AgainCount(ReportsOf(Run(run), Enter(Execute, configured, gates, order)), family)
              == if HasDriftGate(gates) && Trailing(results) >= 3 && |LongRuns(results)| >= 2 then 1 else 0
  {
    DriftIsCounted(run, family);
    CheckNeverAgain(gates, BuildCtx(Run(run), Execute, configured), order, family);
    WarnedOnce(Run(run), gates, BuildCtx(Run(run), Execute, configured), order, family);
    AgainCountJoin(CheckAll(gates, BuildCtx(Run(run), Execute, configured), order),
                   Warnings(Run(run), Execute, gates, BuildCtx(Run(run), Execute, configured), order), family);
  }

  lemma {:induction false} WarnedOnce(st: State, gates: seq<Gate>, ctx: Context, order: seq<string>, family: string)
    requires Walks(order, ctx.failures)
    ensures AgainCount(Warnings(st, Execute, gates, ctx, order), family)
              == if HasDriftGate(gates) && DriftedBefore(family, ctx.failures, st.driftReported) then 1 else 0
  {
    AgainOnce(order, ctx.failures, st.driftReported, Execute, family);
  }

  // ----- Statistics of a run -----

  function Reported(run: seq<Event>): nat {
    if run == [] then 0
    else Reported(run[..|run| - 1]) + |ReportsOf(Run(run[..|run| - 1]), run[|run| - 1])|
  }

  function Events(run: seq<Event>, kind: Event -> bool): nat {
    if run == [] then 0 else Events(run[..|run| - 1], kind) + if kind(run[|run| - 1]) then 1 else 0
  }

  function Happened(run: seq<Event>, e: Event): nat {
    Events(run, (x: Event) => x == e)
  }

  /** The statistics are the lengths of the reports returned and the number of transitions made. */
  lemma {:induction false} StatsAreTotals(run: seq<Event>)
    ensures Run(run).violations == Reported(run)
    ensures Run(run).transitions == Events(run, (e: Event) => e.Enter?)
  {
    if run != [] {
      StatsAreTotals(run[..|run| - 1]);
      StatsStep(Run(run[..|run| - 1]), run[|run| - 1]);
    }
  }

  lemma {:induction false} StatsStep(st: State, e: Event)
    ensures Apply(st, e).violations == st.violations + |ReportsOf(st, e)|
    ensures Apply(st, e).transitions == st.transitions + if e.Enter? then 1 else 0
  {
  }

  /** The last word on the lesson is that it was written. */
  predicate HasLesson(run: seq<Event>) {
    run != [] &&
    var last := run[|run| - 1];
    if last.Lesson? then last.written else HasLesson(run[..|run| - 1])
  }

  /** The gates of the last transition include drift detection, or there was no transition yet. */
  predicate DriftIsOn(run: seq<Event>) {
    run == [] ||
    var last := run[|run| - 1];
    if last.Enter? then exists g | g in last.gates :: g.rule == DriftDetection else DriftIsOn(run[..|run| - 1])
  }

  lemma {:induction false} HasDriftGateIff(gates: seq<Gate>)
    ensures HasDriftGate(gates) <==> exists g | g in gates :: g.rule == DriftDetection
  {
    if gates != [] {
      HasDriftGateIff(gates[..|gates| - 1]);
      assert gates == gates[..|gates| - 1] + [gates[|gates| - 1]];
    }
  }

  /** Results are recorded as failures and successes exactly while drift detection is on. */
  lemma {:induction false} DriftIsOnIff(run: seq<Event>)
    ensures Run(run).driftEnabled <==> DriftIsOn(run)
  {
    if run != [] {
      var last := run[|run| - 1];
      DriftIsOnIff(run[..|run| - 1]);
      if last.Enter? {
        HasDriftGateIff(last.gates);
      }
    }
  }

  lemma {:induction false} EvidenceStep(st: State, e: Event)
    ensures Apply(st, e).toolCalls == st.toolCalls + (if e.Tool? then 1 else 0)
    ensures Apply(st, e).passed == st.passed + (if e == Verified(true) then 1 else 0)
    ensures Apply(st, e).failed == st.failed + (if e == Verified(false) then 1 else 0)
    ensures Apply(st, e).events == st.events + (if e.Verified? then 1 else 0)
    ensures Apply(st, e).hasPlanText == (st.hasPlanText || e == PlanText(true))
    ensures Apply(st, e).hasLesson == if e.Lesson? then e.written else st.hasLesson
  {
  }

  /** The evidence the gates read counts every event of its kind. */
  lemma {:induction false} EvidenceIsCounted(run: seq<Event>)
    ensures Run(run).toolCalls == Events(run, (e: Event) => e.Tool?)
    ensures Run(run).passed == Happened(run, Verified(true)) && Run(run).failed == Happened(run, Verified(false))
    ensures Run(run).events == Run(run).passed + Run(run).failed
    ensures Run(run).hasPlanText <==> Happened(run, PlanText(true)) > 0
    ensures Run(run).hasLesson <==> HasLesson(run)
  {
    if run != [] {
      EvidenceIsCounted(run[..|run| - 1]);
      EvidenceStep(Run(run[..|run| - 1]), run[|run| - 1]);
    }
  }

  // ----- When a run is blocked -----

  predicate Blocks(reports: seq<Violation>) {
    reports != [] && (reports[|reports| - 1].severity == Blocking || Blocks(reports[..|reports| - 1]))
  }

  lemma {:induction false} BlocksJoin(a: seq<Violation>, b: seq<Violation>)
    ensures Blocks(a + b) <==> Blocks(a) || Blocks(b)
  {
    if b == [] {
      assert a + b == a;
    } else {
      assert (a + b)[..|a + b| - 1] == a + b[..|b| - 1];
      BlocksJoin(a, b[..|b| - 1]);
    }
  }

  lemma {:induction false} AgainNeverBlocks(order: seq<string>, failures: map<string, nat>, reported: map<string, nat>, phase: Phase)
    ensures !Blocks(Again(order, failures, reported, phase))
  {
    if order != [] {
      AgainNeverBlocks(order[..|order| - 1], failures, reported, phase);
      BlocksJoin(Again(order[..|order| - 1], failures, reported, phase), WarningFor(order[|order| - 1], failures, reported, phase));
    }
  }

  lemma {:induction false} FirstDriftedIff(order: seq<string>, failures: map<string, nat>)
    ensures FirstDrifted(order, failures).Some? <==> exists family | family in order :: Count(failures, family) >= DRIFT_THRESHOLD
  {
    if order != [] {
      FirstDriftedIff(order[1..], failures);
      assert forall family :: family in order <==> family == order[0] || family in order[1..];
    }
  }

  /** Some family's recorded results end with at least three failures. */
  ghost predicate SomeFamilyDrifts(run: seq<Event>) {
    exists family :: Trailing(Results(run, family)) >= 3
  }

  /** What makes each rule warn or block, said about the run. */
  ghost predicate Broken(rule: Rule, run: seq<Event>, phase: Phase, configured: bool) {
    match rule
    case PlanBeforeExecute => phase == Execute && Happened(run, PlanText(true)) == 0
    case VerifyEvidence =>
      (phase == Verify || phase == Distill) && configured
      && Happened(run, Verified(true)) == 0 && Happened(run, Verified(false)) > 0
    case DistillOnComplex => phase == Distill && Events(run, (e: Event) => e.Tool?) > 20 && !HasLesson(run)
    case DriftDetection => phase == Execute && SomeFamilyDrifts(run)
  }

  /** A rule blocks when it is broken and its gate is hard; missing evidence blocks at any level but off. */
  ghost predicate BlockedBy(rule: Rule, level: GateLevel, run: seq<Event>, phase: Phase, configured: bool) {
    Broken(rule, run, phase, configured) && (level == Hard || (rule == VerifyEvidence && level == Soft))
  }

  lemma {:induction false} GateBlocksIff(gate: Gate, run: seq<Event>, phase: Phase, configured: bool, order: seq<string>)
    requires Walks(order, Run(run).failStreak)
    ensures Blocks(Check(gate, BuildCtx(Run(run), phase, configured), order)) <==> BlockedBy(gate.rule, gate.level, run, phase, configured)
  {
    EvidenceIsCounted(run);
    if gate.rule == DriftDetection {
      DriftsIff(run, order);
    }
  }

  lemma {:induction false} DriftsIff(run: seq<Event>, order: seq<string>)
    requires Walks(order, Run(run).failStreak)
    ensures FirstDrifted(order, Run(run).failStreak).Some? <==> SomeFamilyDrifts(run)
  {
    FirstDriftedIff(order, Run(run).failStreak);
    forall family ensures Count(Run(run).failStreak, family) == Trailing(Results(run, family)) {
      DriftIsCounted(run, family);
    }
  }

  /** What a rule finds wrong with a run, and how severe that is by itself. */
  ghost predicate Finds(rule: Rule, run: seq<Event>, phase: Phase, configured: bool, severity: Severity, detail: Detail) {
    match rule
    case PlanBeforeExecute =>
      phase == Execute && Happened(run, PlanText(true)) == 0 && severity == Warning && detail == NoPlan
    case VerifyEvidence =>
      && (phase == Verify || phase == Distill) && configured && Happened(run, Verified(true)) == 0
      && if Happened(run, Verified(false)) > 0 then severity == Blocking && detail == NoPassedEvidence
         else severity == Info && detail == NoVerification
    case DistillOnComplex =>
      && phase == Distill && Events(run, (e: Event) => e.Tool?) > 20 && !HasLesson(run)
      && severity == Warning && detail == NoLesson
    case DriftDetection =>
      && phase == Execute && severity == Warning
      && detail.Drifted? && detail.failures == Trailing(Results(run, detail.family)) >= 3
  }

  lemma {:induction false} FirstDriftedIn(order: seq<string>, failures: map<string, nat>)
    requires FirstDrifted(order, failures).Some?
    ensures Count(failures, FirstDrifted(order, failures).value) >= 3
  {
    if Count(failures, order[0]) < 3 {
      FirstDriftedIn(order[1..], failures);
    }
  }

  /** A gate that is not off reports what its rule finds, once; a hard one makes a warning blocking. */
  lemma {:induction false} GateReports(gate: Gate, run: seq<Event>, phase: Phase, configured: bool, order: seq<string>)
    requires Walks(order, Run(run).failStreak)
    ensures var reports := Check(gate, BuildCtx(Run(run), phase, configured), order);
            && |reports| <= 1
            && (reports == [] <==> gate.level == Off || !exists severity, detail :: Finds(gate.rule, run, phase, configured, severity, detail))
            && forall v | v in reports ::
                 exists severity :: Finds(gate.rule, run, phase, configured, severity, v.detail)
                   && v == Violation(gate.rule, phase, if gate.level == Hard && severity == Warning then Blocking else severity, v.detail)
  {
    EvidenceIsCounted(run);
    var ctx := BuildCtx(Run(run), phase, configured);
    if gate.rule == DriftDetection {
      DriftsIff(run, order);
      DriftFinds(run, order, configured);
    }
    var base := CheckBase(gate.rule, ctx, order);
    if base.Some? {
      assert Finds(gate.rule, run, phase, configured, base.value.severity, base.value.detail);
    }
  }

  lemma {:induction false} DriftFinds(run: seq<Event>, order: seq<string>, configured: bool)
    requires Walks(order, Run(run).failStreak)
    ensures match FirstDrifted(order, Run(run).failStreak)
            case None => !exists severity, detail :: Finds(DriftDetection, run, Execute, configured, severity, detail)
            case Some(family) =>
              Finds(DriftDetection, run, Execute, configured, Warning, Drifted(family, Count(Run(run).failStreak, family)))
  {
    DriftsIff(run, order);
    match FirstDrifted(order, Run(run).failStreak)
    case None =>
    case Some(family) =>
      FirstDriftedIn(order, Run(run).failStreak);
      DriftIsCounted(run, family);
  }

  /** What is said again of a family that ends with three failures and has had two such runs. */
  predicate SaidAgain(run: seq<Event>, family: string, phase: Phase, v: Violation) {
    var results := Results(run, family);
    && Trailing(results) >= 3 && |LongRuns(results)| >= 2
    && v == Violation(DriftDetection, phase, Warning, DriftedAgain(family, Trailing(results)))
  }

  /** The warnings on entering Execute are exactly those, of the families walked. */
  lemma {:induction false} AgainAre(run: seq<Event>, order: seq<string>, phase: Phase, v: Violation)
    ensures v in Again(order, Run(run).failStreak, Run(run).driftReported, phase) <==>
              exists family :: family in order && SaidAgain(run, family, phase, v)
  {
    if order != [] {
      var front, last := order[..|order| - 1], order[|order| - 1];
      AgainAre(run, front, phase, v);
      DriftIsCounted(run, last);
      assert v in WarningFor(last, Run(run).failStreak, Run(run).driftReported, phase) <==> SaidAgain(run, last, phase, v);
      assert order == front + [last];
      assert forall family :: family in order <==> family in front || family == last;
    }
  }

  /** The level a rule is configured with; by default missing evidence is hard and the others are soft. */
  predicate AtLevel(levels: map<Rule, GateLevel>, rule: Rule, level: GateLevel) {
    if rule in levels then level == levels[rule] else level == if rule == VerifyEvidence then Hard else Soft
  }

  ghost predicate RuleBlocks(levels: map<Rule, GateLevel>, run: seq<Event>, phase: Phase, configured: bool) {
    exists rule: Rule, level :: AtLevel(levels, rule, level) && BlockedBy(rule, level, run, phase, configured)
  }

  ghost predicate GateBlocks(gates: seq<Gate>, run: seq<Event>, phase: Phase, configured: bool) {
    exists g | g in gates :: BlockedBy(g.rule, g.level, run, phase, configured)
  }

  lemma {:induction false} GatesAreRules(levels: map<Rule, GateLevel>, run: seq<Event>, phase: Phase, configured: bool)
    ensures GateBlocks(BuiltinGates(levels), run, phase, configured) <==> RuleBlocks(levels, run, phase, configured)
  {
    if GateBlocks(BuiltinGates(levels), run, phase, configured) {
      var g :| g in BuiltinGates(levels) && BlockedBy(g.rule, g.level, run, phase, configured);
      GatesHaveLevels(levels, g);
      assert AtLevel(levels, g.rule, g.level);
    }
    if RuleBlocks(levels, run, phase, configured) {
      var rule: Rule, level :| AtLevel(levels, rule, level) && BlockedBy(rule, level, run, phase, configured);
      var g := Gate(rule, level);
      GatesHaveLevels(levels, g);
      assert BlockedBy(g.rule, g.level, run, phase, configured);
    }
  }

  lemma {:induction false} GatesHaveLevels(levels: map<Rule, GateLevel>, g: Gate)
    ensures g in BuiltinGates(levels) <==> g.level == LevelOf(levels, g.rule) && (g.rule != DriftDetection || g.level != Off)
  {
    var front := [Gate(PlanBeforeExecute, LevelOf(levels, PlanBeforeExecute)),
                  Gate(VerifyEvidence, LevelOf(levels, VerifyEvidence)),
                  Gate(DistillOnComplex, LevelOf(levels, DistillOnComplex))];
    assert g in front <==> g.level == LevelOf(levels, g.rule) && g.rule != DriftDetection by {
      assert front[0] in front && front[1] in front && front[2] in front;
    }
  }

  /** A transition past the built-in gates is blocked exactly by the rules the run has broken, at their levels. */
  lemma {:induction false} BlockedIff(run: seq<Event>, levels: map<Rule, GateLevel>, phase: Phase, configured: bool, order: seq<string>)
    requires Walks(order, Run(run).failStreak)
    ensures Blocks(ReportsOf(Run(run), Enter(phase, configured, BuiltinGates(levels), order)))
            <==> RuleBlocks(levels, run, phase, configured)
  {
    var gates, ctx := BuiltinGates(levels), BuildCtx(Run(run), phase, configured);
    AgainNeverBlocks(order, ctx.failures, Run(run).driftReported, phase);
    BlocksJoin(CheckAll(gates, ctx, order), Warnings(Run(run), phase, gates, ctx, order));
    GatesBlockIff(gates, run, phase, configured, order);
    GatesAreRules(levels, run, phase, configured);
  }

  lemma {:induction false} GatesBlockIff(gates: seq<Gate>, run: seq<Event>, phase: Phase, configured: bool, order: seq<string>)
    requires Walks(order, Run(run).failStreak)
    ensures Blocks(CheckAll(gates, BuildCtx(Run(run), phase, configured), order))
            <==> GateBlocks(gates, run, phase, configured)
  {
    if gates != [] {
      var front, last := gates[..|gates| - 1], gates[|gates| - 1];
      var ctx := BuildCtx(Run(run), phase, configured);
      GatesBlockIff(front, run, phase, configured, order);
      GateBlocksIff(last, run, phase, configured, order);
      BlocksJoin(CheckAll(front, ctx, order), Check(last, ctx, order));
      assert gates == front + [last];
    }
  }
}
