/**
 One delegation from its caller's side: attempts are made until one gives a text, an error that cannot be retried, a
 refusal by attribution, or no attempts are left. The budget of attribution calls is shared by all delegations.
 */
module DelegateEngines {
  import opened Prelude
  import opened Delegations
  import opened Texts

  /** Counts attribution calls up to a maximum. */
  class AttributionBudget {
    var used: nat
    const max: nat

    ghost predicate Valid()
      reads this
    {
      used <= max
    }

    constructor (max: nat)
      ensures Valid() && this.max == max && used == 0
    {
      this.max := max;
      used := 0;
    }

    method TryConsume() returns (ok: bool)
      requires Valid()
      modifies this`used
      ensures Valid() && (ok <==> old(used) < max) && used == old(used) + if ok then 1 else 0
    {
      ok := used < max;
      if ok {
        used := used + 1;
      }
    }
  }

  datatype Error = DepthExceeded | Render(text: string) | Execute(text: string)

  datatype Attribution = Attribution(rootCause: string, verdict: Verdict, fixPlan: Option<string>)

  datatype Settings = Settings(maxRetries: nat, degradeMap: map<string, string>)

  /** What went wrong before: the error, and what attribution said of it, if it was asked. */
  datatype Told = Told(error: string, reply: Option<Attribution>)

  /** One attempt: who was asked, told of what, how it ended, whether the failure was attributed and what that said. */
  datatype Attempt = Attempt(
    agent: string, told: Option<Told>, outcome: Result<string, Error>, attributed: bool, reply: Option<Attribution>)

  function PlanLine(plan: Option<string>): string {
    if plan.Some? && plan.value != "" then "fix plan: " + plan.value + "\n" else ""
  }

  function ComposeFeedback(error: string, a: Attribution): string {
    "[delegate failure attribution]\nroot cause: " + a.rootCause + "\n" + PlanLine(a.fixPlan) + "\n" + BlindFeedback(error)
  }

  function BlindFeedback(error: string): string {
    "Previous attempt error:\n" + error
  }

  function Feedback(told: Told): string {
    if told.reply.Some? then ComposeFeedback(told.error, told.reply.value) else BlindFeedback(told.error)
  }

  function PromptText(goal: string, told: Option<Told>): string {
    if told.Some? then goal + "\n\n" + Feedback(told.value) else goal
  }

  // ----- What a delegation is, attempt by attempt -----

  /** The attempts of a trace whose failure was attributed. */
  function Attributions(trace: seq<Attempt>): set<nat> {
    set k: nat | k < |trace| && trace[k].attributed
  }

  /** An attempt that is followed by another: an error of the run itself, and not given up by attribution. */
  predicate TriedAgain(a: Attempt) {
    a.outcome.Err? && a.outcome.error.Execute? && (a.attributed ==> a.reply.Some? && a.reply.value.verdict != Abort)
  }

  /** The agent that is asked next: the substitute when the verdict says so and there is one, else the same one. */
  predicate Succeeds(settings: Settings, a: Attempt, next: string) {
    if a.reply.Some? && a.reply.value.verdict == Degrade && a.agent in settings.degradeMap
    then next == settings.degradeMap[a.agent] else next == a.agent
  }

  /** What comes next after `a`: another agent or the same, told of the error and what attribution said of it. */
  predicate Follows(settings: Settings, a: Attempt, agent: string, told: Option<Told>) {
    TriedAgain(a) && Succeeds(settings, a, agent) && told == Some(Told(a.outcome.error.text, a.reply))
  }

  /** Attempt `k` is the last: a text, an error that is none of the run itself, no retries left, or given up. */
  predicate TriedLast(settings: Settings, a: Attempt, k: nat) {
    || a.outcome.Ok? || !a.outcome.error.Execute?
    || k == settings.maxRetries
    || (a.attributed && (a.reply.None? || a.reply.value.verdict == Abort))
  }

  /** A failure is attributed exactly when it is one of the run itself, attempts are left, and the budget is not spent. */
  predicate Paid(settings: Settings, a: Attempt, k: nat, spent: nat, max: nat) {
    a.attributed <==> a.outcome.Err? && a.outcome.error.Execute? && k < settings.maxRetries && spent < max
  }

  /** The attempts made so far. */
  ghost predicate SoFar(settings: Settings, agent: string, used: nat, max: nat, trace: seq<Attempt>) {
    trace == [] ||
    var n := |trace| - 1;
    && SoFar(settings, agent, used, max, trace[..n])
    && n <= settings.maxRetries
    && Paid(settings, trace[n], n, used + |Attributions(trace[..n])|, max)
    && if n == 0 then trace[0].agent == agent && trace[0].told == None
       else Follows(settings, trace[n - 1], trace[n].agent, trace[n].told)
  }

  /** A whole delegation. */
  ghost predicate Ended(settings: Settings, agent: string, used: nat, max: nat, trace: seq<Attempt>) {
    trace != [] && SoFar(settings, agent, used, max, trace) && TriedLast(settings, trace[|trace| - 1], |trace| - 1)
  }

  /** What one attempt gives, and what attribution says of a failure, as functions of what each is asked. */
  datatype Answers = Answers(
    once: (string, string, nat) -> Result<string, Error>,
    attribute: (string, string, nat) -> Option<Attribution>)

  /** Attempt `k` really was made: what asking that agent that prompt gives, and what attribution said of it, if asked. */
  predicate Made(answers: Answers, goal: string, a: Attempt, k: nat) {
    && a.outcome == answers.once(a.agent, PromptText(goal, a.told), k)
    && (a.attributed ==> a.outcome.Err? && a.outcome.error.Execute?)
    && a.reply == if a.attributed then answers.attribute(goal, a.outcome.error.text, k) else None
  }

  /** The attempts, and the attributions, really were made. */
  ghost predicate Honest(answers: Answers, goal: string, trace: seq<Attempt>) {
    trace == [] ||
    var n := |trace| - 1;
    Honest(answers, goal, trace[..n]) && Made(answers, goal, trace[n], n)
  }

  // ----- One more attempt -----

  lemma {:induction false} AttributionsSnoc(trace: seq<Attempt>, last: Attempt)
    ensures |Attributions(trace + [last])| == |Attributions(trace)| + if last.attributed then 1 else 0
  {
    assert Attributions(trace + [last]) == Attributions(trace) + if last.attributed then {|trace|} else {};
  }

  /** The attempts so far, with one more pending: whom it asks and what it is told. */
  ghost predicate Pending(settings: Settings, agent: string, used: nat, max: nat, trace: seq<Attempt>,
                          current: string, told: Option<Told>) {
    && SoFar(settings, agent, used, max, trace) && |trace| <= settings.maxRetries
    && if trace == [] then current == agent && told == None else Follows(settings, trace[|trace| - 1], current, told)
  }

  lemma {:induction false} PendingMade(settings: Settings, agent: string, used: nat, max: nat, trace: seq<Attempt>, last: Attempt)
    requires Pending(settings, agent, used, max, trace, last.agent, last.told)
    requires Paid(settings, last, |trace|, used + |Attributions(trace)|, max)
    ensures SoFar(settings, agent, used, max, trace + [last])
  {
    assert (trace + [last])[..|trace|] == trace;
  }

  /** Every attempt but the last is an error of the run itself, and the next one follows from it. */
  lemma {:induction false} EarlierIsTriedAgain(settings: Settings, agent: string, used: nat, max: nat, trace: seq<Attempt>, k: nat)
    requires SoFar(settings, agent, used, max, trace) && k + 1 < |trace|
    ensures Follows(settings, trace[k], trace[k + 1].agent, trace[k + 1].told)
  {
    if k + 2 < |trace| {
      EarlierIsTriedAgain(settings, agent, used, max, trace[..|trace| - 1], k);
    }
  }

  /** A render error is the last attempt's, and was not attributed. */
  lemma {:induction false} RenderEnds(settings: Settings, agent: string, used: nat, max: nat, trace: seq<Attempt>, k: nat)
    requires Ended(settings, agent, used, max, trace) && k < |trace|
    requires trace[k].outcome.Err? && trace[k].outcome.error.Render?
    ensures k == |trace| - 1 && !trace[k].attributed
  {
    if k + 1 < |trace| {
      EarlierIsTriedAgain(settings, agent, used, max, trace, k);
    }
  }

  lemma {:induction false} HonestSnoc(answers: Answers, goal: string, before: seq<Attempt>, last: Attempt)
    requires Honest(answers, goal, before) && Made(answers, goal, last, |before|)
    ensures Honest(answers, goal, before + [last])
  {
    assert (before + [last])[..|before|] == before;
  }

  lemma {:induction false} SingleAttempt(answers: Answers, goal: string, a: Attempt)
    requires Made(answers, goal, a, 0) && !a.attributed
    ensures Honest(answers, goal, [a]) && Attributions([a]) == {}
  {
    assert [a][..0] == [];
  }

  // ----- What a prompt tells -----

  /** The last error, behind what attribution said of it, if anything. */
  ghost predicate Tells(told: string, error: string, reply: Option<Attribution>) {
    exists front :: told == front + "Previous attempt error:\n" + error && Explains(front, reply)
  }

  ghost predicate Explains(front: string, reply: Option<Attribution>) {
    match reply
    case None => front == ""
    case Some(a) => Contains(front, a.rootCause) && (a.fixPlan.Some? ==> Contains(front, a.fixPlan.value))
  }

  lemma {:induction false} HoldsLast(a: string, pat: string)
    ensures Contains(a + pat, pat)
  {
    assert a + pat == a + pat + "";
  }

  lemma {:induction false} HoldsMore(a: string, more: string, pat: string)
    requires Contains(a, pat)
    ensures Contains(a + more, pat) && Contains(more + a, pat)
  {
    var x, y :| a == x + pat + y;
    assert a + more == x + pat + (y + more);
    assert more + a == (more + x) + pat + y;
  }

  lemma {:induction false} PlanIsHeld(plan: Option<string>, front: string)
    requires plan.Some?
    ensures Contains(front + PlanLine(plan), plan.value)
  {
    if plan.value == "" {
      HoldsLast(front + PlanLine(plan), "");
      assert front + PlanLine(plan) + "" == front + PlanLine(plan);
    } else {
      HoldsLast("fix plan: ", plan.value);
      HoldsMore("fix plan: " + plan.value, "\n", plan.value);
      HoldsMore(PlanLine(plan), front, plan.value);
    }
  }

  /** What an attribution adds in front of the error: its parts in order, whatever stands between them. */
  lemma {:induction false} FrontExplains(head: string, a: Attribution, gap: string)
    ensures Explains(head + a.rootCause + gap + PlanLine(a.fixPlan) + gap, Some(a))
  {
    HoldsLast(head, a.rootCause);
    HoldsMore(head + a.rootCause, gap, a.rootCause);
    HoldsMore(head + a.rootCause + gap, PlanLine(a.fixPlan), a.rootCause);
    HoldsMore(head + a.rootCause + gap + PlanLine(a.fixPlan), gap, a.rootCause);
    if a.fixPlan.Some? {
      PlanIsHeld(a.fixPlan, head + a.rootCause + gap);
      HoldsMore(head + a.rootCause + gap + PlanLine(a.fixPlan), gap, a.fixPlan.value);
    }
  }

  lemma {:induction false} FeedbackTells(told: Told)
    ensures Tells(Feedback(told), told.error, told.reply)
  {
    if told.reply.Some? {
      var head, a := "[delegate failure attribution]\nroot cause: ", told.reply.value;
      FrontExplains(head, a, "\n");
      Assoc(head + a.rootCause + "\n" + PlanLine(a.fixPlan) + "\n", "Previous attempt error:\n", told.error);
    } else {
      assert BlindFeedback(told.error) == "" + "Previous attempt error:\n" + told.error;
    }
  }

  /** What an attempt is asked: the goal, and after the first attempt also the last error and what was said of it. */
  lemma {:induction false} PromptTells(goal: string, told: Option<Told>) returns (rest: string)
    ensures told.None? ==> PromptText(goal, told) == goal
    ensures told.Some? ==> PromptText(goal, told) == goal + "\n\n" + rest && Tells(rest, told.value.error, told.value.reply)
  {
    rest := "";
    if told.Some? {
      rest := Feedback(told.value);
      FeedbackTells(told.value);
    }
  }

  class DelegateEngine {
    const maxDepth: nat
    const settings: Option<Settings>
    const budget: AttributionBudget

    constructor (depthLimit: nat, settings: Option<Settings>, budget: AttributionBudget)
      ensures maxDepth == (if depthLimit > 1 then depthLimit else 1) && this.settings == settings && this.budget == budget
    {
      maxDepth := if depthLimit > 1 then depthLimit else 1;
      this.settings := settings;
      this.budget := budget;
    }

    /**
     Delegate at `depth`. The result is that of the last attempt: its text, or its error when that error is final,
     refused or out of attempts; what each attempt is asked follows what attribution said of the one before. The budget
     pays for exactly the attributions made and is never exceeded; a render error ends at once and is not attributed.
     */
    method RunAtDepth(agent: string, goal: string, depth: nat, answers: Answers)
      returns (r: Result<string, Error>, ghost trace: seq<Attempt>)
      requires budget.Valid()
      modifies budget`used
      ensures budget.Valid() && budget.used == old(budget.used) + |Attributions(trace)|
      ensures depth > maxDepth ==> r == Err(DepthExceeded) && trace == []
      ensures depth <= maxDepth ==>
                trace != [] && r == trace[|trace| - 1].outcome && Honest(answers, goal, trace)
      ensures settings.None? && depth <= maxDepth ==> |trace| == 1 && trace[0].agent == agent && trace[0].told == None
      ensures settings.None? ==> budget.used == old(budget.used)
      ensures settings.Some? && depth <= maxDepth ==> Ended(settings.value, agent, old(budget.used), budget.max, trace)
      ensures forall k | 0 <= k < |trace| && trace[k].outcome.Err? && trace[k].outcome.error.Render? ::
                k == |trace| - 1 && !trace[k].attributed
    {
      trace := [];
      if depth > maxDepth {
        return Err(DepthExceeded), trace;
      }
      if settings.None? {
        r, trace := SingleRun(agent, goal, answers);
        return;
      }
      ghost var used := budget.used;
      r, trace := RetryLoop(agent, goal, settings.value, answers);
      forall k | 0 <= k < |trace| && trace[k].outcome.Err? && trace[k].outcome.error.Render?
        ensures k == |trace| - 1 && !trace[k].attributed
      {
        RenderEnds(settings.value, agent, used, budget.max, trace, k);
      }
    }

    /** Without retry settings there is one attempt, on the bare goal. */
    method SingleRun(agent: string, goal: string, answers: Answers)
      returns (r: Result<string, Error>, ghost trace: seq<Attempt>)
      ensures |trace| == 1 && trace[0].agent == agent && trace[0].told == None && r == trace[0].outcome
      ensures Honest(answers, goal, trace) && Attributions(trace) == {} && !trace[0].attributed
    {
      r := answers.once(agent, goal, 0);
      trace := [Attempt(agent, None, r, false, None)];
      SingleAttempt(answers, goal, trace[0]);
    }

    /** One attempt: ask, and when the failure may be retried and budget is left, have it attributed. */
    method MakeAttempt(agent: string, told: Option<Told>, goal: string, k: nat, attemptsLeft: nat, answers: Answers)
      returns (a: Attempt)
      requires budget.Valid()
      modifies budget`used
      ensures budget.Valid() && budget.used == old(budget.used) + if a.attributed then 1 else 0
      ensures a.agent == agent && a.told == told && Made(answers, goal, a, k)
      ensures a.attributed <==>
                a.outcome.Err? && a.outcome.error.Execute? && attemptsLeft > 1 && old(budget.used) < budget.max
    {
      var outcome := answers.once(agent, PromptText(goal, told), k);
      a := Attempt(agent, told, outcome, false, None);
      if outcome.Ok? || !outcome.error.Execute? || attemptsLeft <= 1 {
        return;
      }
      var granted := budget.TryConsume();
      if granted {
        a := Attempt(agent, told, outcome, true, answers.attribute(goal, outcome.error.text, k));
      }
    }

    method RetryLoop(agent: string, goal: string, cfg: Settings, answers: Answers)
      returns (r: Result<string, Error>, ghost trace: seq<Attempt>)
      requires budget.Valid()
      modifies budget`used
      ensures budget.Valid() && budget.used == old(budget.used) + |Attributions(trace)|
      ensures Ended(cfg, agent, old(budget.used), budget.max, trace) && r == trace[|trace| - 1].outcome
      ensures Honest(answers, goal, trace)
    {
      var current := agent;
      var told: Option<Told> := None;
      var attemptsLeft := cfg.maxRetries + 1;
      trace := [];
      ghost var used := budget.used;
      var made := 0;
      assert Attributions(trace) == {};
      while true
        invariant made == |trace| && attemptsLeft == cfg.maxRetries + 1 - made
        invariant budget.Valid() && budget.used == used + |Attributions(trace)|
        invariant Pending(cfg, agent, used, budget.max, trace, current, told) && Honest(answers, goal, trace)
        decreases attemptsLeft
      {
        var attempt := MakeAttempt(current, told, goal, made, attemptsLeft, answers);
        PendingMade(cfg, agent, used, budget.max, trace, attempt);
        AttributionsSnoc(trace, attempt);
        HonestSnoc(answers, goal, trace, attempt);
        trace := trace + [attempt];
        made := made + 1;
        attemptsLeft := attemptsLeft - 1;
        match attempt.outcome {
          case Ok(_) => return attempt.outcome, trace;
          case Err(Execute(text)) =>
            if attemptsLeft == 0 {
              return attempt.outcome, trace;
            }
            if attempt.attributed {
              if attempt.reply.None? || attempt.reply.value.verdict == Abort {
                return attempt.outcome, trace;
              }
              if attempt.reply.value.verdict == Degrade && current in cfg.degradeMap {
                current := cfg.degradeMap[current];
              }
            }
            told := Some(Told(text, attempt.reply));
          case Err(_) => return attempt.outcome, trace;
        }
      }
    }
  }
}
