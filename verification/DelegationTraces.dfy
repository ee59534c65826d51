/** A delegation as its caller sees it, attempt by attempt, is a run of the step machine. */
module DelegationTraces {
  import opened Prelude
  import opened Delegations
  import opened DelegateEngines

  lemma {:induction false} Move(cfg: Config, steps: seq<Step>, s: State, step: Step, s': State) returns (more: seq<Step>)
    requires Legal(cfg, steps) && After(cfg, steps) == s && Enabled(cfg, s, step) && Next(cfg, s, step) == s'
    ensures Legal(cfg, more) && After(cfg, more) == s'
  {
    more := steps + [step];
    assert more[..|steps|] == steps;
  }

  /** A single root delegation, and no permit held by anything else. */
  function Alone(cfg: Config, left: nat, made: nat, phase: Phase, paid: nat): State {
    State([Delegation(1, None, left, made, phase)], cfg.Permits(), paid, paid, made, 1)
  }

  /** The same, holding a permit. */
  function Busy(cfg: Config, left: nat, made: nat, paid: nat): State {
    State([Delegation(1, None, left, made, Running(0))], cfg.Permits() - 1, paid, paid, made, 1)
  }

  /** The same, with a unit of the budget taken and the attribution call not yet made. */
  function Owing(cfg: Config, left: nat, made: nat, paid: nat): State {
    State([Delegation(1, None, left, made, Granted)], cfg.Permits(), paid + 1, paid, made, 1)
  }

  // ----- Single steps -----

  lemma {:induction false} StartsAlone(cfg: Config)
    ensures Next(cfg, Start(cfg), StartRoot) == Alone(cfg, cfg.Attempts(), 0, Ready, 0)
  {
  }

  lemma {:induction false} Queues(cfg: Config, left: nat, made: nat, paid: nat)
    ensures Next(cfg, Alone(cfg, left, made, Ready, paid), Enqueue(0)) == Alone(cfg, left, made, Queued, paid)
  {
  }

  lemma {:induction false} Acquires(cfg: Config, left: nat, made: nat, paid: nat)
    ensures Next(cfg, Alone(cfg, left, made, Queued, paid), Acquire(0)) == Busy(cfg, left, made + 1, paid)
  {
  }

  lemma {:induction false} Leaves(cfg: Config, left: nat, made: nat, paid: nat)
    ensures Enabled(cfg, Busy(cfg, left, made, paid), Fail(0)) && Enabled(cfg, Busy(cfg, left, made, paid), Succeed(0))
    ensures Next(cfg, Busy(cfg, left, made, paid), Fail(0)) == Alone(cfg, left, made, Phase.Failed, paid)
    ensures Next(cfg, Busy(cfg, left, made, paid), Succeed(0)) == Alone(cfg, left, made, Finished(true), paid)
  {
  }

  /** Where a failure leads: the end, a grant, or the next attempt. */
  function Decided(cfg: Config, left: nat, made: nat, paid: nat): State
    requires left >= 1
  {
    if left == 1 then Alone(cfg, 0, made, Finished(false), paid)
    else if paid < cfg.maxAttributions then Owing(cfg, left - 1, made, paid)
    else Alone(cfg, left - 1, made, Ready, paid)
  }

  lemma {:induction false} Decides(cfg: Config, left: nat, made: nat, paid: nat)
    requires left >= 1
    ensures Next(cfg, Alone(cfg, left, made, Phase.Failed, paid), Decide(0)) == Decided(cfg, left, made, paid)
  {
  }

  /** Where an attribution leads: the next attempt, unless it gave nothing or gave up. */
  function Judged(cfg: Config, left: nat, made: nat, paid: nat, reply: Option<Attribution>): State {
    Alone(cfg, left, made, if reply.Some? && reply.value.verdict != Abort then Ready else Finished(false), paid)
  }

  function VerdictOf(reply: Option<Attribution>): Option<Verdict> {
    if reply.Some? then Some(reply.value.verdict) else None
  }

  lemma {:induction false} Judges(cfg: Config, left: nat, made: nat, paid: nat, reply: Option<Attribution>)
    ensures Next(cfg, Owing(cfg, left, made, paid), Ask(0)) == Alone(cfg, left, made, Asked, paid + 1)
    ensures Next(cfg, Alone(cfg, left, made, Asked, paid), Judge(0, VerdictOf(reply))) == Judged(cfg, left, made, paid, reply)
  {
  }

  lemma {:induction false} Refused(cfg: Config, left: nat, made: nat, paid: nat)
    ensures Next(cfg, Alone(cfg, left, made, Ready, paid), RenderError(0)) == Alone(cfg, left, made, Finished(false), paid)
  {
  }

  // ----- Attempts -----

  lemma {:induction false} Begins(cfg: Config, steps: seq<Step>, left: nat, made: nat, paid: nat) returns (more: seq<Step>)
    requires Legal(cfg, steps) && After(cfg, steps) == Alone(cfg, left, made, Ready, paid)
    ensures Legal(cfg, more) && After(cfg, more) == Busy(cfg, left, made + 1, paid)
  {
    Queues(cfg, left, made, paid);
    Acquires(cfg, left, made, paid);
    more := Move(cfg, steps, Alone(cfg, left, made, Ready, paid), Enqueue(0), Alone(cfg, left, made, Queued, paid));
    more := Move(cfg, more, Alone(cfg, left, made, Queued, paid), Acquire(0), Busy(cfg, left, made + 1, paid));
  }

  lemma {:induction false} Fails(cfg: Config, steps: seq<Step>, left: nat, made: nat, paid: nat) returns (more: seq<Step>)
    requires left >= 1 && Legal(cfg, steps) && After(cfg, steps) == Busy(cfg, left, made, paid)
    ensures Legal(cfg, more) && After(cfg, more) == Decided(cfg, left, made, paid)
  {
    Leaves(cfg, left, made, paid);
    Decides(cfg, left, made, paid);
    more := Move(cfg, steps, Busy(cfg, left, made, paid), Fail(0), Alone(cfg, left, made, Phase.Failed, paid));
    more := Move(cfg, more, Alone(cfg, left, made, Phase.Failed, paid), Decide(0), Decided(cfg, left, made, paid));
  }

  lemma {:induction false} BeginsAndFails(cfg: Config, steps: seq<Step>, left: nat, made: nat, paid: nat) returns (more: seq<Step>)
    requires left >= 1 && Legal(cfg, steps) && After(cfg, steps) == Alone(cfg, left, made, Ready, paid)
    ensures Legal(cfg, more) && After(cfg, more) == Decided(cfg, left, made + 1, paid)
  {
    more := Begins(cfg, steps, left, made, paid);
    more := Fails(cfg, more, left, made + 1, paid);
  }

  lemma {:induction false} IsAttributed(cfg: Config, steps: seq<Step>, left: nat, made: nat, paid: nat, reply: Option<Attribution>)
    returns (more: seq<Step>)
    requires Legal(cfg, steps) && After(cfg, steps) == Owing(cfg, left, made, paid)
    ensures Legal(cfg, more) && After(cfg, more) == Judged(cfg, left, made, paid + 1, reply)
  {
    Judges(cfg, left, made, paid, reply);
    Judges(cfg, left, made, paid + 1, reply);
    more := Move(cfg, steps, Owing(cfg, left, made, paid), Ask(0), Alone(cfg, left, made, Asked, paid + 1));
    more := Move(cfg, more, Alone(cfg, left, made, Asked, paid + 1), Judge(0, VerdictOf(reply)), Judged(cfg, left, made, paid + 1, reply));
  }

  /** Where an error of the run itself leads. */
  function Errs(cfg: Config, settings: Settings, a: Attempt, k: nat, paid: nat): State
    requires k <= settings.maxRetries
  {
    Alone(cfg, settings.maxRetries - k, k + 1,
          if TriedLast(settings, a, k) then Finished(false) else Ready, paid + if a.attributed then 1 else 0)
  }

  lemma {:induction false} ErrsIs(cfg: Config, settings: Settings, a: Attempt, k: nat, paid: nat)
    requires k <= settings.maxRetries && a.outcome.Err? && a.outcome.error.Execute?
    requires Paid(settings, a, k, paid, cfg.maxAttributions)
    ensures var decided := Decided(cfg, settings.maxRetries + 1 - k, k + 1, paid);
            if a.attributed
            then decided == Owing(cfg, settings.maxRetries - k, k + 1, paid)
                 && Judged(cfg, settings.maxRetries - k, k + 1, paid + 1, a.reply) == Errs(cfg, settings, a, k, paid)
            else decided == Errs(cfg, settings, a, k, paid)
  {
  }

  lemma {:induction false} FailsAndIsJudged(
    cfg: Config, steps: seq<Step>, left: nat, made: nat, paid: nat, reply: Option<Attribution>) returns (more: seq<Step>)
    requires left >= 1 && Decided(cfg, left + 1, made + 1, paid) == Owing(cfg, left, made + 1, paid)
    requires Legal(cfg, steps) && After(cfg, steps) == Alone(cfg, left + 1, made, Ready, paid)
    ensures Legal(cfg, more) && After(cfg, more) == Judged(cfg, left, made + 1, paid + 1, reply)
  {
    more := BeginsAndFails(cfg, steps, left + 1, made, paid);
    more := IsAttributed(cfg, more, left, made + 1, paid, reply);
  }

  lemma {:induction false} Erred(cfg: Config, settings: Settings, steps: seq<Step>, a: Attempt, k: nat, paid: nat)
    returns (more: seq<Step>)
    requires k <= settings.maxRetries && a.outcome.Err? && a.outcome.error.Execute?
    requires Paid(settings, a, k, paid, cfg.maxAttributions)
    requires Legal(cfg, steps) && After(cfg, steps) == Alone(cfg, settings.maxRetries + 1 - k, k, Ready, paid)
    ensures Legal(cfg, more) && After(cfg, more) == Errs(cfg, settings, a, k, paid)
  {
    ErrsIs(cfg, settings, a, k, paid);
    if a.attributed {
      more := FailsAndIsJudged(cfg, steps, settings.maxRetries - k, k, paid, a.reply);
    } else {
      more := BeginsAndFails(cfg, steps, settings.maxRetries + 1 - k, k, paid);
    }
  }

  /** The attributions before attempt `k`. */
  function PaidBefore(trace: seq<Attempt>, k: nat): nat
    requires k <= |trace|
  {
    if k == 0 then 0 else PaidBefore(trace, k - 1) + if trace[k - 1].attributed then 1 else 0
  }

  lemma {:induction false} PaidIsCount(trace: seq<Attempt>, k: nat)
    requires k <= |trace|
    ensures PaidBefore(trace, k) == |Attributions(trace[..k])|
  {
    if k == 0 {
      assert Attributions(trace[..0]) == {};
    } else {
      PaidIsCount(trace, k - 1);
      AttributionsSnoc(trace[..k - 1], trace[k - 1]);
      assert trace[..k] == trace[..k - 1] + [trace[k - 1]];
    }
  }

  lemma {:induction false} PaidOf(settings: Settings, agent: string, max: nat, trace: seq<Attempt>, k: nat)
    requires SoFar(settings, agent, 0, max, trace) && k < |trace|
    ensures k <= settings.maxRetries && Paid(settings, trace[k], k, |Attributions(trace[..k])|, max)
  {
    if k < |trace| - 1 {
      PaidOf(settings, agent, max, trace[..|trace| - 1], k);
      assert trace[..|trace| - 1][..k] == trace[..k];
    }
  }

  lemma {:induction false} PaidAt(settings: Settings, agent: string, max: nat, trace: seq<Attempt>, k: nat)
    requires SoFar(settings, agent, 0, max, trace) && k < |trace|
    ensures k <= settings.maxRetries && Paid(settings, trace[k], k, PaidBefore(trace, k), max)
  {
    PaidOf(settings, agent, max, trace, k);
    PaidIsCount(trace, k);
  }

  /** The retries of a machine: none without attribution settings. */
  function RetriesOf(cfg: Config): nat {
    if cfg.attribution then cfg.maxRetries else 0
  }

  /** Where the machine is before attempt `k`. */
  function Point(cfg: Config, settings: Settings, trace: seq<Attempt>, k: nat): State
    requires k <= |trace| && k <= settings.maxRetries
  {
    Alone(cfg, settings.maxRetries + 1 - k, k, Ready, PaidBefore(trace, k))
  }

  /** An attempt that is followed by another leads from one point to the next. */
  lemma {:induction false} GoesOnFrom(cfg: Config, settings: Settings, agent: string, trace: seq<Attempt>, k: nat)
    requires SoFar(settings, agent, 0, cfg.maxAttributions, trace) && k + 1 < |trace|
    ensures k < settings.maxRetries && LeadsOn(cfg, settings, trace, k)
  {
    PaidAt(settings, agent, cfg.maxAttributions, trace, k);
    PaidAt(settings, agent, cfg.maxAttributions, trace, k + 1);
    EarlierIsTriedAgain(settings, agent, 0, cfg.maxAttributions, trace, k);
  }

  predicate LeadsOn(cfg: Config, settings: Settings, trace: seq<Attempt>, k: nat)
    requires k < |trace| && k < settings.maxRetries
  {
    && trace[k].outcome.Err? && trace[k].outcome.error.Execute?
    && Paid(settings, trace[k], k, PaidBefore(trace, k), cfg.maxAttributions)
    && Errs(cfg, settings, trace[k], k, PaidBefore(trace, k)) == Point(cfg, settings, trace, k + 1)
  }

  lemma {:induction false} FirstStep(cfg: Config, settings: Settings, trace: seq<Attempt>) returns (steps: seq<Step>)
    requires RetriesOf(cfg) == settings.maxRetries
    ensures Legal(cfg, steps) && After(cfg, steps) == Point(cfg, settings, trace, 0)
  {
    StartsAlone(cfg);
    steps := Move(cfg, [], Start(cfg), StartRoot, Point(cfg, settings, trace, 0));
  }

  lemma {:induction false} NextAttempt(cfg: Config, settings: Settings, trace: seq<Attempt>, k: nat, steps: seq<Step>)
    returns (more: seq<Step>)
    requires k < |trace| && k < settings.maxRetries && LeadsOn(cfg, settings, trace, k)
    requires Legal(cfg, steps) && After(cfg, steps) == Point(cfg, settings, trace, k)
    ensures Legal(cfg, more) && After(cfg, more) == Point(cfg, settings, trace, k + 1)
  {
    more := Erred(cfg, settings, steps, trace[k], k, PaidBefore(trace, k));
  }

  /** Every attempt before the `k`-th leads on to the next. */
  ghost predicate LeadTo(cfg: Config, settings: Settings, trace: seq<Attempt>, k: nat)
    requires k <= |trace| && k <= settings.maxRetries
  {
    k == 0 || (LeadTo(cfg, settings, trace, k - 1) && LeadsOn(cfg, settings, trace, k - 1))
  }

  lemma {:induction false} EarlierLeadOn(cfg: Config, settings: Settings, agent: string, trace: seq<Attempt>, k: nat)
    requires SoFar(settings, agent, 0, cfg.maxAttributions, trace) && k < |trace|
    ensures k <= settings.maxRetries && LeadTo(cfg, settings, trace, k)
  {
    if k > 0 {
      EarlierLeadOn(cfg, settings, agent, trace, k - 1);
      GoesOnFrom(cfg, settings, agent, trace, k - 1);
    }
  }

  /** Before each attempt the machine can be where the engine is. */
  lemma {:induction false} BeforeAttempt(cfg: Config, settings: Settings, trace: seq<Attempt>, k: nat) returns (steps: seq<Step>)
    requires RetriesOf(cfg) == settings.maxRetries && k < |trace| && k <= settings.maxRetries && LeadTo(cfg, settings, trace, k)
    ensures Legal(cfg, steps) && After(cfg, steps) == Point(cfg, settings, trace, k)
  {
    if k == 0 {
      steps := FirstStep(cfg, settings, trace);
    } else {
      steps := BeforeAttempt(cfg, settings, trace, k - 1);
      steps := NextAttempt(cfg, settings, trace, k - 1, steps);
    }
  }

  lemma {:induction false} Succeeds(cfg: Config, steps: seq<Step>, left: nat, made: nat, paid: nat) returns (more: seq<Step>)
    requires Legal(cfg, steps) && After(cfg, steps) == Alone(cfg, left, made, Ready, paid)
    ensures Legal(cfg, more) && After(cfg, more) == Alone(cfg, left, made + 1, Finished(true), paid)
  {
    more := Begins(cfg, steps, left, made, paid);
    Leaves(cfg, left, made + 1, paid);
    more := Move(cfg, more, Busy(cfg, left, made + 1, paid), Succeed(0), Alone(cfg, left, made + 1, Finished(true), paid));
  }

  lemma {:induction false} IsRefused(cfg: Config, steps: seq<Step>, left: nat, made: nat, paid: nat) returns (more: seq<Step>)
    requires Legal(cfg, steps) && After(cfg, steps) == Alone(cfg, left, made, Ready, paid)
    ensures Legal(cfg, more) && After(cfg, more) == Alone(cfg, left, made, Finished(false), paid)
  {
    Refused(cfg, left, made, paid);
    more := Move(cfg, steps, Alone(cfg, left, made, Ready, paid), RenderError(0), Alone(cfg, left, made, Finished(false), paid));
  }

  /** A single delegation, finished, with nothing held: how it ended, its executions, and the attributions paid for. */
  predicate Settled(cfg: Config, s: State, ok: bool, made: nat, paid: nat) {
    && |s.ds| == 1 && s.ds[0].phase == Finished(ok) && s.free == cfg.Permits()
    && s.used == s.attributions == paid && s.executions == made
  }

  lemma {:induction false} ErredLast(cfg: Config, settings: Settings, steps: seq<Step>, last: Attempt, k: nat, paid: nat)
    returns (more: seq<Step>)
    requires k <= settings.maxRetries && last.outcome.Err? && last.outcome.error.Execute?
    requires Paid(settings, last, k, paid, cfg.maxAttributions) && TriedLast(settings, last, k)
    requires Legal(cfg, steps) && After(cfg, steps) == Alone(cfg, settings.maxRetries + 1 - k, k, Ready, paid)
    ensures Legal(cfg, more)
    ensures Settled(cfg, After(cfg, more), false, k + 1, paid + if last.attributed then 1 else 0)
  {
    more := Erred(cfg, settings, steps, last, k, paid);
  }

  /** The last attempt leaves the delegation settled. */
  lemma {:induction false} Ends(cfg: Config, settings: Settings, steps: seq<Step>, last: Attempt, k: nat, paid: nat)
    returns (more: seq<Step>)
    requires k <= settings.maxRetries
    requires Paid(settings, last, k, paid, cfg.maxAttributions) && TriedLast(settings, last, k)
    requires Legal(cfg, steps) && After(cfg, steps) == Alone(cfg, settings.maxRetries + 1 - k, k, Ready, paid)
    ensures Legal(cfg, more)
    ensures Settled(cfg, After(cfg, more), last.outcome.Ok?,
                    if last.outcome.Ok? || last.outcome.error.Execute? then k + 1 else k, paid + if last.attributed then 1 else 0)
  {
    if last.outcome.Ok? {
      more := Succeeds(cfg, steps, settings.maxRetries + 1 - k, k, paid);
    } else if last.outcome.error.Execute? {
      more := ErredLast(cfg, settings, steps, last, k, paid);
    } else {
      more := IsRefused(cfg, steps, settings.maxRetries + 1 - k, k, paid);
    }
  }

  lemma {:induction false} AllPaid(trace: seq<Attempt>)
    requires trace != []
    ensures var k := |trace| - 1;
            |Attributions(trace)| == PaidBefore(trace, k) + if trace[k].attributed then 1 else 0
  {
    PaidIsCount(trace, |trace|);
    assert trace[..|trace|] == trace;
  }

  /**
   Every delegation that an engine can make from a fresh budget, with retries or as a single attempt without settings, is
   a run of the step machine: it ends settled, well exactly when the last outcome is a text, with an execution for every
   attempt but a render error, and with the same attributions paid for.
   */
  lemma {:induction false} EngineIsMachine(cfg: Config, settings: Settings, agent: string, trace: seq<Attempt>)
    returns (steps: seq<Step>)
    requires RetriesOf(cfg) == settings.maxRetries && Ended(settings, agent, 0, cfg.maxAttributions, trace)
    ensures Legal(cfg, steps)
    ensures var last := trace[|trace| - 1].outcome;
            Settled(cfg, After(cfg, steps), last.Ok?,
              if last.Ok? || last.error.Execute? then |trace| else |trace| - 1, |Attributions(trace)|)
  {
    var k := |trace| - 1;
    EarlierLeadOn(cfg, settings, agent, trace, k);
    PaidAt(settings, agent, cfg.maxAttributions, trace, k);
    AllPaid(trace);
    steps := LastRun(cfg, settings, trace);
  }

  lemma {:induction false} LastRun(cfg: Config, settings: Settings, trace: seq<Attempt>) returns (steps: seq<Step>)
    requires RetriesOf(cfg) == settings.maxRetries && 0 < |trace| <= settings.maxRetries + 1
    requires LeadTo(cfg, settings, trace, |trace| - 1) && TriedLast(settings, trace[|trace| - 1], |trace| - 1)
    requires Paid(settings, trace[|trace| - 1], |trace| - 1, PaidBefore(trace, |trace| - 1), cfg.maxAttributions)
    ensures Legal(cfg, steps)
    ensures var last := trace[|trace| - 1];
            Settled(cfg, After(cfg, steps), last.outcome.Ok?,
                    if last.outcome.Ok? || last.outcome.error.Execute? then |trace| else |trace| - 1,
                    PaidBefore(trace, |trace| - 1) + if last.attributed then 1 else 0)
  {
    var k := |trace| - 1;
    steps := BeforeAttempt(cfg, settings, trace, k);
    steps := Ends(cfg, settings, steps, trace[k], k, PaidBefore(trace, k));
  }
}
