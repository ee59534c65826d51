/**
 Recursive delegation as interleaved steps: sub-agents that call further sub-agents, a counting semaphore whose permit
 an attempt holds while its nested calls run, a depth guard, a retry loop per delegation, and one attribution budget
 shared by all of them. The model's and the tools' behaviour is whatever step comes next.
 */
module Delegations {
  import opened Prelude

  datatype Verdict = Retry | Degrade | Abort

  /** `maxCalls` bounds the delegate calls one agent run makes; the other fields are the engine's settings. */
  datatype Config = Config(maxConcurrent: nat, depthLimit: nat, maxRetries: nat, maxAttributions: nat, attribution: bool, maxCalls: nat)
  {
    function Permits(): (n: nat)
      ensures n >= 1 && (n == maxConcurrent || (n == 1 && maxConcurrent == 0))
    {
      if maxConcurrent > 1 then maxConcurrent else 1
    }

    function MaxDepth(): (n: nat)
      ensures n >= 1 && (n == depthLimit || (n == 1 && depthLimit == 0))
    {
      if depthLimit > 1 then depthLimit else 1
    }

    /** Attempts a delegation may make: without attribution settings there is no retry. */
    function Attempts(): (n: nat)
      ensures n >= 1
    {
      if attribution then maxRetries + 1 else 1
    }
  }

  datatype Phase =
    | Ready                  // about to look up the agent and render its task
    | Queued                 // waiting for a permit
    | Running(calls: nat)    // holding a permit, with the delegate calls made in this attempt
    | Failed                 // the attempt failed; attempts and budget decide
    | Granted                // a unit of the budget is taken, the attribution call not yet made
    | Asked                  // the attribution call is made, its verdict awaited
    | Finished(ok: bool)

  datatype Delegation = Delegation(depth: nat, parent: Option<nat>, attemptsLeft: nat, attempts: nat, phase: Phase)

  datatype State = State(ds: seq<Delegation>, free: nat, used: nat, attributions: nat, executions: nat, roots: nat)

  datatype Step =
    | StartRoot
    | CallChild(i: nat)
    | CallRefused(i: nat)
    | RenderError(i: nat)
    | UnknownAgent(i: nat)
    | Enqueue(i: nat)
    | Acquire(i: nat)
    | Succeed(i: nat)
    | Fail(i: nat)
    | Decide(i: nat)
    | Ask(i: nat)
    | Judge(i: nat, reply: Option<Verdict>)

  function Start(cfg: Config): State {
    State([], cfg.Permits(), 0, 0, 0, 0)
  }

  predicate Live(d: Delegation) {
    !d.phase.Finished?
  }

  predicate IsChild(d: Delegation, i: nat) {
    Live(d) && d.parent == Some(i)
  }

  predicate HasLiveChild(s: State, i: nat) {
    exists j | 0 <= j < |s.ds| :: IsChild(s.ds[j], i)
  }

  predicate Enabled(cfg: Config, s: State, step: Step) {
    match step
    case StartRoot => true
    case CallChild(i) => i < |s.ds| && s.ds[i].phase.Running? && s.ds[i].phase.calls < cfg.maxCalls && s.ds[i].depth + 1 <= cfg.MaxDepth()
    case CallRefused(i) => i < |s.ds| && s.ds[i].phase.Running? && s.ds[i].phase.calls < cfg.maxCalls
    case RenderError(i) => i < |s.ds| && s.ds[i].phase.Ready?
    case UnknownAgent(i) => i < |s.ds| && s.ds[i].phase.Ready?
    case Enqueue(i) => i < |s.ds| && s.ds[i].phase.Ready?
    case Acquire(i) => i < |s.ds| && s.ds[i].phase.Queued? && s.free > 0
    case Succeed(i) => i < |s.ds| && s.ds[i].phase.Running? && !HasLiveChild(s, i)
    case Fail(i) => i < |s.ds| && s.ds[i].phase.Running? && !HasLiveChild(s, i)
    case Decide(i) => i < |s.ds| && s.ds[i].phase.Failed?
    case Ask(i) => i < |s.ds| && s.ds[i].phase.Granted?
    case Judge(i, _) => i < |s.ds| && s.ds[i].phase.Asked?
  }

  function NewDelegation(cfg: Config, depth: nat, parent: Option<nat>): Delegation {
    Delegation(depth, parent, cfg.Attempts(), 0, Ready)
  }

  function SetPhase(s: State, i: nat, phase: Phase): State
    requires i < |s.ds|
  {
    s.(ds := s.ds[i := s.ds[i].(phase := phase)])
  }

  /** One more attempt is spent; the delegation goes on to `phase`. */
  function Spend(s: State, i: nat, phase: Phase): State
    requires i < |s.ds|
  {
    var d := s.ds[i];
    s.(ds := s.ds[i := d.(attemptsLeft := if d.attemptsLeft > 0 then d.attemptsLeft - 1 else 0, phase := phase)])
  }

  function Next(cfg: Config, s: State, step: Step): State
    requires Enabled(cfg, s, step)
  {
    match step
    case StartRoot => s.(ds := s.ds + [NewDelegation(cfg, 1, None)], roots := s.roots + 1)
    case CallChild(i) =>
      var s' := SetPhase(s, i, Running(s.ds[i].phase.calls + 1));
      s'.(ds := s'.ds + [NewDelegation(cfg, s.ds[i].depth + 1, Some(i))])
    case CallRefused(i) => SetPhase(s, i, Running(s.ds[i].phase.calls + 1))
    case RenderError(i) => SetPhase(s, i, Finished(false))
    case UnknownAgent(i) => SetPhase(s, i, Failed)
    case Enqueue(i) => SetPhase(s, i, Queued)
    case Acquire(i) =>
      var d := s.ds[i];
      s.(ds := s.ds[i := d.(phase := Running(0), attempts := d.attempts + 1)], free := s.free - 1, executions := s.executions + 1)
    case Succeed(i) => SetPhase(s, i, Finished(true)).(free := s.free + 1)
    case Fail(i) => SetPhase(s, i, Failed).(free := s.free + 1)
    case Decide(i) =>
      if s.ds[i].attemptsLeft <= 1 then Spend(s, i, Finished(false))
      else if s.used < cfg.maxAttributions then Spend(s, i, Granted).(used := s.used + 1)
      else Spend(s, i, Ready)
    case Ask(i) => SetPhase(s, i, Asked).(attributions := s.attributions + 1)
    case Judge(i, reply) => SetPhase(s, i, if reply.Some? && !reply.value.Abort? then Ready else Finished(false))
  }

  // ----- Runs -----

  ghost predicate Legal(cfg: Config, steps: seq<Step>)
    decreases |steps|, 0
  {
    steps == [] ||
    var n := |steps| - 1;
    Legal(cfg, steps[..n]) && Enabled(cfg, After(cfg, steps[..n]), steps[n])
  }

  ghost function After(cfg: Config, steps: seq<Step>): State
    requires Legal(cfg, steps)
    decreases |steps|, 1
  {
    if steps == [] then Start(cfg) else Next(cfg, After(cfg, steps[..|steps| - 1]), steps[|steps| - 1])
  }

  // ----- Sums over delegations -----

  ghost function Sum(ds: seq<Delegation>, weight: Delegation -> nat): nat {
    if ds == [] then 0 else Sum(ds[..|ds| - 1], weight) + weight(ds[|ds| - 1])
  }

  lemma {:induction false} SumAppend(ds: seq<Delegation>, d: Delegation, weight: Delegation -> nat)
    ensures Sum(ds + [d], weight) == Sum(ds, weight) + weight(d)
  {
    assert (ds + [d])[..|ds|] == ds;
  }

  lemma {:induction false} SumUpdate(ds: seq<Delegation>, i: nat, d: Delegation, weight: Delegation -> nat)
    requires i < |ds|
    ensures Sum(ds[i := d], weight) + weight(ds[i]) == Sum(ds, weight) + weight(d)
  {
    var n := |ds| - 1;
    if i == n {
      assert ds[i := d][..n] == ds[..n];
    } else {
      assert ds[i := d][..n] == ds[..n][i := d];
      SumUpdate(ds[..n], i, d, weight);
    }
  }

  /** What a step of a delegation leaves: the delegation changed, and the child it called, if any. */
  lemma {:induction false} StepLeaves(cfg: Config, s: State, step: Step)
    requires Enabled(cfg, s, step) && !step.StartRoot?
    ensures Next(cfg, s, step).ds == s.ds[step.i := Next(cfg, s, step).ds[step.i]] + Child(cfg, s, step)
  {
  }

  function Child(cfg: Config, s: State, step: Step): seq<Delegation>
    requires Enabled(cfg, s, step) && !step.StartRoot?
  {
    if step.CallChild? then [NewDelegation(cfg, s.ds[step.i].depth + 1, Some(step.i))] else []
  }

  /** How a step changes a sum: by the delegation it changes and the one it adds. */
  lemma {:induction false} SumStep(cfg: Config, s: State, step: Step, weight: Delegation -> nat)
    requires Enabled(cfg, s, step)
    ensures var before, after := Sum(s.ds, weight), Sum(Next(cfg, s, step).ds, weight);
            if step.StartRoot? then after == before + weight(NewDelegation(cfg, 1, None))
            else after + weight(s.ds[step.i]) == before + weight(Next(cfg, s, step).ds[step.i])
                   + if step.CallChild? then weight(NewDelegation(cfg, s.ds[step.i].depth + 1, Some(step.i))) else 0
  {
    if step.StartRoot? {
      SumAppend(s.ds, NewDelegation(cfg, 1, None), weight);
    } else {
      var updated := s.ds[step.i := Next(cfg, s, step).ds[step.i]];
      StepLeaves(cfg, s, step);
      SumUpdate(s.ds, step.i, Next(cfg, s, step).ds[step.i], weight);
      if step.CallChild? {
        SumAppend(updated, Child(cfg, s, step)[0], weight);
      } else {
        assert updated + [] == updated;
      }
    }
  }

  function HoldsPermit(d: Delegation): nat {
    if d.phase.Running? then 1 else 0
  }

  function HoldsGrant(d: Delegation): nat {
    if d.phase.Granted? then 1 else 0
  }

  // ----- What every step keeps -----

  /** A single delegation within its settings. */
  predicate Sound(cfg: Config, d: Delegation) {
    && 1 <= d.depth <= cfg.MaxDepth()
    && d.attemptsLeft <= cfg.Attempts()
    && (Live(d) ==> d.attemptsLeft >= 1)
    && (d.phase.Running? ==> d.phase.calls <= cfg.maxCalls)
    && d.attempts + d.attemptsLeft <= cfg.Attempts() + (if d.phase.Running? || d.phase.Failed? || d.phase.Finished? then 1 else 0)
    && d.attempts <= cfg.Attempts()
  }

  /** A live child waits under a running parent one level up. */
  predicate ParentHolds(ds: seq<Delegation>, j: nat)
    requires j < |ds|
  {
    Live(ds[j]) ==>
      if ds[j].parent.None? then ds[j].depth == 1
      else
        var p := ds[j].parent.value;
        p < |ds| && p != j && ds[p].phase.Running? && ds[j].depth == ds[p].depth + 1
  }

  ghost predicate Invariant(cfg: Config, s: State) {
    && Sum(s.ds, HoldsPermit) + s.free == cfg.Permits()
    && s.used == s.attributions + Sum(s.ds, HoldsGrant)
    && s.used <= cfg.maxAttributions
    && (forall j | 0 <= j < |s.ds| :: Sound(cfg, s.ds[j]))
    && (forall j | 0 <= j < |s.ds| :: ParentHolds(s.ds, j))
  }

  lemma {:induction false} StepKeepsParents(cfg: Config, s: State, step: Step)
    requires Enabled(cfg, s, step) && forall j | 0 <= j < |s.ds| :: ParentHolds(s.ds, j)
    ensures forall j | 0 <= j < |Next(cfg, s, step).ds| :: ParentHolds(Next(cfg, s, step).ds, j)
  {
    var s' := Next(cfg, s, step);
    forall j | 0 <= j < |s'.ds| ensures ParentHolds(s'.ds, j) {
      if j < |s.ds| {
        assert ParentHolds(s.ds, j);
        if step.Succeed? || step.Fail? {
          assert !IsChild(s.ds[j], step.i);
        }
      }
    }
  }

  lemma {:induction false} StepKeepsSound(cfg: Config, s: State, step: Step)
    requires Enabled(cfg, s, step) && forall j | 0 <= j < |s.ds| :: Sound(cfg, s.ds[j])
    ensures forall j | 0 <= j < |Next(cfg, s, step).ds| :: Sound(cfg, Next(cfg, s, step).ds[j])
  {
    var s' := Next(cfg, s, step);
    if !step.StartRoot? {
      assert Sound(cfg, s.ds[step.i]);
    }
  }

  lemma {:induction false} StepKeepsPermits(cfg: Config, s: State, step: Step)
    requires Enabled(cfg, s, step)
    ensures var s' := Next(cfg, s, step);
            Sum(s'.ds, HoldsPermit) + s'.free == Sum(s.ds, HoldsPermit) + s.free
  {
    SumStep(cfg, s, step, HoldsPermit);
  }

  /** Only taking a unit and making the call it pays for change the budget's account, each by one. */
  lemma {:induction false} StepKeepsBudget(cfg: Config, s: State, step: Step)
    requires Enabled(cfg, s, step) && s.used == s.attributions + Sum(s.ds, HoldsGrant) && s.used <= cfg.maxAttributions
    ensures var s' := Next(cfg, s, step);
            s'.used == s'.attributions + Sum(s'.ds, HoldsGrant) && s'.used <= cfg.maxAttributions
  {
    SumStep(cfg, s, step, HoldsGrant);
  }

  /**
   In every reachable state held and free permits add up to the limit, every delegation is within the depth and
   attempt limits, a live child has a running parent one level up, and the units of the budget used are the attribution
   calls made and the grants not yet used for one, never more than the maximum.
   */
  lemma {:induction false} RunKeepsInvariant(cfg: Config, steps: seq<Step>)
    requires Legal(cfg, steps)
    ensures Invariant(cfg, After(cfg, steps))
  {
    if steps != [] {
      var n := |steps| - 1;
      RunKeepsInvariant(cfg, steps[..n]);
      var s := After(cfg, steps[..n]);
      StepKeepsParents(cfg, s, steps[n]);
      StepKeepsSound(cfg, s, steps[n]);
      StepKeepsPermits(cfg, s, steps[n]);
      StepKeepsBudget(cfg, s, steps[n]);
    }
  }
}
