/** How much work delegation can cause: a bound on agent executions, and one on steps, so that every run ends. */
module DelegationBound {
  import opened Prelude
  import opened Delegations

  /**
   A price list. `attempt` and `call` are charged per attempt and per delegate call; the others say how an attempt's
   charge falls due over its phases.
   */
  datatype Prices = Prices(attempt: nat, call: nat, queued: nat, running: nat, failed: nat, granted: nat, asked: nat)

  /** One unit per agent execution. */
  const PER_EXECUTION := Prices(1, 0, 0, 0, 0, 0, 0)

  /** One unit per step. */
  const PER_STEP := Prices(6, 1, 1, 4, 3, 2, 1)

  /** The most one delegation at `depth` can cost, with everything below it: attempts, times one attempt and its calls. */
  function Total(cfg: Config, p: Prices, depth: nat): nat
    decreases if depth <= cfg.MaxDepth() then cfg.MaxDepth() + 1 - depth else 0
  {
    if depth > cfg.MaxDepth() then 0 else cfg.Attempts() * AttemptTotal(cfg, p, depth)
  }

  function CallTotal(cfg: Config, p: Prices, depth: nat): nat
    requires depth <= cfg.MaxDepth()
    decreases cfg.MaxDepth() + 1 - depth, 0
  {
    p.call + Total(cfg, p, depth + 1)
  }

  function AttemptTotal(cfg: Config, p: Prices, depth: nat): nat
    requires depth <= cfg.MaxDepth()
    decreases cfg.MaxDepth() + 1 - depth, 1
  {
    p.attempt + cfg.maxCalls * CallTotal(cfg, p, depth)
  }

  /** What a delegation may still cost, when an attempt costs `a`, a call costs `c`, and an attempt has `m` calls. */
  function Due(p: Prices, d: Delegation, a: nat, c: nat, m: nat): nat {
    match d.phase
    case Ready => d.attemptsLeft * a
    case Queued => Less(d.attemptsLeft * a, p.queued)
    case Running(calls) => Less(d.attemptsLeft, 1) * a + p.running + Less(m, calls) * c
    case Failed => Less(d.attemptsLeft, 1) * a + p.failed
    case Granted => d.attemptsLeft * a + p.granted
    case Asked => d.attemptsLeft * a + p.asked
    case Finished(_) => 0
  }

  function Less(a: nat, b: nat): nat {
    if a > b then a - b else 0
  }

  function Owed(cfg: Config, p: Prices, d: Delegation): nat {
    if d.depth > cfg.MaxDepth() then 0
    else Due(p, d, AttemptTotal(cfg, p, d.depth), CallTotal(cfg, p, d.depth), cfg.maxCalls)
  }

  function OwedBy(cfg: Config, p: Prices): Delegation -> nat {
    (d: Delegation) => Owed(cfg, p, d)
  }

  /** What a step pays for. */
  function Fee(p: Prices, step: Step): nat {
    if p == PER_STEP then 1 else if step.Acquire? then 1 else 0
  }

  lemma {:induction false} Distribute(k: nat, a: nat)
    requires k >= 1
    ensures k * a == (k - 1) * a + a && k * a >= a && (k - 1) * a >= 0
  {
  }

  lemma {:induction false} OneMore(r: nat, t: nat)
    ensures r * (1 + t) == r + r * t
  {
  }

  /** A call costs the caller at least its fee and its child's total. */
  lemma {:induction false} CallPays(p: Prices, d: Delegation, a: nat, c: nat, m: nat)
    requires d.phase.Running? && d.phase.calls < m
    ensures Due(p, d.(phase := Running(d.phase.calls + 1)), a, c, m) + c == Due(p, d, a, c, m)
  {
    Distribute(m - d.phase.calls, c);
  }

  lemma {:induction false} AcquirePays(p: Prices, d: Delegation, a: nat, c: nat, m: nat)
    requires p == PER_STEP || p == PER_EXECUTION
    requires d.phase.Queued? && d.attemptsLeft >= 1 && a == p.attempt + m * c
    ensures Due(p, d.(phase := Running(0), attempts := d.attempts + 1), a, c, m) + 1 <= Due(p, d, a, c, m)
  {
    Distribute(d.attemptsLeft, a);
  }

  lemma {:induction false} DecidePays(p: Prices, d: Delegation, d': Delegation, a: nat, c: nat, m: nat)
    requires p == PER_STEP || p == PER_EXECUTION
    requires d.phase.Failed? && d.attemptsLeft >= 1 && d'.attemptsLeft == d.attemptsLeft - 1
    requires d'.phase.Ready? || d'.phase.Granted? || d'.phase.Finished?
    ensures Due(p, d', a, c, m) + (if p == PER_STEP then 1 else 0) <= Due(p, d, a, c, m)
  {
  }

  lemma {:induction false} LocalPays(p: Prices, d: Delegation, phase: Phase, a: nat, c: nat, m: nat)
    requires p == PER_STEP || p == PER_EXECUTION
    requires d.attemptsLeft >= 1 && a == p.attempt + m * c
    requires match d.phase
             case Ready => phase.Queued? || phase.Failed? || phase.Finished?
             case Running(_) => phase.Failed? || phase.Finished?
             case Granted => phase.Asked?
             case Asked => phase.Ready? || phase.Finished?
             case _ => false
    ensures Due(p, d.(phase := phase), a, c, m) + (if p == PER_STEP then 1 else 0) <= Due(p, d, a, c, m)
  {
    Distribute(d.attemptsLeft, a);
  }

  /** A step of a delegation pays its fee out of what that delegation owes, passing on at most one child's total. */
  lemma {:induction false} StepPays(cfg: Config, p: Prices, s: State, step: Step)
    requires p == PER_STEP || p == PER_EXECUTION
    requires Enabled(cfg, s, step) && !step.StartRoot? && Sound(cfg, s.ds[step.i])
    ensures var d, d' := s.ds[step.i], Next(cfg, s, step).ds[step.i];
            Owed(cfg, p, d') + Fee(p, step) + (if step.CallChild? then Total(cfg, p, d.depth + 1) else 0) <= Owed(cfg, p, d)
  {
    var d, d' := s.ds[step.i], Next(cfg, s, step).ds[step.i];
    var a, c, m := AttemptTotal(cfg, p, d.depth), CallTotal(cfg, p, d.depth), cfg.maxCalls;
    match step
    case CallChild(_) => CallPays(p, d, a, c, m);
    case CallRefused(_) => CallPays(p, d, a, c, m);
    case Acquire(_) => AcquirePays(p, d, a, c, m);
    case Decide(_) => DecidePays(p, d, d', a, c, m);
    case _ => LocalPays(p, d, d'.phase, a, c, m);
  }

  lemma {:induction false} NewOwes(cfg: Config, p: Prices, depth: nat, parent: Option<nat>)
    ensures Owed(cfg, p, NewDelegation(cfg, depth, parent)) == Total(cfg, p, depth)
  {
  }

  lemma {:induction false} SumPays(cfg: Config, p: Prices, s: State, step: Step)
    requires p == PER_STEP || p == PER_EXECUTION
    requires Enabled(cfg, s, step) && !step.StartRoot? && Sound(cfg, s.ds[step.i])
    ensures Sum(Next(cfg, s, step).ds, OwedBy(cfg, p)) + Fee(p, step) <= Sum(s.ds, OwedBy(cfg, p))
  {
    StepPays(cfg, p, s, step);
    SumStep(cfg, s, step, OwedBy(cfg, p));
    NewOwes(cfg, p, s.ds[step.i].depth + 1, Some(step.i));
  }

  lemma {:induction false} RootOwes(cfg: Config, p: Prices, ds: seq<Delegation>)
    ensures Sum(ds + [NewDelegation(cfg, 1, None)], OwedBy(cfg, p)) == Sum(ds, OwedBy(cfg, p)) + Total(cfg, p, 1)
  {
    NewOwes(cfg, p, 1, None);
    SumAppend(ds, NewDelegation(cfg, 1, None), OwedBy(cfg, p));
  }

  /** What a run has paid so far. */
  ghost function Paid(p: Prices, steps: seq<Step>): nat {
    if steps == [] then 0
    else Paid(p, steps[..|steps| - 1]) + if steps[|steps| - 1].StartRoot? then 0 else Fee(p, steps[|steps| - 1])
  }

  /** What was paid and what is still owed never exceed the total of the roots. */
  lemma {:induction false} RunIsPaidFor(cfg: Config, p: Prices, steps: seq<Step>)
    requires Legal(cfg, steps) && (p == PER_STEP || p == PER_EXECUTION)
    ensures Paid(p, steps) + Sum(After(cfg, steps).ds, OwedBy(cfg, p)) <= After(cfg, steps).roots * Total(cfg, p, 1)
    decreases |steps|
  {
    if steps != [] {
      var n := |steps| - 1;
      RunIsPaidFor(cfg, p, steps[..n]);
      RunKeepsInvariant(cfg, steps[..n]);
      StepIsPaidFor(cfg, p, After(cfg, steps[..n]), steps[n], Paid(p, steps[..n]));
    }
  }

  lemma {:induction false} StepIsPaidFor(cfg: Config, p: Prices, s: State, step: Step, paid: nat)
    requires p == PER_STEP || p == PER_EXECUTION
    requires Invariant(cfg, s) && Enabled(cfg, s, step)
    requires paid + Sum(s.ds, OwedBy(cfg, p)) <= s.roots * Total(cfg, p, 1)
    ensures var s' := Next(cfg, s, step);
            paid + (if step.StartRoot? then 0 else Fee(p, step)) + Sum(s'.ds, OwedBy(cfg, p)) <= s'.roots * Total(cfg, p, 1)
  {
    if step.StartRoot? {
      RootOwes(cfg, p, s.ds);
      Distribute(s.roots + 1, Total(cfg, p, 1));
    } else {
      SumPays(cfg, p, s, step);
    }
  }

  lemma {:induction false} PaidCounts(cfg: Config, steps: seq<Step>)
    requires Legal(cfg, steps)
    ensures Paid(PER_EXECUTION, steps) == After(cfg, steps).executions
    ensures Paid(PER_STEP, steps) + After(cfg, steps).roots == |steps|
    decreases |steps|
  {
    if steps != [] {
      PaidCounts(cfg, steps[..|steps| - 1]);
    }
  }

  /** Agent executions one delegation can cause: attempts, times one execution and all its calls' executions. */
  function Executions(cfg: Config, depth: nat): nat
    decreases if depth <= cfg.MaxDepth() then cfg.MaxDepth() + 1 - depth else 0
  {
    if depth > cfg.MaxDepth() then 0 else cfg.Attempts() * (1 + cfg.maxCalls * Executions(cfg, depth + 1))
  }

  lemma {:induction false} TotalIsExecutions(cfg: Config, depth: nat)
    ensures Total(cfg, PER_EXECUTION, depth) == Executions(cfg, depth)
    decreases if depth <= cfg.MaxDepth() then cfg.MaxDepth() + 1 - depth else 0
  {
    if depth <= cfg.MaxDepth() {
      TotalIsExecutions(cfg, depth + 1);
      assert CallTotal(cfg, PER_EXECUTION, depth) == Executions(cfg, depth + 1);
    }
  }

  /** Through every retry, degrade and nesting, `r` roots cause at most `r` times the closed bound of executions. */
  lemma {:induction false} ExecutionsAreBounded(cfg: Config, steps: seq<Step>)
    requires Legal(cfg, steps)
    ensures After(cfg, steps).executions <= After(cfg, steps).roots * Executions(cfg, 1)
  {
    RunIsPaidFor(cfg, PER_EXECUTION, steps);
    PaidCounts(cfg, steps);
    TotalIsExecutions(cfg, 1);
  }

  // ----- One root's share -----

  /** The root above a delegation. */
  function RootOf(ds: seq<Delegation>, i: nat): nat
    decreases i
  {
    if i < |ds| && ds[i].parent.Some? && ds[i].parent.value < i then RootOf(ds, ds[i].parent.value) else i
  }

  /** The weight of the delegations under root `r`, itself included. */
  ghost function Share(ds: seq<Delegation>, r: nat, weight: Delegation -> nat): nat {
    if ds == [] then 0
    else
      var n := |ds| - 1;
      Share(ds[..n], r, weight) + if RootOf(ds, n) == r then weight(ds[n]) else 0
  }

  ghost predicate SameParents(a: seq<Delegation>, b: seq<Delegation>) {
    forall i | 0 <= i < |a| && i < |b| :: a[i].parent == b[i].parent
  }

  lemma {:induction false} RootIgnoresRest(a: seq<Delegation>, b: seq<Delegation>, i: nat)
    requires SameParents(a, b) && i < |a| && i < |b|
    ensures RootOf(a, i) == RootOf(b, i)
    decreases i
  {
    if a[i].parent.Some? && a[i].parent.value < i {
      RootIgnoresRest(a, b, a[i].parent.value);
    }
  }

  lemma {:induction false} ShareAppend(ds: seq<Delegation>, d: Delegation, r: nat, weight: Delegation -> nat)
    ensures Share(ds + [d], r, weight) == Share(ds, r, weight) + if RootOf(ds + [d], |ds|) == r then weight(d) else 0
  {
    assert (ds + [d])[..|ds|] == ds;
  }

  lemma {:induction false} UpdateFront<T>(s: seq<T>, i: nat, x: T)
    requires i < |s| - 1
    ensures s[i := x][..|s| - 1] == s[..|s| - 1][i := x] && s[i := x][|s| - 1] == s[|s| - 1]
  {
  }

  lemma {:induction false} ShareUpdate(ds: seq<Delegation>, i: nat, d: Delegation, r: nat, weight: Delegation -> nat)
    requires i < |ds| && d.parent == ds[i].parent
    ensures RootOf(ds, i) != r ==> Share(ds[i := d], r, weight) == Share(ds, r, weight)
    ensures RootOf(ds, i) == r ==> Share(ds[i := d], r, weight) + weight(ds[i]) == Share(ds, r, weight) + weight(d)
  {
    var n := |ds| - 1;
    RootIgnoresRest(ds[i := d], ds, n);
    if i == n {
      assert ds[i := d][..n] == ds[..n];
    } else {
      UpdateFront(ds, i, d);
      RootIgnoresRest(ds[..n], ds, i);
      ShareUpdate(ds[..n], i, d, r, weight);
    }
  }

  /** The executions of a delegation so far, and the most it may still cause. */
  function Burden(cfg: Config): Delegation -> nat {
    (d: Delegation) => d.attempts + Owed(cfg, PER_EXECUTION, d)
  }

  function RunsOf(d: Delegation): nat {
    d.attempts
  }

  lemma {:induction false} NewBurden(cfg: Config, depth: nat, parent: Option<nat>)
    ensures Burden(cfg)(NewDelegation(cfg, depth, parent)) == Total(cfg, PER_EXECUTION, depth)
  {
    NewOwes(cfg, PER_EXECUTION, depth, parent);
  }

  lemma {:induction false} StepBurden(cfg: Config, s: State, step: Step)
    requires Enabled(cfg, s, step) && !step.StartRoot? && Sound(cfg, s.ds[step.i])
    ensures var d, d' := s.ds[step.i], Next(cfg, s, step).ds[step.i];
            && d'.parent == d.parent
            && Burden(cfg)(d') + (if step.CallChild? then Total(cfg, PER_EXECUTION, d.depth + 1) else 0) <= Burden(cfg)(d)
  {
    StepPays(cfg, PER_EXECUTION, s, step);
  }

  /** No root's share exceeds the total of one delegation at depth 1. */
  ghost predicate SharesBounded(cfg: Config, ds: seq<Delegation>) {
    forall r: nat :: Share(ds, r, Burden(cfg)) <= Total(cfg, PER_EXECUTION, 1)
  }

  lemma {:induction false} NoShareYet(ds: seq<Delegation>, r: nat, weight: Delegation -> nat)
    requires r >= |ds|
    ensures Share(ds, r, weight) == 0
  {
    if ds != [] {
      var n := |ds| - 1;
      NoShareYet(ds[..n], r, weight);
      RootIsBelow(ds, n);
    }
  }

  lemma {:induction false} RootIsBelow(ds: seq<Delegation>, i: nat)
    ensures RootOf(ds, i) <= i
    decreases i
  {
    if i < |ds| && ds[i].parent.Some? && ds[i].parent.value < i {
      RootIsBelow(ds, ds[i].parent.value);
    }
  }

  lemma {:induction false} RootStepShares(cfg: Config, ds: seq<Delegation>)
    requires SharesBounded(cfg, ds)
    ensures SharesBounded(cfg, ds + [NewDelegation(cfg, 1, None)])
  {
    var d := NewDelegation(cfg, 1, None);
    forall r: nat ensures Share(ds + [d], r, Burden(cfg)) <= Total(cfg, PER_EXECUTION, 1) {
      ShareAppend(ds, d, r, Burden(cfg));
      NewBurden(cfg, 1, None);
      if r == |ds| {
        NoShareYet(ds, r, Burden(cfg));
      }
    }
  }

  /** A delegation that pays for its child out of its own weight does not add to any root's share. */
  lemma {:induction false} SharePays(
    ds: seq<Delegation>, i: nat, d: Delegation, child: seq<Delegation>, r: nat, weight: Delegation -> nat)
    requires i < |ds| && d.parent == ds[i].parent && |child| <= 1
    requires child != [] ==> child[0].parent == Some(i)
    requires weight(d) + (if child == [] then 0 else weight(child[0])) <= weight(ds[i])
    ensures Share(ds[i := d] + child, r, weight) <= Share(ds, r, weight)
  {
    var updated := ds[i := d];
    ShareUpdate(ds, i, d, r, weight);
    if child == [] {
      assert updated + child == updated;
    } else {
      assert child == [child[0]];
      ShareAppend(updated, child[0], r, weight);
      RootIgnoresRest(updated + child, ds, i);
    }
  }

  lemma {:induction false} OtherStepShares(cfg: Config, s: State, step: Step, r: nat)
    requires Enabled(cfg, s, step) && !step.StartRoot? && Sound(cfg, s.ds[step.i])
    ensures Share(Next(cfg, s, step).ds, r, Burden(cfg)) <= Share(s.ds, r, Burden(cfg))
  {
    StepBurden(cfg, s, step);
    StepLeaves(cfg, s, step);
    NewBurden(cfg, s.ds[step.i].depth + 1, Some(step.i));
    SharePays(s.ds, step.i, Next(cfg, s, step).ds[step.i], Child(cfg, s, step), r, Burden(cfg));
  }

  lemma {:induction false} RunSharesBounded(cfg: Config, steps: seq<Step>)
    requires Legal(cfg, steps)
    ensures SharesBounded(cfg, After(cfg, steps).ds)
  {
    if steps != [] {
      var n := |steps| - 1;
      var s := After(cfg, steps[..n]);
      RunSharesBounded(cfg, steps[..n]);
      RunKeepsInvariant(cfg, steps[..n]);
      if steps[n].StartRoot? {
        RootStepShares(cfg, s.ds);
      } else {
        forall r: nat ensures Share(After(cfg, steps).ds, r, Burden(cfg)) <= Total(cfg, PER_EXECUTION, 1) {
          OtherStepShares(cfg, s, steps[n], r);
        }
      }
    }
  }

  lemma {:induction false} ShareGrows(ds: seq<Delegation>, r: nat, light: Delegation -> nat, heavy: Delegation -> nat)
    requires forall d :: light(d) <= heavy(d)
    ensures Share(ds, r, light) <= Share(ds, r, heavy)
  {
    if ds != [] {
      ShareGrows(ds[..|ds| - 1], r, light, heavy);
    }
  }

  lemma {:induction false} ExecutionsAreAttempts(cfg: Config, steps: seq<Step>)
    requires Legal(cfg, steps)
    ensures Sum(After(cfg, steps).ds, RunsOf) == After(cfg, steps).executions
  {
    if steps != [] {
      var n := |steps| - 1;
      var s, step := After(cfg, steps[..n]), steps[n];
      ExecutionsAreAttempts(cfg, steps[..n]);
      StepCountsAttempts(cfg, s, step);
    }
  }

  lemma {:induction false} StepCountsAttempts(cfg: Config, s: State, step: Step)
    requires Enabled(cfg, s, step) && Sum(s.ds, RunsOf) == s.executions
    ensures Sum(Next(cfg, s, step).ds, RunsOf) == Next(cfg, s, step).executions
  {
    SumStep(cfg, s, step, RunsOf);
  }

  /**
   Through every retry, degrade and nesting, and whatever other roots do at the same time, the delegations under one
   root make at most the closed bound of attempts; each execution is an attempt of one of them.
   */
  lemma {:induction false} RootIsBounded(cfg: Config, steps: seq<Step>, r: nat)
    requires Legal(cfg, steps)
    ensures Share(After(cfg, steps).ds, r, RunsOf) <= Executions(cfg, 1)
    ensures Sum(After(cfg, steps).ds, RunsOf) == After(cfg, steps).executions
  {
    RunSharesBounded(cfg, steps);
    ShareGrows(After(cfg, steps).ds, r, RunsOf, Burden(cfg));
    ExecutionsAreAttempts(cfg, steps);
    TotalIsExecutions(cfg, 1);
  }

  /** Every run ends: with `r` roots no run, however its steps interleave, is longer than this. */
  lemma {:induction false} RunsEnd(cfg: Config, steps: seq<Step>)
    requires Legal(cfg, steps)
    ensures |steps| <= After(cfg, steps).roots * (1 + Total(cfg, PER_STEP, 1))
  {
    RunIsPaidFor(cfg, PER_STEP, steps);
    PaidCounts(cfg, steps);
    OneMore(After(cfg, steps).roots, Total(cfg, PER_STEP, 1));
  }
}
