/** When the delegation engine can get stuck: every permit held by an agent that waits for a child that waits for a permit. */
module DelegationProgress {
  import opened Prelude
  import opened Delegations

  /** A delegation that does not wait: it can take a step that depends on nothing but itself and the free permits. */
  predicate CanStep(s: State, i: nat)
    requires i < |s.ds|
  {
    match s.ds[i].phase
    case Ready => true
    case Queued => s.free > 0
    case Running(_) => !HasLiveChild(s, i)
    case Failed => true
    case Granted => true
    case Asked => true
    case Finished(_) => false
  }

  ghost predicate AnyLive(s: State) {
    exists i | 0 <= i < |s.ds| :: Live(s.ds[i])
  }

  /** Work is left and every delegation waits. */
  ghost predicate Stuck(s: State) {
    AnyLive(s) && forall i | 0 <= i < |s.ds| :: !CanStep(s, i)
  }

  /** The step a delegation that can step takes. */
  lemma {:induction false} CanStepIsEnabled(cfg: Config, s: State, i: nat) returns (step: Step)
    requires i < |s.ds| && CanStep(s, i)
    ensures Enabled(cfg, s, step) && !step.StartRoot? && step.i == i
  {
    match s.ds[i].phase
    case Ready => step := Enqueue(i);
    case Queued => step := Acquire(i);
    case Running(_) => step := Succeed(i);
    case Failed => step := Decide(i);
    case Granted => step := Ask(i);
    case Asked => step := Judge(i, None);
  }

  function HoldsBelow(depth: nat): Delegation -> nat {
    (d: Delegation) => if d.phase.Running? && d.depth < depth then 1 else 0
  }

  /** With a free permit, following live children downwards from any live delegation finds one that can step. */
  lemma {:induction false} FollowChildren(cfg: Config, s: State, i: nat) returns (k: nat)
    requires Invariant(cfg, s) && s.free > 0 && i < |s.ds| && Live(s.ds[i])
    ensures k < |s.ds| && CanStep(s, k)
    decreases cfg.MaxDepth() + 1 - s.ds[i].depth
  {
    assert Sound(cfg, s.ds[i]);
    if s.ds[i].phase.Running? && HasLiveChild(s, i) {
      var j :| 0 <= j < |s.ds| && IsChild(s.ds[j], i);
      assert ParentHolds(s.ds, j) && Sound(cfg, s.ds[j]);
      k := FollowChildren(cfg, s, j);
    } else {
      k := i;
    }
  }

  lemma {:induction false} HolderAtBottom(ds: seq<Delegation>, depth: nat) returns (i: nat)
    requires Sum(ds, HoldsBelow(depth)) < Sum(ds, HoldsPermit)
    ensures i < |ds| && ds[i].phase.Running? && ds[i].depth >= depth
  {
    var n := |ds| - 1;
    if ds[n].phase.Running? && ds[n].depth >= depth {
      i := n;
    } else {
      i := HolderAtBottom(ds[..n], depth);
    }
  }

  /**
   Whenever work is left and fewer than all permits are held above the depth limit, some delegation can step: one at
   the limit has no children to wait for.
   */
  lemma {:induction false} Progress(cfg: Config, s: State)
    requires Invariant(cfg, s) && AnyLive(s) && Sum(s.ds, HoldsBelow(cfg.MaxDepth())) < cfg.Permits()
    ensures !Stuck(s)
  {
    if s.free > 0 {
      var i :| 0 <= i < |s.ds| && Live(s.ds[i]);
      var k := FollowChildren(cfg, s, i);
    } else {
      var i := HolderAtBottom(s.ds, cfg.MaxDepth());
      forall j | 0 <= j < |s.ds| ensures !IsChild(s.ds[j], i) {
        assert ParentHolds(s.ds, j) && Sound(cfg, s.ds[j]);
      }
      assert CanStep(s, i);
    }
  }

  // ----- Chains -----

  /** A run in which a delegation starts only when it has nobody at its level: one root, and one child at a time. */
  ghost predicate ChainRun(cfg: Config, steps: seq<Step>)
    decreases |steps|
  {
    Legal(cfg, steps) &&
    (steps == [] ||
     var n := |steps| - 1;
     var s := After(cfg, steps[..n]);
     && ChainRun(cfg, steps[..n])
     && (steps[n].StartRoot? ==> !AnyLive(s))
     && (steps[n].CallChild? ==> !HasLiveChild(s, steps[n].i)))
  }

  /** Live delegations have different depths. */
  ghost predicate OnePerDepth(ds: seq<Delegation>) {
    forall i, j | 0 <= i < j < |ds| && Live(ds[i]) && Live(ds[j]) :: ds[i].depth != ds[j].depth
  }

  lemma {:induction false} ChainStep(cfg: Config, s: State, step: Step)
    requires Invariant(cfg, s) && OnePerDepth(s.ds) && Enabled(cfg, s, step)
    requires step.StartRoot? ==> !AnyLive(s)
    requires step.CallChild? ==> !HasLiveChild(s, step.i)
    ensures OnePerDepth(Next(cfg, s, step).ds)
  {
    var s' := Next(cfg, s, step);
    if step.CallChild? {
      forall j | 0 <= j < |s.ds| && Live(s.ds[j]) ensures s.ds[j].depth != s.ds[step.i].depth + 1 {
        assert ParentHolds(s.ds, j) && !IsChild(s.ds[j], step.i) && Sound(cfg, s.ds[step.i]);
      }
    }
  }

  lemma {:induction false} ChainRunIsChain(cfg: Config, steps: seq<Step>)
    requires ChainRun(cfg, steps)
    ensures OnePerDepth(After(cfg, steps).ds)
    decreases |steps|
  {
    if steps != [] {
      var n := |steps| - 1;
      ChainRunIsChain(cfg, steps[..n]);
      RunKeepsInvariant(cfg, steps[..n]);
      ChainStep(cfg, After(cfg, steps[..n]), steps[n]);
    }
  }

  function HoldsAt(depth: nat): Delegation -> nat {
    (d: Delegation) => if d.phase.Running? && d.depth == depth then 1 else 0
  }

  lemma {:induction false} BelowSplits(ds: seq<Delegation>, depth: nat)
    ensures Sum(ds, HoldsBelow(depth + 1)) == Sum(ds, HoldsBelow(depth)) + Sum(ds, HoldsAt(depth))
  {
    if ds != [] {
      BelowSplits(ds[..|ds| - 1], depth);
    }
  }

  lemma {:induction false} NoneAt(ds: seq<Delegation>, depth: nat)
    requires forall i | 0 <= i < |ds| && Live(ds[i]) :: ds[i].depth != depth
    ensures Sum(ds, HoldsAt(depth)) == 0
  {
    if ds != [] {
      NoneAt(ds[..|ds| - 1], depth);
    }
  }

  lemma {:induction false} AtMostOneAt(ds: seq<Delegation>, depth: nat)
    requires OnePerDepth(ds)
    ensures Sum(ds, HoldsAt(depth)) <= 1
  {
    if ds != [] {
      var n := |ds| - 1;
      if Live(ds[n]) && ds[n].depth == depth {
        NoneAt(ds[..n], depth);
      } else {
        AtMostOneAt(ds[..n], depth);
      }
    }
  }

  lemma {:induction false} ChainHoldsFew(cfg: Config, s: State, depth: nat)
    requires OnePerDepth(s.ds) && depth >= 1 && forall j | 0 <= j < |s.ds| :: Sound(cfg, s.ds[j])
    ensures Sum(s.ds, HoldsBelow(depth)) <= depth - 1
  {
    if depth == 1 {
      NobodyBelowOne(cfg, s.ds);
    } else {
      ChainHoldsFew(cfg, s, depth - 1);
      BelowSplits(s.ds, depth - 1);
      AtMostOneAt(s.ds, depth - 1);
    }
  }

  lemma {:induction false} NobodyBelowOne(cfg: Config, ds: seq<Delegation>)
    requires forall j | 0 <= j < |ds| :: Sound(cfg, ds[j])
    ensures Sum(ds, HoldsBelow(1)) == 0
  {
    if ds != [] {
      assert Sound(cfg, ds[|ds| - 1]);
      NobodyBelowOne(cfg, ds[..|ds| - 1]);
    }
  }

  // ----- How to get stuck -----

  function TowerAgent(cfg: Config, j: nat, attempts: nat, phase: Phase): Delegation {
    Delegation(j + 1, if j == 0 then None else Some(j - 1), cfg.Attempts(), attempts, phase)
  }

  /** The first `n` delegations: a running agent at every depth from 1 to `n`, each but the last having called the next. */
  ghost predicate Tower(cfg: Config, ds: seq<Delegation>, n: nat)
    requires n <= |ds|
  {
    forall j | 0 <= j < n :: ds[j] == TowerAgent(cfg, j, 1, Running(if j == |ds| - 1 then 0 else 1))
  }

  /** A tower of `n`, with nobody else. */
  ghost predicate IsTower(cfg: Config, s: State, n: nat) {
    |s.ds| == n && s.free == cfg.Permits() - n && Tower(cfg, s.ds, n)
  }

  /** A tower of `n`, and one agent in `phase` below it. */
  ghost predicate HasTop(cfg: Config, s: State, n: nat, phase: Phase) {
    |s.ds| == n + 1 && s.free == cfg.Permits() - n && Tower(cfg, s.ds, n) && s.ds[n] == TowerAgent(cfg, n, 0, phase)
  }

  lemma {:induction false} LegalSnoc(cfg: Config, steps: seq<Step>, step: Step)
    requires ChainRun(cfg, steps) && Enabled(cfg, After(cfg, steps), step)
    requires step.StartRoot? ==> !AnyLive(After(cfg, steps))
    requires step.CallChild? ==> !HasLiveChild(After(cfg, steps), step.i)
    ensures ChainRun(cfg, steps + [step]) && After(cfg, steps + [step]) == Next(cfg, After(cfg, steps), step)
  {
    var more := steps + [step];
    var n := |more| - 1;
    assert more[..n] == steps && more[n] == step;
    assert Legal(cfg, more[..n]) && Enabled(cfg, After(cfg, more[..n]), more[n]);
    assert Legal(cfg, more);
  }

  lemma {:induction false} TowerCalls(cfg: Config, s: State, n: nat)
    requires IsTower(cfg, s, n) && 0 < n < cfg.MaxDepth() && cfg.maxCalls >= 1
    ensures Enabled(cfg, s, CallChild(n - 1)) && !HasLiveChild(s, n - 1)
    ensures HasTop(cfg, Next(cfg, s, CallChild(n - 1)), n, Ready)
  {
    assert s.ds[n - 1] == TowerAgent(cfg, n - 1, 1, Running(0));
  }

  lemma {:induction false} CallUnder(cfg: Config, steps: seq<Step>, n: nat) returns (steps': seq<Step>)
    requires ChainRun(cfg, steps) && IsTower(cfg, After(cfg, steps), n) && n < cfg.MaxDepth() && cfg.maxCalls >= 1
    ensures ChainRun(cfg, steps') && HasTop(cfg, After(cfg, steps'), n, Ready)
  {
    if n == 0 {
      LegalSnoc(cfg, steps, StartRoot);
      steps' := steps + [StartRoot];
    } else {
      TowerCalls(cfg, After(cfg, steps), n);
      LegalSnoc(cfg, steps, CallChild(n - 1));
      steps' := steps + [CallChild(n - 1)];
    }
  }

  /** From a tower of `n`, one more agent queues for a permit under it. */
  lemma {:induction false} QueueUnder(cfg: Config, steps: seq<Step>, n: nat) returns (steps': seq<Step>)
    requires ChainRun(cfg, steps) && IsTower(cfg, After(cfg, steps), n) && n < cfg.MaxDepth() && cfg.maxCalls >= 1
    ensures ChainRun(cfg, steps') && HasTop(cfg, After(cfg, steps'), n, Queued)
  {
    steps' := CallUnder(cfg, steps, n);
    LegalSnoc(cfg, steps', Enqueue(n));
    steps' := steps' + [Enqueue(n)];
  }

  lemma {:induction false} AcquireUnder(cfg: Config, steps: seq<Step>, n: nat) returns (steps': seq<Step>)
    requires ChainRun(cfg, steps) && HasTop(cfg, After(cfg, steps), n, Queued) && n < cfg.Permits()
    ensures ChainRun(cfg, steps') && IsTower(cfg, After(cfg, steps'), n + 1)
  {
    LegalSnoc(cfg, steps, Acquire(n));
    steps' := steps + [Acquire(n)];
  }

  lemma {:induction false} BuildTower(cfg: Config, n: nat) returns (steps: seq<Step>)
    requires n <= cfg.MaxDepth() && n <= cfg.Permits() && cfg.maxCalls >= 1
    ensures ChainRun(cfg, steps) && IsTower(cfg, After(cfg, steps), n)
  {
    steps := [];
    if n > 0 {
      steps := BuildTower(cfg, n - 1);
      steps := QueueUnder(cfg, steps, n - 1);
      steps := AcquireUnder(cfg, steps, n - 1);
    }
  }

  lemma {:induction false} TowerIsStuck(cfg: Config, s: State, n: nat)
    requires n >= 1 && n == cfg.Permits() && HasTop(cfg, s, n, Queued)
    ensures Stuck(s)
  {
    assert Live(s.ds[n]) && s.free == 0;
    forall i | 0 <= i < |s.ds| ensures !CanStep(s, i) {
      if i < n {
        assert IsChild(s.ds[i + 1], i);
      }
    }
  }

  lemma {:induction false} ChainGetsStuck(cfg: Config) returns (steps: seq<Step>)
    requires cfg.maxCalls >= 1 && cfg.Permits() < cfg.MaxDepth()
    ensures ChainRun(cfg, steps) && Stuck(After(cfg, steps))
  {
    steps := BuildTower(cfg, cfg.Permits());
    steps := QueueUnder(cfg, steps, cfg.Permits());
    TowerIsStuck(cfg, After(cfg, steps), cfg.Permits());
  }

  lemma {:induction false} ChainKeepsGoing(cfg: Config, steps: seq<Step>)
    requires ChainRun(cfg, steps) && cfg.Permits() >= cfg.MaxDepth()
    ensures !Stuck(After(cfg, steps))
  {
    var s := After(cfg, steps);
    RunKeepsInvariant(cfg, steps);
    ChainRunIsChain(cfg, steps);
    ChainHoldsFew(cfg, s, cfg.MaxDepth());
    if AnyLive(s) {
      Progress(cfg, s);
    }
  }

  ghost predicate ChainCanGetStuck(cfg: Config) {
    exists steps :: ChainRun(cfg, steps) && Stuck(After(cfg, steps))
  }

  /**
   One chain of delegations, each with one child at a time, can get stuck exactly when the depth limit exceeds the
   number of permits.
   */
  lemma {:induction false} ChainStuckIff(cfg: Config)
    requires cfg.maxCalls >= 1
    ensures ChainCanGetStuck(cfg) <==> cfg.Permits() < cfg.MaxDepth()
  {
    if cfg.Permits() < cfg.MaxDepth() {
      var steps := ChainGetsStuck(cfg);
      assert ChainRun(cfg, steps) && Stuck(After(cfg, steps));
    } else {
      forall steps | ChainRun(cfg, steps) ensures !Stuck(After(cfg, steps)) {
        ChainKeepsGoing(cfg, steps);
      }
    }
  }

  // ----- Several roots -----

  /** `n` running roots, the first `k` of them each waiting for a child that waits for a permit. */
  ghost predicate Crowd(cfg: Config, s: State, n: nat, k: nat) {
    && |s.ds| == n + k && k <= n && s.free == cfg.Permits() - n
    && (forall j | 0 <= j < n :: s.ds[j] == Delegation(1, None, cfg.Attempts(), 1, Running(if j < k then 1 else 0)))
    && (forall j | n <= j < n + k :: s.ds[j] == Delegation(2, Some(j - n), cfg.Attempts(), 0, Queued))
  }

  lemma {:induction false} RunSnoc(cfg: Config, steps: seq<Step>, step: Step)
    requires Legal(cfg, steps) && Enabled(cfg, After(cfg, steps), step)
    ensures Legal(cfg, steps + [step]) && After(cfg, steps + [step]) == Next(cfg, After(cfg, steps), step)
  {
    var more := steps + [step];
    var n := |more| - 1;
    assert more[..n] == steps && more[n] == step;
    assert Legal(cfg, more[..n]) && Enabled(cfg, After(cfg, more[..n]), more[n]);
    assert Legal(cfg, more);
  }

  lemma {:induction false} UpdateLast<T>(s: seq<T>, x: T, y: T)
    ensures (s + [x])[|s|] == x && (s + [x])[|s| := y] == s + [y]
  {
  }

  /** A new root comes to hold a permit without touching anyone else. */
  lemma {:induction false} RunRoot(cfg: Config, steps: seq<Step>) returns (steps': seq<Step>)
    requires Legal(cfg, steps) && After(cfg, steps).free > 0
    ensures Legal(cfg, steps')
    ensures After(cfg, steps').ds == After(cfg, steps).ds + [Delegation(1, None, cfg.Attempts(), 1, Running(0))]
    ensures After(cfg, steps').free == After(cfg, steps).free - 1
  {
    var ds := After(cfg, steps).ds;
    var ready := NewDelegation(cfg, 1, None);
    UpdateLast(ds, ready, ready.(phase := Queued));
    UpdateLast(ds, ready.(phase := Queued), ready.(phase := Running(0), attempts := 1));
    RunSnoc(cfg, steps, StartRoot);
    steps' := steps + [StartRoot];
    RunSnoc(cfg, steps', Enqueue(|ds|));
    steps' := steps' + [Enqueue(|ds|)];
    RunSnoc(cfg, steps', Acquire(|ds|));
    steps' := steps' + [Acquire(|ds|)];
  }

  lemma {:induction false} AddChild(cfg: Config, steps: seq<Step>, n: nat, k: nat) returns (steps': seq<Step>)
    requires Legal(cfg, steps) && Crowd(cfg, After(cfg, steps), n, k) && k < n && cfg.MaxDepth() >= 2 && cfg.maxCalls >= 1
    ensures Legal(cfg, steps') && Crowd(cfg, After(cfg, steps'), n, k + 1)
  {
    RunSnoc(cfg, steps, CallChild(k));
    RunSnoc(cfg, steps + [CallChild(k)], Enqueue(n + k));
    steps' := steps + [CallChild(k)] + [Enqueue(n + k)];
  }

  lemma {:induction false} BuildCrowd(cfg: Config, n: nat, k: nat) returns (steps: seq<Step>)
    requires k <= n <= cfg.Permits() && (k > 0 ==> cfg.MaxDepth() >= 2 && cfg.maxCalls >= 1)
    ensures Legal(cfg, steps) && Crowd(cfg, After(cfg, steps), n, k)
    decreases n + k
  {
    steps := [];
    if k > 0 {
      steps := BuildCrowd(cfg, n, k - 1);
      steps := AddChild(cfg, steps, n, k - 1);
    } else if n > 0 {
      steps := BuildCrowd(cfg, n - 1, 0);
      steps := RunRoot(cfg, steps);
    }
  }

  lemma {:induction false} CrowdIsStuck(cfg: Config, s: State)
    requires Crowd(cfg, s, cfg.Permits(), cfg.Permits())
    ensures Stuck(s)
  {
    var n := cfg.Permits();
    assert Live(s.ds[0]) && s.free == 0;
    forall i | 0 <= i < |s.ds| ensures !CanStep(s, i) {
      if i < n {
        assert IsChild(s.ds[n + i], i);
      }
    }
  }

  lemma {:induction false} FlatKeepsGoing(cfg: Config, steps: seq<Step>)
    requires Legal(cfg, steps) && cfg.MaxDepth() == 1
    ensures !Stuck(After(cfg, steps))
  {
    var s := After(cfg, steps);
    RunKeepsInvariant(cfg, steps);
    NobodyBelowOne(cfg, s.ds);
    if AnyLive(s) {
      Progress(cfg, s);
    }
  }

  ghost predicate EngineCanGetStuck(cfg: Config) {
    exists steps :: Legal(cfg, steps) && Stuck(After(cfg, steps))
  }

  /**
   With any number of roots the engine can get stuck exactly when delegations may nest at all, however many permits
   there are: as many roots as permits, each waiting for a child.
   */
  lemma {:induction false} EngineStuckIff(cfg: Config)
    requires cfg.maxCalls >= 1
    ensures EngineCanGetStuck(cfg) <==> cfg.MaxDepth() >= 2
  {
    if cfg.MaxDepth() >= 2 {
      var steps := BuildCrowd(cfg, cfg.Permits(), cfg.Permits());
      CrowdIsStuck(cfg, After(cfg, steps));
      assert Legal(cfg, steps) && Stuck(After(cfg, steps));
    } else {
      forall steps | Legal(cfg, steps) ensures !Stuck(After(cfg, steps)) {
        FlatKeepsGoing(cfg, steps);
      }
    }
  }
}
