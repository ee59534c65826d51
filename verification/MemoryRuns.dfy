/** Whole runs of adds, shrinks and slides between two compactions: what the side tables keep, and when they do not. */
module MemoryRuns {
  import opened Prelude
  import opened Utf8
  import opened History
  import opened Memories
  import opened MemoryLaws

  datatype Op = Add(m: Message) | ShrinkOp(policy: Policy) | SlideOp

  function Apply(t: Tables, op: Op): Tables {
    match op
    case Add(m) => t.(messages := t.messages + [m])
    case ShrinkOp(policy) => Shrink(t, policy)
    case SlideOp => Slide(t)
  }

  function Replay(ops: seq<Op>): Tables {
    if ops == [] then Tables([], map[], {}) else Apply(Replay(ops[..|ops| - 1]), ops[|ops| - 1])
  }

  /** The contents, with that of `m` when it is the first result of its id. */
  function WithResult(originals: map<Id, Bytes>, m: Message): map<Id, Bytes> {
    if IsResult(m) && m.toolCallId.value !in originals then originals[m.toolCallId.value := m.content] else originals
  }

  /** The content each tool result had when it was first added. */
  function Originals(ops: seq<Op>): map<Id, Bytes> {
    if ops == [] then map[]
    else
      var before, op := Originals(ops[..|ops| - 1]), ops[|ops| - 1];
      if op.Add? then WithResult(before, op.m) else before
  }

  /** No two results answer the same call. Messages of any kind arrive one at a time, in any order. */
  ghost predicate Legal(ops: seq<Op>) {
    ops == [] ||
    var before, op := ops[..|ops| - 1], ops[|ops| - 1];
    && Legal(before)
    && (op.Add? && IsResult(op.m) ==> op.m.toolCallId.value !in Originals(before))
  }

  // ----- Pairs of messages -----

  ghost predicate Pairwise(ms: seq<Message>, rel: (Message, Message) -> bool) {
    forall i, j | 0 <= i < j < |ms| :: rel(ms[i], ms[j])
  }

  ghost predicate Across(a: seq<Message>, b: seq<Message>, rel: (Message, Message) -> bool) {
    forall x, y | x in a && y in b :: rel(x, y)
  }

  predicate AnswersDiffer(x: Message, y: Message) {
    IsResult(x) && IsResult(y) ==> x.toolCallId != y.toolCallId
  }

  predicate CallsDiffer(x: Message, y: Message) {
    forall k | 0 <= k < |CallIds(x)| :: CallIds(x)[k] !in CallIds(y)
  }

  function AnswersApart(): (Message, Message) -> bool {
    (x: Message, y: Message) => AnswersDiffer(x, y)
  }

  function CallsApart(): (Message, Message) -> bool {
    (x: Message, y: Message) => CallsDiffer(x, y)
  }

  lemma {:induction false} PairwiseConcat(a: seq<Message>, b: seq<Message>, rel: (Message, Message) -> bool)
    ensures Pairwise(a + b, rel) <==> Pairwise(a, rel) && Pairwise(b, rel) && Across(a, b, rel)
  {
    var ms := a + b;
    assert forall i | 0 <= i < |a| :: ms[i] == a[i];
    assert forall i | 0 <= i < |b| :: ms[|a| + i] == b[i];
    if Pairwise(ms, rel) {
      forall x, y | x in a && y in b ensures rel(x, y) {
        var i :| 0 <= i < |a| && a[i] == x;
        var j :| 0 <= j < |b| && b[j] == y;
        assert ms[i] == x && ms[|a| + j] == y;
      }
    }
  }

  lemma {:induction false} RetainedIn(ms: seq<Message>, called: set<Id>, m: Message)
    ensures m in Retained(ms, called) <==> m in ms && (IsResult(m) ==> m.toolCallId.value in called)
  {
    if ms != [] {
      RetainedIn(ms[1..], called, m);
      assert ms == [ms[0]] + ms[1..];
    }
  }

  lemma {:induction false} PairwiseRetained(ms: seq<Message>, called: set<Id>, rel: (Message, Message) -> bool)
    requires Pairwise(ms, rel)
    ensures Pairwise(Retained(ms, called), rel)
  {
    if ms != [] {
      var rest := Retained(ms[1..], called);
      assert ms == [ms[0]] + ms[1..];
      PairwiseConcat([ms[0]], ms[1..], rel);
      PairwiseRetained(ms[1..], called, rel);
      forall y | y in rest ensures y in ms[1..] {
        RetainedIn(ms[1..], called, y);
      }
      PairwiseConcat([ms[0]], rest, rel);
    }
  }

  // ----- The parts of a slide -----

  function Rest(t: Tables): seq<Message> {
    AfterSystem(t.messages)
  }

  function Window(t: Tables): seq<Message> {
    Kept(Rest(t), false)
  }

  /** The ids a slide takes out of the tables. */
  function Gone(t: Tables): set<Id> {
    set id | id in DroppedIds(Dropped(Rest(t), false))
  }

  lemma {:induction false} SlideIs(t: Tables)
    ensures t.messages == SystemBlock(t.messages) + Dropped(Rest(t), false) + Window(t)
    ensures Slide(t) == Tables(SystemBlock(t.messages) + Retained(Window(t), CalledIds(Window(t))), t.full - Gone(t), t.shrunk - Gone(t))
    ensures forall m | m in SystemBlock(t.messages) :: !IsResult(m)
  {
    SystemParts(t.messages);
    SlideParts(Rest(t), false);
    Assoc(SystemBlock(t.messages), Dropped(Rest(t), false), Window(t));
  }

  lemma {:induction false} PairwiseSlide(t: Tables, rel: (Message, Message) -> bool)
    requires Pairwise(t.messages, rel)
    ensures Pairwise(Slide(t).messages, rel)
  {
    var block, dropped, window := SystemBlock(t.messages), Dropped(Rest(t), false), Window(t);
    var retained := Retained(window, CalledIds(window));
    SlideIs(t);
    PairwiseConcat(block + dropped, window, rel);
    PairwiseConcat(block, dropped, rel);
    PairwiseRetained(window, CalledIds(window), rel);
    forall x, y | x in block && y in retained ensures rel(x, y) {
      RetainedIn(window, CalledIds(window), y);
      assert x in block + dropped;
    }
    PairwiseConcat(block, retained, rel);
  }

  // ----- The tables alone, whatever the slides do -----

  /** Marks and stored keys agree and belong to results that were added, and every result in the queue answers its own call. */
  ghost predicate Tracked(t: Tables, originals: map<Id, Bytes>) {
    && t.full.Keys == t.shrunk <= originals.Keys
    && (forall m | m in t.messages && IsResult(m) :: m.toolCallId.value in originals)
    && Pairwise(t.messages, AnswersApart())
  }

  lemma {:induction false} AddTracked(t: Tables, originals: map<Id, Bytes>, m: Message)
    requires Tracked(t, originals) && (IsResult(m) ==> m.toolCallId.value !in originals)
    ensures Tracked(Apply(t, Add(m)), WithResult(originals, m))
  {
    PairwiseConcat(t.messages, [m], AnswersApart());
  }

  lemma {:induction false} SlideTracked(t: Tables, originals: map<Id, Bytes>)
    requires Tracked(t, originals)
    ensures Tracked(Slide(t), originals)
  {
    PairwiseSlide(t, AnswersApart());
    SlideIs(t);
    forall m | m in Slide(t).messages && IsResult(m) ensures m in t.messages {
      RetainedIn(Window(t), CalledIds(Window(t)), m);
    }
  }

  lemma {:induction false} FrameKeepsAnswers(a: seq<Message>, b: seq<Message>)
    requires SameFrame(a, b)
    ensures forall id :: AnsweredIn(a, id) <==> AnsweredIn(b, id)
  {
    forall id ensures AnsweredIn(a, id) <==> AnsweredIn(b, id) {
      if AnsweredIn(a, id) {
        var i :| 0 <= i < |a| && IsResult(a[i]) && a[i].toolCallId.value == id;
        assert IsResult(b[i]) && b[i].toolCallId.value == id;
      }
      if AnsweredIn(b, id) {
        var i :| 0 <= i < |b| && IsResult(b[i]) && b[i].toolCallId.value == id;
        assert IsResult(a[i]) && a[i].toolCallId.value == id;
      }
    }
  }

  /** A relation that does not look at texts. */
  ghost predicate IgnoresTexts(rel: (Message, Message) -> bool) {
    forall x: Message, y: Message, c: Bytes, d: Bytes :: rel(x.(content := c), y.(content := d)) == rel(x, y)
  }

  lemma {:induction false} FrameKeepsPairs(a: seq<Message>, b: seq<Message>, rel: (Message, Message) -> bool)
    requires SameFrame(a, b) && Pairwise(a, rel) && IgnoresTexts(rel)
    ensures Pairwise(b, rel)
  {
    forall i, j | 0 <= i < j < |b| ensures rel(b[i], b[j]) {
      assert rel(a[i].(content := b[i].content), a[j].(content := b[j].content)) == rel(a[i], a[j]);
    }
  }

  lemma {:induction false} TheseIgnoreTexts()
    ensures IgnoresTexts(AnswersApart()) && IgnoresTexts(CallsApart())
  {
    forall x: Message, y: Message, c: Bytes, d: Bytes
      ensures CallsDiffer(x.(content := c), y.(content := d)) == CallsDiffer(x, y)
    {
      assert CallIds(x.(content := c)) == CallIds(x) && CallIds(y.(content := d)) == CallIds(y);
    }
  }

  lemma {:induction false} ShrinkAtFrame(t: Tables, i: nat, policy: Policy)
    requires i < |t.messages|
    ensures SameFrame(t.messages, ShrinkAt(t, i, policy).messages)
  {
  }

  lemma {:induction false} FrameTwice(a: seq<Message>, b: seq<Message>, c: seq<Message>)
    requires SameFrame(a, b) && SameFrame(b, c)
    ensures SameFrame(a, c)
  {
  }

  /** Shrinking changes texts only. */
  lemma {:induction false} ShrinkFrame(t: Tables, n: nat, policy: Policy)
    requires n <= |t.messages|
    ensures SameFrame(t.messages, ShrinkDown(t, n, policy).messages)
    decreases n
  {
    if n > 0 {
      var t' := ShrinkAt(t, n - 1, policy);
      ShrinkAtFrame(t, n - 1, policy);
      ShrinkFrame(t', n - 1, policy);
      FrameTwice(t.messages, t'.messages, ShrinkDown(t', n - 1, policy).messages);
    }
  }

  lemma {:induction false} ShrinkAtTracked(t: Tables, originals: map<Id, Bytes>, i: nat, policy: Policy)
    requires i < |t.messages| && Tracked(t, originals)
    ensures Tracked(ShrinkAt(t, i, policy), originals) && StaleIn(ShrinkAt(t, i, policy)) == StaleIn(t)
  {
    var t' := ShrinkAt(t, i, policy);
    ShrinkAtFrame(t, i, policy);
    TheseIgnoreTexts();
    FrameKeepsPairs(t.messages, t'.messages, AnswersApart());
    FrameKeepsAnswers(t.messages, t'.messages);
    forall m | m in t'.messages && IsResult(m) ensures m.toolCallId.value in originals {
      var j :| 0 <= j < |t'.messages| && t'.messages[j] == m;
      assert IsResult(t.messages[j]) && t.messages[j].toolCallId == m.toolCallId;
    }
    if Oversized(t.messages[i], t.shrunk, policy) {
      assert AnsweredIn(t.messages, t.messages[i].toolCallId.value);
    }
  }

  lemma {:induction false} ShrinkTracked(t: Tables, originals: map<Id, Bytes>, n: nat, policy: Policy)
    requires n <= |t.messages| && Tracked(t, originals)
    ensures Tracked(ShrinkDown(t, n, policy), originals) && StaleIn(ShrinkDown(t, n, policy)) == StaleIn(t)
    decreases n
  {
    if n > 0 {
      ShrinkAtTracked(t, originals, n - 1, policy);
      ShrinkTracked(ShrinkAt(t, n - 1, policy), originals, n - 1, policy);
    }
  }

  /** Over every run marks and stored keys agree, and only belong to results that were added. */
  lemma {:induction false} RunsAreTracked(ops: seq<Op>)
    requires Legal(ops)
    ensures Tracked(Replay(ops), Originals(ops))
  {
    if ops != [] {
      var before, op := ops[..|ops| - 1], ops[|ops| - 1];
      RunsAreTracked(before);
      match op
      case Add(m) => AddTracked(Replay(before), Originals(before), m);
      case ShrinkOp(policy) => ShrinkTracked(Replay(before), Originals(before), |Replay(before).messages|, policy);
      case SlideOp => SlideTracked(Replay(before), Originals(before));
    }
  }

  // ----- Stale entries -----

  /** The marked ids that no result in the queue bears. */
  ghost function StaleIn(t: Tables): set<Id> {
    set id | id in t.shrunk && !AnsweredIn(t.messages, id)
  }

  /** The marked ids of the results that a slide's retain pass removes. */
  function Orphaned(t: Tables): set<Id> {
    set m | m in Window(t) && IsResult(m) && m.toolCallId.value in t.shrunk && m.toolCallId.value !in CalledIds(Window(t))
        :: m.toolCallId.value
  }

  lemma {:induction false} InDropped(ms: seq<Message>, id: Id)
    requires AnsweredIn(ms, id)
    ensures id in DroppedIds(ms)
  {
    DroppedIdsAre(ms, id);
    var i :| 0 <= i < |ms| && IsResult(ms[i]) && ms[i].toolCallId.value == id;
    assert id in IdsOf(ms[i]);
  }

  lemma {:induction false} DroppedIdsAre(ms: seq<Message>, id: Id)
    ensures id in DroppedIds(ms) <==> exists i | 0 <= i < |ms| :: id in IdsOf(ms[i])
  {
    if ms != [] {
      DroppedIdsAre(ms[1..], id);
      assert forall i | 0 < i < |ms| :: ms[i] == ms[1..][i - 1];
      assert forall i | 0 <= i < |ms[1..]| :: ms[1..][i] == ms[i + 1];
    }
  }

  lemma {:induction false} AnsweredInRetained(ms: seq<Message>, called: set<Id>, id: Id)
    ensures AnsweredIn(Retained(ms, called), id) <==> AnsweredIn(ms, id) && id in called
  {
    if AnsweredIn(Retained(ms, called), id) {
      var i :| 0 <= i < |Retained(ms, called)| && IsResult(Retained(ms, called)[i]) && Retained(ms, called)[i].toolCallId.value == id;
      var m := Retained(ms, called)[i];
      RetainedIn(ms, called, m);
      var j :| 0 <= j < |ms| && ms[j] == m;
      assert IsResult(ms[j]);
    }
    if AnsweredIn(ms, id) && id in called {
      var j :| 0 <= j < |ms| && IsResult(ms[j]) && ms[j].toolCallId.value == id;
      RetainedIn(ms, called, ms[j]);
      var i :| 0 <= i < |Retained(ms, called)| && Retained(ms, called)[i] == ms[j];
      assert IsResult(Retained(ms, called)[i]);
    }
  }

  lemma {:induction false} NoneAnswered(ms: seq<Message>, id: Id)
    requires forall m | m in ms :: !IsResult(m)
    ensures !AnsweredIn(ms, id)
  {
  }

  /** A slide clears from both tables exactly the ids that dropped messages bear. */
  lemma {:induction false} SlideClears(t: Tables, id: Id)
    ensures id in Gone(t) <==> exists m :: m in Dropped(Rest(t), false) && HasId(m, id)
    ensures Slide(t).shrunk == t.shrunk - Gone(t) && Slide(t).full == t.full - Gone(t)
  {
    var dropped := Dropped(Rest(t), false);
    DroppedIdsAre(dropped, id);
    if id in Gone(t) {
      var i :| 0 <= i < |dropped| && id in IdsOf(dropped[i]);
      BearsIdIff(dropped[i]);
    }
    if m :| m in dropped && HasId(m, id) {
      var i :| 0 <= i < |dropped| && dropped[i] == m;
      BearsIdIff(m);
      assert id in IdsOf(dropped[i]);
    }
  }

  /** After a slide an id is stale exactly when it was, or the retain pass removed its result, and it was not cleared. */
  lemma {:induction false} SlideStale(t: Tables)
    ensures StaleIn(Slide(t)) == (StaleIn(t) + Orphaned(t)) - Gone(t)
  {
    SlideIs(t);
    forall id ensures id in StaleIn(Slide(t)) <==> id in (StaleIn(t) + Orphaned(t)) - Gone(t) {
      SlideStaleAt(t, id);
    }
  }

  lemma {:induction false} SlideStaleAt(t: Tables, id: Id)
    ensures id in StaleIn(Slide(t)) <==> id in (StaleIn(t) + Orphaned(t)) - Gone(t)
  {
    var block, dropped, window := SystemBlock(t.messages), Dropped(Rest(t), false), Window(t);
    SlideIs(t);
    NoneAnswered(block, id);
    IdsOfConcat(block + dropped, window, id);
    IdsOfConcat(block, dropped, id);
    IdsOfConcat(block, Retained(window, CalledIds(window)), id);
    AnsweredInRetained(window, CalledIds(window), id);
    if AnsweredIn(dropped, id) {
      InDropped(dropped, id);
    }
    OrphanedAt(t, id);
  }

  lemma {:induction false} OrphanedAt(t: Tables, id: Id)
    ensures id in Orphaned(t) <==> id in t.shrunk && AnsweredIn(Window(t), id) && id !in CalledIds(Window(t))
  {
    if AnsweredIn(Window(t), id) {
      var i :| 0 <= i < |Window(t)| && IsResult(Window(t)[i]) && Window(t)[i].toolCallId.value == id;
      assert Window(t)[i] in Window(t);
    }
    if id in Orphaned(t) {
      var m :| m in Window(t) && IsResult(m) && m.toolCallId.value == id && id in t.shrunk && id !in CalledIds(Window(t));
      var i :| 0 <= i < |Window(t)| && Window(t)[i] == m;
      assert IsResult(Window(t)[i]);
    }
  }

  /** The stale ids of a run: each slide adds those of the results its retain pass removes, and clears those it drops. */
  ghost function Stale(ops: seq<Op>): set<Id> {
    if ops == [] then {}
    else
      var before, op := ops[..|ops| - 1], ops[|ops| - 1];
      if op.SlideOp? then (Stale(before) + Orphaned(Replay(before))) - Gone(Replay(before)) else Stale(before)
  }

  lemma {:induction false} AddStale(t: Tables, originals: map<Id, Bytes>, m: Message)
    requires Tracked(t, originals) && (IsResult(m) ==> m.toolCallId.value !in originals)
    ensures StaleIn(Apply(t, Add(m))) == StaleIn(t)
  {
    forall id | id in t.shrunk ensures AnsweredIn(t.messages + [m], id) <==> AnsweredIn(t.messages, id) {
      IdsOfConcat(t.messages, [m], id);
    }
  }

  /** Over every run the marked ids are those of live results and exactly the run's stale ids. */
  lemma {:induction false} StaleIsExact(ops: seq<Op>)
    requires Legal(ops)
    ensures forall id | id in Replay(ops).shrunk :: AnsweredIn(Replay(ops).messages, id) <==> id !in Stale(ops)
    ensures Stale(ops) <= Replay(ops).shrunk
  {
    StaleIs(ops);
  }

  lemma {:induction false} StaleIs(ops: seq<Op>)
    requires Legal(ops)
    ensures StaleIn(Replay(ops)) == Stale(ops)
  {
    if ops != [] {
      var before, op := ops[..|ops| - 1], ops[|ops| - 1];
      var t := Replay(before);
      StaleIs(before);
      RunsAreTracked(before);
      match op
      case Add(m) => AddStale(t, Originals(before), m);
      case ShrinkOp(policy) => ShrinkTracked(t, Originals(before), |t.messages|, policy);
      case SlideOp => SlideStale(t);
    }
  }

  // ----- When nothing becomes stale -----

  /** Every result is added while its call is in the queue. */
  ghost predicate CalledFirst(ops: seq<Op>) {
    ops == [] ||
    var before, op := ops[..|ops| - 1], ops[|ops| - 1];
    && CalledFirst(before)
    && (op.Add? && IsResult(op.m) ==> Calls(Replay(before).messages, op.m.toolCallId.value))
  }

  lemma {:induction false} NoneCalled(ms: seq<Message>, id: Id)
    requires forall m | m in ms :: m.role.System?
    ensures !Calls(ms, id)
  {
  }

  /** If every result in the queue has its call there, a slide drops the call of every result its retain pass removes. */
  lemma {:induction false} OrphanedAreGone(t: Tables)
    requires NoOrphans(t.messages)
    ensures Orphaned(t) <= Gone(t)
  {
    var block, dropped, window := SystemBlock(t.messages), Dropped(Rest(t), false), Window(t);
    SlideIs(t);
    SystemParts(t.messages);
    forall id | id in Orphaned(t) ensures id in Gone(t) {
      var m :| m in window && IsResult(m) && m.toolCallId.value == id && id !in CalledIds(window);
      assert m in block + dropped + window;
      CalledIdsMeaning(window, id);
      NoneCalled(block, id);
      IdsOfConcat(block + dropped, window, id);
      IdsOfConcat(block, dropped, id);
      CalledIsDropped(dropped, id);
    }
  }

  lemma {:induction false} CalledIsDropped(dropped: seq<Message>, id: Id)
    requires Calls(dropped, id)
    ensures id in DroppedIds(dropped)
  {
    DroppedIdsAre(dropped, id);
    var i :| 0 <= i < |dropped| && id in CallIds(dropped[i]);
    assert id in IdsOf(dropped[i]);
  }

  lemma {:induction false} AddNoOrphans(ms: seq<Message>, m: Message)
    requires NoOrphans(ms) && (IsResult(m) ==> Calls(ms, m.toolCallId.value))
    ensures NoOrphans(ms + [m])
  {
    forall x | x in ms + [m] && IsResult(x) ensures Calls(ms + [m], x.toolCallId.value) {
      IdsOfConcat(ms, [m], x.toolCallId.value);
    }
  }

  lemma {:induction false} FrameNoOrphans(a: seq<Message>, b: seq<Message>)
    requires SameFrame(a, b) && NoOrphans(a)
    ensures NoOrphans(b)
  {
    forall m | m in b && IsResult(m) ensures Calls(b, m.toolCallId.value) {
      var i :| 0 <= i < |b| && b[i] == m;
      assert a[i] in a && IsResult(a[i]);
      var k :| 0 <= k < |a| && m.toolCallId.value in CallIds(a[k]);
      assert CallIds(b[k]) == CallIds(a[k]);
    }
  }

  /**
   When results only arrive while their calls are in the queue, then over every run, with no demand on shapes or on
   the ids of calls, no result is ever without its call and no table entry becomes stale.
   */
  lemma {:induction false} CalledFirstNeverStale(ops: seq<Op>)
    requires CalledFirst(ops)
    ensures NoOrphans(Replay(ops).messages) && Stale(ops) == {}
    ensures Legal(ops) ==> forall id | id in Replay(ops).shrunk :: AnsweredIn(Replay(ops).messages, id)
  {
    NoOrphanEver(ops);
    if Legal(ops) {
      StaleIsExact(ops);
    }
  }

  lemma {:induction false} NoOrphanEver(ops: seq<Op>)
    requires CalledFirst(ops)
    ensures NoOrphans(Replay(ops).messages) && Stale(ops) == {}
  {
    if ops != [] {
      var before, op := ops[..|ops| - 1], ops[|ops| - 1];
      var t := Replay(before);
      NoOrphanEver(before);
      match op
      case Add(m) => AddNoOrphans(t.messages, m);
      case ShrinkOp(policy) =>
        ShrinkFrame(t, |t.messages|, policy);
        FrameNoOrphans(t.messages, Shrink(t, policy).messages);
      case SlideOp =>
        SlideAnyHistory(t);
        OrphanedAreGone(t);
    }
  }

  // ----- Recoverable texts -----

  /** A result as the tables know it: untouched, or cut around a marker with its original stored. */
  ghost predicate Faithful(m: Message, shrunk: set<Id>, originals: map<Id, Bytes>)
    requires IsResult(m)
  {
    var id := m.toolCallId.value;
    && id in originals
    && (id !in shrunk ==> m.content == originals[id])
    && (id in shrunk ==> exists h: nat, u: nat :: IsCut(originals[id], m.content, h, u, id))
  }

  ghost predicate AllFaithful(t: Tables, originals: map<Id, Bytes>) {
    forall m | m in t.messages && IsResult(m) :: Faithful(m, t.shrunk, originals)
  }

  /** Every stored text is the content first added under its id, and every result in the queue is faithful. */
  ghost predicate Recoverable(t: Tables, originals: map<Id, Bytes>) {
    && Tracked(t, originals)
    && (forall id | id in t.full :: t.full[id] == originals[id])
    && AllFaithful(t, originals)
  }

  lemma {:induction false} AddRecoverable(t: Tables, originals: map<Id, Bytes>, m: Message)
    requires Recoverable(t, originals) && (IsResult(m) ==> m.toolCallId.value !in originals)
    ensures Recoverable(Apply(t, Add(m)), WithResult(originals, m))
  {
    var originals' := WithResult(originals, m);
    AddTracked(t, originals, m);
    forall x | x in t.messages + [m] && IsResult(x) ensures Faithful(x, t.shrunk, originals') {
      if x in t.messages {
        assert Faithful(x, t.shrunk, originals);
      }
    }
  }

  lemma {:induction false} ShrinkAtRecoverable(t: Tables, originals: map<Id, Bytes>, i: nat, policy: Policy)
    requires i < |t.messages| && Recoverable(t, originals)
    ensures Recoverable(ShrinkAt(t, i, policy), originals)
  {
    var t', m := ShrinkAt(t, i, policy), t.messages[i];
    ShrinkAtTracked(t, originals, i, policy);
    if Oversized(m, t.shrunk, policy) {
      var id, limit := m.toolCallId.value, policy.limit(m.content);
      assert Faithful(m, t.shrunk, originals);
      TruncationIsCut(m.content, limit, policy.head(limit), id);
      forall x | x in t'.messages && IsResult(x) ensures Faithful(x, t'.shrunk, originals) {
        var j :| 0 <= j < |t'.messages| && t'.messages[j] == x;
        if j != i {
          assert Faithful(t.messages[j], t.shrunk, originals);
          OtherAnswer(t.messages, i, j);
        }
      }
    }
  }

  lemma {:induction false} OtherAnswer(ms: seq<Message>, i: nat, j: nat)
    requires Pairwise(ms, AnswersApart()) && i < |ms| && j < |ms| && i != j && IsResult(ms[i]) && IsResult(ms[j])
    ensures ms[i].toolCallId != ms[j].toolCallId
  {
    assert i < j ==> AnswersApart()(ms[i], ms[j]);
    assert j < i ==> AnswersApart()(ms[j], ms[i]);
  }

  lemma {:induction false} ShrinkRecoverable(t: Tables, originals: map<Id, Bytes>, n: nat, policy: Policy)
    requires n <= |t.messages| && Recoverable(t, originals)
    ensures Recoverable(ShrinkDown(t, n, policy), originals)
    decreases n
  {
    if n > 0 {
      ShrinkAtRecoverable(t, originals, n - 1, policy);
      ShrinkRecoverable(ShrinkAt(t, n - 1, policy), originals, n - 1, policy);
    }
  }

  /** No result that a slide leaves in the queue loses its mark and its stored original while its text is cut. */
  ghost predicate KeepsMarks(t: Tables) {
    forall m | m in Retained(Window(t), CalledIds(Window(t))) && IsResult(m) ::
      m.toolCallId.value in t.full && m.toolCallId.value in Gone(t) ==> m.content == t.full[m.toolCallId.value]
  }

  /** A slide keeps every result recoverable exactly when it keeps their marks. */
  lemma {:induction false} SlideRecoverableIff(t: Tables, originals: map<Id, Bytes>)
    requires Recoverable(t, originals)
    ensures Recoverable(Slide(t), originals) <==> KeepsMarks(t)
  {
    var retained := Retained(Window(t), CalledIds(Window(t)));
    SlideTracked(t, originals);
    SlideIs(t);
    forall m | m in Slide(t).messages && IsResult(m) ensures m in retained && m in t.messages {
      RetainedIn(Window(t), CalledIds(Window(t)), m);
    }
    forall m | m in retained && IsResult(m)
      ensures Faithful(m, Slide(t).shrunk, originals)
              <==> (m.toolCallId.value in t.full && m.toolCallId.value in Gone(t) ==> m.content == t.full[m.toolCallId.value])
    {
      RetainedIn(Window(t), CalledIds(Window(t)), m);
      FaithfulAfter(t, originals, m);
    }
  }

  lemma {:induction false} FaithfulAfter(t: Tables, originals: map<Id, Bytes>, m: Message)
    requires Recoverable(t, originals) && m in t.messages && IsResult(m)
    ensures Faithful(m, t.shrunk - Gone(t), originals)
            <==> (m.toolCallId.value in t.full && m.toolCallId.value in Gone(t) ==> m.content == t.full[m.toolCallId.value])
  {
    assert Faithful(m, t.shrunk, originals);
  }

  /** Every slide of the run keeps the marks of the results it leaves. */
  ghost predicate Clean(ops: seq<Op>) {
    ops == [] ||
    var before, op := ops[..|ops| - 1], ops[|ops| - 1];
    Clean(before) && (op.SlideOp? ==> KeepsMarks(Replay(before)))
  }

  /**
   Over every run of adds, shrinks under any thresholds, and clean slides: the shrunk set is exactly the stored keys,
   every stored text is the content first added under its id, and every live result is untouched or a cut of its
   original around a marker that counts what is missing.
   */
  lemma {:induction false} RunsAreRecoverable(ops: seq<Op>)
    requires Legal(ops) && Clean(ops)
    ensures Recoverable(Replay(ops), Originals(ops))
  {
    if ops != [] {
      var before, op := ops[..|ops| - 1], ops[|ops| - 1];
      var t, originals := Replay(before), Originals(before);
      RunsAreRecoverable(before);
      match op
      case Add(m) => AddRecoverable(t, originals, m);
      case ShrinkOp(policy) => ShrinkRecoverable(t, originals, |t.messages|, policy);
      case SlideOp => SlideRecoverableIff(t, originals);
    }
  }

  /** Fetching an id gives the content first added, for every result that is no longer whole. */
  method FetchFullResult(memory: Memory, id: Id, ghost originals: map<Id, Bytes>) returns (r: Option<Bytes>)
    requires Recoverable(memory.View(), originals)
    ensures r.Some? <==> id in memory.shrunkMessages
    ensures r.Some? ==> id in originals && r.value == originals[id]
    ensures forall m | m in memory.messages && IsResult(m) && m.toolCallId.value == id ::
              id in originals && (r.None? ==> m.content == originals[id])
  {
    r := memory.GetFullResult(id);
    forall m | m in memory.messages && IsResult(m) && m.toolCallId.value == id
      ensures id in originals && (r.None? ==> m.content == originals[id])
    {
      assert Faithful(m, memory.View().shrunk, originals);
    }
  }

  // ----- Unique ids make every slide clean -----

  /** The ids called by the messages of a run. */
  function Called(ops: seq<Op>): set<Id> {
    if ops == [] then {}
    else
      var before, op := Called(ops[..|ops| - 1]), ops[|ops| - 1];
      if op.Add? then before + set id | id in CallIds(op.m) else before
  }

  /** No id is called by two messages or answered by two, and only tool messages answer. */
  ghost predicate UniqueIds(ops: seq<Op>) {
    Legal(ops) &&
    (ops == [] ||
     var before, op := ops[..|ops| - 1], ops[|ops| - 1];
     && UniqueIds(before)
     && (op.Add? ==> (op.m.toolCallId.Some? ==> op.m.role.Tool?) && forall id | id in CallIds(op.m) :: id !in Called(before)))
  }

  /** Only a tool message answers, and what the message calls is known. */
  predicate Known(m: Message, called: set<Id>) {
    (m.toolCallId.Some? ==> m.role.Tool?) && forall id | id in CallIds(m) :: id in called
  }

  ghost predicate Unique(ms: seq<Message>, called: set<Id>) {
    Pairwise(ms, CallsApart()) && forall m | m in ms :: Known(m, called)
  }

  lemma {:induction false} FrameKeepsUnique(a: seq<Message>, b: seq<Message>, called: set<Id>)
    requires SameFrame(a, b) && Unique(a, called)
    ensures Unique(b, called)
  {
    TheseIgnoreTexts();
    FrameKeepsPairs(a, b, CallsApart());
    forall m | m in b ensures Known(m, called) {
      var j :| 0 <= j < |b| && b[j] == m;
      assert Known(a[j], called) && CallIds(m) == CallIds(a[j]);
    }
  }

  lemma {:induction false} SlideUnique(t: Tables, called: set<Id>)
    requires Unique(t.messages, called)
    ensures Unique(Slide(t).messages, called)
  {
    PairwiseSlide(t, CallsApart());
    SlideIs(t);
    forall m | m in Slide(t).messages ensures m in t.messages {
      RetainedIn(Window(t), CalledIds(Window(t)), m);
    }
  }

  lemma {:induction false} AddUnique(ms: seq<Message>, called: set<Id>, m: Message)
    requires Unique(ms, called) && (m.toolCallId.Some? ==> m.role.Tool?) && forall id | id in CallIds(m) :: id !in called
    ensures Unique(ms + [m], called + set id | id in CallIds(m))
  {
    var called' := called + set id | id in CallIds(m);
    PairwiseConcat(ms, [m], CallsApart());
    forall x | x in ms ensures CallsApart()(x, m) && Known(x, called') {
      assert Known(x, called);
    }
    assert Known(m, called');
  }

  lemma {:induction false} RunsAreUnique(ops: seq<Op>)
    requires UniqueIds(ops)
    ensures Unique(Replay(ops).messages, Called(ops))
  {
    if ops != [] {
      var before, op := ops[..|ops| - 1], ops[|ops| - 1];
      var t := Replay(before);
      RunsAreUnique(before);
      match op
      case Add(m) => AddUnique(t.messages, Called(before), m);
      case ShrinkOp(policy) =>
        ShrinkFrame(t, |t.messages|, policy);
        FrameKeepsUnique(t.messages, Shrink(t, policy).messages, Called(ops));
      case SlideOp => SlideUnique(t, Called(ops));
    }
  }

  lemma {:induction false} NotBorne(x: Message, a: Message, m: Message)
    requires IsResult(m) && AnswersDiffer(x, m) && CallsDiffer(x, a) && m.toolCallId.value in CallIds(a)
    requires x.toolCallId.Some? ==> x.role.Tool?
    ensures m.toolCallId.value !in IdsOf(x)
  {
  }

  /** No message dropped bears the id of a result that stays with its call. */
  lemma {:induction false} NotCleared(dropped: seq<Message>, window: seq<Message>, a: Message, m: Message)
    requires Across(dropped, window, AnswersApart()) && Across(dropped, window, CallsApart())
    requires a in window && m in window && IsResult(m) && m.toolCallId.value in CallIds(a)
    requires forall x | x in dropped :: x.toolCallId.Some? ==> x.role.Tool?
    ensures m.toolCallId.value !in DroppedIds(dropped)
  {
    DroppedIdsAre(dropped, m.toolCallId.value);
    forall i | 0 <= i < |dropped| ensures m.toolCallId.value !in IdsOf(dropped[i]) {
      assert AnswersApart()(dropped[i], m) && CallsApart()(dropped[i], a);
      NotBorne(dropped[i], a, m);
    }
  }

  lemma {:induction false} CallerOf(ms: seq<Message>, id: Id) returns (a: Message)
    requires id in CalledIds(ms)
    ensures a in ms && id in CallIds(a)
  {
    CalledIdsMeaning(ms, id);
    var k :| 0 <= k < |ms| && id in CallIds(ms[k]);
    a := ms[k];
  }

  lemma {:induction false} DroppedAcross(t: Tables, rel: (Message, Message) -> bool)
    requires Pairwise(t.messages, rel)
    ensures Across(Dropped(Rest(t), false), Window(t), rel)
    ensures forall m | m in Dropped(Rest(t), false) :: m in t.messages
  {
    SlideIs(t);
    PairwiseConcat(SystemBlock(t.messages) + Dropped(Rest(t), false), Window(t), rel);
    forall m | m in Dropped(Rest(t), false) ensures m in SystemBlock(t.messages) + Dropped(Rest(t), false) {
    }
  }

  /** With unique ids no id of a result that stays is among those a slide clears. */
  lemma {:induction false} UniqueSlideIsClean(t: Tables, originals: map<Id, Bytes>, called: set<Id>)
    requires Tracked(t, originals) && Unique(t.messages, called)
    ensures KeepsMarks(t)
  {
    var window := Window(t);
    DroppedAcross(t, AnswersApart());
    DroppedAcross(t, CallsApart());
    forall m | m in Retained(window, CalledIds(window)) && IsResult(m) ensures m.toolCallId.value !in Gone(t) {
      RetainedIn(window, CalledIds(window), m);
      var a := CallerOf(window, m.toolCallId.value);
      forall x | x in Dropped(Rest(t), false) ensures x.toolCallId.Some? ==> x.role.Tool? {
        assert Known(x, called);
      }
      NotCleared(Dropped(Rest(t), false), window, a, m);
    }
  }

  /** With unique ids every run, however results and calls are interleaved, keeps every result recoverable. */
  lemma {:induction false} UniqueRunsAreRecoverable(ops: seq<Op>)
    requires UniqueIds(ops)
    ensures Clean(ops) && Recoverable(Replay(ops), Originals(ops))
  {
    UniqueIsClean(ops);
    RunsAreRecoverable(ops);
  }

  lemma {:induction false} UniqueIsClean(ops: seq<Op>)
    requires UniqueIds(ops)
    ensures Clean(ops)
  {
    if ops != [] {
      var before := ops[..|ops| - 1];
      UniqueIsClean(before);
      RunsAreUnique(before);
      RunsAreTracked(before);
      UniqueSlideIsClean(Replay(before), Originals(before), Called(before));
    }
  }

  // ----- Histories in the replay shape -----

  /** Every slide of the run happens on a history in the replay shape. */
  ghost predicate ShapedSlides(ops: seq<Op>) {
    ops == [] ||
    var before, op := ops[..|ops| - 1], ops[|ops| - 1];
    ShapedSlides(before) && (op.SlideOp? ==> ReplayShape(Replay(before).messages))
  }

  /** In a shaped history the ids that are dropped are exactly the ids of its results. */
  lemma {:induction false} DroppedIdsMeaning(ms: seq<Message>, id: Id)
    requires ReplayShape(ms)
    ensures id in DroppedIds(ms) <==> AnsweredIn(ms, id)
  {
    DroppedIdsAre(ms, id);
    CallsAreAnswered(ms, id);
    OnlyResultsBearIds(ms);
    if AnsweredIn(ms, id) {
      InDropped(ms, id);
    }
  }

  lemma {:induction false} NotAnswered(dropped: seq<Message>, window: seq<Message>, m: Message)
    requires Across(dropped, window, AnswersApart()) && m in window && IsResult(m)
    ensures !AnsweredIn(dropped, m.toolCallId.value)
  {
    forall i | 0 <= i < |dropped| && IsResult(dropped[i]) ensures dropped[i].toolCallId.value != m.toolCallId.value {
      assert AnswersApart()(dropped[i], m);
    }
  }

  lemma {:induction false} ShapedSlideIsClean(t: Tables, originals: map<Id, Bytes>)
    requires Tracked(t, originals) && ReplayShape(t.messages)
    ensures KeepsMarks(t) && Orphaned(t) == {}
  {
    var window := Window(t);
    SlideKeepsShape(t);
    ShapedWindow(t);
    DroppedAcross(t, AnswersApart());
    forall m | m in window && IsResult(m) ensures m.toolCallId.value !in Gone(t) && m.toolCallId.value in CalledIds(window) {
      RetainedIn(window, CalledIds(window), m);
      NotAnswered(Dropped(Rest(t), false), window, m);
      DroppedIdsMeaning(Dropped(Rest(t), false), m.toolCallId.value);
    }
  }

  lemma {:induction false} ShapedWindow(t: Tables)
    requires ReplayShape(t.messages)
    ensures Retained(Window(t), CalledIds(Window(t))) == Window(t)
  {
    SystemPartsShape(t.messages);
    SlideStopsAtFirst(Rest(t), false);
    ShapeParts(Dropped(Rest(t), false), Window(t));
    RetainsShaped(Window(t));
  }

  /** When every slide finds a shaped history, nothing is lost and the marked ids all lie within the live results. */
  lemma {:induction false} ShapedRunsLoseNothing(ops: seq<Op>)
    requires Legal(ops) && ShapedSlides(ops)
    ensures Recoverable(Replay(ops), Originals(ops))
    ensures forall id | id in Replay(ops).shrunk :: AnsweredIn(Replay(ops).messages, id)
  {
    ShapedIsClean(ops);
    RunsAreRecoverable(ops);
    StaleIsExact(ops);
  }

  lemma {:induction false} ShapedIsClean(ops: seq<Op>)
    requires Legal(ops) && ShapedSlides(ops)
    ensures Clean(ops) && Stale(ops) == {}
  {
    if ops != [] {
      var before, op := ops[..|ops| - 1], ops[|ops| - 1];
      ShapedIsClean(before);
      RunsAreTracked(before);
      if op.SlideOp? {
        ShapedSlideIsClean(Replay(before), Originals(before));
      }
    }
  }

  // ----- Messages that arrive in whole units -----

  /** A unit of messages added one after another, or a shrink or slide between units. */
  datatype Block = Turn(unit: seq<Message>) | Upkeep(op: Op)

  function Adds(unit: seq<Message>): seq<Op> {
    if unit == [] then [] else Adds(unit[..|unit| - 1]) + [Add(unit[|unit| - 1])]
  }

  function OpsOf(blocks: seq<Block>): seq<Op> {
    if blocks == [] then []
    else
      var before, last := OpsOf(blocks[..|blocks| - 1]), blocks[|blocks| - 1];
      match last
      case Turn(unit) => before + Adds(unit)
      case Upkeep(op) => before + [op]
  }

  ghost predicate WholeUnits(blocks: seq<Block>) {
    blocks == [] ||
    var last := blocks[|blocks| - 1];
    && WholeUnits(blocks[..|blocks| - 1])
    && match last case Turn(unit) => ReplayShape(unit) case Upkeep(op) => !op.Add?
  }

  lemma {:induction false} OpsSnoc(ops: seq<Op>, op: Op)
    ensures Replay(ops + [op]) == Apply(Replay(ops), op)
    ensures ShapedSlides(ops + [op]) <==> ShapedSlides(ops) && (op.SlideOp? ==> ReplayShape(Replay(ops).messages))
  {
    assert (ops + [op])[..|ops|] == ops;
  }

  lemma {:induction false} AddsAppend(ops: seq<Op>, unit: seq<Message>)
    ensures Replay(ops + Adds(unit)) == Replay(ops).(messages := Replay(ops).messages + unit)
    ensures ShapedSlides(ops + Adds(unit)) <==> ShapedSlides(ops)
  {
    if unit == [] {
      assert ops + Adds(unit) == ops && Replay(ops).messages + unit == Replay(ops).messages;
    } else {
      var front, last := unit[..|unit| - 1], unit[|unit| - 1];
      AddsAppend(ops, front);
      OpsSnoc(ops + Adds(front), Add(last));
      Assoc(ops, Adds(front), [Add(last)]);
      Assoc(Replay(ops).messages, front, [last]);
      assert front + [last] == unit;
    }
  }

  /** When messages arrive in whole units, with shrinks and slides between them, the history is always in the replay shape. */
  lemma {:induction false} UnitRunsAreShaped(blocks: seq<Block>)
    requires WholeUnits(blocks)
    ensures ReplayShape(Replay(OpsOf(blocks)).messages) && ShapedSlides(OpsOf(blocks))
  {
    if blocks != [] {
      var before, last := OpsOf(blocks[..|blocks| - 1]), blocks[|blocks| - 1];
      var t := Replay(before);
      UnitRunsAreShaped(blocks[..|blocks| - 1]);
      match last
      case Turn(unit) =>
        AddsAppend(before, unit);
        ShapeJoin(t.messages, unit);
      case Upkeep(op) =>
        OpsSnoc(before, op);
        if op.ShrinkOp? {
          ShrinkFrame(t, |t.messages|, op.policy);
          ShapeIgnoresTexts(t.messages, Shrink(t, op.policy).messages);
        } else {
          SlideKeepsShape(t);
        }
    }
  }

  // ----- Where the conditions are needed -----

  function CallOf(id: Id): Message {
    Message(Assistant, [], Some([Call(id, [], [])]), None, None)
  }

  /** A slide over a queue whose first message bears ids and whose second is the user's drops the first. */
  lemma {:induction false} FirstIsDropped(ms: seq<Message>)
    requires |ms| > 1 && !ms[0].role.System? && !ms[0].role.User? && BearsId(ms[0]) && ms[1].role.User?
    ensures SystemBlock(ms) == [] && AfterSystem(ms) == ms
    ensures Kept(ms, false) == ms[1..] && forall id :: id in DroppedIds(Dropped(ms, false)) <==> id in IdsOf(ms[0])
  {
    assert Dropped(ms, false) == [ms[0]] + Dropped(ms[1..], true) && Dropped(ms[1..], true) == [];
    assert DroppedIds([ms[0]]) == IdsOf(ms[0]) + DroppedIds([ms[0]][1..]);
  }

  /** A result whose call is gone is removed from the queue, and its table entries stay. */
  lemma {:induction false} StaleEntryStays(c: Id, d: Id, user: Message, cut: Bytes, original: Bytes)
    requires c != d && user.role.User? && user.toolCalls.None?
    ensures var t := Tables([ResultMessage(c, []), user, ResultMessage(d, cut)], map[d := original], {d});
            Slide(t) == Tables([user], map[d := original], {d}) && StaleIn(Slide(t)) == {d}
  {
    var t := Tables([ResultMessage(c, []), user, ResultMessage(d, cut)], map[d := original], {d});
    FirstIsDropped(t.messages);
    var window := [user, ResultMessage(d, cut)];
    assert t.messages[1..] == window && window[1..] == [ResultMessage(d, cut)];
    assert Retained(window[1..], {}) == Retained(window[1..][1..], {}) == [];
    assert Retained(window, {}) == [user];
    assert CalledIds(window[1..]) == CallSet(ResultMessage(d, cut)) + CalledIds(window[1..][1..]) == {};
    assert CalledIds(window) == CallSet(user) + CalledIds(window[1..]) == {};
  }

  function CallSet(m: Message): set<Id> {
    set id | id in CallIds(m)
  }

  /** A call id used again: sliding away the first call forgets the original of a result that stays, cut, in the queue. */
  lemma {:induction false} ReusedCallLosesOriginal(c: Id, user: Message, cut: Bytes, original: Bytes)
    requires user.role.User? && user.toolCalls.None?
    ensures var t := Tables([CallOf(c), user, CallOf(c), ResultMessage(c, cut)], map[c := original], {c});
            Slide(t) == Tables([user, CallOf(c), ResultMessage(c, cut)], map[], {})
  {
    var t := Tables([CallOf(c), user, CallOf(c), ResultMessage(c, cut)], map[c := original], {c});
    var window := [user, CallOf(c), ResultMessage(c, cut)];
    assert CallIds(CallOf(c)) == [c];
    FirstIsDropped(t.messages);
    assert t.messages[1..] == window;
    WindowIsRetained(c, user, cut);
    assert c in IdsOf(CallOf(c));
  }

  lemma {:induction false} WindowIsRetained(c: Id, user: Message, cut: Bytes)
    requires user.role.User? && user.toolCalls.None?
    ensures var window := [user, CallOf(c), ResultMessage(c, cut)]; Retained(window, CalledIds(window)) == window
  {
    var window := [user, CallOf(c), ResultMessage(c, cut)];
    assert CallIds(CallOf(c)) == [c];
    assert window[1] in window && c in CallIds(window[1]);
    CalledIdsMeaning(window, c);
    RetainedMeaning(window, CalledIds(window));
  }
}
