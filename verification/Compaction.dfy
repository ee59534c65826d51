/**
 Structured compaction: the history is replaced by a digest and rebuilt from its newest whole units. Three failures
 without a success in between switch it off for the session.
 */
module Compaction {
  import opened Prelude
  import opened History
  import opened Memories

  const MAX_STRIKES: nat := 3
  const KEEP_RECENT_UNITS: nat := 3

  /** Reasoning that belongs to tool calls and must be sent again with them. */
  predicate MustReplay(m: Message) {
    m.reasoning.Some? && m.toolCalls.Some? && m.toolCalls.value != []
  }

  /** No message has both calls and the reasoning that led to them. */
  ghost predicate NothingToReplay(ms: seq<Message>) {
    forall m | m in ms && m.reasoning.Some? && m.toolCalls.Some? :: m.toolCalls.value == []
  }

  function RecentUnits(ms: seq<Message>): seq<Unit> {
    var units := Units(ms);
    if |units| > KEEP_RECENT_UNITS then units[|units| - KEEP_RECENT_UNITS..] else units
  }

  const RECALLED: seq<byte> := Ascii("<recalled-memory>")

  predicate IsIntent(m: Message) {
    m.role.User? && !(RECALLED <= m.content)
  }

  /** A user message that does not begin with the mark of recalled memory. */
  ghost predicate UserSpoke(m: Message) {
    m.role == User && !exists rest :: Reads(m.content, "<recalled-memory>", rest)
  }

  /** `s` is the text `head` followed by `rest`. */
  predicate Reads(s: Bytes, head: string, rest: Bytes) {
    && |s| == |head| + |rest| && s[|head|..] == rest
    && forall i | 0 <= i < |head| :: s[i] == head[i] as int
  }

  lemma {:induction false} IntentIff(m: Message)
    ensures IsIntent(m) <==> UserSpoke(m)
  {
    if RECALLED <= m.content {
      assert forall i | 0 <= i < |RECALLED| :: m.content[i] == RECALLED[i];
      assert Reads(m.content, "<recalled-memory>", m.content[|RECALLED|..]);
    }
    if rest :| Reads(m.content, "<recalled-memory>", rest) {
      assert m.content[..|RECALLED|] == RECALLED;
    }
  }

  /** `m` is the last message in which the user spoke. */
  ghost predicate NewestIntent(ms: seq<Message>, m: Message) {
    exists k | 0 <= k < |ms| :: ms[k] == m && UserSpoke(m) && forall j | k < j < |ms| :: !UserSpoke(ms[j])
  }

  /** The newest user message that was not inserted by recall. */
  function LastIntent(ms: seq<Message>): (u: Option<Message>)
    ensures u.Some? ==> NewestIntent(ms, u.value)
    ensures u.None? ==> forall m | m in ms :: !UserSpoke(m)
  {
    if ms == [] then None
    else
      IntentIff(ms[|ms| - 1]);
      if IsIntent(ms[|ms| - 1]) then Some(ms[|ms| - 1])
      else LastIntent(ms[..|ms| - 1])
  }

  ghost predicate HasText(ms: seq<Message>, content: Bytes) {
    exists m | m in ms :: m.content == content
  }

  function TouchedNote(touched: Option<Bytes>): seq<Message> {
    if touched.Some? then [Plain(User, Ascii("[Recently touched files]\n") + touched.value)] else []
  }

  class L3Compactor {
    var failures: nat
    var disabled: bool

    ghost predicate Valid()
      reads this
    {
      disabled <==> failures >= 3
    }

    constructor ()
      ensures Valid() && failures == 0
    {
      failures, disabled := 0, false;
    }

    method RecordFailure()
      requires Valid()
      modifies this
      ensures Valid() && failures == old(failures) + 1
    {
      failures := failures + 1;
      if failures >= MAX_STRIKES {
        disabled := true;
      }
    }

    /**
     Try to compact. `summary` is the model's digest, if it gives one; `touched` lists the files named by write calls,
     if any. A shaped history stays shaped, keeps its newest whole units right after the digest, and never loses the
     user's last request; nothing changes when the attempt is skipped or fails.
     */
    method TryCompact(memory: Memory, summary: Option<Bytes>, touched: Option<Bytes>) returns (done: bool)
      requires Valid()
      modifies this, memory`messages, memory`shrunkMessages
      ensures Valid()
      ensures done <==> !old(disabled) && NothingToReplay(old(memory.messages)) && summary.Some?
      ensures !done ==> memory.messages == old(memory.messages) && memory.shrunkMessages == old(memory.shrunkMessages)
      ensures done ==> failures == 0 && memory.shrunkMessages == {}
      ensures !done && !old(disabled) && NothingToReplay(old(memory.messages)) ==>
                failures == old(failures) + 1
      ensures !done && (old(disabled) || !NothingToReplay(old(memory.messages))) ==>
                failures == old(failures)
      ensures done ==>
                var all := memory.pinned + old(memory.messages);
                var base := Rebuilt(all, summary.value, touched);
                && memory.messages == WithIntent(memory.pinned, base, LastIntent(all))
                && (LastIntent(all).Some? ==> HasText(memory.pinned + memory.messages, LastIntent(all).value.content))
                && (ReplayShape(all) ==> ReplayShape(memory.messages))
    {
      if disabled || exists m | m in memory.messages :: MustReplay(m) {
        return false;
      }
      if summary.None? {
        RecordFailure();
        return false;
      }
      var all := memory.GetAll();
      Rebuild(memory, all, summary.value, touched);
      failures := 0;
      return true;
    }
  }

  /** What the queue holds after a successful compaction, before the last request is checked for. */
  function Rebuilt(all: seq<Message>, digest: Bytes, touched: Option<Bytes>): seq<Message> {
    [DigestMessage(digest, None)] + TouchedNote(touched) + FlatAll(RecentUnits(all))
  }

  /** The queue begins with the digest, as a tool message that answers no call, and the list of touched files, if any. */
  lemma {:induction false} RebuiltBegins(all: seq<Message>, digest: Bytes, touched: Option<Bytes>)
    ensures var ms := Rebuilt(all, digest, touched);
            && |ms| >= 1 && ms[0] == Message(Tool, ms[0].content, None, None, None)
            && Reads(ms[0].content, "[Compaction digest] ", digest)
            && (touched.None? ==> ms[1..] == FlatAll(RecentUnits(all)))
            && (touched.Some? ==>
                  && |ms| >= 2 && ms[1] == Message(User, ms[1].content, None, None, None)
                  && Reads(ms[1].content, "[Recently touched files]\n", touched.value)
                  && ms[2..] == FlatAll(RecentUnits(all)))
  {
  }

  /** The queue with the user's last request behind it, unless some message already carries its text. */
  ghost function WithIntent(pinned: seq<Message>, base: seq<Message>, intent: Option<Message>): seq<Message> {
    if intent.Some? && !HasText(pinned + base, intent.value.content) then base + [intent.value] else base
  }

  method Rebuild(memory: Memory, all: seq<Message>, digest: Bytes, touched: Option<Bytes>)
    modifies memory`messages, memory`shrunkMessages
    ensures memory.shrunkMessages == {}
    ensures memory.messages == WithIntent(memory.pinned, Rebuilt(all, digest, touched), LastIntent(all))
    ensures LastIntent(all).Some? ==> HasText(memory.pinned + memory.messages, LastIntent(all).value.content)
    ensures ReplayShape(all) ==> ReplayShape(memory.messages)
  {
    memory.Compact(digest, None);
    if touched.Some? {
      memory.AddMessage(Plain(User, Ascii("[Recently touched files]\n") + touched.value));
    }
    assert memory.messages == [DigestMessage(digest, None)] + TouchedNote(touched);
    AddUnits(memory, RecentUnits(all));
    RebuildKeepsShape(all, digest, touched);
    IntentKeepsShape(all, memory.messages);
    RestoreIntent(memory, LastIntent(all));
  }

  /** Add the user's last request unless some message already carries its text. */
  method RestoreIntent(memory: Memory, intent: Option<Message>)
    modifies memory`messages
    ensures memory.messages == WithIntent(memory.pinned, old(memory.messages), intent)
    ensures intent.Some? ==> HasText(memory.pinned + memory.messages, intent.value.content)
  {
    if intent.Some? && !(exists m | m in memory.pinned + memory.messages :: m.content == intent.value.content) {
      memory.AddMessage(intent.value);
      assert intent.value in memory.pinned + memory.messages;
    }
  }

  method AddUnits(memory: Memory, units: seq<Unit>)
    modifies memory`messages
    ensures memory.messages == old(memory.messages) + FlatAll(units)
  {
    assert units[0..] == units;
    for i := 0 to |units|
      invariant memory.messages + FlatAll(units[i..]) == old(memory.messages) + FlatAll(units)
    {
      FlatAllStep(memory.messages, units, i);
      AddUnit(memory, units[i]);
    }
    assert FlatAll(units[|units|..]) == [];
  }

  method AddUnit(memory: Memory, unit: Unit)
    modifies memory`messages
    ensures memory.messages == old(memory.messages) + Flat(unit)
  {
    match unit
    case Standalone(m) =>
      memory.AddMessage(m);
    case Exchange(assistant, results) =>
      memory.AddMessage(assistant);
      for i := 0 to |results|
        invariant memory.messages == old(memory.messages) + [assistant] + results[..i]
      {
        memory.AddMessage(results[i]);
      }
      assert results[..|results|] == results;
  }

  lemma {:induction false} FlatAllStep(before: seq<Message>, units: seq<Unit>, i: nat)
    requires i < |units|
    ensures before + FlatAll(units[i..]) == before + Flat(units[i]) + FlatAll(units[i + 1..])
  {
    assert units[i..][1..] == units[i + 1..];
    Assoc(before, Flat(units[i]), FlatAll(units[i + 1..]));
  }

  lemma {:induction false} RebuildKeepsShape(all: seq<Message>, digest: Bytes, touched: Option<Bytes>)
    ensures ReplayShape(all) ==> ReplayShape(Rebuilt(all, digest, touched))
  {
    if ReplayShape(all) {
      UnitsOfShape(all);
      assert ShapedUnits(RecentUnits(all));
      FlatOfShapedUnits(RecentUnits(all));
      ShapeOfOne(DigestMessage(digest, None));
      if touched.Some? {
        ShapeOfOne(TouchedNote(touched)[0]);
      }
      ShapeJoin([DigestMessage(digest, None)], TouchedNote(touched));
      ShapeJoin([DigestMessage(digest, None)] + TouchedNote(touched), FlatAll(RecentUnits(all)));
    }
  }

  lemma {:induction false} IntentKeepsShape(all: seq<Message>, base: seq<Message>)
    ensures ReplayShape(all) && ReplayShape(base) && LastIntent(all).Some? ==> ReplayShape(base + [LastIntent(all).value])
  {
    if ReplayShape(all) && ReplayShape(base) && LastIntent(all).Some? {
      OnlyResultsBearIds(all);
      ShapeOfOne(LastIntent(all).value);
      ShapeJoin(base, [LastIntent(all).value]);
    }
  }

  // ----- Whether what is kept is the end of the history -----

  /** What is left of a history when grouping is done with its first unit. */
  function Behind(ms: seq<Message>): (rest: seq<Message>)
    requires ms != []
    ensures |rest| < |ms|
  {
    if CallIds(ms[0]) == [] then ms[1..] else Collect(CallIds(ms[0]), ms[1..]).1
  }

  lemma {:induction false} FirstUnit(ms: seq<Message>)
    requires ms != []
    ensures Units(ms) != [] && Units(ms)[1..] == Units(Behind(ms)) && Flat(Units(ms)[0])[0] == ms[0]
  {
  }

  /** What is left of a history before its `k`-th unit. */
  function Tail(ms: seq<Message>, k: nat): seq<Message>
    requires k <= |Units(ms)|
    decreases k
  {
    if k == 0 then ms
    else
      FirstUnit(ms);
      Tail(Behind(ms), k - 1)
  }

  predicate IsEnd<T(==)>(part: seq<T>, whole: seq<T>) {
    part == whole || (whole != [] && IsEnd(part, whole[1..]))
  }

  lemma {:induction false} EndTwice<T>(a: seq<T>, b: seq<T>, c: seq<T>)
    requires IsEnd(a, b) && IsEnd(b, c)
    ensures IsEnd(a, c)
  {
    if b != c {
      EndTwice(a, b, c[1..]);
    }
  }

  lemma {:induction false} EndLength<T>(part: seq<T>, whole: seq<T>)
    requires IsEnd(part, whole)
    ensures |part| <= |whole| && (|part| == |whole| ==> part == whole)
  {
    if part != whole {
      EndLength(part, whole[1..]);
    }
  }

  /** Of two ends of a history the shorter is an end of the longer. */
  lemma {:induction false} ShorterEnd<T>(a: seq<T>, b: seq<T>, whole: seq<T>)
    requires IsEnd(a, whole) && IsEnd(b, whole) && |a| <= |b|
    ensures IsEnd(a, b)
  {
    if b != whole {
      EndLength(b, whole[1..]);
      ShorterEnd(a, b, whole[1..]);
    }
  }

  lemma {:induction false} PartEnd<T>(a: seq<T>, b: seq<T>)
    ensures IsEnd(b, a + b)
  {
    if a == [] {
      assert a + b == b;
    } else {
      PartEnd(a[1..], b);
      assert (a + b)[1..] == a[1..] + b;
    }
  }

  lemma {:induction false} FrontOf<T>(part: seq<T>, whole: seq<T>) returns (front: seq<T>)
    requires IsEnd(part, whole)
    ensures whole == front + part
  {
    if part == whole {
      front := [];
      assert whole == [] + part;
    } else {
      var more := FrontOf(part, whole[1..]);
      front := [whole[0]] + more;
      ConsJoin(whole, more, part);
    }
  }

  lemma {:induction false} ConsJoin<T>(s: seq<T>, a: seq<T>, b: seq<T>)
    requires s != [] && s[1..] == a + b
    ensures s == ([s[0]] + a) + b
  {
  }

  lemma {:induction false} UnitsOfTail(ms: seq<Message>, k: nat)
    requires k <= |Units(ms)|
    ensures IsEnd(Units(Tail(ms, k)), Units(ms)) && |Units(Tail(ms, k))| == |Units(ms)| - k
    decreases k
  {
    if k > 0 {
      FirstUnit(ms);
      UnitsOfTail(Behind(ms), k - 1);
      EndTwice(Units(Tail(ms, k)), Units(Behind(ms)), Units(ms));
    }
  }

  lemma {:induction false} EndIsDrop<T>(part: seq<T>, whole: seq<T>)
    requires IsEnd(part, whole)
    ensures |part| <= |whole| && part == whole[|whole| - |part|..]
  {
    var front := FrontOf(part, whole);
  }

  /** Collecting passes over messages that start no turn, and stops before an end of the history it was given. */
  lemma {:induction false} CollectPasses(ids: seq<Id>, ms: seq<Message>) returns (passed: seq<Message>)
    ensures ms == passed + Collect(ids, ms).1
    ensures forall m | m in passed :: !StartsTurn(m)
  {
    passed := [];
    if ms != [] && !StartsTurn(ms[0]) {
      var more := CollectPasses(ids, ms[1..]);
      passed := [ms[0]] + more;
      ConsJoin(ms, more, Collect(ids, ms).1);
    } else {
      assert ms == [] + ms;
    }
  }

  /** The messages the first unit passes over after its own first message are none like that one. */
  lemma {:induction false} UnitPasses(ms: seq<Message>) returns (passed: seq<Message>)
    requires ms != []
    ensures ms == ([ms[0]] + passed) + Behind(ms) && ms[0] !in passed
  {
    if CallIds(ms[0]) == [] {
      passed := [];
      ConsJoin(ms, [], ms[1..]);
    } else {
      passed := CollectPasses(CallIds(ms[0]), ms[1..]);
      ConsJoin(ms, passed, Behind(ms));
    }
  }

  lemma {:induction false} BehindIsEnd(ms: seq<Message>)
    requires ms != []
    ensures IsEnd(Behind(ms), ms)
  {
    var passed := UnitPasses(ms);
    PartEnd([ms[0]] + passed, Behind(ms));
  }

  lemma {:induction false} TailIsEnd(ms: seq<Message>, k: nat)
    requires k <= |Units(ms)|
    ensures IsEnd(Tail(ms, k), ms)
    decreases k
  {
    if k > 0 {
      FirstUnit(ms);
      BehindIsEnd(ms);
      TailIsEnd(Behind(ms), k - 1);
      EndTwice(Tail(ms, k), Behind(ms), ms);
    }
  }

  lemma {:induction false} FrontIsEmpty<T>(first: T, passed: seq<T>, rest: seq<T>, front: seq<T>, kept: seq<T>)
    requires ([first] + passed) + rest == front + kept && |kept| > |rest| && kept[0] == first && first !in passed
    ensures front == []
  {
    var whole := front + kept;
    assert whole[|front|] == first;
    assert forall i | 1 <= i <= |passed| :: whole[i] == passed[i - 1];
  }

  /** What grouping keeps is the end of a history only when it is all of it. */
  lemma {:induction false} EndIsWhole(ms: seq<Message>)
    ensures IsEnd(FlatAll(Units(ms)), ms) ==> FlatAll(Units(ms)) == ms
    decreases |ms|
  {
    if ms != [] && IsEnd(FlatAll(Units(ms)), ms) {
      var rest := Behind(ms);
      FirstUnit(ms);
      UnitsBound(rest);
      var passed := UnitPasses(ms);
      PartEnd(Flat(Units(ms)[0]), FlatAll(Units(rest)));
      EndTwice(FlatAll(Units(rest)), FlatAll(Units(ms)), ms);
      BehindIsEnd(ms);
      ShorterEnd(FlatAll(Units(rest)), rest, ms);
      EndIsWhole(rest);
      var front := FrontOf(FlatAll(Units(ms)), ms);
      FrontIsEmpty(ms[0], passed, rest, front, FlatAll(Units(ms)));
    }
  }

  /** The units of an end of the history are its end too exactly when nothing stands between in that part. */
  lemma {:induction false} KeptIsEndIff(all: seq<Message>, tail: seq<Message>)
    requires IsEnd(tail, all)
    ensures IsEnd(FlatAll(Units(tail)), all) <==> NothingBetween(tail, [])
  {
    UnitsKeepAllIff(tail);
    UnitsBound(tail);
    EndIsWhole(tail);
    if IsEnd(FlatAll(Units(tail)), all) {
      ShorterEnd(FlatAll(Units(tail)), tail, all);
    }
  }

  /** The history from the newest three units on, or all of it. */
  function RecentTail(all: seq<Message>): seq<Message> {
    Tail(all, if |Units(all)| > KEEP_RECENT_UNITS then |Units(all)| - KEEP_RECENT_UNITS else 0)
  }

  /**
   A compaction keeps the newest three units, or all: those of the history from where the first of them starts. What it
   keeps is the end of the history exactly when, from there on, nothing stands between an exchange and the next turn;
   what was lost before does not matter.
   */
  lemma {:induction false} RecentIsEndIff(all: seq<Message>)
    ensures |RecentUnits(all)| == if |Units(all)| < 3 then |Units(all)| else 3
    ensures IsEnd(RecentTail(all), all) && RecentUnits(all) == Units(RecentTail(all))
    ensures IsEnd(FlatAll(RecentUnits(all)), all) <==> NothingBetween(RecentTail(all), [])
  {
    var k := if |Units(all)| > KEEP_RECENT_UNITS then |Units(all)| - KEEP_RECENT_UNITS else 0;
    UnitsOfTail(all, k);
    TailIsEnd(all, k);
    KeptIsEndIff(all, Tail(all, k));
    EndIsDrop(Units(Tail(all, k)), Units(all));
    DropNothing(Units(all));
  }
}
