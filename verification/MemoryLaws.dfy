/** What sliding and shrinking keep, on any history. */
module MemoryLaws {
  import opened Prelude
  import opened Utf8
  import opened History
  import opened Memories

  // ----- Sliding any history -----

  /** A message with a call of this id, or the answer to it. */
  predicate HasId(m: Message, id: Id) {
    id in CallIds(m) || m.toolCallId == Some(id)
  }

  lemma {:induction false} BearsIdIff(m: Message)
    ensures BearsId(m) <==> exists id :: HasId(m, id)
    ensures forall id :: id in IdsOf(m) <==> HasId(m, id)
  {
    if CallIds(m) != [] {
      assert HasId(m, CallIds(m)[0]);
    }
    if m.toolCallId.Some? {
      assert HasId(m, m.toolCallId.value);
    }
  }

  ghost predicate BearsIdBefore(ms: seq<Message>, k: nat)
    requires k <= |ms|
  {
    exists j, id | 0 <= j < k :: HasId(ms[j], id)
  }

  /** Whether the slide would stop at message `k` of `ms`: a user message with an id-bearing message before it. */
  ghost predicate StopsBefore(ms: seq<Message>, seen: bool, k: nat)
    requires k < |ms|
  {
    ms[k].role.User? && (seen || BearsIdBefore(ms, k))
  }

  lemma {:induction false} StopShifts(ms: seq<Message>, seen: bool, k: nat)
    requires 0 < k < |ms|
    ensures StopsBefore(ms, seen, k) <==> StopsBefore(ms[1..], seen || BearsId(ms[0]), k - 1)
  {
    BearsIdIff(ms[0]);
    if BearsIdBefore(ms, k) {
      var j, id :| 0 <= j < k && HasId(ms[j], id);
      assert j > 0 ==> HasId(ms[1..][j - 1], id);
    }
    if BearsIdBefore(ms[1..], k - 1) {
      var j, id :| 0 <= j < k - 1 && HasId(ms[1..][j], id);
      assert HasId(ms[j + 1], id);
    }
  }

  lemma {:induction false} SlideParts(ms: seq<Message>, seen: bool)
    ensures ms == Dropped(ms, seen) + Kept(ms, seen)
    ensures Kept(ms, seen) == [] || Kept(ms, seen)[0].role.User?
  {
    if !StopsAt(ms, seen) {
      SlideParts(ms[1..], seen || BearsId(ms[0]));
    }
  }

  lemma {:induction false} SlidePasses(ms: seq<Message>, seen: bool, k: nat)
    requires k < |Dropped(ms, seen)| <= |ms|
    ensures !StopsBefore(ms, seen, k)
  {
    if k > 0 {
      SlidePasses(ms[1..], seen || BearsId(ms[0]), k - 1);
      StopShifts(ms, seen, k);
    }
  }

  lemma {:induction false} SlideStops(ms: seq<Message>, seen: bool)
    requires |Dropped(ms, seen)| < |ms|
    ensures StopsBefore(ms, seen, |Dropped(ms, seen)|)
  {
    if !StopsAt(ms, seen) {
      SlideStops(ms[1..], seen || BearsId(ms[0]));
      StopShifts(ms, seen, |Dropped(ms, seen)|);
    }
  }

  /** The slide takes everything before the first message it may stop at, and everything if there is none. */
  lemma {:induction false} SlideStopsAtFirst(ms: seq<Message>, seen: bool)
    ensures var n := |Dropped(ms, seen)|;
            && ms == Dropped(ms, seen) + Kept(ms, seen)
            && (n < |ms| ==> StopsBefore(ms, seen, n))
            && forall k | 0 <= k < n :: !StopsBefore(ms, seen, k)
    ensures Kept(ms, seen) == [] || Kept(ms, seen)[0].role.User?
  {
    SlideParts(ms, seen);
    if |Dropped(ms, seen)| < |ms| {
      SlideStops(ms, seen);
    }
    forall k | 0 <= k < |Dropped(ms, seen)| ensures !StopsBefore(ms, seen, k) {
      SlidePasses(ms, seen, k);
    }
  }

  lemma {:induction false} SystemParts(ms: seq<Message>)
    ensures ms == SystemBlock(ms) + AfterSystem(ms)
    ensures forall m | m in SystemBlock(ms) :: m.role.System?
    ensures AfterSystem(ms) == [] || !AfterSystem(ms)[0].role.System?
  {
    if ms != [] && ms[0].role.System? {
      SystemParts(ms[1..]);
    }
  }

  lemma {:induction false} CalledIdsMeaning(ms: seq<Message>, id: Id)
    ensures id in CalledIds(ms) <==> Calls(ms, id)
  {
    if ms == [] {
    } else {
      CalledIdsMeaning(ms[1..], id);
      IdsOfSplit(ms, 1, id);
      CallsOfOne(ms[..1], id);
    }
  }

  lemma {:induction false} CallsOfOne(one: seq<Message>, id: Id)
    requires |one| == 1
    ensures Calls(one, id) <==> id in CallIds(one[0])
  {
    assert Calls(one, id) <==> id in CallIds(one[0]);
  }

  lemma {:induction false} CallsCons(m: Message, rest: seq<Message>, id: Id)
    ensures Calls([m] + rest, id) <==> id in CallIds(m) || Calls(rest, id)
  {
    IdsOfConcat([m], rest, id);
    assert Calls([m], id) <==> id in CallIds([m][0]);
  }

  lemma {:induction false} RetainedMeaning(ms: seq<Message>, called: set<Id>)
    ensures forall m | m in Retained(ms, called) && IsResult(m) :: m.toolCallId.value in called
    ensures forall id :: Calls(Retained(ms, called), id) <==> Calls(ms, id)
    ensures (forall m | m in ms && IsResult(m) :: m.toolCallId.value in called) ==> Retained(ms, called) == ms
  {
    if ms == [] {
    } else {
      var kept := Retained(ms[1..], called);
      RetainedMeaning(ms[1..], called);
      assert ms == [ms[0]] + ms[1..];
      forall id ensures Calls(Retained(ms, called), id) <==> Calls(ms, id) {
        CallsCons(ms[0], ms[1..], id);
        CallsCons(ms[0], kept, id);
      }
    }
  }

  ghost predicate NoOrphans(ms: seq<Message>) {
    forall m | m in ms && IsResult(m) :: Calls(ms, m.toolCallId.value)
  }

  /** What a slide makes of a window without its leading system block. */
  function Slid(rest: seq<Message>): seq<Message> {
    Retained(Kept(rest, false), CalledIds(Kept(rest, false)))
  }

  lemma {:induction false} SlidHasNoOrphans(rest: seq<Message>)
    ensures NoOrphans(Slid(rest))
    ensures rest != [] ==> |Slid(rest)| < |rest|
  {
    var kept := Kept(rest, false);
    RetainedMeaning(kept, CalledIds(kept));
    forall m | m in Slid(rest) && IsResult(m) ensures Calls(Slid(rest), m.toolCallId.value) {
      CalledIdsMeaning(kept, m.toolCallId.value);
    }
  }

  /**
   On any history at all, a slide keeps the leading system block in place, leaves no result whose call is gone, and
   strictly shrinks a history that has anything beyond that block.
   */
  lemma {:induction false} SlideAnyHistory(t: Tables)
    ensures SystemBlock(t.messages) <= Slide(t).messages
    ensures NoOrphans(Slide(t).messages)
    ensures AfterSystem(t.messages) != [] ==> |Slide(t).messages| < |t.messages|
  {
    var block, rest := SystemBlock(t.messages), AfterSystem(t.messages);
    SystemParts(t.messages);
    SlidHasNoOrphans(rest);
    forall m | m in block + Slid(rest) && IsResult(m) ensures Calls(block + Slid(rest), m.toolCallId.value) {
      IdsOfConcat(block, Slid(rest), m.toolCallId.value);
    }
  }

  // ----- Sliding a shaped history -----

  lemma {:induction false} PartsOf<T>(front: seq<T>, back: seq<T>)
    ensures (front + back)[..|front|] == front && (front + back)[|front|..] == back
    ensures back != [] ==> (front + back)[|front|] == back[0]
  {
  }

  lemma {:induction false} ShapeParts(front: seq<Message>, back: seq<Message>)
    requires ReplayShape(front + back) && (back == [] || !IsResult(back[0]))
    ensures ReplayShape(front) && ReplayShape(back)
  {
    PartsOf(front, back);
    ShapeTake(front + back, |front|);
    ShapeDrop(front + back, |front|);
  }

  lemma {:induction false} SystemPartsShape(ms: seq<Message>)
    requires ReplayShape(ms)
    ensures ReplayShape(SystemBlock(ms)) && ReplayShape(AfterSystem(ms))
  {
    if ms != [] && ms[0].role.System? {
      SystemPartsShape(ms[1..]);
      ShapeOfOne(ms[0]);
      ShapeJoin([ms[0]], SystemBlock(ms[1..]));
    }
  }

  lemma {:induction false} RetainsShaped(ms: seq<Message>)
    requires ReplayShape(ms)
    ensures Retained(ms, CalledIds(ms)) == ms
  {
    RetainedMeaning(ms, CalledIds(ms));
    forall m | m in ms && IsResult(m) ensures m.toolCallId.value in CalledIds(ms) {
      var id := m.toolCallId.value;
      assert AnsweredIn(ms, id);
      CallsAreAnswered(ms, id);
      CalledIdsMeaning(ms, id);
    }
  }

  /** Sliding a shaped history cuts between two units: the retain pass removes nothing and the shape is kept. */
  lemma {:induction false} SlideKeepsShape(t: Tables)
    requires ReplayShape(t.messages)
    ensures var rest := AfterSystem(t.messages);
            && t.messages == SystemBlock(t.messages) + Dropped(rest, false) + Kept(rest, false)
            && Slide(t).messages == SystemBlock(t.messages) + Kept(rest, false)
            && ReplayShape(Dropped(rest, false)) && ReplayShape(Slide(t).messages)
  {
    var rest := AfterSystem(t.messages);
    var dropped, kept := Dropped(rest, false), Kept(rest, false);
    SystemParts(t.messages);
    SystemPartsShape(t.messages);
    SlideStopsAtFirst(rest, false);
    ShapeParts(dropped, kept);
    RetainsShaped(kept);
    ShapeJoin(SystemBlock(t.messages), kept);
    Assoc(SystemBlock(t.messages), dropped, kept);
  }

  // ----- What shrinking does to each message -----

  /** A result whose text is over the limit and whose id is not yet marked. */
  predicate TooLong(m: Message, shrunk: set<Id>, policy: Policy) {
    IsResult(m) && m.toolCallId.value !in shrunk && policy.limit(m.content) < |m.content|
  }

  lemma {:induction false} ShrunkAt(t: Tables, n: nat, policy: Policy, i: nat)
    requires n <= |t.messages| && i < |t.messages|
    ensures i >= n ==> ShrinkDown(t, n, policy).messages[i] == t.messages[i]
    ensures !TooLong(t.messages[i], t.shrunk, policy) ==> ShrinkDown(t, n, policy).messages[i] == t.messages[i]
    ensures t.shrunk <= ShrinkDown(t, n, policy).shrunk
    decreases n
  {
    if n > 0 {
      ShrunkAt(ShrinkAt(t, n - 1, policy), n - 1, policy, i);
    }
  }

  lemma {:induction false} StoredStays(t: Tables, n: nat, policy: Policy, id: Id)
    requires n <= |t.messages| && id in t.shrunk
    ensures id in t.full ==> id in ShrinkDown(t, n, policy).full && ShrinkDown(t, n, policy).full[id] == t.full[id]
    decreases n
  {
    if n > 0 {
      StoredStays(ShrinkAt(t, n - 1, policy), n - 1, policy, id);
    }
  }

  lemma {:induction false} LastIsCut(t: Tables, n: nat, policy: Policy)
    requires 0 < n <= |t.messages| && TooLong(t.messages[n - 1], t.shrunk, policy)
    ensures var t', m := ShrinkDown(t, n, policy), t.messages[n - 1];
            var id, limit := m.toolCallId.value, policy.limit(m.content);
            && t'.messages[n - 1] == m.(content := Truncated(m.content, limit, policy.head(limit), id))
            && id in t'.shrunk && id in t'.full && t'.full[id] == m.content
  {
    var next := ShrinkAt(t, n - 1, policy);
    ShrunkAt(next, n - 1, policy, n - 1);
    StoredStays(next, n - 1, policy, t.messages[n - 1].toolCallId.value);
  }

  /** The newest result of its id that is too long is cut, marked, and its whole text stored. */
  lemma {:induction false} LongIsCut(t: Tables, n: nat, policy: Policy, i: nat)
    requires i < n <= |t.messages| && TooLong(t.messages[i], t.shrunk, policy)
    requires forall j | i < j < n && IsResult(t.messages[j]) :: t.messages[j].toolCallId != t.messages[i].toolCallId
    ensures var t', m := ShrinkDown(t, n, policy), t.messages[i];
            var id, limit := m.toolCallId.value, policy.limit(m.content);
            && t'.messages[i] == m.(content := Truncated(m.content, limit, policy.head(limit), id))
            && id in t'.shrunk && id in t'.full && t'.full[id] == m.content
    decreases n
  {
    if i < n - 1 {
      LongIsCut(ShrinkAt(t, n - 1, policy), n - 1, policy, i);
    } else {
      LastIsCut(t, n, policy);
    }
  }

  /**
   What a shrink does, message by message: those that are no results, are marked already, or are within the limit stay;
   the newest result of each id that is too long is cut, and its whole text stored under its id.
   */
  lemma {:induction false} ShrinkMeaning(t: Tables, policy: Policy, i: nat)
    requires i < |t.messages|
    ensures var t', m := Shrink(t, policy), t.messages[i];
            && |t'.messages| == |t.messages|
            && (!TooLong(m, t.shrunk, policy) ==> t'.messages[i] == m)
            && (TooLong(m, t.shrunk, policy)
                && (forall j | i < j < |t.messages| && IsResult(t.messages[j]) :: t.messages[j].toolCallId != m.toolCallId) ==>
                  var id, limit := m.toolCallId.value, policy.limit(m.content);
                  && t'.messages[i] == m.(content := Truncated(m.content, limit, policy.head(limit), id))
                  && id in t'.shrunk && id in t'.full && t'.full[id] == m.content)
  {
    ShrunkAt(t, |t.messages|, policy, i);
    if TooLong(t.messages[i], t.shrunk, policy)
       && forall j | i < j < |t.messages| && IsResult(t.messages[j]) :: t.messages[j].toolCallId != t.messages[i].toolCallId {
      LongIsCut(t, |t.messages|, policy, i);
    }
  }

  // ----- Shrinking twice -----

  ghost predicate SettledFrom(t: Tables, policy: Policy, i: nat) {
    forall j | i <= j < |t.messages| :: !Oversized(t.messages[j], t.shrunk, policy)
  }

  lemma {:induction false} ShrinkSettles(t: Tables, n: nat, policy: Policy)
    requires n <= |t.messages| && SettledFrom(t, policy, n)
    ensures SettledFrom(ShrinkDown(t, n, policy), policy, 0)
    decreases n
  {
    if n > 0 {
      assert SettledFrom(ShrinkAt(t, n - 1, policy), policy, n - 1);
      ShrinkSettles(ShrinkAt(t, n - 1, policy), n - 1, policy);
    }
  }

  lemma {:induction false} SettledStays(t: Tables, n: nat, policy: Policy)
    requires n <= |t.messages| && SettledFrom(t, policy, 0)
    ensures ShrinkDown(t, n, policy) == t
    decreases n
  {
    if n > 0 {
      SettledStays(t, n - 1, policy);
    }
  }

  /** Shrinking again with the same threshold changes nothing, on any history, even with repeated ids. */
  lemma {:induction false} ShrinkTwice(t: Tables, policy: Policy)
    ensures Shrink(Shrink(t, policy), policy) == Shrink(t, policy)
  {
    ShrinkSettles(t, |t.messages|, policy);
    SettledStays(Shrink(t, policy), |t.messages|, policy);
  }
}
