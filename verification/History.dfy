/**
 Conversation messages, the pairing of tool calls with tool results that providers demand, and the grouping of a
 history into units that may be kept or dropped whole.
 */
module History {
  import opened Prelude

  type Id = Bytes

  datatype Role = System | User | Assistant | Tool

  datatype Call = Call(id: Id, name: Bytes, arguments: Bytes)

  datatype Message = Message(
    role: Role,
    content: Bytes,
    toolCalls: Option<seq<Call>>,
    toolCallId: Option<Id>,
    reasoning: Option<Bytes>)

  function Plain(role: Role, content: Bytes): Message {
    Message(role, content, None, None, None)
  }

  function ResultMessage(id: Id, content: Bytes): Message {
    Message(Tool, content, None, Some(id), None)
  }

  /** The ids an assistant message calls, in order. */
  function CallIds(m: Message): seq<Id> {
    if m.role.Assistant? && m.toolCalls.Some?
    then seq(|m.toolCalls.value|, i requires 0 <= i < |m.toolCalls.value| => m.toolCalls.value[i].id)
    else []
  }

  predicate IsResult(m: Message) {
    m.role.Tool? && m.toolCallId.Some?
  }

  // ----- The replay shape -----

  predicate Answers(ids: seq<Id>, results: seq<Message>) {
    && |results| == |ids|
    && forall i | 0 <= i < |ids| :: IsResult(results[i]) && results[i].toolCallId.value == ids[i]
  }

  /** Each assistant message with calls c1..cn is followed by the results c1..cn, and results stand nowhere else. */
  ghost predicate ReplayShape(ms: seq<Message>) {
    ms == [] ||
    var n := |CallIds(ms[0])|;
    && ms[0].toolCallId.None?
    && n < |ms|
    && Answers(CallIds(ms[0]), ms[1..n + 1])
    && ReplayShape(ms[n + 1..])
  }

  lemma {:induction false} SlicesOfJoin<T>(a: seq<T>, b: seq<T>, m: nat)
    requires 0 < m <= |a|
    ensures (a + b)[1..m] == a[1..m] && (a + b)[m..] == a[m..] + b
  {
  }

  lemma {:induction false} ShapeJoin(a: seq<Message>, b: seq<Message>)
    requires ReplayShape(a) && ReplayShape(b)
    ensures ReplayShape(a + b)
    decreases |a|
  {
    if a == [] {
      assert a + b == b;
    } else {
      var m := |CallIds(a[0])| + 1;
      ShapeJoin(a[m..], b);
      SlicesOfJoin(a, b, m);
    }
  }

  /** A message that carries no call and answers none is a shape of its own. */
  lemma {:induction false} ShapeOfOne(m: Message)
    requires m.toolCallId.None? && CallIds(m) == []
    ensures ReplayShape([m])
  {
    assert [m][1..1] == [];
    assert [m][1..] == [];
  }

  lemma {:induction false} ShapeOfExchange(assistant: Message, results: seq<Message>)
    requires assistant.toolCallId.None? && Answers(CallIds(assistant), results)
    ensures ReplayShape([assistant] + results)
  {
    var ms := [assistant] + results;
    assert ms[1..|results| + 1] == results && ms[|results| + 1..] == [];
  }

  lemma {:induction false} DropTwice<T>(s: seq<T>, i: nat, j: nat)
    requires i + j <= |s|
    ensures s[i..][j..] == s[i + j..]
    ensures i + j < |s| ==> s[i..][j] == s[i + j]
  {
  }

  lemma {:induction false} ResultsOfFirst(ms: seq<Message>, k: nat)
    requires ReplayShape(ms) && ms != [] && 0 < k <= |ms| && (k < |ms| ==> !IsResult(ms[k]))
    ensures k > |CallIds(ms[0])|
  {
    var n := |CallIds(ms[0])|;
    forall i | 1 <= i <= n ensures IsResult(ms[i]) {
      assert ms[1..n + 1][i - 1] == ms[i];
    }
  }

  lemma {:induction false} DropUnit(ms: seq<Message>, k: nat) returns (rest: seq<Message>, j: nat)
    requires ReplayShape(ms) && 0 < k <= |ms| && (k < |ms| ==> !IsResult(ms[k]))
    ensures ReplayShape(rest) && |rest| < |ms| && j <= |rest| && (j < |rest| ==> !IsResult(rest[j]))
    ensures rest[j..] == ms[k..]
  {
    var n := |CallIds(ms[0])|;
    ResultsOfFirst(ms, k);
    rest, j := ms[n + 1..], k - n - 1;
    DropTwice(ms, n + 1, j);
  }

  /** Dropping the front of a history keeps the shape when what is left does not start with an answer to a dropped call. */
  lemma {:induction false} ShapeDrop(ms: seq<Message>, k: nat)
    requires ReplayShape(ms) && k <= |ms| && (k < |ms| ==> !IsResult(ms[k]))
    ensures ReplayShape(ms[k..])
    decreases |ms|
  {
    if k == 0 {
      DropNothing(ms);
    } else {
      var rest, j := DropUnit(ms, k);
      ShapeDrop(rest, j);
    }
  }

  lemma {:induction false} DropNothing<T>(s: seq<T>)
    ensures s[0..] == s
  {
  }

  lemma {:induction false} SlicesOfTake<T>(s: seq<T>, k: nat, m: nat)
    requires 0 < m <= k <= |s|
    ensures s[..k][1..m] == s[1..m] && s[..k][m..] == s[m..][..k - m]
    ensures k < |s| ==> s[m..][k - m] == s[k]
  {
  }

  lemma {:induction false} ShapeTake(ms: seq<Message>, k: nat)
    requires ReplayShape(ms) && k <= |ms| && (k < |ms| ==> !IsResult(ms[k]))
    ensures ReplayShape(ms[..k])
    decreases |ms|
  {
    if k > 0 {
      var m := |CallIds(ms[0])| + 1;
      ResultsOfFirst(ms, k);
      SlicesOfTake(ms, k, m);
      ShapeTake(ms[m..], k - m);
    }
  }

  /** Whether two histories differ at most in texts. */
  ghost predicate SameFrame(a: seq<Message>, b: seq<Message>) {
    |a| == |b| && forall i | 0 <= i < |a| :: b[i] == a[i].(content := b[i].content)
  }

  lemma {:induction false} ShapeIgnoresTexts(a: seq<Message>, b: seq<Message>)
    requires ReplayShape(a) && SameFrame(a, b)
    ensures ReplayShape(b)
    decreases |a|
  {
    if a != [] {
      var m := |CallIds(a[0])| + 1;
      assert CallIds(b[0]) == CallIds(a[0]);
      assert SameFrame(a[1..m], b[1..m]);
      assert SameFrame(a[m..], b[m..]);
      ShapeIgnoresTexts(a[m..], b[m..]);
    }
  }

  lemma {:induction false} OnlyResultsBearIds(ms: seq<Message>)
    requires ReplayShape(ms)
    ensures forall i | 0 <= i < |ms| && ms[i].toolCallId.Some? :: IsResult(ms[i])
    decreases |ms|
  {
    if ms != [] {
      var m := |CallIds(ms[0])| + 1;
      OnlyResultsBearIds(ms[m..]);
      forall i | 0 <= i < |ms| && ms[i].toolCallId.Some? ensures IsResult(ms[i]) {
        if 0 < i < m { assert ms[1..m][i - 1] == ms[i]; }
        if i >= m { assert ms[m..][i - m] == ms[i]; }
      }
    }
  }

  /** The ids called, and the ids answered, anywhere in a history. */
  ghost predicate Calls(ms: seq<Message>, id: Id) {
    exists i | 0 <= i < |ms| :: id in CallIds(ms[i])
  }

  ghost predicate AnsweredIn(ms: seq<Message>, id: Id) {
    exists i | 0 <= i < |ms| :: IsResult(ms[i]) && ms[i].toolCallId.value == id
  }

  lemma {:induction false} IdsOfConcat(a: seq<Message>, b: seq<Message>, id: Id)
    ensures Calls(a + b, id) <==> Calls(a, id) || Calls(b, id)
    ensures AnsweredIn(a + b, id) <==> AnsweredIn(a, id) || AnsweredIn(b, id)
  {
    assert forall i | 0 <= i < |a| :: (a + b)[i] == a[i];
    assert forall i | 0 <= i < |b| :: (a + b)[|a| + i] == b[i];
  }

  lemma {:induction false} IdsOfSplit(ms: seq<Message>, m: nat, id: Id)
    requires m <= |ms|
    ensures Calls(ms, id) <==> Calls(ms[..m], id) || Calls(ms[m..], id)
    ensures AnsweredIn(ms, id) <==> AnsweredIn(ms[..m], id) || AnsweredIn(ms[m..], id)
  {
    assert forall i | 0 <= i < m :: ms[..m][i] == ms[i];
    assert forall i | m <= i < |ms| :: ms[i] == ms[m..][i - m];
    assert forall i | 0 <= i < |ms| - m :: ms[m..][i] == ms[i + m];
  }

  lemma {:induction false} IdsOfUnit(unit: seq<Message>, id: Id)
    requires unit != [] && unit[0].toolCallId.None? && Answers(CallIds(unit[0]), unit[1..])
    ensures Calls(unit, id) <==> id in CallIds(unit[0])
    ensures AnsweredIn(unit, id) <==> id in CallIds(unit[0])
  {
    var ids := CallIds(unit[0]);
    assert forall i | 1 <= i < |unit| :: unit[i] == unit[1..][i - 1];
    if id in ids {
      var j :| 0 <= j < |ids| && ids[j] == id;
      assert IsResult(unit[j + 1]) && unit[j + 1].toolCallId.value == id;
    }
  }

  /** In the shape a call is present exactly when its answer is. */
  lemma {:induction false} CallsAreAnswered(ms: seq<Message>, id: Id)
    requires ReplayShape(ms)
    ensures Calls(ms, id) <==> AnsweredIn(ms, id)
    decreases |ms|
  {
    if ms != [] {
      var m := |CallIds(ms[0])| + 1;
      assert ms[..m][1..] == ms[1..m];
      IdsOfUnit(ms[..m], id);
      CallsAreAnswered(ms[m..], id);
      IdsOfSplit(ms, m, id);
    }
  }

  // ----- The guard that runs before every request -----

  datatype Violation = OrphanToolResult(id: Id)

  ghost predicate DeclaredBy(m: Message, id: Id) {
    m.toolCalls.Some? && exists c | c in m.toolCalls.value :: c.id == id
  }

  ghost predicate Declares(ms: seq<Message>, id: Id) {
    exists i | 0 <= i < |ms| :: DeclaredBy(ms[i], id)
  }

  /** The results whose call nobody declared, in order. */
  ghost function Orphans(all: seq<Message>, ms: seq<Message>): seq<Violation> {
    if ms == [] then []
    else (if IsResult(ms[0]) && !Declares(all, ms[0].toolCallId.value) then [OrphanToolResult(ms[0].toolCallId.value)] else [])
         + Orphans(all, ms[1..])
  }

  ghost function ReplayViolations(ms: seq<Message>): seq<Violation> {
    Orphans(ms, ms)
  }

  lemma {:induction false} OrphansNoneIff(all: seq<Message>, ms: seq<Message>)
    ensures Orphans(all, ms) == [] <==> forall i | 0 <= i < |ms| && IsResult(ms[i]) :: Declares(all, ms[i].toolCallId.value)
    decreases |ms|
  {
    if ms == [] {
    } else {
      OrphansNoneIff(all, ms[1..]);
      assert forall i | 1 <= i < |ms| :: ms[i] == ms[1..][i - 1];
      assert forall i | 0 <= i < |ms[1..]| :: ms[1..][i] == ms[i + 1];
    }
  }

  /** A history in the replay shape always passes the guard. */
  lemma {:induction false} ShapePassesGuard(ms: seq<Message>)
    requires ReplayShape(ms)
    ensures ReplayViolations(ms) == []
  {
    OrphansNoneIff(ms, ms);
    forall i | 0 <= i < |ms| && IsResult(ms[i]) ensures Declares(ms, ms[i].toolCallId.value) {
      var id := ms[i].toolCallId.value;
      CallsAreAnswered(ms, id);
      var k :| 0 <= k < |ms| && id in CallIds(ms[k]);
      var j :| 0 <= j < |CallIds(ms[k])| && CallIds(ms[k])[j] == id;
      assert ms[k].toolCalls.value[j] in ms[k].toolCalls.value;
      assert DeclaredBy(ms[k], id);
    }
  }

  // ----- Compression-safe units -----

  datatype Unit = Standalone(message: Message) | Exchange(assistant: Message, results: seq<Message>)

  function Flat(unit: Unit): seq<Message> {
    match unit
    case Standalone(m) => [m]
    case Exchange(assistant, results) => [assistant] + results
  }

  function FlatAll(units: seq<Unit>): seq<Message> {
    if units == [] then [] else Flat(units[0]) + FlatAll(units[1..])
  }

  predicate Matches(ids: seq<Id>, m: Message) {
    IsResult(m) && m.toolCallId.value in ids
  }

  /** The matching results up to the next user or assistant message, and the history from there on. */
  function Collect(ids: seq<Id>, ms: seq<Message>): (r: (seq<Message>, seq<Message>))
    ensures |r.0| + |r.1| <= |ms|
  {
    if ms == [] || StartsTurn(ms[0]) then ([], ms) else
    var (results, rest) := Collect(ids, ms[1..]);
    (if Matches(ids, ms[0]) then [ms[0]] + results else results, rest)
  }

  predicate StartsTurn(m: Message) {
    m.role.User? || m.role.Assistant?
  }

  function Units(ms: seq<Message>): seq<Unit>
    decreases |ms|
  {
    if ms == [] then []
    else if CallIds(ms[0]) == [] then [Standalone(ms[0])] + Units(ms[1..])
    else
      var (results, rest) := Collect(CallIds(ms[0]), ms[1..]);
      [Exchange(ms[0], results)] + Units(rest)
  }

  ghost predicate ShapedUnits(units: seq<Unit>) {
    forall i | 0 <= i < |units| :: ReplayShape(Flat(units[i]))
  }

  /** Any selection of shaped units, in any order, flattens to a shaped history. */
  lemma {:induction false} FlatOfShapedUnits(units: seq<Unit>)
    requires ShapedUnits(units)
    ensures ReplayShape(FlatAll(units))
  {
    if units == [] {
    } else {
      assert ShapedUnits(units[1..]);
      FlatOfShapedUnits(units[1..]);
      ShapeJoin(Flat(units[0]), FlatAll(units[1..]));
    }
  }

  /** Past the answers of its own calls an assistant message collects nothing in a shaped history, but it passes messages. */
  lemma {:induction false} CollectsNoMore(ids: seq<Id>, ms: seq<Message>)
    requires ReplayShape(ms)
    ensures Collect(ids, ms).0 == [] && ReplayShape(Collect(ids, ms).1)
  {
    if ms != [] && !StartsTurn(ms[0]) {
      assert CallIds(ms[0]) == [];
      CollectsNoMore(ids, ms[1..]);
    }
  }

  lemma {:induction false} CollectsAnswers(ids: seq<Id>, results: seq<Message>, after: seq<Message>)
    requires Collect(ids, after).0 == [] && forall i | 0 <= i < |results| :: Matches(ids, results[i])
    ensures Collect(ids, results + after) == (results, Collect(ids, after).1)
    decreases |results|
  {
    if results == [] {
      assert results + after == after;
    } else {
      assert Matches(ids, results[0]);
      CollectsAnswers(ids, results[1..], after);
      assert (results + after)[1..] == results[1..] + after;
      assert [results[0]] + results[1..] == results;
    }
  }

  lemma {:induction false} TailPart<T>(s: seq<T>, n: nat)
    requires n < |s|
    ensures s[1..] == s[1..n + 1] + s[n + 1..]
  {
  }

  lemma {:induction false} AnswersMatch(ids: seq<Id>, results: seq<Message>)
    requires Answers(ids, results)
    ensures forall i | 0 <= i < |results| :: Matches(ids, results[i])
  {
    forall i | 0 <= i < |results| ensures Matches(ids, results[i]) {
      assert ids[i] in ids;
    }
  }

  /** The first unit of a shaped history is the call with its answers; what grouping goes on with is shaped again. */
  lemma {:induction false} CollectOfShape(ms: seq<Message>)
    requires ReplayShape(ms) && ms != [] && CallIds(ms[0]) != []
    ensures Collect(CallIds(ms[0]), ms[1..]).0 == ms[1..|CallIds(ms[0])| + 1]
    ensures ReplayShape(Collect(CallIds(ms[0]), ms[1..]).1)
  {
    var ids := CallIds(ms[0]);
    var n := |ids|;
    TailPart(ms, n);
    CollectsNoMore(ids, ms[n + 1..]);
    AnswersMatch(ids, ms[1..n + 1]);
    CollectsAnswers(ids, ms[1..n + 1], ms[n + 1..]);
  }

  /** Grouping a shaped history gives only whole, shaped units. */
  lemma {:induction false} UnitsOfShape(ms: seq<Message>)
    requires ReplayShape(ms)
    ensures ShapedUnits(Units(ms))
    decreases |ms|
  {
    if ms == [] {
    } else if CallIds(ms[0]) == [] {
      UnitsOfShape(ms[1..]);
      ShapeOfOne(ms[0]);
    } else {
      CollectOfShape(ms);
      var (results, rest) := Collect(CallIds(ms[0]), ms[1..]);
      ShapeOfExchange(ms[0], results);
      UnitsOfShape(rest);
    }
  }

  lemma {:induction false} CollectMatches(ids: seq<Id>, ms: seq<Message>)
    ensures forall m | m in Collect(ids, ms).0 :: Matches(ids, m)
  {
    if ms != [] && !StartsTurn(ms[0]) {
      CollectMatches(ids, ms[1..]);
    }
  }

  /** A unit is one message without calls, or a message with calls and results for some of them. */
  predicate IsUnit(unit: Unit) {
    match unit
    case Standalone(m) => CallIds(m) == []
    case Exchange(assistant, results) =>
      CallIds(assistant) != [] && forall r | r in results :: IsResult(r) && r.toolCallId.value in CallIds(assistant)
  }

  /** Grouping makes only such units, so it never puts more together than it must. */
  lemma {:induction false} UnitsAreUnits(ms: seq<Message>)
    ensures forall unit | unit in Units(ms) :: IsUnit(unit)
    decreases |ms|
  {
    if ms == [] {
    } else if CallIds(ms[0]) == [] {
      UnitsAreUnits(ms[1..]);
    } else {
      CollectMatches(CallIds(ms[0]), ms[1..]);
      UnitsAreUnits(Collect(CallIds(ms[0]), ms[1..]).1);
    }
  }

  // ----- What grouping loses -----

  /**
   Every message other than a user or assistant message that stands behind an assistant message with calls, and before
   the next user or assistant message, answers one of those calls. `calls` are the calls open at the start.
   */
  predicate NothingBetween(ms: seq<Message>, calls: seq<Id>) {
    ms == [] ||
    if StartsTurn(ms[0]) then NothingBetween(ms[1..], CallIds(ms[0]))
    else (calls == [] || Matches(calls, ms[0])) && NothingBetween(ms[1..], calls)
  }

  lemma {:induction false} ConsEqual<T>(a: seq<T>, b: seq<T>, s: seq<T>)
    requires s != []
    ensures [s[0]] + a + b == s <==> a + b == s[1..]
  {
    assert [s[0]] + a + b == [s[0]] + (a + b);
    if [s[0]] + (a + b) == s {
      assert ([s[0]] + (a + b))[1..] == a + b;
    }
  }

  lemma {:induction false} Cancel<T>(a: seq<T>, b: seq<T>, c: seq<T>)
    requires a + b == a + c
    ensures b == c
  {
    assert (a + b)[|a|..] == b && (a + c)[|a|..] == c;
  }

  /** Collecting loses nothing exactly when everything it passes answers a call. */
  lemma {:induction false} CollectKeepsAllIff(ids: seq<Id>, ms: seq<Message>)
    requires ids != []
    ensures var (results, rest) := Collect(ids, ms);
            && (NothingBetween(ms, ids) <==> results + rest == ms && NothingBetween(rest, []))
            && (|results| + |rest| == |ms| ==> results + rest == ms)
  {
    if ms == [] || StartsTurn(ms[0]) {
      assert [] + ms == ms;
    } else {
      CollectKeepsAllIff(ids, ms[1..]);
      var (results, rest) := Collect(ids, ms[1..]);
      ConsEqual(results, rest, ms);
    }
  }

  /** Grouping never adds messages. */
  lemma {:induction false} UnitsBound(ms: seq<Message>)
    ensures |FlatAll(Units(ms))| <= |ms|
    decreases |ms|
  {
    if ms != [] {
      UnitsBound(if CallIds(ms[0]) == [] then ms[1..] else Collect(CallIds(ms[0]), ms[1..]).1);
    }
  }

  lemma {:induction false} ExchangeKeepsAllIff(ms: seq<Message>, results: seq<Message>, rest: seq<Message>, kept: seq<Message>)
    requires ms != [] && |kept| <= |rest| && |results| + |rest| <= |ms| - 1
    requires |results| + |rest| == |ms| - 1 ==> results + rest == ms[1..]
    ensures [ms[0]] + results + kept == ms <==> results + rest == ms[1..] && kept == rest
  {
    ConsEqual(results, kept, ms);
    if results + kept == ms[1..] {
      assert |results| + |kept| == |ms| - 1;
      Cancel(results, kept, rest);
    }
  }

  /**
   Grouping promises to keep every message in order. It does so exactly when nothing stands between a tool exchange
   and the next turn: a system message, or a tool message that answers nothing, right behind an exchange is lost.
   */
  lemma {:induction false} UnitsKeepAllIff(ms: seq<Message>)
    ensures FlatAll(Units(ms)) == ms <==> NothingBetween(ms, [])
    decreases |ms|
  {
    if ms == [] {
    } else if CallIds(ms[0]) == [] {
      UnitsKeepAllIff(ms[1..]);
      ConsEqual([], FlatAll(Units(ms[1..])), ms);
      assert [ms[0]] + [] == [ms[0]];
      assert [] + FlatAll(Units(ms[1..])) == FlatAll(Units(ms[1..]));
    } else {
      var (results, rest) := Collect(CallIds(ms[0]), ms[1..]);
      CollectKeepsAllIff(CallIds(ms[0]), ms[1..]);
      UnitsKeepAllIff(rest);
      UnitsBound(rest);
      ExchangeKeepsAllIff(ms, results, rest, FlatAll(Units(rest)));
    }
  }

  /** A system message right behind a tool exchange is lost. */
  lemma {:induction false} UnitsLoseSystem(call: Call, result: Bytes, system: Message)
    requires system.role.System?
    ensures var assistant := Message(Assistant, [], Some([call]), None, None);
            FlatAll(Units([assistant, ResultMessage(call.id, result), system])) == [assistant, ResultMessage(call.id, result)]
  {
    var assistant := Message(Assistant, [], Some([call]), None, None);
    var ms := [assistant, ResultMessage(call.id, result), system];
    assert CallIds(assistant) == [call.id];
    assert ms[1..] == [ms[1], system] && ms[1..][1..] == [system] && [system][1..] == [];
    assert Collect([call.id], [system]).0 == [] && Collect([call.id], [system]).1 == [];
    assert Collect([call.id], ms[1..]).0 == [ms[1]] && Collect([call.id], ms[1..]).1 == [];
    assert Units(ms) == [Exchange(assistant, [ms[1]])];
    assert [Exchange(assistant, [ms[1]])][1..] == [];
  }
}
