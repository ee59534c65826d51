/**
 The step loop of a sub-agent: each step sends the history to the model, and either appends the calls the model makes
 with one result for each, or its text. What the model, the tools and the clock do is given as one turn per step.
 */
module SubAgentLoop {
  import opened Prelude
  import opened History
  import opened Memories

  /** A call made by the model, the text that goes back as its result, and whether the tool was really executed. */
  datatype Invocation = Invocation(call: Call, result: Bytes, executed: bool)

  datatype Reply = Reply(text: Bytes, calls: seq<Invocation>, reasoning: Option<Bytes>, hasUsage: bool)

  /** Everything outside one step: cancellation and clock before it, the digest if it compacts, the model, and cancellation after its tools. */
  datatype Turn = Turn(cancelled: bool, overTime: bool, digest: Option<Bytes>, reply: Option<Reply>, cancelledAfter: bool)

  datatype Outcome = Answer(text: Bytes) | Cancelled | TimeExceeded | CallsExceeded | ReplayRejected | ProviderFailed | StepsExhausted

  function CallsMessage(reply: Reply): Message {
    Message(Assistant, reply.text, Some(seq(|reply.calls|, i requires 0 <= i < |reply.calls| => reply.calls[i].call)),
            None, reply.reasoning)
  }

  function ResultMessages(calls: seq<Invocation>): seq<Message> {
    seq(|calls|, i requires 0 <= i < |calls| => ResultMessage(calls[i].call.id, calls[i].result))
  }

  /** What a reply adds to the history. */
  function Added(reply: Option<Reply>): seq<Message> {
    if reply.None? then []
    else if reply.value.calls != [] then [CallsMessage(reply.value)] + ResultMessages(reply.value.calls)
    else if reply.value.text == [] && !reply.value.hasUsage then []
    else [Message(Assistant, reply.value.text, None, None, reply.value.reasoning)]
  }

  function Executed(calls: seq<Invocation>): nat {
    if calls == [] then 0 else (if calls[0].executed then 1 else 0) + Executed(calls[1..])
  }

  lemma {:induction false} AddedIsShaped(reply: Option<Reply>)
    ensures ReplayShape(Added(reply))
  {
    if reply.Some? {
      if reply.value.calls != [] {
        assert Answers(CallIds(CallsMessage(reply.value)), ResultMessages(reply.value.calls));
        ShapeOfExchange(CallsMessage(reply.value), ResultMessages(reply.value.calls));
      } else {
        ShapeOfOne(Message(Assistant, reply.value.text, None, None, reply.value.reasoning));
      }
    }
  }

  /** What a reply adds, message by message: its calls and text and reasoning, and for each call its result, in order. */
  lemma {:induction false} AddedMeaning(reply: Reply)
    ensures reply.calls != [] ==>
              var ms := Added(Some(reply));
              && |ms| == |reply.calls| + 1
              && ms[0].role == Assistant && ms[0].content == reply.text && ms[0].reasoning == reply.reasoning
              && ms[0].toolCallId == None && ms[0].toolCalls.Some? && |ms[0].toolCalls.value| == |reply.calls|
              && (forall k | 0 <= k < |reply.calls| :: ms[0].toolCalls.value[k] == reply.calls[k].call)
              && forall k | 0 <= k < |reply.calls| ::
                   ms[k + 1] == Message(Tool, reply.calls[k].result, None, Some(reply.calls[k].call.id), None)
    ensures reply.calls == [] && (reply.text != [] || reply.hasUsage) ==>
              Added(Some(reply)) == [Message(Assistant, reply.text, None, None, reply.reasoning)]
    ensures reply.calls == [] && reply.text == [] && !reply.hasUsage ==> Added(Some(reply)) == []
  {
  }

  /** One provider request: the turn it was made in, the history sent, and how many tools had been executed by then. */
  datatype Request = Request(turn: Turn, history: seq<Message>, executed: nat)

  /** The loop's state, with the requests made so far. */
  datatype State = State(messages: seq<Message>, executed: nat, requests: seq<Request>)

  /** Whether and how the loop ends after a reply. */
  function AfterReply(reply: Reply, cancelled: bool): Option<Outcome> {
    if reply.calls != [] then if cancelled then Some(Cancelled) else None
    else if reply.text != [] && reply.hasUsage then Some(Answer(reply.text))
    else if reply.text == [] && !reply.hasUsage then Some(StepsExhausted)
    else None
  }

  function Compacted(ms: seq<Message>, digest: Option<Bytes>): seq<Message> {
    if digest.Some? then [DigestMessage(digest.value, None)] else ms
  }

  function Respond(s: State, turn: Turn): (State, Option<Outcome>) {
    if turn.reply.None? then (s, Some(ProviderFailed)) else
    var reply := turn.reply.value;
    (State(s.messages + Added(turn.reply), s.executed + Executed(reply.calls), s.requests),
     AfterReply(reply, turn.cancelledAfter))
  }

  /** One step: stop early, or compact, pass the guard, ask the model and append what it replies. */
  ghost function Step(pinned: seq<Message>, s: State, turn: Turn, callLimit: Option<nat>): (State, Option<Outcome>) {
    if turn.cancelled then (s, Some(Cancelled))
    else if callLimit.Some? && turn.overTime then (s, Some(TimeExceeded))
    else if callLimit.Some? && s.executed >= callLimit.value then (s, Some(CallsExceeded))
    else
      var ms := Compacted(s.messages, turn.digest);
      if ReplayViolations(pinned + ms) != [] then (s.(messages := ms), Some(ReplayRejected))
      else Respond(State(ms, s.executed, s.requests + [Request(turn, pinned + ms, s.executed)]), turn)
  }

  ghost function Run(pinned: seq<Message>, s: State, turns: seq<Turn>, callLimit: Option<nat>): (State, Outcome)
    decreases |turns|
  {
    if turns == [] then (s, StepsExhausted) else
    var (s', stop) := Step(pinned, s, turns[0], callLimit);
    if stop.Some? then (s', stop.value) else Run(pinned, s', turns[1..], callLimit)
  }

  lemma {:induction false} ResultMessagesSnoc(calls: seq<Invocation>, k: nat)
    requires k < |calls|
    ensures ResultMessages(calls[..k + 1]) == ResultMessages(calls[..k]) + [ResultMessage(calls[k].call.id, calls[k].result)]
    ensures Executed(calls[..k + 1]) == Executed(calls[..k]) + if calls[k].executed then 1 else 0
  {
    ExecutedSnoc(calls[..k], calls[k]);
    assert calls[..k + 1] == calls[..k] + [calls[k]];
  }

  lemma {:induction false} ExecutedSnoc(calls: seq<Invocation>, last: Invocation)
    ensures Executed(calls + [last]) == Executed(calls) + if last.executed then 1 else 0
  {
    if calls == [] {
      assert ([] + [last])[1..] == [];
    } else {
      assert (calls + [last])[1..] == calls[1..] + [last];
      ExecutedSnoc(calls[1..], last);
    }
  }

  /** Append one result for every call, in order, and count the calls that were executed. */
  method AppendResults(memory: Memory, calls: seq<Invocation>) returns (executed: nat)
    modifies memory`messages
    ensures memory.messages == old(memory.messages) + ResultMessages(calls)
    ensures executed == Executed(calls)
  {
    executed := 0;
    for i := 0 to |calls|
      invariant memory.messages == old(memory.messages) + ResultMessages(calls[..i])
      invariant executed == Executed(calls[..i])
    {
      ResultMessagesSnoc(calls, i);
      if calls[i].executed {
        executed := executed + 1;
      }
      memory.AddMessage(ResultMessage(calls[i].call.id, calls[i].result));
    }
    assert calls[..|calls|] == calls;
  }

  /** What one step does to the history after its request: append what the reply adds. */
  method AppendReply(memory: Memory, reply: Reply) returns (executed: nat)
    modifies memory`messages
    ensures memory.messages == old(memory.messages) + Added(Some(reply))
    ensures executed == Executed(reply.calls)
  {
    executed := 0;
    if reply.calls != [] {
      memory.AddMessage(CallsMessage(reply));
      executed := AppendResults(memory, reply.calls);
    } else if reply.text != [] || reply.hasUsage {
      memory.AddMessage(Message(Assistant, reply.text, None, None, reply.reasoning));
    } else {
      assert memory.messages == memory.messages + [];
    }
  }

  /** One step of the loop on the object; `stop` is the outcome when the loop ends here. */
  method RunStep(memory: Memory, turn: Turn, callLimit: Option<nat>, executed: nat, ghost requests: seq<Request>)
    returns (stop: Option<Outcome>, executed': nat, ghost requests': seq<Request>)
    modifies memory`messages, memory`shrunkMessages
    ensures (State(memory.messages, executed', requests'), stop)
            == Step(memory.pinned, State(old(memory.messages), executed, requests), turn, callLimit)
  {
    executed', requests' := executed, requests;
    if turn.cancelled {
      return Some(Cancelled), executed', requests';
    }
    if callLimit.Some? {
      if turn.overTime {
        return Some(TimeExceeded), executed', requests';
      }
      if executed >= callLimit.value {
        return Some(CallsExceeded), executed', requests';
      }
    }
    if turn.digest.Some? {
      memory.Compact(turn.digest.value, None);
    }
    var messages := memory.GetAll();
    var accepted := Validate(messages);
    if !accepted {
      return Some(ReplayRejected), executed', requests';
    }
    requests' := requests' + [Request(turn, messages, executed)];
    if turn.reply.None? {
      return Some(ProviderFailed), executed', requests';
    }
    var more := AppendReply(memory, turn.reply.value);
    executed' := executed + more;
    var reply := turn.reply.value;
    if reply.calls != [] {
      stop := if turn.cancelledAfter then Some(Cancelled) else None;
    } else if reply.text != [] && reply.hasUsage {
      stop := Some(Answer(reply.text));
    } else if reply.text == [] && !reply.hasUsage {
      stop := Some(StepsExhausted);
    } else {
      stop := None;
    }
  }

  /** Run a sub-agent on `goal` for at most `maxSteps` steps. */
  method RunSubAgentLoop(memory: Memory, goal: Bytes, turns: seq<Turn>, maxSteps: nat, callLimit: Option<nat>)
    returns (outcome: Outcome, ghost final: State)
    requires |turns| >= maxSteps
    modifies memory`messages, memory`shrunkMessages
    ensures (final, outcome) ==
            Run(memory.pinned, State(old(memory.messages) + [Plain(User, goal)], 0, []), turns[..maxSteps], callLimit)
    ensures memory.messages == final.messages
  {
    memory.AddMessage(Plain(User, goal));
    var executed: nat := 0;
    ghost var requests: seq<Request> := [];
    ghost var start := State(memory.messages, 0, []);
    for step := 0 to maxSteps
      invariant Run(memory.pinned, State(memory.messages, executed, requests), turns[step..maxSteps], callLimit)
                == Run(memory.pinned, start, turns[..maxSteps], callLimit)
    {
      assert turns[step..maxSteps][1..] == turns[step + 1..maxSteps];
      var stop;
      stop, executed, requests := RunStep(memory, turns[step], callLimit, executed, requests);
      if stop.Some? {
        return stop.value, State(memory.messages, executed, requests);
      }
    }
    return StepsExhausted, State(memory.messages, executed, requests);
  }

  // ----- What every run keeps -----

  /** The history after the last request was answered. */
  function HistoryAfter(start: seq<Message>, requests: seq<Request>): seq<Message> {
    if requests == [] then start
    else requests[|requests| - 1].history + Added(requests[|requests| - 1].turn.reply)
  }

  /** A request starts from the history before the step, or from a digest of it. */
  ghost predicate StartsFrom(pinned: seq<Message>, before: seq<Message>, digest: Option<Bytes>, history: seq<Message>) {
    if digest.Some? then history == pinned + Compacted([], digest) else history == before
  }

  /** Requests within the call limit, each continuing what the one before it and its reply left. */
  ghost predicate Continuous(start: seq<Message>, pinned: seq<Message>, limit: Option<nat>, requests: seq<Request>)
    decreases |requests|
  {
    requests == [] ||
    var last := requests[|requests| - 1];
    var before := requests[..|requests| - 1];
    && Continuous(start, pinned, limit, before)
    && (limit.Some? ==> last.executed < limit.value)
    && StartsFrom(pinned, HistoryAfter(start, before), last.turn.digest, last.history)
  }

  /** What a step does when the guard accepts: it stops without a request, or makes exactly one. */
  ghost predicate Proceeds(s: State, turn: Turn, limit: Option<nat>) {
    !turn.cancelled && (limit.Some? ==> !turn.overTime && s.executed < limit.value)
  }

  lemma {:induction false} CompactedIsShaped(ms: seq<Message>, digest: Option<Bytes>)
    requires ReplayShape(ms)
    ensures ReplayShape(Compacted(ms, digest))
  {
    if digest.Some? {
      ShapeOfOne(Compacted(ms, digest)[0]);
    }
  }

  /** One step from a shaped memory: the guard accepts, the request is shaped, and so is what is left. */
  lemma {:induction false} StepKeepsShape(pinned: seq<Message>, s: State, turn: Turn, limit: Option<nat>)
    requires ReplayShape(pinned) && ReplayShape(s.messages)
    ensures var (s', stop) := Step(pinned, s, turn, limit);
            && ReplayShape(s'.messages)
            && stop != Some(ReplayRejected)
            && (s'.requests == s.requests ||
                exists r :: s'.requests == s.requests + [r] && ReplayShape(r.history))
  {
    if Proceeds(s, turn, limit) {
      var ms := Compacted(s.messages, turn.digest);
      CompactedIsShaped(s.messages, turn.digest);
      ShapeJoin(pinned, ms);
      ShapePassesGuard(pinned + ms);
      AddedIsShaped(turn.reply);
      ShapeJoin(ms, Added(turn.reply));
    }
  }

  ghost predicate ShapedRequests(requests: seq<Request>) {
    forall k | 0 <= k < |requests| :: ReplayShape(requests[k].history)
  }

  /**
   Whatever the model and the tools do, every request of a run from a shaped memory is in the replay shape, and the
   guard before the provider never rejects one.
   */
  lemma {:induction false} RunKeepsShape(pinned: seq<Message>, s: State, turns: seq<Turn>, limit: Option<nat>)
    requires ReplayShape(pinned) && ReplayShape(s.messages) && ShapedRequests(s.requests)
    ensures var (final, outcome) := Run(pinned, s, turns, limit);
            ReplayShape(final.messages) && ShapedRequests(final.requests) && outcome != ReplayRejected
    decreases |turns|
  {
    if turns != [] {
      StepKeepsShape(pinned, s, turns[0], limit);
      var (s', stop) := Step(pinned, s, turns[0], limit);
      if stop.None? {
        RunKeepsShape(pinned, s', turns[1..], limit);
      }
    }
  }

  /** The bookkeeping of a run that was never rejected. */
  ghost predicate Accounted(start: seq<Message>, pinned: seq<Message>, limit: Option<nat>, s: State) {
    Continuous(start, pinned, limit, s.requests) && pinned + s.messages == HistoryAfter(start, s.requests)
  }

  /** The answer is the text of the reply to the last request. */
  ghost predicate AnsweredBy(requests: seq<Request>, text: Bytes) {
    && requests != []
    && requests[|requests| - 1].turn.reply.Some?
    && requests[|requests| - 1].turn.reply.value.text == text
  }

  lemma {:induction false} ContinuousSnoc(start: seq<Message>, pinned: seq<Message>, limit: Option<nat>, before: seq<Request>, r: Request)
    requires Continuous(start, pinned, limit, before)
    requires limit.Some? ==> r.executed < limit.value
    requires StartsFrom(pinned, HistoryAfter(start, before), r.turn.digest, r.history)
    ensures Continuous(start, pinned, limit, before + [r])
    ensures HistoryAfter(start, before + [r]) == r.history + Added(r.turn.reply)
  {
    assert (before + [r])[..|before|] == before;
  }

  lemma {:induction false} ReplyIsAccounted(start: seq<Message>, pinned: seq<Message>, limit: Option<nat>, s: State, turn: Turn)
    requires Continuous(start, pinned, limit, s.requests)
    requires HistoryAfter(start, s.requests) == pinned + s.messages + Added(turn.reply)
    ensures Accounted(start, pinned, limit, Respond(s, turn).0)
  {
    if turn.reply.None? {
      NothingBehind(pinned + s.messages);
    } else {
      Assoc(pinned, s.messages, Added(turn.reply));
    }
  }

  lemma {:induction false} StepIsAccounted(start: seq<Message>, pinned: seq<Message>, limit: Option<nat>, s: State, turn: Turn)
    requires Accounted(start, pinned, limit, s)
    ensures var (s', stop) := Step(pinned, s, turn, limit);
            stop != Some(ReplayRejected) ==> Accounted(start, pinned, limit, s')
  {
    if Proceeds(s, turn, limit) {
      var ms := Compacted(s.messages, turn.digest);
      var r := Request(turn, pinned + ms, s.executed);
      ContinuousSnoc(start, pinned, limit, s.requests, r);
      ReplyIsAccounted(start, pinned, limit, State(ms, s.executed, s.requests + [r]), turn);
    }
  }

  lemma {:induction false} StepAnswers(pinned: seq<Message>, s: State, turn: Turn, limit: Option<nat>)
    ensures var (s', stop) := Step(pinned, s, turn, limit);
            stop.Some? && stop.value.Answer? ==> AnsweredBy(s'.requests, stop.value.text)
  {
  }

  lemma {:induction false} NothingBehind<T>(a: seq<T>)
    ensures a + [] == a
  {
  }

  /**
   Each request of a run is the previous one plus what its reply added, unless the step compacted; none is made once
   the call limit is reached, and the final answer is the last reply's text.
   */
  lemma {:induction false} RunIsAccounted(start: seq<Message>, pinned: seq<Message>, limit: Option<nat>, s: State, turns: seq<Turn>)
    requires Accounted(start, pinned, limit, s)
    ensures var (final, outcome) := Run(pinned, s, turns, limit);
            && (outcome != ReplayRejected ==> Accounted(start, pinned, limit, final))
            && (outcome.Answer? ==> AnsweredBy(final.requests, outcome.text))
    decreases |turns|
  {
    if turns != [] {
      StepIsAccounted(start, pinned, limit, s, turns[0]);
      StepAnswers(pinned, s, turns[0], limit);
      var (s', stop) := Step(pinned, s, turns[0], limit);
      if stop.None? {
        RunIsAccounted(start, pinned, limit, s', turns[1..]);
      }
    }
  }

  function TurnsOf(requests: seq<Request>): seq<Turn> {
    seq(|requests|, i requires 0 <= i < |requests| => requests[i].turn)
  }

  /** At most one request is made per step, in order: the turns answered are a prefix of the turns given. */
  lemma {:induction false} OneRequestPerStep(pinned: seq<Message>, s: State, turns: seq<Turn>, limit: Option<nat>) returns (made: seq<Turn>)
    ensures made <= turns
    ensures TurnsOf(Run(pinned, s, turns, limit).0.requests) == TurnsOf(s.requests) + made
    decreases |turns|
  {
    made := [];
    if turns == [] {
      return;
    }
    var (s', stop) := Step(pinned, s, turns[0], limit);
    if s'.requests == s.requests {
      return;
    }
    assert TurnsOf(s'.requests) == TurnsOf(s.requests) + [turns[0]];
    if stop.Some? {
      made := [turns[0]];
    } else {
      var rest := OneRequestPerStep(pinned, s', turns[1..], limit);
      made := [turns[0]] + rest;
    }
  }

  // ----- When a run goes on, and how it ends -----

  /** The tool executions of these turns. */
  function ExecutedIn(turns: seq<Turn>): nat {
    if turns == [] then 0
    else
      var reply := turns[|turns| - 1].reply;
      ExecutedIn(turns[..|turns| - 1]) + if reply.Some? then |ExecutedOf(reply.value.calls)| else 0
  }

  /** The calls that were executed. */
  function ExecutedOf(calls: seq<Invocation>): set<nat> {
    set k: nat | k < |calls| && calls[k].executed
  }

  /** Neither cancellation nor a limit stops the step before its request. */
  predicate MayAsk(turn: Turn, executed: nat, limit: Option<nat>) {
    !turn.cancelled && (limit.None? || (!turn.overTime && executed < limit.value))
  }

  /** The reply asks for another step: it made calls and nothing cancelled the run, or it was half of an answer. */
  predicate AsksOn(turn: Turn) {
    && turn.reply.Some?
    && var reply := turn.reply.value;
       (reply.calls != [] && !turn.cancelledAfter) || (reply.calls == [] && ((reply.text != []) <==> !reply.hasUsage))
  }

  /** Why a run ends in a turn, after `executed` tool executions; `rejected` is what the guard says of its history. */
  predicate EndsIn(turn: Turn, executed: nat, limit: Option<nat>, rejected: bool, outcome: Outcome) {
    match outcome
    case Cancelled =>
      turn.cancelled
      || (MayAsk(turn, executed, limit) && !rejected && turn.reply.Some? && turn.reply.value.calls != [] && turn.cancelledAfter)
    case TimeExceeded => !turn.cancelled && limit.Some? && turn.overTime
    case CallsExceeded => !turn.cancelled && limit.Some? && !turn.overTime && executed >= limit.value
    case ReplayRejected => MayAsk(turn, executed, limit) && rejected
    case ProviderFailed => MayAsk(turn, executed, limit) && !rejected && turn.reply.None?
    case Answer(text) =>
      && MayAsk(turn, executed, limit) && !rejected && turn.reply.Some?
      && turn.reply.value.calls == [] && turn.reply.value.hasUsage && text == turn.reply.value.text != []
    case StepsExhausted =>
      && MayAsk(turn, executed, limit) && !rejected && turn.reply.Some?
      && turn.reply.value.calls == [] && turn.reply.value.text == [] && !turn.reply.value.hasUsage
  }

  ghost predicate Rejects(pinned: seq<Message>, ms: seq<Message>, turn: Turn) {
    exists i | 0 <= i < |pinned + Compacted(ms, turn.digest)| ::
      var all := pinned + Compacted(ms, turn.digest);
      IsResult(all[i]) && !Declares(all, all[i].toolCallId.value)
  }

  lemma {:induction false} RejectsIff(pinned: seq<Message>, ms: seq<Message>, turn: Turn)
    ensures Rejects(pinned, ms, turn) <==> ReplayViolations(pinned + Compacted(ms, turn.digest)) != []
  {
    OrphansNoneIff(pinned + Compacted(ms, turn.digest), pinned + Compacted(ms, turn.digest));
  }

  /** A step ends the run for exactly these reasons, and otherwise goes on, having made its request. */
  lemma {:induction false} StepEndsIff(pinned: seq<Message>, s: State, turn: Turn, limit: Option<nat>)
    ensures var (s', stop) := Step(pinned, s, turn, limit);
            var rejected := Rejects(pinned, s.messages, turn);
            && (stop.Some? ==> EndsIn(turn, s.executed, limit, rejected, stop.value))
            && (stop.None? <==> MayAsk(turn, s.executed, limit) && !rejected && AsksOn(turn))
            && TurnsOf(s'.requests) == TurnsOf(s.requests) + (if MayAsk(turn, s.executed, limit) && !rejected then [turn] else [])
            && (stop.None? ==> s'.executed == s.executed + |ExecutedOf(turn.reply.value.calls)|)
  {
    RejectsIff(pinned, s.messages, turn);
    if turn.reply.Some? {
      ExecutedIsCount(turn.reply.value.calls);
    }
  }

  lemma {:induction false} ExecutedOfSnoc(calls: seq<Invocation>, last: Invocation)
    ensures |ExecutedOf(calls + [last])| == |ExecutedOf(calls)| + if last.executed then 1 else 0
  {
    assert ExecutedOf(calls + [last]) == ExecutedOf(calls) + if last.executed then {|calls|} else {};
  }

  lemma {:induction false} ExecutedIsCount(calls: seq<Invocation>)
    ensures Executed(calls) == |ExecutedOf(calls)|
  {
    if calls == [] {
      assert ExecutedOf(calls) == {};
    } else {
      var n := |calls| - 1;
      ExecutedIsCount(calls[..n]);
      ExecutedSnoc(calls[..n], calls[n]);
      ExecutedOfSnoc(calls[..n], calls[n]);
      assert calls == calls[..n] + [calls[n]];
    }
  }

  /** All of these turns make their request, and all their replies ask for another step. */
  predicate AllAskOn(turns: seq<Turn>, executed: nat, limit: Option<nat>) {
    turns == [] ||
    var before, last := turns[..|turns| - 1], turns[|turns| - 1];
    AllAskOn(before, executed, limit) && MayAsk(last, executed + ExecutedIn(before), limit) && AsksOn(last)
  }

  lemma {:induction false} AskOnSnoc(before: seq<Turn>, turn: Turn, executed: nat, limit: Option<nat>)
    requires AllAskOn(before, executed, limit) && MayAsk(turn, executed + ExecutedIn(before), limit) && AsksOn(turn)
    ensures AllAskOn(before + [turn], executed, limit)
    ensures ExecutedIn(before + [turn]) == ExecutedIn(before) + |ExecutedOf(turn.reply.value.calls)|
  {
    assert (before + [turn])[..|before|] == before;
  }

  /** What ends a run in its next turn, from the state `at`, and the request made there, if any. */
  ghost predicate EndsNext(pinned: seq<Message>, at: State, turn: Turn, limit: Option<nat>, final: State, outcome: Outcome) {
    var rejected := Rejects(pinned, at.messages, turn);
    && EndsIn(turn, at.executed, limit, rejected, outcome)
    && TurnsOf(final.requests) == TurnsOf(at.requests) + if MayAsk(turn, at.executed, limit) && !rejected then [turn] else []
  }

  /** The turns that go on, the state behind them, and what is left of the turns. */
  ghost predicate WentOn(pinned: seq<Message>, s: State, turns: seq<Turn>, limit: Option<nat>,
                         passed: seq<Turn>, at: State, left: seq<Turn>) {
    && turns == passed + left && AllAskOn(passed, s.executed, limit)
    && TurnsOf(at.requests) == TurnsOf(s.requests) + passed && at.executed == s.executed + ExecutedIn(passed)
    && Run(pinned, at, left, limit) == Run(pinned, s, turns, limit)
  }

  lemma {:induction false} OneFurther<T>(passed: seq<T>, left: seq<T>)
    requires left != []
    ensures passed + left == (passed + [left[0]]) + left[1..]
  {
  }

  lemma {:induction false} RunGoesOn(pinned: seq<Message>, at: State, left: seq<Turn>, limit: Option<nat>)
    requires left != [] && Step(pinned, at, left[0], limit).1.None?
    ensures Run(pinned, at, left, limit) == Run(pinned, Step(pinned, at, left[0], limit).0, left[1..], limit)
  {
  }

  lemma {:induction false} RequestsGrow(before: seq<Turn>, passed: seq<Turn>, turn: Turn, at: seq<Turn>, next: seq<Turn>)
    requires at == before + passed && next == at + [turn]
    ensures next == before + (passed + [turn])
  {
  }

  lemma {:induction false} WentOnStep(pinned: seq<Message>, s: State, turns: seq<Turn>, limit: Option<nat>,
                                      passed: seq<Turn>, at: State, left: seq<Turn>)
    requires WentOn(pinned, s, turns, limit, passed, at, left) && left != [] && Step(pinned, at, left[0], limit).1.None?
    ensures WentOn(pinned, s, turns, limit, passed + [left[0]], Step(pinned, at, left[0], limit).0, left[1..])
  {
    var turn, next := left[0], Step(pinned, at, left[0], limit).0;
    assert MayAsk(turn, at.executed, limit) && AsksOn(turn) && TurnsOf(next.requests) == TurnsOf(at.requests) + [turn]
           && next.executed == at.executed + |ExecutedOf(turn.reply.value.calls)| by {
      StepEndsIff(pinned, at, turn, limit);
    }
    RunGoesOn(pinned, at, left, limit);
    AskOnSnoc(passed, turn, s.executed, limit);
    RequestsGrow(TurnsOf(s.requests), passed, turn, TurnsOf(at.requests), TurnsOf(next.requests));
    OneFurther(passed, left);
  }

  /**
   How a run goes: it makes a request in each of its first turns, all of whose replies ask for another step, and then
   either no turn is left or the next one ends it, for the reason its outcome names. `at` is the state there.
   */
  lemma {:induction false} RunEnds(pinned: seq<Message>, s: State, turns: seq<Turn>, limit: Option<nat>)
    returns (passed: seq<Turn>, at: State, left: seq<Turn>)
    ensures WentOn(pinned, s, turns, limit, passed, at, left)
    ensures left == [] ==> Run(pinned, s, turns, limit) == (at, StepsExhausted)
    ensures left != [] ==>
              EndsNext(pinned, at, left[0], limit, Run(pinned, s, turns, limit).0, Run(pinned, s, turns, limit).1)
  {
    passed, at, left := [], s, turns;
    assert turns == [] + turns && TurnsOf(s.requests) + [] == TurnsOf(s.requests);
    while left != []
      invariant WentOn(pinned, s, turns, limit, passed, at, left)
      decreases |left|
    {
      StepEndsIff(pinned, at, left[0], limit);
      if Step(pinned, at, left[0], limit).1.Some? {
        return;
      }
      WentOnStep(pinned, s, turns, limit, passed, at, left);
      passed, at, left := passed + [left[0]], Step(pinned, at, left[0], limit).0, left[1..];
    }
  }

  /** A turn that may ask ends a run without a request only by the guard, and never when its reply asks for another step. */
  lemma {:induction false} EndsWithReason(turn: Turn, executed: nat, limit: Option<nat>, rejected: bool, outcome: Outcome)
    requires EndsIn(turn, executed, limit, rejected, outcome) && MayAsk(turn, executed, limit)
    ensures rejected ==> outcome == ReplayRejected
    ensures !rejected ==> !AsksOn(turn)
  {
  }

  lemma {:induction false} WentOnLengths(pinned: seq<Message>, s: State, turns: seq<Turn>, limit: Option<nat>,
                                         passed: seq<Turn>, at: State, left: seq<Turn>)
    requires WentOn(pinned, s, turns, limit, passed, at, left)
    ensures |turns| == |passed| + |left| && |at.requests| == |s.requests| + |passed|
    ensures at.executed == s.executed + ExecutedIn(passed)
    ensures left != [] ==> turns[|passed|] == left[0] && turns[..|passed|] == passed
  {
    assert |TurnsOf(at.requests)| == |at.requests|;
  }

  lemma {:induction false} RequestsNext(pinned: seq<Message>, at: State, turn: Turn, limit: Option<nat>, final: State, outcome: Outcome)
    requires EndsNext(pinned, at, turn, limit, final, outcome)
    ensures |final.requests| == |at.requests| +
              if MayAsk(turn, at.executed, limit) && !Rejects(pinned, at.messages, turn) then 1 else 0
  {
    assert |TurnsOf(final.requests)| == |final.requests| && |TurnsOf(at.requests)| == |at.requests|;
  }

  /** A reply with calls, when nothing cancels the run, is followed by the next turn's request unless that turn may not ask. */
  lemma {:induction false} CallsAreFollowedUp(pinned: seq<Message>, s: State, turns: seq<Turn>, limit: Option<nat>, i: nat)
    requires i + 1 < |turns| && |Run(pinned, s, turns, limit).0.requests| > |s.requests| + i
    requires turns[i].reply.Some? && turns[i].reply.value.calls != [] && !turns[i].cancelledAfter
    ensures var (final, outcome) := Run(pinned, s, turns, limit);
            || |final.requests| > |s.requests| + i + 1
            || outcome == ReplayRejected
            || !MayAsk(turns[i + 1], s.executed + ExecutedIn(turns[..i + 1]), limit)
  {
    var passed, at, left := RunEnds(pinned, s, turns, limit);
    WentOnLengths(pinned, s, turns, limit, passed, at, left);
    if left != [] {
      var (final, outcome) := Run(pinned, s, turns, limit);
      RequestsNext(pinned, at, left[0], limit, final, outcome);
      if MayAsk(left[0], at.executed, limit) {
        EndsWithReason(left[0], at.executed, limit, Rejects(pinned, at.messages, left[0]), outcome);
      }
    }
  }

  /** A run is only cancelled in a turn with a cancellation. */
  lemma {:induction false} CancelledOnlyIf(pinned: seq<Message>, s: State, turns: seq<Turn>, limit: Option<nat>)
    requires Run(pinned, s, turns, limit).1 == Cancelled
    ensures exists turn | turn in turns :: turn.cancelled || turn.cancelledAfter
  {
    var passed, at, left := RunEnds(pinned, s, turns, limit);
    assert left[0] in turns;
  }

  /** The guard before every request: every tool result has a declared call. */
  method Validate(messages: seq<Message>) returns (ok: bool)
    ensures ok <==> ReplayViolations(messages) == []
  {
    var declared: set<Id> := {};
    for i := 0 to |messages|
      invariant forall id :: id in declared <==> Declares(messages[..i], id)
    {
      DeclaresSnoc(messages, i);
      if messages[i].toolCalls.Some? {
        declared := declared + set c | c in messages[i].toolCalls.value :: c.id;
      }
    }
    assert messages[..|messages|] == messages;
    ok := true;
    for i := 0 to |messages|
      invariant ok <==> forall k | 0 <= k < i && IsResult(messages[k]) :: Declares(messages, messages[k].toolCallId.value)
    {
      if IsResult(messages[i]) && messages[i].toolCallId.value !in declared {
        ok := false;
      }
    }
    OrphansNoneIff(messages, messages);
  }

  lemma {:induction false} DeclaresSnoc(ms: seq<Message>, i: nat)
    requires i < |ms|
    ensures forall id :: Declares(ms[..i + 1], id) <==> Declares(ms[..i], id) || DeclaredBy(ms[i], id)
  {
    forall id ensures Declares(ms[..i + 1], id) <==> Declares(ms[..i], id) || DeclaredBy(ms[i], id) {
      assert forall k | 0 <= k < i :: ms[..i + 1][k] == ms[..i][k];
      assert ms[..i + 1][i] == ms[i];
    }
  }
}
