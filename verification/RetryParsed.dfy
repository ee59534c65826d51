/** Asking a model for structured output: a bounded number of tries, each shown the last failure. */
module RetryParsed {
  import opened Prelude

  datatype Outcome<+T> = Parsed(value: T) | Fallback | CallError

  /** One refused try. */
  datatype Try = Try(prompt: string, reply: string, reason: string)

  /** The parts of a call: the model, which answers or not given the prompts so far, the parser, and the prompt builder. */
  datatype Contract<!T> = Contract(
    call: seq<string> -> Option<string>,
    parse: string -> Result<T, string>,
    prompt: (Option<string>, Option<string>) -> string)
  {
    /** The prompt after these refused tries shows the last reply and why it was refused. */
    function Next(tries: seq<Try>): string {
      if tries == [] then prompt(None, None)
      else prompt(Some(tries[|tries| - 1].reply), Some(tries[|tries| - 1].reason))
    }

    /** What the model answers to the prompt after these tries. */
    function Answer(tries: seq<Try>): Option<string> {
      call(Prompts(tries) + [Next(tries)])
    }

    /** Every try was made with the prompt due, answered by the model, and refused by the parser. */
    predicate Refused(tries: seq<Try>) {
      tries == []
      || (var front, last := tries[..|tries| - 1], tries[|tries| - 1];
          && Refused(front) && last.prompt == Next(front)
          && Answer(front) == Some(last.reply) && parse(last.reply) == Err(last.reason))
    }
  }

  function Prompts(tries: seq<Try>): seq<string> {
    if tries == [] then [] else Prompts(tries[..|tries| - 1]) + [tries[|tries| - 1].prompt]
  }

  /** The refused tries of a run, and how it ends after them. */
  ghost predicate Ends<T>(contract: Contract<T>, maxRetries: nat, outcome: Outcome<T>, tries: seq<Try>) {
    contract.Refused(tries) &&
    match outcome
    case Fallback => |tries| == maxRetries + 1
    case CallError => |tries| <= maxRetries && contract.Answer(tries).None?
    case Parsed(value) =>
      |tries| <= maxRetries && contract.Answer(tries).Some? && contract.parse(contract.Answer(tries).value) == Ok(value)
  }

  /** Try until a reply parses: the first success, the first missing reply, or a fallback when every try was refused. */
  method Retry<T>(maxRetries: nat, contract: Contract<T>) returns (outcome: Outcome<T>, tries: seq<Try>)
    ensures Ends(contract, maxRetries, outcome, tries)
  {
    tries := [];
    var lastRaw: Option<string>, lastReason: Option<string> := None, None;
    for attempt := 0 to maxRetries + 1
      invariant |tries| == attempt && contract.Refused(tries)
      invariant contract.prompt(lastRaw, lastReason) == contract.Next(tries)
    {
      var p := contract.prompt(lastRaw, lastReason);
      var raw := contract.call(Prompts(tries) + [p]);
      if raw.None? {
        return CallError, tries;
      }
      match contract.parse(raw.value)
      case Ok(value) => return Parsed(value), tries;
      case Err(reason) =>
        ghost var before := tries;
        tries := tries + [Try(p, raw.value, reason)];
        assert tries[..attempt] == before;
        if attempt == maxRetries {
          return Fallback, tries;
        }
        lastRaw, lastReason := raw, Some(reason);
    }
    outcome := Fallback;
  }

  // ----- The run is determined -----

  lemma {:induction false} RefusedPrefix<T>(contract: Contract<T>, a: seq<Try>, b: seq<Try>)
    requires contract.Refused(a) && contract.Refused(b) && |a| <= |b|
    ensures b[..|a|] == a
  {
    if |a| < |b| {
      RefusedPrefix(contract, a, b[..|b| - 1]);
      assert b[..|b| - 1][..|a|] == b[..|a|];
    } else if a != [] {
      RefusedPrefix(contract, a[..|a| - 1], b[..|b| - 1]);
      assert b[..|b| - 1][..|a| - 1] == b[..|b| - 1] && b[..|a|] == b;
      assert a == a[..|a| - 1] + [a[|a| - 1]] && b == b[..|b| - 1] + [b[|b| - 1]];
    }
  }

  /** A refused try was answered and did not parse. */
  lemma {:induction false} RefusedAt<T>(contract: Contract<T>, tries: seq<Try>, k: nat)
    requires contract.Refused(tries) && k < |tries|
    ensures contract.Answer(tries[..k]).Some? && contract.parse(contract.Answer(tries[..k]).value).Err?
  {
    if k < |tries| - 1 {
      RefusedAt(contract, tries[..|tries| - 1], k);
      assert tries[..|tries| - 1][..k] == tries[..k];
    }
  }

  lemma {:induction false} NoLongerRun<T>(contract: Contract<T>, maxRetries: nat, a: Outcome<T>, triesA: seq<Try>, triesB: seq<Try>)
    requires Ends(contract, maxRetries, a, triesA) && contract.Refused(triesB) && |triesB| <= maxRetries + 1
    ensures |triesB| <= |triesA|
  {
    if |triesA| < |triesB| {
      RefusedPrefix(contract, triesA, triesB);
      RefusedAt(contract, triesB, |triesA|);
    }
  }

  /** There is only one way a run can go: the same tries and the same outcome. */
  lemma {:induction false} RunIsDetermined<T>(
    contract: Contract<T>, maxRetries: nat, a: Outcome<T>, triesA: seq<Try>, b: Outcome<T>, triesB: seq<Try>)
    requires Ends(contract, maxRetries, a, triesA) && Ends(contract, maxRetries, b, triesB)
    ensures triesA == triesB && a == b
  {
    NoLongerRun(contract, maxRetries, a, triesA, triesB);
    NoLongerRun(contract, maxRetries, b, triesB, triesA);
    RefusedPrefix(contract, triesA, triesB);
    assert triesB[..|triesA|] == triesB;
  }

  // ----- A run, try by try -----

  lemma {:induction false} PromptsAt(tries: seq<Try>, k: nat)
    requires k < |tries|
    ensures |Prompts(tries)| == |tries| && Prompts(tries)[k] == tries[k].prompt
  {
    if k < |tries| - 1 {
      PromptsAt(tries[..|tries| - 1], k);
    }
    PromptsLength(tries[..|tries| - 1]);
  }

  lemma {:induction false} PromptsLength(tries: seq<Try>)
    ensures |Prompts(tries)| == |tries|
  {
    if tries != [] {
      PromptsLength(tries[..|tries| - 1]);
    }
  }

  /**
   Try by try: the first prompt shows nothing, each later one the reply refused before it and the reason; each reply is
   what the model gives to the prompts so far, and each was refused for the reason noted.
   */
  lemma {:induction false} TryAt<T>(contract: Contract<T>, tries: seq<Try>, k: nat)
    requires contract.Refused(tries) && k < |tries|
    ensures tries[k].prompt == if k == 0 then contract.prompt(None, None)
                               else contract.prompt(Some(tries[k - 1].reply), Some(tries[k - 1].reason))
    ensures contract.call(Prompts(tries[..k]) + [tries[k].prompt]) == Some(tries[k].reply)
    ensures contract.parse(tries[k].reply) == Err(tries[k].reason)
  {
    if k < |tries| - 1 {
      TryAt(contract, tries[..|tries| - 1], k);
      assert tries[..|tries| - 1][..k] == tries[..k];
    }
  }

  /** The prompt due after these tries: nothing shown at first, then the last reply and why it was refused. */
  function Due<T>(contract: Contract<T>, tries: seq<Try>): string {
    if tries == [] then contract.prompt(None, None)
    else
      var last := tries[|tries| - 1];
      contract.prompt(Some(last.reply), Some(last.reason))
  }

  /** How a run ends: all tries refused; no answer to the prompt due; or an answer to it that parses. */
  lemma {:induction false} EndMeaning<T>(contract: Contract<T>, maxRetries: nat, outcome: Outcome<T>, tries: seq<Try>)
    requires Ends(contract, maxRetries, outcome, tries)
    ensures var answer := contract.call(Prompts(tries) + [Due(contract, tries)]);
            match outcome
            case Fallback => |tries| == maxRetries + 1
            case CallError => |tries| <= maxRetries && answer.None?
            case Parsed(value) => |tries| <= maxRetries && answer.Some? && contract.parse(answer.value) == Ok(value)
  {
  }
}
