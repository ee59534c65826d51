/**
 Task texts with `${{ inputs.<name> }}` placeholders: which inputs a text refers to, how their values are found and
 checked, and the substitution, which replaces one name after another in no particular order.
 */
module TaskSpecs {
  import opened Prelude
  import opened Texts

  const OPEN: string := "${{ inputs."
  const CLOSE: string := " }}"

  function Placeholder(name: string): string {
    OPEN + name + CLOSE
  }

  datatype InputType = Text | Number | Boolean

  datatype InputSpec = InputSpec(name: string, ty: InputType, required: bool, default: Option<string>)

  datatype TaskSpec = TaskSpec(task: string, rules: seq<string>, inputs: seq<InputSpec>)

  datatype RenderedTask = RenderedTask(task: string, rules: string)

  datatype Error = UnknownInput(name: string) | MissingRequired(name: string) | InvalidType(name: string, ty: InputType)

  type Values = map<string, string>

  // ----- Referenced inputs -----

  /** The names `text` refers to, in order of first appearance, after those in `out`. */
  function Referenced(text: string, out: seq<string>): seq<string>
    decreases |text|
  {
    match Split(text, OPEN)
    case None => out
    case Some((_, after)) =>
      match Split(after, CLOSE)
      case None => out
      case Some((body, tail)) => Referenced(CLOSE + tail, Noted(out, Trim(body)))
  }

  function Noted(out: seq<string>, name: string): seq<string> {
    if name != "" && name !in out then out + [name] else out
  }

  method ReferencedInputs(task: string) returns (out: seq<string>)
    ensures out == Referenced(task, [])
  {
    out := [];
    var rest := task;
    while true
      invariant Referenced(rest, out) == Referenced(task, [])
      decreases |rest|
    {
      var start := Split(rest, OPEN);
      if start.None? {
        return;
      }
      var after := start.value.1;
      var end := Split(after, CLOSE);
      if end.None? {
        return;
      }
      var name := Trim(end.value.0);
      if name != "" && name !in out {
        out := out + [name];
      }
      rest := CLOSE + end.value.1;
    }
  }

  // ----- Values -----

  /** What the caller passes wins; the configured defaults fill the gaps. */
  method MergedWith(mine: Values, over: Values) returns (merged: Values)
    ensures merged == over + mine
  {
    merged := mine;
    var keys := over.Keys;
    while keys != {}
      invariant keys <= over.Keys
      invariant merged == (map k | k in over && k !in keys :: over[k]) + mine
      decreases |keys|
    {
      var k :| k in keys;
      if k !in merged {
        merged := merged[k := over[k]];
      }
      keys := keys - {k};
    }
  }

  predicate HasType(ty: InputType, value: string, isNumber: string -> bool) {
    match ty
    case Text => true
    case Number => isNumber(value)
    case Boolean => value == "true" || value == "false"
  }

  function ValueFor(input: InputSpec, values: Values): Option<string> {
    if input.name in values then Some(values[input.name]) else input.default
  }

  /** The error of one input, if any. */
  function InputError(input: InputSpec, values: Values, isNumber: string -> bool): Option<Error> {
    match ValueFor(input, values)
    case Some(v) => if HasType(input.ty, v, isNumber) then None else Some(InvalidType(input.name, input.ty))
    case None => if input.required then Some(MissingRequired(input.name)) else None
  }

  function Filling(input: InputSpec, values: Values): string {
    match ValueFor(input, values)
    case Some(v) => v
    case None => ""
  }

  /** The value of every declared input, or the error of the first input that has one. */
  function Resolve(inputs: seq<InputSpec>, values: Values, isNumber: string -> bool): Result<Values, Error> {
    if inputs == [] then Ok(map[]) else
    var last := inputs[|inputs| - 1];
    match Resolve(inputs[..|inputs| - 1], values, isNumber)
    case Err(e) => Err(e)
    case Ok(before) =>
      match InputError(last, values, isNumber)
      case Some(e) => Err(e)
      case None => Ok(before[last.name := Filling(last, values)])
  }

  function Declared(inputs: seq<InputSpec>): set<string> {
    set i | i in inputs :: i.name
  }

  /** Resolving succeeds exactly when no input has an error, and then it gives every declared name a value. */
  lemma {:induction false} ResolveMeaning(inputs: seq<InputSpec>, values: Values, isNumber: string -> bool)
    ensures Resolve(inputs, values, isNumber).Ok? <==> forall i | i in inputs :: InputError(i, values, isNumber).None?
    ensures Resolve(inputs, values, isNumber).Ok? ==>
              var m := Resolve(inputs, values, isNumber).value;
              && m.Keys == Declared(inputs)
              && forall k | k in m :: exists i | i in inputs :: i.name == k && m[k] == Filling(i, values)
  {
    if inputs != [] {
      var n := |inputs| - 1;
      ResolveMeaning(inputs[..n], values, isNumber);
      assert inputs == inputs[..n] + [inputs[n]];
    }
  }

  // ----- What resolving means, from the caller's side -----

  /** A value that is not of its declared type. */
  predicate IllTyped(ty: InputType, value: string, isNumber: string -> bool) {
    (ty.Number? && !isNumber(value)) || (ty.Boolean? && value != "true" && value != "false")
  }

  /** No value was passed for a required input, and it has no default. */
  predicate Lacks(input: InputSpec, values: Values) {
    input.required && input.name !in values && input.default.None?
  }

  /** The value passed, or the default where none was passed, is of the wrong type. */
  predicate Mistyped(input: InputSpec, values: Values, isNumber: string -> bool) {
    if input.name in values then IllTyped(input.ty, values[input.name], isNumber)
    else input.default.Some? && IllTyped(input.ty, input.default.value, isNumber)
  }

  /** Input `j` is the first that lacks a value or has one of the wrong type. */
  ghost predicate FirstBad(inputs: seq<InputSpec>, values: Values, isNumber: string -> bool, j: nat) {
    && j < |inputs| && (Lacks(inputs[j], values) || Mistyped(inputs[j], values, isNumber))
    && forall i | 0 <= i < j :: !Lacks(inputs[i], values) && !Mistyped(inputs[i], values, isNumber)
  }

  /** Input `j` is the last one declared under its name. */
  predicate LastDeclared(inputs: seq<InputSpec>, j: nat) {
    j < |inputs| && forall later | j < later < |inputs| :: inputs[later].name != inputs[j].name
  }

  /** Resolving fails exactly with the fault of the first input that has one. */
  lemma {:induction false} ResolveFails(inputs: seq<InputSpec>, values: Values, isNumber: string -> bool, j: nat)
    requires FirstBad(inputs, values, isNumber, j)
    ensures Resolve(inputs, values, isNumber) ==
              Err(if Lacks(inputs[j], values) then MissingRequired(inputs[j].name) else InvalidType(inputs[j].name, inputs[j].ty))
  {
    var n := |inputs| - 1;
    if j < n {
      ResolveFails(inputs[..n], values, isNumber, j);
    } else {
      ResolveMeaning(inputs[..n], values, isNumber);
    }
  }

  lemma {:induction false} NoFaultNoError(input: InputSpec, values: Values, isNumber: string -> bool)
    ensures InputError(input, values, isNumber).None? <==> !Lacks(input, values) && !Mistyped(input, values, isNumber)
  {
  }

  /** Resolving succeeds exactly when no input has a fault, and then gives exactly the declared names a value. */
  lemma {:induction false} ResolvesIff(inputs: seq<InputSpec>, values: Values, isNumber: string -> bool)
    ensures Resolve(inputs, values, isNumber).Ok? <==>
              forall i | i in inputs :: !Lacks(i, values) && !Mistyped(i, values, isNumber)
    ensures Resolve(inputs, values, isNumber).Ok? ==> Resolve(inputs, values, isNumber).value.Keys == Declared(inputs)
  {
    ResolveMeaning(inputs, values, isNumber);
    forall i | i in inputs
      ensures InputError(i, values, isNumber).None? <==> !Lacks(i, values) && !Mistyped(i, values, isNumber)
    {
      NoFaultNoError(i, values, isNumber);
    }
  }

  /** A value that was passed wins over every default. */
  lemma {:induction false} PassedValueWins(inputs: seq<InputSpec>, values: Values, isNumber: string -> bool, name: string)
    requires Resolve(inputs, values, isNumber).Ok? && name in Declared(inputs) && name in values
    ensures name in Resolve(inputs, values, isNumber).value && Resolve(inputs, values, isNumber).value[name] == values[name]
  {
    ResolveMeaning(inputs, values, isNumber);
  }

  /** Where none was passed, the default of the input declared last under the name counts, or else the empty text. */
  lemma {:induction false} DefaultFillsGap(inputs: seq<InputSpec>, values: Values, isNumber: string -> bool, j: nat)
    requires Resolve(inputs, values, isNumber).Ok? && LastDeclared(inputs, j) && inputs[j].name !in values
    ensures inputs[j].name in Resolve(inputs, values, isNumber).value
    ensures Resolve(inputs, values, isNumber).value[inputs[j].name] ==
              if inputs[j].default.Some? then inputs[j].default.value else ""
  {
    var n := |inputs| - 1;
    if j < n {
      assert inputs[..n][j] == inputs[j] && forall i | 0 <= i < n :: inputs[..n][i] == inputs[i];
      DefaultFillsGap(inputs[..n], values, isNumber, j);
    }
  }

  // ----- Substitution -----

  /** Replace every occurrence from left to right; replaced text is not looked at again. */
  function Replace(s: string, pat: string, value: string): string
    requires pat != ""
    decreases |s|
  {
    if pat <= s then value + Replace(s[|pat|..], pat, value)
    else if s == "" then ""
    else [s[0]] + Replace(s[1..], pat, value)
  }

  /** Replace one name after another. */
  function ReplaceAll(s: string, order: seq<string>, values: Values): string
    requires forall name | name in order :: name in values
  {
    if order == [] then s
    else
      var n := |order| - 1;
      Replace(ReplaceAll(s, order[..n], values), Placeholder(order[n]), values[order[n]])
  }

  function RulesText(rules: seq<string>): string {
    if rules == [] then "## RULES\n"
    else RulesText(rules[..|rules| - 1]) + "- " + rules[|rules| - 1] + "\n"
  }

  /** Each key once, in some order. */
  ghost predicate IsOrderOf(order: seq<string>, keys: set<string>) {
    (forall i, j | 0 <= i < j < |order| :: order[i] != order[j]) && (forall name :: name in order <==> name in keys)
  }

  /** `name` is the first of these names that is not declared. */
  ghost predicate FirstOutside(names: seq<string>, declared: set<string>, name: string) {
    exists k | 0 <= k < |names| :: names[k] == name && name !in declared && forall j | 0 <= j < k :: names[j] in declared
  }

  method FirstUnknown(names: seq<string>, inputs: seq<InputSpec>) returns (unknown: Option<string>)
    ensures unknown.None? <==> forall name | name in names :: name in Declared(inputs)
    ensures unknown.Some? ==> FirstOutside(names, Declared(inputs), unknown.value)
  {
    for k := 0 to |names|
      invariant forall j | 0 <= j < k :: names[j] in Declared(inputs)
    {
      if names[k] !in Declared(inputs) {
        return Some(names[k]);
      }
    }
    unknown := None;
  }

  /**
   What rendering a task may give. Errors come in the order: the first undeclared name, then the first input without a
   valid value. The values are put in one name at a time, in an order the caller cannot rely on.
   */
  ghost predicate Renders(spec: TaskSpec, values: Values, isNumber: string -> bool, r: Result<RenderedTask, Error>) {
    if !AllDeclared(spec) then
      r.Err? && r.error.UnknownInput? && FirstOutside(Referenced(spec.task, []), Declared(spec.inputs), r.error.name)
    else
      match Resolve(spec.inputs, values, isNumber)
      case Err(e) => r == Err(e)
      case Ok(m) =>
        exists order | IsOrderOf(order, m.Keys) :: r == Ok(RenderedTask(ReplaceAll(spec.task, order, m), RulesBlock(spec.rules)))
  }

  method Render(spec: TaskSpec, values: Values, isNumber: string -> bool) returns (r: Result<RenderedTask, Error>)
    ensures Renders(spec, values, isNumber, r)
  {
    var names := ReferencedInputs(spec.task);
    var unknown := FirstUnknown(names, spec.inputs);
    if unknown.Some? {
      return Err(UnknownInput(unknown.value));
    }
    var resolved := ResolveInputs(spec.inputs, values, isNumber);
    if resolved.Err? {
      return Err(resolved.error);
    }
    var task, order := Substitute(spec.task, resolved.value);
    var rules := RenderRules(spec.rules);
    return Ok(RenderedTask(task, rules));
  }

  /** Every name the task refers to is declared. */
  ghost predicate AllDeclared(spec: TaskSpec) {
    forall name | name in Referenced(spec.task, []) :: name in Declared(spec.inputs)
  }

  function RulesBlock(rules: seq<string>): string {
    if rules == [] then "" else RulesText(rules)
  }

  method RenderRules(rules: seq<string>) returns (out: string)
    ensures out == RulesBlock(rules)
  {
    if rules == [] {
      return "";
    }
    out := "## RULES\n";
    for k := 0 to |rules|
      invariant out == RulesText(rules[..k])
    {
      assert rules[..k + 1][..k] == rules[..k];
      out := out + "- " + rules[k] + "\n";
    }
    assert rules[..|rules|] == rules;
  }

  function RuleLines(rules: seq<string>): string {
    if rules == [] then "" else "- " + rules[0] + "\n" + RuleLines(rules[1..])
  }

  lemma {:induction false} RuleLinesSnoc(rules: seq<string>, rule: string)
    ensures RuleLines(rules + [rule]) == RuleLines(rules) + ("- " + rule + "\n")
  {
    if rules == [] {
      assert ([] + [rule])[1..] == [] && "- " + rule + "\n" + "" == "- " + rule + "\n";
    } else {
      assert (rules + [rule])[1..] == rules[1..] + [rule];
      RuleLinesSnoc(rules[1..], rule);
      Assoc("- " + rules[0] + "\n", RuleLines(rules[1..]), "- " + rule + "\n");
    }
  }

  lemma {:induction false} RulesTextIs(rules: seq<string>)
    ensures RulesText(rules) == "## RULES\n" + RuleLines(rules)
  {
    if rules != [] {
      var n := |rules| - 1;
      RulesTextIs(rules[..n]);
      RuleLinesSnoc(rules[..n], rules[n]);
      assert rules == rules[..n] + [rules[n]];
      Assoc("## RULES\n", RuleLines(rules[..n]), "- " + rules[n] + "\n");
      Assoc(RulesText(rules[..n]), "- " + rules[n], "\n");
    } else {
      assert "## RULES\n" + "" == "## RULES\n";
    }
  }

  /** The rules are a heading and one line for each, in order; without rules there is no heading either. */
  lemma {:induction false} RulesAreListed(rules: seq<string>)
    ensures RulesBlock(rules) == if rules == [] then "" else "## RULES\n" + RuleLines(rules)
  {
    RulesTextIs(rules);
  }

  method ResolveInputs(inputs: seq<InputSpec>, values: Values, isNumber: string -> bool) returns (r: Result<Values, Error>)
    ensures r == Resolve(inputs, values, isNumber)
  {
    var resolved: Values := map[];
    for k := 0 to |inputs|
      invariant Resolve(inputs[..k], values, isNumber) == Ok(resolved)
    {
      var input := inputs[k];
      assert inputs[..k + 1][..k] == inputs[..k];
      var value := ValueFor(input, values);
      match value
      case Some(v) =>
        if !HasType(input.ty, v, isNumber) {
          ResolveStops(inputs, k + 1, values, isNumber);
          return Err(InvalidType(input.name, input.ty));
        }
        resolved := resolved[input.name := v];
      case None =>
        if input.required {
          ResolveStops(inputs, k + 1, values, isNumber);
          return Err(MissingRequired(input.name));
        }
        resolved := resolved[input.name := ""];
    }
    assert inputs[..|inputs|] == inputs;
    return Ok(resolved);
  }

  lemma {:induction false} ResolveStops(inputs: seq<InputSpec>, k: nat, values: Values, isNumber: string -> bool)
    requires k <= |inputs| && Resolve(inputs[..k], values, isNumber).Err?
    ensures Resolve(inputs, values, isNumber) == Resolve(inputs[..k], values, isNumber)
    decreases |inputs| - k
  {
    if k == |inputs| {
      assert inputs[..k] == inputs;
    } else {
      assert inputs[..k + 1][..k] == inputs[..k];
      ResolveStops(inputs, k + 1, values, isNumber);
    }
  }

  method Substitute(text: string, resolved: Values) returns (task: string, ghost order: seq<string>)
    ensures IsOrderOf(order, resolved.Keys) && task == ReplaceAll(text, order, resolved)
  {
    task := text;
    order := [];
    var pending := resolved.Keys;
    while pending != {}
      invariant pending <= resolved.Keys && IsOrderOf(order, resolved.Keys - pending)
      invariant task == ReplaceAll(text, order, resolved)
      decreases |pending|
    {
      var name :| name in pending;
      OrderSnoc(order, resolved.Keys - pending, name);
      ReplaceSnoc(text, order, name, resolved);
      task := Replace(task, Placeholder(name), resolved[name]);
      order := order + [name];
      pending := pending - {name};
      assert resolved.Keys - pending == (resolved.Keys - pending - {name}) + {name};
    }
    assert resolved.Keys - pending == resolved.Keys;
  }

  lemma {:induction false} ReplaceSnoc(text: string, order: seq<string>, name: string, values: Values)
    requires name in values && forall n | n in order :: n in values
    ensures forall n | n in order + [name] :: n in values
    ensures ReplaceAll(text, order + [name], values) == Replace(ReplaceAll(text, order, values), Placeholder(name), values[name])
  {
    assert (order + [name])[..|order|] == order;
  }

  lemma {:induction false} OrderSnoc(order: seq<string>, keys: set<string>, name: string)
    requires IsOrderOf(order, keys) && name !in keys
    ensures IsOrderOf(order + [name], keys + {name})
    ensures (order + [name])[..|order|] == order
  {
    forall i | 0 <= i < |order| ensures order[i] != name {
      assert order[i] in order;
    }
  }
}
