/** Plans: building the execution graph from the planner's output, and keeping writing tools out of it. */
module Plans {
  import opened Prelude
  import opened Texts

  datatype Action =
    | Think(prompt: string)
    | CallTool(tool: string, args: Option<string>)
    | Observe(source: string)
    | Reflect(criteria: string)
    | Delegate(subAgent: string, goal: string)
    | Parallel(children: seq<Node>)
    | Conditional(onTrue: Node, onFalse: Option<Node>)

  datatype Node = Node(id: string, action: Action)

  datatype Condition = Failure | Retry(times: nat) | ToolCall(id: string)
  datatype Edge = Edge(from: string, to: string, condition: Option<Condition>)

  // ----- The tool boundary -----

  datatype Refusal = Refusal(id: string, tool: string)

  /** Accept a node whose calls, at any depth, stay within the allowed tools; else name the first that does not. */
  function CheckNode(node: Node, allowed: set<string>): Option<Refusal> {
    match node.action
    case CallTool(tool, _) => if tool in allowed then None else Some(Refusal(node.id, tool))
    case Parallel(children) => CheckNodes(children, allowed)
    case Conditional(onTrue, onFalse) =>
      var refusal := CheckNode(onTrue, allowed);
      if refusal.Some? then refusal
      else if onFalse.Some? then CheckNode(onFalse.value, allowed) else None
    case _ => None
  }

  function CheckNodes(nodes: seq<Node>, allowed: set<string>): Option<Refusal> {
    if nodes == [] then None
    else
      var refusal := CheckNode(nodes[0], allowed);
      if refusal.Some? then refusal else CheckNodes(nodes[1..], allowed)
  }

  /** The node reached by following a path of children: parallel children by number, then 0 for then and 1 for else. */
  function At(node: Node, path: seq<nat>): Option<Node>
    decreases |path|
  {
    if path == [] then Some(node)
    else
      match node.action
      case Parallel(children) => if path[0] < |children| then At(children[path[0]], path[1..]) else None
      case Conditional(onTrue, onFalse) =>
        if path[0] == 0 then At(onTrue, path[1..])
        else if path[0] == 1 && onFalse.Some? then At(onFalse.value, path[1..]) else None
      case _ => None
  }

  predicate CallsOutside(node: Option<Node>, allowed: set<string>) {
    node.Some? && node.value.action.CallTool? && node.value.action.tool !in allowed
  }

  /** Path `p` comes before path `q` in the order in which children are listed. */
  predicate Earlier(p: seq<nat>, q: seq<nat>) {
    p != [] && q != [] && (p[0] < q[0] || (p[0] == q[0] && Earlier(p[1..], q[1..])))
  }

  /** No node at an earlier path calls a forbidden tool. */
  lemma {:induction false} RefusalIsFirst(node: Node, allowed: set<string>, path: seq<nat>, p: seq<nat>)
    requires CheckNode(node, allowed).Some? && FirstRefused(node, allowed, path) && Earlier(p, path)
    ensures !CallsOutside(At(node, p), allowed)
    decreases |path|
  {
    match node.action
    case Parallel(children) =>
      var k := path[0];
      if p[0] < k {
        AcceptedAt(children[p[0]], allowed, p[1..]);
      } else {
        RefusalIsFirst(children[k], allowed, path[1..], p[1..]);
      }
    case Conditional(onTrue, onFalse) =>
      if p[0] < path[0] {
        AcceptedAt(onTrue, allowed, p[1..]);
      } else {
        RefusalIsFirst(if path[0] == 0 then onTrue else onFalse.value, allowed, path[1..], p[1..]);
      }
    case _ =>
  }

  /** The path leads, at every fork, into the first child that is not accepted. */
  predicate FirstRefused(node: Node, allowed: set<string>, path: seq<nat>)
    decreases |path|
  {
    match node.action
    case CallTool(_, _) => path == []
    case Parallel(children) =>
      && path != [] && path[0] < |children| && CheckNode(children[path[0]], allowed).Some?
      && (forall i | 0 <= i < path[0] :: CheckNode(children[i], allowed).None?)
      && FirstRefused(children[path[0]], allowed, path[1..])
    case Conditional(onTrue, onFalse) =>
      && path != []
      && (if path[0] == 0 then CheckNode(onTrue, allowed).Some? && FirstRefused(onTrue, allowed, path[1..])
          else
            && path[0] == 1 && CheckNode(onTrue, allowed).None? && onFalse.Some? && CheckNode(onFalse.value, allowed).Some?
            && FirstRefused(onFalse.value, allowed, path[1..]))
    case _ => false
  }

  /** A refusal names the first node that the executor would reach and that calls a forbidden tool, and that tool. */
  lemma {:induction false} RefusalIsReached(node: Node, allowed: set<string>) returns (path: seq<nat>)
    requires CheckNode(node, allowed).Some?
    ensures var refusal := CheckNode(node, allowed).value;
            At(node, path).Some? && CallsOutside(At(node, path), allowed)
            && At(node, path).value.id == refusal.id && At(node, path).value.action.tool == refusal.tool
    ensures forall p | Earlier(p, path) :: !CallsOutside(At(node, p), allowed)
  {
    path := RefusedPath(node, allowed);
    forall p | Earlier(p, path) ensures !CallsOutside(At(node, p), allowed) {
      RefusalIsFirst(node, allowed, path, p);
    }
  }

  lemma {:induction false} RefusedPath(node: Node, allowed: set<string>) returns (path: seq<nat>)
    requires CheckNode(node, allowed).Some?
    ensures var refusal := CheckNode(node, allowed).value;
            At(node, path).Some? && CallsOutside(At(node, path), allowed)
            && At(node, path).value.id == refusal.id && At(node, path).value.action.tool == refusal.tool
    ensures FirstRefused(node, allowed, path)
    decreases node, 0
  {
    match node.action
    case CallTool(_, _) => path := [];
    case Parallel(children) =>
      var k, rest := RefusalAmong(children, allowed);
      path := [k] + rest;
    case Conditional(onTrue, onFalse) =>
      if CheckNode(onTrue, allowed).Some? {
        var rest := RefusedPath(onTrue, allowed);
        path := [0] + rest;
      } else {
        var rest := RefusedPath(onFalse.value, allowed);
        path := [1] + rest;
      }
  }

  lemma {:induction false} RefusalAmong(nodes: seq<Node>, allowed: set<string>) returns (k: nat, path: seq<nat>)
    requires CheckNodes(nodes, allowed).Some?
    ensures k < |nodes|
    ensures var refusal := CheckNodes(nodes, allowed).value;
            At(nodes[k], path).Some? && CallsOutside(At(nodes[k], path), allowed)
            && At(nodes[k], path).value.id == refusal.id && At(nodes[k], path).value.action.tool == refusal.tool
    ensures CheckNode(nodes[k], allowed).Some? && FirstRefused(nodes[k], allowed, path)
    ensures forall i | 0 <= i < k :: CheckNode(nodes[i], allowed).None?
    decreases nodes, 1
  {
    if CheckNode(nodes[0], allowed).Some? {
      k := 0;
      path := RefusedPath(nodes[0], allowed);
    } else {
      k, path := RefusalAmong(nodes[1..], allowed);
      k := k + 1;
    }
  }

  lemma {:induction false} AcceptedAt(node: Node, allowed: set<string>, path: seq<nat>)
    requires CheckNode(node, allowed).None?
    ensures !CallsOutside(At(node, path), allowed)
    decreases |path|
  {
    if path != [] {
      match node.action
      case Parallel(children) =>
        if path[0] < |children| {
          AcceptedAmong(children, allowed, path[0]);
          AcceptedAt(children[path[0]], allowed, path[1..]);
        }
      case Conditional(onTrue, onFalse) =>
        if path[0] == 0 {
          AcceptedAt(onTrue, allowed, path[1..]);
        } else if path[0] == 1 && onFalse.Some? {
          AcceptedAt(onFalse.value, allowed, path[1..]);
        }
      case _ =>
    }
  }

  lemma {:induction false} AcceptedAmong(nodes: seq<Node>, allowed: set<string>, k: nat)
    requires CheckNodes(nodes, allowed).None? && k < |nodes|
    ensures CheckNode(nodes[k], allowed).None?
  {
    if k > 0 {
      AcceptedAmong(nodes[1..], allowed, k - 1);
    }
  }

  /** Some node at some depth calls a tool outside the list. */
  ghost predicate Outside(node: Node, allowed: set<string>) {
    exists path :: CallsOutside(At(node, path), allowed)
  }

  /** A node is accepted if and only if nothing it contains, at any depth, calls a tool outside the list. */
  lemma {:induction false} AcceptedIff(node: Node, allowed: set<string>)
    ensures CheckNode(node, allowed).None? <==> !Outside(node, allowed)
  {
    if CheckNode(node, allowed).Some? {
      var path := RefusalIsReached(node, allowed);
      assert CallsOutside(At(node, path), allowed);
    } else {
      forall path ensures !CallsOutside(At(node, path), allowed) {
        AcceptedAt(node, allowed, path);
      }
    }
  }

  // ----- The graph -----

  class ExecutionGraph {
    var nodes: map<string, Action>
    var edges: seq<Edge>
    var entry: string

    constructor (entry: string)
      ensures nodes == map[] && edges == [] && this.entry == entry
    {
      nodes, edges, this.entry := map[], [], entry;
    }

    method AddNode(id: string, action: Action)
      modifies this
      ensures nodes == old(nodes)[id := action] && edges == old(edges) && entry == old(entry)
    {
      nodes := nodes[id := action];
    }

    /** An edge with an unknown end is dropped. */
    method AddEdge(from: string, to: string, condition: Option<Condition>)
      modifies this
      ensures edges == old(edges) + Retained(nodes.Keys, [Edge(from, to, condition)])
      ensures nodes == old(nodes) && entry == old(entry)
    {
      RetainedOne(nodes.Keys, Edge(from, to, condition));
      if from !in nodes || to !in nodes {
        return;
      }
      edges := edges + [Edge(from, to, condition)];
    }

    /** The whole graph against the read-only tools, in whatever order its nodes are walked. */
    method ValidateToolBoundary(allowed: set<string>) returns (refusal: Option<Refusal>)
      ensures refusal.None? <==> forall id | id in nodes :: CheckNode(Node(id, nodes[id]), allowed).None?
      ensures refusal.Some? ==> exists id | id in nodes :: CheckNode(Node(id, nodes[id]), allowed) == refusal
    {
      var todo := nodes.Keys;
      while todo != {}
        invariant todo <= nodes.Keys
        invariant forall id | id in nodes && id !in todo :: CheckNode(Node(id, nodes[id]), allowed).None?
        decreases |todo|
      {
        var id :| id in todo;
        refusal := CheckNode(Node(id, nodes[id]), allowed);
        if refusal.Some? {
          return;
        }
        todo := todo - {id};
      }
      refusal := None;
    }
  }

  predicate Joins(ids: set<string>, e: Edge) {
    e.from in ids && e.to in ids
  }

  /** The edges both ends of which are known. */
  function Retained(ids: set<string>, edges: seq<Edge>): seq<Edge> {
    if edges == [] then []
    else Retained(ids, edges[..|edges| - 1]) + if Joins(ids, edges[|edges| - 1]) then [edges[|edges| - 1]] else []
  }

  lemma {:induction false} RetainedOne(ids: set<string>, e: Edge)
    ensures Retained(ids, [e]) == if Joins(ids, e) then [e] else []
  {
    assert [e][..0] == [];
  }

  lemma {:induction false} RetainedSnoc(ids: set<string>, edges: seq<Edge>, e: Edge)
    ensures Retained(ids, edges + [e]) == Retained(ids, edges) + Retained(ids, [e])
  {
    RetainedOne(ids, e);
    assert (edges + [e])[..|edges|] == edges;
  }

  lemma {:induction false} RetainedIn(ids: set<string>, edges: seq<Edge>, e: Edge)
    ensures e in Retained(ids, edges) <==> e in edges && Joins(ids, e)
  {
    if edges != [] {
      RetainedIn(ids, edges[..|edges| - 1], e);
      assert edges == edges[..|edges| - 1] + [edges[|edges| - 1]];
    }
  }

  // ----- Reading the planner's output -----

  datatype PlanNode = PlanNode(
    id: string, action: string, prompt: string, tool: Option<string>, args: Option<string>, criteria: Option<string>,
    subAgent: Option<string>, goal: Option<string>, dependsOn: seq<string>, parallel: Branches)

  datatype Branches = Single | Fork(children: seq<PlanNode>)

  datatype PlanEdge = PlanEdge(from: string, to: string, condition: Option<string>)
  datatype Plan = Plan(nodes: seq<PlanNode>, edges: seq<PlanEdge>)

  function OrElse(a: Option<string>, b: string): string {
    if a.Some? then a.value else b
  }

  function ParseAction(node: PlanNode): Action {
    match node.parallel
    case Fork(children) => Parallel(ParseChildren(children))
    case Single =>
      if node.action == "call_read_tool" || node.action == "call_tool" then CallTool(OrElse(node.tool, ""), node.args)
      else if node.action == "reflect" then Reflect(OrElse(node.criteria, ""))
      else if node.action == "delegate" then
        Delegate(OrElse(node.subAgent, OrElse(node.tool, "")), OrElse(node.goal, node.prompt))
      else Think(node.prompt)
  }

  function ParseChildren(children: seq<PlanNode>): (nodes: seq<Node>)
    ensures |nodes| == |children|
    ensures forall k | 0 <= k < |children| :: nodes[k] == Node(children[k].id, ParseAction(children[k]))
  {
    if children == [] then [] else [Node(children[0].id, ParseAction(children[0]))] + ParseChildren(children[1..])
  }

  function Lower(s: string): (t: string)
    ensures |t| == |s|
  {
    if s == "" then ""
    else [if 'A' <= s[0] <= 'Z' then ((s[0] as int) + 32) as char else s[0]] + Lower(s[1..])
  }

  const TOOL_CALL := "tool_call:"

  /** The condition of an edge; a missing or unknown one means success. */
  function ParseCondition(condition: Option<string>): Option<Condition> {
    if condition.None? then None else ConditionOf(Lower(Trim(condition.value)))
  }

  function ConditionOf(c: string): Option<Condition> {
    if c == "failure" || c == "on_failure" || c == "on-failure" then Some(Failure)
    else if c == "retry" then Some(Retry(1))
    else if TOOL_CALL <= c then Some(ToolCall(Trim(c[|TOOL_CALL|..])))
    else None
  }

  // ----- What a plan's graph is -----

  /** The nodes of a plan that are kept: no more than the limit. */
  function Kept(plan: Plan, maxNodes: nat): seq<PlanNode> {
    if maxNodes < |plan.nodes| then plan.nodes[..maxNodes] else plan.nodes
  }

  /** Later nodes replace earlier ones of the same id. */
  function NodesOf(kept: seq<PlanNode>): map<string, Action> {
    if kept == [] then map[] else NodesOf(kept[..|kept| - 1])[kept[|kept| - 1].id := ParseAction(kept[|kept| - 1])]
  }

  predicate Wired(edges: seq<PlanEdge>, from: string, to: string) {
    exists e | e in edges :: e.from == from && e.to == to
  }

  function DefaultEdge(edges: seq<PlanEdge>, from: string, to: string): seq<Edge> {
    if Wired(edges, from, to) then [] else [Edge(from, to, None)]
  }

  /** A default edge for every dependency that no explicit edge wires. */
  function DepEdges(edges: seq<PlanEdge>, deps: seq<string>, to: string): seq<Edge> {
    if deps == [] then [] else DepEdges(edges, deps[..|deps| - 1], to) + DefaultEdge(edges, deps[|deps| - 1], to)
  }

  function DefaultEdges(edges: seq<PlanEdge>, kept: seq<PlanNode>): seq<Edge> {
    if kept == [] then []
    else DefaultEdges(edges, kept[..|kept| - 1]) + DepEdges(edges, kept[|kept| - 1].dependsOn, kept[|kept| - 1].id)
  }

  function ExplicitEdges(edges: seq<PlanEdge>): seq<Edge> {
    if edges == [] then []
    else
      var last := edges[|edges| - 1];
      ExplicitEdges(edges[..|edges| - 1]) + [Edge(last.from, last.to, ParseCondition(last.condition))]
  }

  function EdgesOf(plan: Plan, maxNodes: nat): seq<Edge> {
    Retained(NodesOf(Kept(plan, maxNodes)).Keys, DefaultEdges(plan.edges, Kept(plan, maxNodes)))
    + Retained(NodesOf(Kept(plan, maxNodes)).Keys, ExplicitEdges(plan.edges))
  }

  const FALLBACK := "execute"

  /** Build the graph of a decoded plan; without a plan, or with an empty one, a single step carries the goal. */
  method ParsePlan(decoded: Option<Plan>, goal: string, maxNodes: nat) returns (graph: ExecutionGraph)
    ensures fresh(graph)
    ensures decoded.None? || decoded.value.nodes == [] ==>
              graph.nodes == map[FALLBACK := Think(goal)] && graph.edges == [] && graph.entry == FALLBACK
    ensures decoded.Some? && decoded.value.nodes != [] ==>
              && graph.nodes == NodesOf(Kept(decoded.value, maxNodes))
              && graph.edges == EdgesOf(decoded.value, maxNodes)
              && graph.entry == decoded.value.nodes[0].id
  {
    if decoded.None? || decoded.value.nodes == [] {
      graph := new ExecutionGraph(FALLBACK);
      graph.AddNode(FALLBACK, Think(goal));
      return;
    }
    var plan := decoded.value;
    graph := new ExecutionGraph(plan.nodes[0].id);
    var kept := Kept(plan, maxNodes);
    AddNodes(graph, kept);
    AddDependencies(graph, plan.edges, kept);
    AddExplicit(graph, plan.edges);
  }

  method AddNodes(graph: ExecutionGraph, kept: seq<PlanNode>)
    requires graph.nodes == map[]
    modifies graph
    ensures graph.nodes == NodesOf(kept) && graph.edges == old(graph.edges) && graph.entry == old(graph.entry)
  {
    for i := 0 to |kept|
      invariant graph.nodes == NodesOf(kept[..i]) && graph.edges == old(graph.edges) && graph.entry == old(graph.entry)
    {
      assert kept[..i + 1][..i] == kept[..i];
      graph.AddNode(kept[i].id, ParseAction(kept[i]));
    }
    assert kept[..|kept|] == kept;
  }

  method AddDependencies(graph: ExecutionGraph, edges: seq<PlanEdge>, kept: seq<PlanNode>)
    requires graph.edges == []
    modifies graph
    ensures graph.edges == Retained(graph.nodes.Keys, DefaultEdges(edges, kept))
    ensures graph.nodes == old(graph.nodes) && graph.entry == old(graph.entry)
  {
    for i := 0 to |kept|
      invariant graph.edges == Retained(graph.nodes.Keys, DefaultEdges(edges, kept[..i]))
      invariant graph.nodes == old(graph.nodes) && graph.entry == old(graph.entry)
    {
      assert kept[..i + 1][..i] == kept[..i];
      AddDeps(graph, edges, kept[i].dependsOn, kept[i].id, DefaultEdges(edges, kept[..i]));
    }
    assert kept[..|kept|] == kept;
  }

  method AddDeps(graph: ExecutionGraph, edges: seq<PlanEdge>, deps: seq<string>, to: string, ghost before: seq<Edge>)
    requires graph.edges == Retained(graph.nodes.Keys, before)
    modifies graph
    ensures graph.edges == Retained(graph.nodes.Keys, before + DepEdges(edges, deps, to))
    ensures graph.nodes == old(graph.nodes) && graph.entry == old(graph.entry)
  {
    assert before + [] == before;
    for i := 0 to |deps|
      invariant graph.edges == Retained(graph.nodes.Keys, before + DepEdges(edges, deps[..i], to))
      invariant graph.nodes == old(graph.nodes) && graph.entry == old(graph.entry)
    {
      OneMoreDep(graph.nodes.Keys, before, edges, deps, to, i);
      if !(exists e | e in edges :: e.from == deps[i] && e.to == to) {
        graph.AddEdge(deps[i], to, None);
      }
    }
    assert deps[..|deps|] == deps;
  }

  lemma {:induction false} OneMoreDep(ids: set<string>, before: seq<Edge>, edges: seq<PlanEdge>, deps: seq<string>, to: string, i: nat)
    requires i < |deps|
    ensures Retained(ids, before + DepEdges(edges, deps[..i + 1], to))
            == Retained(ids, before + DepEdges(edges, deps[..i], to))
               + if Wired(edges, deps[i], to) then [] else Retained(ids, [Edge(deps[i], to, None)])
  {
    assert deps[..i + 1][..i] == deps[..i];
    var done := DepEdges(edges, deps[..i], to);
    if Wired(edges, deps[i], to) {
      assert done + [] == done;
    } else {
      RetainedSnoc(ids, before + done, Edge(deps[i], to, None));
      Assoc(before, done, [Edge(deps[i], to, None)]);
    }
  }

  method AddExplicit(graph: ExecutionGraph, edges: seq<PlanEdge>)
    modifies graph
    ensures graph.edges == old(graph.edges) + Retained(graph.nodes.Keys, ExplicitEdges(edges))
    ensures graph.nodes == old(graph.nodes) && graph.entry == old(graph.entry)
  {
    ghost var before := graph.edges;
    assert before + [] == before;
    for i := 0 to |edges|
      invariant graph.edges == before + Retained(graph.nodes.Keys, ExplicitEdges(edges[..i]))
      invariant graph.nodes == old(graph.nodes) && graph.entry == old(graph.entry)
    {
      assert edges[..i + 1][..i] == edges[..i];
      var e := Edge(edges[i].from, edges[i].to, ParseCondition(edges[i].condition));
      RetainedSnoc(graph.nodes.Keys, ExplicitEdges(edges[..i]), e);
      graph.AddEdge(e.from, e.to, e.condition);
    }
    assert edges[..|edges|] == edges;
  }

  // ----- What the graph contains -----

  lemma {:induction false} KeptIds(kept: seq<PlanNode>, id: string)
    ensures id in NodesOf(kept) <==> exists k | 0 <= k < |kept| :: kept[k].id == id
  {
    if kept != [] {
      KeptIds(kept[..|kept| - 1], id);
    }
  }

  lemma {:induction false} NoMoreThanKept(kept: seq<PlanNode>)
    ensures |NodesOf(kept)| <= |kept|
  {
    if kept != [] {
      var front, last := kept[..|kept| - 1], kept[|kept| - 1];
      NoMoreThanKept(front);
      assert NodesOf(kept).Keys == NodesOf(front).Keys + {last.id};
      assert |NodesOf(kept)| == |NodesOf(kept).Keys| && |NodesOf(front)| == |NodesOf(front).Keys|;
    }
  }

  /** The explicit edges of a plan, with this condition. */
  ghost predicate Explicit(edges: seq<PlanEdge>, e: Edge) {
    exists x | x in edges :: e == Edge(x.from, x.to, ParseCondition(x.condition))
  }

  /** A kept node of this id lists this dependency. */
  ghost predicate Depends(kept: seq<PlanNode>, from: string, to: string) {
    exists node | node in kept :: node.id == to && from in node.dependsOn
  }

  lemma {:induction false} ExplicitIn(edges: seq<PlanEdge>, e: Edge)
    ensures e in ExplicitEdges(edges) <==> Explicit(edges, e)
  {
    if edges != [] {
      var front, last := edges[..|edges| - 1], edges[|edges| - 1];
      ExplicitIn(front, e);
      assert edges == front + [last];
    }
  }

  lemma {:induction false} DepIn(edges: seq<PlanEdge>, deps: seq<string>, to: string, e: Edge)
    ensures e in DepEdges(edges, deps, to) <==> e.to == to && e.condition.None? && e.from in deps && !Wired(edges, e.from, to)
  {
    if deps != [] {
      var front, last := deps[..|deps| - 1], deps[|deps| - 1];
      DepIn(edges, front, to, e);
      assert deps == front + [last];
    }
  }

  lemma {:induction false} DefaultIn(edges: seq<PlanEdge>, kept: seq<PlanNode>, e: Edge)
    ensures e in DefaultEdges(edges, kept) <==>
              e.condition.None? && Depends(kept, e.from, e.to) && !Wired(edges, e.from, e.to)
  {
    if kept != [] {
      var front, last := kept[..|kept| - 1], kept[|kept| - 1];
      DefaultIn(edges, front, e);
      DepIn(edges, last.dependsOn, last.id, e);
      assert kept == front + [last];
    }
  }

  /** An edge is in the graph exactly when it joins kept nodes and is explicit, or an unwired dependency. */
  lemma {:induction false} EdgeIff(plan: Plan, maxNodes: nat, e: Edge)
    ensures var kept := Kept(plan, maxNodes);
            e in EdgesOf(plan, maxNodes) <==>
              && Joins(NodesOf(kept).Keys, e)
              && (Explicit(plan.edges, e)
                  || (e.condition.None? && Depends(kept, e.from, e.to) && !Wired(plan.edges, e.from, e.to)))
  {
    var kept := Kept(plan, maxNodes);
    var ids := NodesOf(kept).Keys;
    RetainedIn(ids, DefaultEdges(plan.edges, kept), e);
    RetainedIn(ids, ExplicitEdges(plan.edges), e);
    DefaultIn(plan.edges, kept, e);
    ExplicitIn(plan.edges, e);
  }

  /** The nodes kept are the first of the plan, as many as the limit allows. */
  lemma {:induction false} KeptAreFirst(plan: Plan, maxNodes: nat)
    ensures Kept(plan, maxNodes) <= plan.nodes
    ensures |Kept(plan, maxNodes)| == if |plan.nodes| < maxNodes then |plan.nodes| else maxNodes
  {
  }

  /** Whatever the order of listing, a dependency between kept nodes is an edge, and no edge leads to a dropped node. */
  lemma {:induction false} DependenciesAreKept(plan: Plan, maxNodes: nat)
    ensures |NodesOf(Kept(plan, maxNodes))| <= maxNodes
    ensures forall from, to |
      Depends(Kept(plan, maxNodes), from, to) && from in NodesOf(Kept(plan, maxNodes)) ::
      exists e | e in EdgesOf(plan, maxNodes) :: e.from == from && e.to == to
    ensures forall e | e in EdgesOf(plan, maxNodes) :: e.from in NodesOf(Kept(plan, maxNodes)) && e.to in NodesOf(Kept(plan, maxNodes))
  {
    var kept := Kept(plan, maxNodes);
    NoMoreThanKept(kept);
    forall from, to | Depends(kept, from, to) && from in NodesOf(kept)
      ensures exists e | e in EdgesOf(plan, maxNodes) :: e.from == from && e.to == to
    {
      var node :| node in kept && node.id == to && from in node.dependsOn;
      KeptIds(kept, to);
      if Wired(plan.edges, from, to) {
        var x :| x in plan.edges && x.from == from && x.to == to;
        var e := Edge(from, to, ParseCondition(x.condition));
        assert Explicit(plan.edges, e);
        EdgeIff(plan, maxNodes, e);
      } else {
        EdgeIff(plan, maxNodes, Edge(from, to, None));
      }
    }
    forall e | e in EdgesOf(plan, maxNodes) ensures e.from in NodesOf(kept) && e.to in NodesOf(kept) {
      EdgeIff(plan, maxNodes, e);
    }
  }

  // ----- What the planner's words mean -----

  /** A plan node with children runs them in parallel; else its action word decides, and an unknown word means thinking. */
  lemma {:induction false} ActionMeaning(node: PlanNode)
    ensures node.parallel.Fork? ==>
              var action, children := ParseAction(node), node.parallel.children;
              && action.Parallel? && |action.children| == |children|
              && forall k | 0 <= k < |children| :: action.children[k] == Node(children[k].id, ParseAction(children[k]))
    ensures node.parallel.Single? ==>
              match node.action
              case "call_read_tool" => ParseAction(node) == CallTool(if node.tool.Some? then node.tool.value else "", node.args)
              case "call_tool" => ParseAction(node) == CallTool(if node.tool.Some? then node.tool.value else "", node.args)
              case "reflect" => ParseAction(node) == Reflect(if node.criteria.Some? then node.criteria.value else "")
              case "delegate" =>
                ParseAction(node) == Delegate(
                  if node.subAgent.Some? then node.subAgent.value else if node.tool.Some? then node.tool.value else "",
                  if node.goal.Some? then node.goal.value else node.prompt)
              case _ => ParseAction(node) == Think(node.prompt)
  {
  }

  /** The words of an edge condition, in any case and with white space around them. */
  lemma {:induction false} ConditionMeaning(left: string, word: string, right: string)
    requires AllSpace(left) && AllSpace(right)
    requires word == "" || (!IsSpace(word[0]) && !IsSpace(word[|word| - 1]))
    ensures ParseCondition(None) == None
    ensures var c := ParseCondition(Some(left + (word + right)));
            && (c == Some(Failure) <==> Lower(word) == "failure" || Lower(word) == "on_failure" || Lower(word) == "on-failure")
            && (c == Some(Retry(1)) <==> Lower(word) == "retry")
            && (c.Some? && c.value.ToolCall? <==> "tool_call:" <= Lower(word))
            && (c.Some? && c.value.Retry? ==> c.value.times == 1)
  {
    TrimTakes(left, word, right);
    var c := Lower(word);
    assert ParseCondition(Some(left + (word + right))) == ConditionOf(c);
    if TOOL_CALL <= c {
      assert c[0] == 't';
    }
  }

  // ----- The boundary, said about the planner's output -----

  /** Some leaf of a plan node, below parallel children, asks for a tool outside the list. */
  predicate AsksOutside(node: PlanNode, allowed: set<string>) {
    match node.parallel
    case Fork(children) => SomeAsksOutside(children, allowed)
    case Single => (node.action == "call_read_tool" || node.action == "call_tool") && OrElse(node.tool, "") !in allowed
  }

  predicate SomeAsksOutside(children: seq<PlanNode>, allowed: set<string>) {
    children != [] && (AsksOutside(children[0], allowed) || SomeAsksOutside(children[1..], allowed))
  }

  lemma {:induction false} CheckIsAsk(node: PlanNode, allowed: set<string>)
    ensures CheckNode(Node(node.id, ParseAction(node)), allowed).Some? <==> AsksOutside(node, allowed)
    decreases node, 1
  {
    match node.parallel
    case Fork(children) => ChecksAreAsks(children, allowed);
    case Single =>
  }

  lemma {:induction false} ChecksAreAsks(children: seq<PlanNode>, allowed: set<string>)
    ensures CheckNodes(ParseChildren(children), allowed).Some? <==> SomeAsksOutside(children, allowed)
    decreases children, 0
  {
    if children != [] {
      CheckIsAsk(children[0], allowed);
      ChecksAreAsks(children[1..], allowed);
    }
  }

  /** The last kept node of each id is the one that counts. */
  predicate IsLast(kept: seq<PlanNode>, k: nat)
    requires k < |kept|
  {
    forall later | k < later < |kept| :: kept[later].id != kept[k].id
  }

  lemma {:induction false} LastCounts(kept: seq<PlanNode>, k: nat)
    requires k < |kept| && IsLast(kept, k)
    ensures kept[k].id in NodesOf(kept) && NodesOf(kept)[kept[k].id] == ParseAction(kept[k])
  {
    if k < |kept| - 1 {
      var front := kept[..|kept| - 1];
      assert kept[|kept| - 1].id != kept[k].id;
      assert IsLast(front, k);
      LastCounts(front, k);
    }
  }

  lemma {:induction false} LastOf(kept: seq<PlanNode>, id: string) returns (k: nat)
    requires id in NodesOf(kept)
    ensures k < |kept| && kept[k].id == id && IsLast(kept, k)
  {
    if kept[|kept| - 1].id == id {
      k := |kept| - 1;
    } else {
      k := LastOf(kept[..|kept| - 1], id);
      forall later | k < later < |kept| ensures kept[later].id != kept[k].id {
        assert later < |kept| - 1 ==> kept[..|kept| - 1][later] == kept[later];
      }
    }
  }

  ghost predicate GraphRefused(nodes: map<string, Action>, allowed: set<string>) {
    exists id | id in nodes :: CheckNode(Node(id, nodes[id]), allowed).Some?
  }

  ghost predicate PlanAsksOutside(kept: seq<PlanNode>, allowed: set<string>) {
    exists k: nat | k < |kept| :: IsLast(kept, k) && AsksOutside(kept[k], allowed)
  }

  /** A plan is refused exactly when a kept node that is not replaced by a later one asks for a forbidden tool. */
  lemma {:induction false} RefusedIff(kept: seq<PlanNode>, allowed: set<string>)
    ensures GraphRefused(NodesOf(kept), allowed) <==> PlanAsksOutside(kept, allowed)
  {
    if GraphRefused(NodesOf(kept), allowed) {
      var id :| id in NodesOf(kept) && CheckNode(Node(id, NodesOf(kept)[id]), allowed).Some?;
      var k := LastOf(kept, id);
      LastCounts(kept, k);
      CheckIsAsk(kept[k], allowed);
    }
    if PlanAsksOutside(kept, allowed) {
      var k: nat :| k < |kept| && IsLast(kept, k) && AsksOutside(kept[k], allowed);
      LastCounts(kept, k);
      CheckIsAsk(kept[k], allowed);
    }
  }

  /** The entry, the plan's first node, is in the graph exactly when any node may be kept. */
  lemma {:induction false} EntryIsKeptIff(plan: Plan, maxNodes: nat)
    requires plan.nodes != []
    ensures plan.nodes[0].id in NodesOf(Kept(plan, maxNodes)) <==> maxNodes > 0
  {
    var kept := Kept(plan, maxNodes);
    KeptIds(kept, plan.nodes[0].id);
    assert maxNodes > 0 ==> kept[0].id == plan.nodes[0].id;
  }

  // ----- The id in a tool-call condition -----

  predicate IsUpper(c: char) {
    'A' <= c <= 'Z'
  }

  lemma {:induction false} LowerAt(s: string, k: nat)
    requires k < |s|
    ensures Lower(s)[k] == if IsUpper(s[k]) then ((s[k] as int) + 32) as char else s[k]
  {
    if k > 0 {
      LowerAt(s[1..], k - 1);
    }
  }

  lemma {:induction false} LowerKeepsIff(s: string)
    ensures Lower(s) == s <==> forall c | c in s :: !IsUpper(c)
  {
    forall k: nat | k < |s| ensures Lower(s)[k] == s[k] <==> !IsUpper(s[k]) {
      LowerAt(s, k);
    }
    assert Lower(s) == s <==> forall k: nat | k < |s| :: Lower(s)[k] == s[k];
    assert (forall c | c in s :: !IsUpper(c)) <==> forall k: nat | k < |s| :: !IsUpper(s[k]);
  }

  lemma {:induction false} LowerJoin(a: string, b: string)
    ensures Lower(a + b) == Lower(a) + Lower(b)
  {
    if a == "" {
      assert a + b == b;
    } else {
      assert (a + b)[1..] == a[1..] + b;
      LowerJoin(a[1..], b);
    }
  }

  lemma {:induction false} TrimmedIsTrimmed(s: string)
    requires s == "" || (!IsSpace(s[0]) && !IsSpace(s[|s| - 1]))
    ensures Trim(s) == s && Trim(Lower(s)) == Lower(s)
  {
    TrimKeeps(s);
    if s != "" {
      LowerAt(s, 0);
      LowerAt(s, |s| - 1);
    }
    TrimKeeps(Lower(s));
  }

  lemma {:induction false} ToolCallCondition(id: string)
    requires id == "" || (!IsSpace(id[0]) && !IsSpace(id[|id| - 1]))
    ensures ParseCondition(Some(TOOL_CALL + id)) == Some(ToolCall(Lower(id)))
  {
    TrimmedIsTrimmed(TOOL_CALL + id);
    TrimmedIsTrimmed(id);
    LowerJoin(TOOL_CALL, id);
    PrefixIsLower();
    ReadToolCall(Lower(id));
  }

  lemma {:induction false} PrefixIsLower()
    ensures Lower(TOOL_CALL) == TOOL_CALL
  {
    LowerKeepsIff(TOOL_CALL);
  }

  lemma {:induction false} ReadToolCall(id: string)
    ensures ConditionOf(TOOL_CALL + id) == Some(ToolCall(Trim(id)))
  {
    assert (TOOL_CALL + id)[|TOOL_CALL|..] == id;
    assert (TOOL_CALL + id)[0] == 't';
  }

  /** The id of a tool-call condition is read as written if and only if it has no capital letter. */
  lemma {:induction false} ToolCallIdKeptIff(id: string)
    requires id == "" || (!IsSpace(id[0]) && !IsSpace(id[|id| - 1]))
    ensures ParseCondition(Some(TOOL_CALL + id)) == Some(ToolCall(id)) <==> forall c | c in id :: !IsUpper(c)
  {
    ToolCallCondition(id);
    LowerKeepsIff(id);
  }

  // ----- When an edge fires -----

  /** What a node left behind. */
  datatype Output = Text(text: string) | ToolResult(text: string) | Failed(text: string) | Skipped

  predicate Mentions(text: string, id: string) {
    id == "" || Split(text, id).Some?
  }

  lemma {:induction false} MentionsIff(text: string, id: string)
    ensures Mentions(text, id) <==> Contains(text, id)
  {
    if id == "" {
      assert text == "" + id + text;
    } else {
      ContainsIff(text, id);
    }
  }

  /** Whether the output of an edge's source satisfies the edge's condition; no condition means success. */
  predicate Fires(condition: Option<Condition>, output: Output) {
    match condition
    case None => output.Text? || output.ToolResult?
    case Some(Failure) => output.Failed?
    case Some(Retry(_)) => output.Failed?
    case Some(ToolCall(id)) => output.ToolResult? && Mentions(output.text, id)
  }

  /** The planner is told: a tool-call edge fires when the source's tool result mentions the id. */
  ghost predicate FiresAsTold(id: string) {
    forall output: Output ::
      Fires(ParseCondition(Some(TOOL_CALL + id)), output) <==> output.ToolResult? && Contains(output.text, id)
  }

  /** A tool-call edge fires on the lower-cased id. */
  lemma {:induction false} ToolCallFires(id: string, text: string)
    requires id == "" || (!IsSpace(id[0]) && !IsSpace(id[|id| - 1]))
    ensures Fires(ParseCondition(Some(TOOL_CALL + id)), ToolResult(text)) <==> Contains(text, Lower(id))
  {
    ToolCallCondition(id);
    MentionsIff(text, Lower(id));
  }

  /** A text as long as what it contains is that. */
  lemma {:induction false} ContainsWhole(text: string, pat: string)
    requires |text| == |pat|
    ensures Contains(text, pat) <==> text == pat
  {
    if Contains(text, pat) {
      var a, b :| text == a + pat + b;
      assert a == "" && b == "";
    }
    if text == pat {
      assert text == "" + pat + "";
    }
  }

  /** Tool-call edges fire as the planner is told exactly when the id has no capital letter. */
  lemma {:induction false} FiresAsToldIff(id: string)
    requires id == "" || (!IsSpace(id[0]) && !IsSpace(id[|id| - 1]))
    ensures FiresAsTold(id) <==> forall c | c in id :: !IsUpper(c)
  {
    LowerKeepsIff(id);
    ToolCallCondition(id);
    ToolCallFires(id, id);
    ContainsWhole(id, Lower(id));
    ContainsWhole(id, id);
    assert FiresAsTold(id) ==> (Fires(ParseCondition(Some(TOOL_CALL + id)), ToolResult(id)) <==> Contains(id, id));
    if Lower(id) == id {
      forall output: Output
        ensures Fires(ParseCondition(Some(TOOL_CALL + id)), output) <==> output.ToolResult? && Contains(output.text, id)
      {
        if output.ToolResult? {
          ToolCallFires(id, output.text);
        }
      }
    }
  }

  /** An edge on the id ABC does not fire on a result that mentions it, and fires on one that mentions abc. */
  lemma {:induction false} CapitalIdMisfires()
    ensures var condition := ParseCondition(Some(TOOL_CALL + "ABC"));
            !Fires(condition, ToolResult("ABC")) && Fires(condition, ToolResult("abc"))
  {
    assert Lower("ABC") == "abc" by {
      assert "ABC"[1..] == "BC" && "BC"[1..] == "C" && "C"[1..] == "";
    }
    ToolCallFires("ABC", "ABC");
    ToolCallFires("ABC", "abc");
    ContainsWhole("ABC", "abc");
    ContainsWhole("abc", "abc");
  }
}
