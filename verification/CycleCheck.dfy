/**
  `detectComposeCircularDeps` (src/custom-tools.ts): depth-first search for a cycle among the
  tools that call each other, and the finishing order the evaluator's termination rests on.
*/
module CycleCheck {
  import opened Common
  import opened ComposeText
  import opened ToolConfig

  type Graph = map<string, seq<string>>

  function Next(g: Graph, n: string): seq<string> {
    if n in g then g[n] else []
  }

  ghost predicate IsWalk(g: Graph, p: seq<string>) {
    p != [] && forall i :: 0 <= i < |p| - 1 ==> p[i + 1] in Next(g, p[i])
  }

  /** A genuine cycle: at least one edge, and equal ends. */
  ghost predicate IsCycle(g: Graph, p: seq<string>) {
    |p| >= 2 && IsWalk(g, p) && p[0] == p[|p| - 1]
  }

  ghost predicate Cyclic(g: Graph) {
    exists p :: IsCycle(g, p)
  }

  predicate NoRepeats(p: seq<string>) {
    forall i, j :: 0 <= i < j < |p| ==> p[i] != p[j]
  }

  /** Finishing numbers: every edge leads from a ranked node to one of smaller rank. */
  ghost predicate IsRanking(g: Graph, rank: map<string, nat>) {
    forall a, b :: a in rank && b in Next(g, a) ==> b in rank && rank[b] < rank[a]
  }

  lemma {:induction false} RankFalls(g: Graph, rank: map<string, nat>, p: seq<string>)
    requires IsRanking(g, rank) && IsWalk(g, p) && p[0] in rank
    ensures p[|p| - 1] in rank
    ensures |p| > 1 ==> rank[p[|p| - 1]] < rank[p[0]]
    ensures rank[p[|p| - 1]] <= rank[p[0]]
  {
    if |p| > 1 {
      assert p[0 + 1] in Next(g, p[0]);
      forall i | 0 <= i < |p[1..]| - 1 ensures p[1..][i + 1] in Next(g, p[1..][i]) {
        assert p[(i + 1) + 1] in Next(g, p[i + 1]);
      }
      RankFalls(g, rank, p[1..]);
    }
  }

  /** A graph all of whose nodes with edges can be ranked has no cycle. */
  lemma RankedIsAcyclic(g: Graph, rank: map<string, nat>)
    requires IsRanking(g, rank) && g.Keys <= rank.Keys
    ensures !Cyclic(g)
  {
    if p :| IsCycle(g, p) {
      assert p[0 + 1] in Next(g, p[0]);
      RankFalls(g, rank, p);
    }
  }

  lemma ExtendWalk(g: Graph, w: seq<string>, next: string)
    requires IsWalk(g, w) && next in Next(g, w[|w| - 1])
    ensures IsWalk(g, w + [next])
  {
    forall i | 0 <= i < |w + [next]| - 1 ensures (w + [next])[i + 1] in Next(g, (w + [next])[i]) {
      if i < |w| - 1 {
        assert w[i + 1] in Next(g, w[i]);
      }
    }
  }

  /** A walk that comes back to one of its nodes contains a cycle. */
  lemma WalkClosed(g: Graph, w: seq<string>, i: nat, j: nat)
    requires IsWalk(g, w) && i < j < |w| && w[i] == w[j]
    ensures IsCycle(g, w[i..j + 1])
  {
    var c := w[i..j + 1];
    forall k | 0 <= k < |c| - 1 ensures c[k + 1] in Next(g, c[k]) {
      assert w[(i + k) + 1] in Next(g, w[i + k]);
    }
  }

  lemma AcyclicNoRepeats(g: Graph, w: seq<string>)
    requires IsWalk(g, w) && !Cyclic(g)
    ensures NoRepeats(w)
  {
    forall i, j | 0 <= i < j < |w| ensures w[i] != w[j] {
      if w[i] == w[j] {
        WalkClosed(g, w, i, j);
      }
    }
  }

  lemma {:induction false} NoRepeatsBound(p: seq<string>, s: set<string>)
    requires NoRepeats(p) && forall i :: 0 <= i < |p| ==> p[i] in s
    ensures |p| <= |s|
  {
    if p != [] {
      NoRepeatsBound(p[1..], s - {p[0]});
    }
  }

  // ---------------------------------------------------------------------
  // The search
  // ---------------------------------------------------------------------

  function IndexIn(path: seq<string>, n: string): (k: nat)
    requires n in path
    ensures k < |path| && path[k] == n
  {
    if path[0] == n then 0 else 1 + IndexIn(path[1..], n)
  }

  ghost predicate ClosedUnder(g: Graph, nodes: set<string>) {
    forall a, b :: a in nodes && b in Next(g, a) ==> b in nodes
  }

  /** Finishing numbers in use are those below the number of finished nodes. */
  ghost predicate Numbered(rank: map<string, nat>) {
    forall a :: a in rank ==> rank[a] < |rank|
  }

  ghost predicate Extends(now: map<string, nat>, before: map<string, nat>) {
    forall a :: a in before ==> a in now && now[a] == before[a]
  }

  lemma ExtendsFurther(c: map<string, nat>, b: map<string, nat>, a: map<string, nat>)
    requires Extends(c, b) && Extends(b, a)
    ensures Extends(c, a)
  {
  }

  lemma ExtendsItself(a: map<string, nat>)
    ensures Extends(a, a)
  {
  }

  lemma StillRanked(now: map<string, nat>, before: map<string, nat>, ns: seq<string>)
    requires Extends(now, before) && forall j :: 0 <= j < |ns| ==> ns[j] in before
    ensures forall j :: 0 <= j < |ns| ==> ns[j] in now
  {
  }

  /** All successors of node are finished. */
  ghost predicate Clear(g: Graph, rank: map<string, nat>, node: string) {
    forall b :: b in Next(g, node) ==> b in rank
  }

  /** Numbering a node whose successors are all finished. */
  lemma Finish(g: Graph, rank: map<string, nat>, node: string)
    requires IsRanking(g, rank) && Numbered(rank) && node !in rank && Clear(g, rank, node)
    ensures var now := rank[node := |rank|];
      IsRanking(g, now) && Numbered(now) && Extends(now, rank) && now.Keys == rank.Keys + {node}
  {
    hide *;
    FinishCount(rank, node);
    FinishRanks(g, rank, node);
    FinishExtends(rank, node, |rank|);
  }

  lemma FinishExtends(rank: map<string, nat>, node: string, n: nat)
    requires node !in rank
    ensures Extends(rank[node := n], rank) && rank[node := n].Keys == rank.Keys + {node}
  {
  }

  lemma FinishCount(rank: map<string, nat>, node: string)
    requires Numbered(rank) && node !in rank
    ensures Numbered(rank[node := |rank|])
  {
    assert |rank[node := |rank|]| == |rank| + 1;
  }

  lemma FinishRanks(g: Graph, rank: map<string, nat>, node: string)
    requires IsRanking(g, rank) && Numbered(rank) && node !in rank && Clear(g, rank, node)
    ensures IsRanking(g, rank[node := |rank|])
  {
    hide Next;
    var now := rank[node := |rank|];
    forall a, b | a in now && b in Next(g, a) ensures b in now && now[b] < now[a] {
      assert b in rank && b != node;
    }
  }

  /** Taking a node off the stack finishes exactly that node. */
  lemma Unstack(finished: set<string>, visited: set<string>, stack: set<string>, node: string)
    requires finished == visited - (stack + {node}) && node in visited && node !in stack
    ensures finished + {node} == visited - stack
    ensures (stack + {node}) - {node} == stack
  {
  }

  /** Putting an unvisited node on the stack finishes none. */
  lemma Stack(visited: set<string>, stack: set<string>, node: string)
    requires node !in visited
    ensures (visited + {node}) - (stack + {node}) == visited - stack
  {
  }

  class Search {
    const edges: Graph
    ghost const nodes: set<string>
    var visited: set<string>
    var inStack: set<string>
    ghost var rank: map<string, nat>

    /** Finished nodes are those visited and off the stack; they are ranked in finishing order. */
    ghost predicate Valid()
      reads this
    {
      && ClosedUnder(edges, nodes)
      && inStack <= visited <= nodes
      && rank.Keys == visited - inStack
      && IsRanking(edges, rank)
      && Numbered(rank)
    }

    constructor (edges: Graph, ghost nodes: set<string>)
      requires ClosedUnder(edges, nodes)
      ensures Valid() && this.edges == edges && this.nodes == nodes
      ensures visited == {} && inStack == {}
    {
      this.edges := edges;
      this.nodes := nodes;
      visited, inStack, rank := {}, {}, map[];
    }

    /** Either a cycle without inner repetition is reported, or the stack is as before, the node is
        finished, and every earlier finishing number still stands. */
    method Dfs(node: string, path: seq<string>) returns (cycle: Option<seq<string>>)
      requires Valid() && node in nodes
      requires inStack == (set n | n in path) && NoRepeats(path)
      requires IsWalk(edges, path + [node])
      modifies this`visited, this`inStack, this`rank
      ensures cycle.Some? ==> IsCycle(edges, cycle.value) && NoRepeats(cycle.value[1..])
      ensures cycle.None? ==> Valid() && inStack == old(inStack) && old(visited) <= visited
      ensures cycle.None? ==> node in rank && Extends(rank, old(rank))
      decreases nodes - visited, 0
    {
      hide IsRanking, Numbered, IsWalk, IsCycle, Extends, ClosedUnder, Clear;
      ExtendsItself(rank);
      if node in inStack {
        var k := IndexIn(path, node);
        WalkClosed(edges, path + [node], k, |path|);
        assert (path + [node])[k..|path| + 1] == path[k..] + [node];
        return Some(path[k..] + [node]);
      }
      if node in visited {
        return None;
      }
      Stack(visited, inStack, node);
      visited := visited + {node};
      inStack := inStack + {node};
      cycle := Explore(node, path);
      if cycle.Some? {
        return;
      }
      ghost var before := rank;
      Pop(node);
      assert inStack == old(inStack);
      ExtendsFurther(rank, before, old(rank));
    }

    /** Takes a node off the stack once all its neighbours are finished, and numbers it. */
    method Pop(node: string)
      requires Valid() && node in inStack && Clear(edges, rank, node)
      modifies this`inStack, this`rank
      ensures Valid() && inStack == old(inStack) - {node}
      ensures node in rank && Extends(rank, old(rank))
    {
      hide IsRanking, Numbered, Extends, ClosedUnder, Clear;
      Finish(edges, rank, node);
      Unstack(rank.Keys, visited, inStack - {node}, node);
      inStack := inStack - {node};
      rank := rank[node := |rank|];
    }

    /** The loop over the neighbours of a node that has just been put on the stack. */
    method Explore(node: string, path: seq<string>) returns (cycle: Option<seq<string>>)
      requires Valid() && node in nodes
      requires node in inStack && node !in path && inStack == (set n | n in path) + {node} && NoRepeats(path)
      requires IsWalk(edges, path + [node])
      modifies this`visited, this`inStack, this`rank
      ensures cycle.Some? ==> IsCycle(edges, cycle.value) && NoRepeats(cycle.value[1..])
      ensures cycle.None? ==> Valid() && inStack == old(inStack) && old(visited) <= visited
      ensures cycle.None? ==> Clear(edges, rank, node) && Extends(rank, old(rank))
      decreases nodes - visited, 1
    {
      hide IsRanking, Numbered, IsWalk, IsCycle, Extends;
      ExtendsItself(rank);
      if node in edges {
        var neighbors := edges[node];
        for i := 0 to |neighbors|
          invariant Valid() && inStack == old(inStack) && old(visited) <= visited
          invariant forall j :: 0 <= j < |neighbors[..i]| ==> neighbors[..i][j] in rank
          invariant Extends(rank, old(rank))
        {
          assert neighbors[i] in Next(edges, node);
          ExtendWalk(edges, path + [node], neighbors[i]);
          ghost var before := rank;
          cycle := Dfs(neighbors[i], path + [node]);
          if cycle.Some? {
            return;
          }
          ExtendsFurther(rank, before, old(rank));
          StillRanked(rank, before, neighbors[..i]);
        }
      }
      return None;
    }
  }

  // ---------------------------------------------------------------------
  // The graph of a configuration
  // ---------------------------------------------------------------------

  /** Names of the tools a pipeline calls, step by step. */
  function Calls(steps: seq<ComposeStep>): seq<string> {
    if steps == [] then []
    else
      var last := steps[|steps| - 1];
      Calls(steps[..|steps| - 1]) + if CallsTool(last) then [last.tool.value] else []
  }

  function ToolRefs(tool: Tool): seq<string> {
    if tool.compose.Some? then Distinct(Calls(tool.compose.value)) else []
  }

  function ToolGraph(config: Config): Graph {
    map n | n in config.tools && ToolRefs(config.tools[n]) != [] :: ToolRefs(config.tools[n])
  }

  lemma {:induction false} CallsMember(steps: seq<ComposeStep>, i: nat)
    requires i < |steps| && CallsTool(steps[i])
    ensures steps[i].tool.value in Calls(steps)
  {
    if i < |steps| - 1 {
      CallsMember(steps[..|steps| - 1], i);
    }
  }

  lemma {:induction false} CallsOnly(steps: seq<ComposeStep>, b: string)
    requires b in Calls(steps)
    ensures b != "" && exists i :: 0 <= i < |steps| && steps[i].tool == Some(b)
  {
    var last := steps[|steps| - 1];
    if !(CallsTool(last) && last.tool.value == b) {
      CallsOnly(steps[..|steps| - 1], b);
    }
  }

  /** Tool a has a compose step that names tool b. */
  predicate HasStep(config: Config, a: string, b: string) {
    && a in config.tools && config.tools[a].compose.Some? && b != ""
    && exists i :: 0 <= i < |config.tools[a].compose.value| && config.tools[a].compose.value[i].tool == Some(b)
  }

  /** The edges of the graph are exactly these. */
  lemma NextIff(config: Config, a: string, b: string)
    ensures b in Next(ToolGraph(config), a) <==> HasStep(config, a, b)
  {
    if a in config.tools && config.tools[a].compose.Some? {
      var steps := config.tools[a].compose.value;
      if b in Calls(steps) {
        CallsOnly(steps, b);
      }
      if HasStep(config, a, b) {
        var i :| 0 <= i < |steps| && steps[i].tool == Some(b);
        CallsMember(steps, i);
      }
    }
  }

  /** Each tool of p has a step that names the next, and p ends where it starts. */
  predicate CallCycle(config: Config, p: seq<string>) {
    |p| >= 2 && p[0] == p[|p| - 1] && forall i :: 0 <= i < |p| - 1 ==> HasStep(config, p[i], p[i + 1])
  }

  lemma CycleIff(config: Config, p: seq<string>)
    ensures IsCycle(ToolGraph(config), p) <==> CallCycle(config, p)
  {
    hide HasStep, Next, ToolGraph;
    forall i | 0 <= i < |p| - 1 ensures p[i + 1] in Next(ToolGraph(config), p[i]) <==> HasStep(config, p[i], p[i + 1]) {
      NextIff(config, p[i], p[i + 1]);
    }
  }

  ghost predicate CallsItself(config: Config) {
    exists p :: CallCycle(config, p)
  }

  lemma CyclicIff(config: Config)
    ensures Cyclic(ToolGraph(config)) <==> CallsItself(config)
  {
    hide IsCycle, CallCycle, ToolGraph;
    if p :| IsCycle(ToolGraph(config), p) {
      CycleIff(config, p);
    }
    if p :| CallCycle(config, p) {
      CycleIff(config, p);
    }
  }

  /** The set of names one pipeline calls, in order of first call. */
  method CollectRefs(compose: seq<ComposeStep>) returns (refs: seq<string>)
    ensures refs == Distinct(Calls(compose))
    ensures forall b :: b in refs <==> b != "" && exists i :: 0 <= i < |compose| && compose[i].tool == Some(b)
  {
    refs := [];
    for i := 0 to |compose|
      invariant refs == Distinct(Calls(compose[..i]))
    {
      var step := compose[i];
      assert compose[..i + 1][..i] == compose[..i];
      if CallsTool(step) {
        var before := Calls(compose[..i]);
        assert Calls(compose[..i + 1]) == before + [step.tool.value];
        assert (before + [step.tool.value])[..|before|] == before;
        if step.tool.value !in refs {
          refs := refs + [step.tool.value];
        }
      } else {
        assert Calls(compose[..i + 1]) == Calls(compose[..i]) + [] == Calls(compose[..i]);
      }
    }
    assert compose[..|compose|] == compose;
    CallsAreSteps(compose);
  }

  lemma CallsAreSteps(steps: seq<ComposeStep>)
    ensures forall b :: b in Calls(steps) <==> b != "" && exists i :: 0 <= i < |steps| && steps[i].tool == Some(b)
  {
    hide Calls;
    forall b | b in Calls(steps) ensures b != "" && exists i :: 0 <= i < |steps| && steps[i].tool == Some(b) {
      CallsOnly(steps, b);
    }
    forall i | 0 <= i < |steps| && CallsTool(steps[i]) ensures steps[i].tool.value in Calls(steps) {
      CallsMember(steps, i);
    }
  }

  method BuildEdges(config: Config) returns (edges: Graph, keys: seq<string>)
    requires Listed(config)
    ensures edges == ToolGraph(config)
    ensures forall a, b :: b in Next(edges, a) <==> HasStep(config, a, b)
    ensures forall n :: n in keys <==> n in edges
  {
    hide Calls;
    edges, keys := map[], [];
    for k := 0 to |config.order|
      invariant forall n :: n in edges <==> n in config.order[..k] && ToolRefs(config.tools[n]) != []
      invariant forall n :: n in edges ==> edges[n] == ToolRefs(config.tools[n])
      invariant forall n :: n in keys <==> n in edges
    {
      var name := config.order[k];
      assert config.order[..k + 1] == config.order[..k] + [name];
      if config.tools[name].compose.Some? {
        var refs := CollectRefs(config.tools[name].compose.value);
        if refs != [] {
          if name !in edges {
            keys := keys + [name];
          }
          edges := edges[name := refs];
        }
      }
    }
    assert config.order[..|config.order|] == config.order;
    assert edges.Keys == ToolGraph(config).Keys;
    forall a, b ensures b in Next(edges, a) <==> HasStep(config, a, b) {
      hide HasStep, Next;
      NextIff(config, a, b);
    }
  }

  /** Every name the graph mentions. */
  ghost function Mentioned(g: Graph): (s: set<string>)
    ensures g.Keys <= s
    ensures forall a, b :: b in Next(g, a) ==> b in s
  {
    g.Keys + set a, b | a in g && b in g[a] :: b
  }

  /** Throws if and only if some tool reaches itself; then the path reported is a genuine cycle
      that visits no tool twice. Otherwise every tool with references has been ranked. */
  method DetectComposeCircularDeps(config: Config) returns (cycle: Option<seq<string>>, ghost rank: map<string, nat>)
    requires Listed(config)
    ensures cycle.Some? <==> CallsItself(config)
    ensures cycle.Some? ==> CallCycle(config, cycle.value) && NoRepeats(cycle.value[1..])
    ensures cycle.None? ==> IsRanking(ToolGraph(config), rank) && ToolGraph(config).Keys <= rank.Keys
    ensures cycle.None? ==> Numbered(rank)
  {
    hide IsRanking, Numbered, IsWalk, IsCycle, ToolGraph, CallCycle, HasStep, CallsItself;
    CyclicIff(config);
    var edges, keys := BuildEdges(config);
    var search := new Search(edges, Mentioned(edges));
    rank := map[];
    for i := 0 to |keys|
      invariant search.Valid() && search.inStack == {}
      invariant fresh(search)
      invariant search.edges == edges && search.nodes == Mentioned(edges)
      invariant forall j :: 0 <= j < i ==> keys[j] in search.rank
    {
      if keys[i] !in search.visited {
        SingleWalk(edges, keys[i]);
        cycle := search.Dfs(keys[i], []);
        if cycle.Some? {
          CycleIff(config, cycle.value);
          CyclicWitness(edges, cycle.value);
          return;
        }
      }
    }
    rank := search.rank;
    RankedIsAcyclic(edges, rank);
    return None, rank;
  }

  lemma CyclicWitness(g: Graph, p: seq<string>)
    requires IsCycle(g, p)
    ensures Cyclic(g)
  {
  }

  lemma SingleWalk(g: Graph, n: string)
    ensures IsWalk(g, [] + [n])
  {
  }

  /** The configurations `validateCustomTools` lets through. */
  ghost predicate WellFormed(config: Config) {
    && (forall n :: n in config.tools ==> ToolOk(config, n, config.tools[n]))
    && !Cyclic(ToolGraph(config))
  }

  method ValidateCustomTools(config: Config) returns (r: Result<(), ConfigError>)
    requires Listed(config)
    ensures r.Ok? <==> WellFormed(config)
    ensures r.Ok? ==> !CallsItself(config)
    ensures r.Err? && r.error.CircularDependency? ==> CallCycle(config, r.error.cycle)
  {
    hide HasStep, CallCycle, CallsItself, ToolGraph, Cyclic;
    CyclicIff(config);
    for i := 0 to |config.order|
      invariant forall j :: 0 <= j < i ==> ToolOk(config, config.order[j], config.tools[config.order[j]])
    {
      r := ValidateTool(config, config.order[i]);
      if r.Err? {
        return;
      }
    }
    var cycle, rank := DetectComposeCircularDeps(config);
    return if cycle.Some? then Err(CircularDependency(cycle.value)) else Ok(());
  }
}
