/**
  Running composed tools (src/custom-tools.ts): `executeRawCustomTool` and
  `executeComposedToolRaw` call each other. The evaluator below counts the nesting and gives up
  when a budget is spent; the theorems say that an accepted configuration never spends it.
*/
module ComposeEval {
  import opened Common
  import opened Templates
  import opened ToolConfig
  import opened CycleCheck

  datatype Failure =
    | BadTemplate(error: TemplateError)
    | Rejected(code: string)
    | BackendError(code: string)
    | TooDeep
    | ToolMissing(name: string)
    | NoResult
    | NoMode

  type Outcome = Result<QueryResult, Failure>

  /** What lies outside: `admit` are the multi-statement, security and permission checks on one
      statement; `query` executes it; `steps` runs a multi-step tool. `W` is the world they act on. */
  datatype Env<!W> = Env(
    js: Js,
    admit: (Tool, string) -> Option<string>,
    query: (W, Tool, string, seq<Value>) -> (W, Result<QueryResult, string>),
    steps: (W, Tool, map<string, Value>) -> (W, Result<QueryResult, string>))

  function Wrap<W>(r: (W, Result<QueryResult, string>)): (W, Outcome) {
    (r.0, match r.1 case Ok(x) => Ok(x) case Err(e) => Err(BackendError(e)))
  }

  /** Checks and executes one statement that has been substituted. */
  function RunSql<W>(env: Env<W>, tool: Tool, sent: Result<Substituted, TemplateError>, w: W): (W, Outcome) {
    match sent
    case Err(e) => (w, Err(BadTemplate(e)))
    case Ok(s) =>
      match env.admit(tool, s.sql)
      case Some(code) => (w, Err(Rejected(code)))
      case None => Wrap(env.query(w, tool, s.sql, s.values))
  }

  /** A string argument that is exactly `{name}` stands for the caller's argument. */
  function StepArg(v: Value, args: map<string, Value>): Value {
    if v.Str? && v.s != "" && ParamLen(v.s) == |v.s| then
      if ParamName(v.s) in args then args[ParamName(v.s)] else Undefined
    else v
  }

  function StepArgs(given: map<string, Value>, args: map<string, Value>): map<string, Value> {
    map k | k in given :: StepArg(given[k], args)
  }

  function InlineSql<W>(env: Env<W>, tool: Tool, sql: string, args: map<string, Value>,
          ctx: Context): Result<Substituted, TemplateError> {
    match Expand(sql, ctx)
    case Err(e) => Err(e)
    case Ok(text) => Substitute(env.js, text, args, tool.parameters)
  }

  /** One tool call, within a nesting budget. */
  function Raw<W>(env: Env<W>, config: Config, name: string, args: map<string, Value>, w: W, budget: nat): (W, Outcome)
    decreases budget, 2, 0
  {
    if budget == 0 then (w, Err(TooDeep))
    else if name !in config.tools then (w, Err(ToolMissing(name)))
    else
      var tool := config.tools[name];
      if tool.compose.Some? && tool.compose.value != [] then
        Pipeline(env, config, tool, tool.compose.value, args, map[], None, w, budget)
      else if tool.steps.Some? then Wrap(env.steps(w, tool, args))
      else if tool.sql.Some? then RunSql(env, tool, Substitute(env.js, tool.sql.value, args, tool.parameters), w)
      else (w, Err(NoMode))
  }

  function RunStep<W>(env: Env<W>, config: Config, tool: Tool, step: ComposeStep, args: map<string, Value>,
          ctx: Context, w: W, budget: nat): (W, Outcome)
    requires budget > 0
    decreases budget, 0, 0
  {
    if CallsTool(step) then Raw(env, config, step.tool.value, StepArgs(step.args, args), w, budget - 1)
    else if step.sql.Some? then RunSql(env, tool, InlineSql(env, tool, step.sql.value, args, ctx), w)
    else (w, Err(NoMode))
  }

  /** The remaining steps of a pipeline, with the results so far. */
  function Pipeline<W>(env: Env<W>, config: Config, tool: Tool, steps: seq<ComposeStep>, args: map<string, Value>,
                       ctx: Context, last: Option<QueryResult>, w: W, budget: nat): (W, Outcome)
    requires budget > 0
    decreases budget, 1, |steps|
  {
    if steps == [] then (w, if last.Some? then Ok(last.value) else Err(NoResult))
    else
      var (w1, r) := RunStep(env, config, tool, steps[0], args, ctx, w, budget);
      if r.Err? then (w1, r)
      else Pipeline(env, config, tool, steps[1..], args, ctx[steps[0].name := r.value], Some(r.value), w1, budget)
  }

  // ---------------------------------------------------------------------
  // What reaches the backend
  // ---------------------------------------------------------------------

  /** good is kept by every statement that has passed the checks and by every multi-step tool. */
  ghost predicate Keeps<W(!new)>(env: Env<W>, good: W -> bool) {
    && (forall w, tool, sql, values :: good(w) && env.admit(tool, sql).None? ==>
          good(env.query(w, tool, sql, values).0))
    && (forall w, tool, args :: good(w) ==> good(env.steps(w, tool, args).0))
  }

  lemma SqlKeeps<W(!new)>(env: Env<W>, good: W -> bool, tool: Tool, sent: Result<Substituted, TemplateError>, w: W)
    requires Keeps(env, good) && good(w)
    ensures good(RunSql(env, tool, sent, w).0)
  {
  }

  /** Nothing gets past the checks: whatever every admitted statement keeps, a tool call keeps, however deep
      the nesting. */
  lemma {:induction false} RawKeeps<W(!new)>(env: Env<W>, good: W -> bool, config: Config, name: string,
      args: map<string, Value>, w: W, budget: nat)
    requires Keeps(env, good) && good(w)
    ensures good(Raw(env, config, name, args, w, budget).0)
    decreases budget, 2, 0
  {
    hide RunSql, Substitute, Pipeline;
    if budget > 0 && name in config.tools {
      var tool := config.tools[name];
      if tool.compose.Some? && tool.compose.value != [] {
        PipelineKeeps(env, good, config, tool, tool.compose.value, args, map[], None, w, budget);
      } else if tool.steps.None? && tool.sql.Some? {
        SqlKeeps(env, good, tool, Substitute(env.js, tool.sql.value, args, tool.parameters), w);
      }
    }
  }

  lemma {:induction false} PipelineKeeps<W(!new)>(env: Env<W>, good: W -> bool, config: Config, tool: Tool,
      steps: seq<ComposeStep>, args: map<string, Value>, ctx: Context, last: Option<QueryResult>, w: W, budget: nat)
    requires Keeps(env, good) && good(w) && budget > 0
    ensures good(Pipeline(env, config, tool, steps, args, ctx, last, w, budget).0)
    decreases budget, 1, |steps|
  {
    hide RunStep, Keeps;
    if steps != [] {
      StepKeeps(env, good, config, tool, steps[0], args, ctx, w, budget);
      var (w1, r) := RunStep(env, config, tool, steps[0], args, ctx, w, budget);
      if r.Ok? {
        var ctx1 := ctx[steps[0].name := r.value];
        PipelineKeeps(env, good, config, tool, steps[1..], args, ctx1, Some(r.value), w1, budget);
      }
    }
  }

  lemma {:induction false} StepKeeps<W(!new)>(env: Env<W>, good: W -> bool, config: Config, tool: Tool,
      step: ComposeStep, args: map<string, Value>, ctx: Context, w: W, budget: nat)
    requires Keeps(env, good) && good(w) && budget > 0
    ensures good(RunStep(env, config, tool, step, args, ctx, w, budget).0)
    decreases budget, 0, 0
  {
    hide Raw, RunSql, Keeps, InlineSql;
    if CallsTool(step) {
      RawKeeps(env, good, config, step.tool.value, StepArgs(step.args, args), w, budget - 1);
    } else if step.sql.Some? {
      SqlKeeps(env, good, tool, InlineSql(env, tool, step.sql.value, args, ctx), w);
    }
  }

  /** One statement: a refused one leaves the world as it was and fails with the refusal; an admitted one is
      executed with its own text and values, once, and its error is the call's. */
  ghost predicate RunsAs<W>(env: Env<W>, tool: Tool, text: string, values: seq<Value>, w: W, r: (W, Outcome)) {
    match env.admit(tool, text)
    case Some(code) => r == (w, Err(Rejected(code)))
    case None =>
      var (after, answer) := env.query(w, tool, text, values);
      && r.0 == after
      && (answer.Ok? ==> r.1 == Ok(answer.value))
      && (answer.Err? ==> r.1 == Err(BackendError(answer.error)))
  }

  /** A tool with SQL of its own: its text substituted with its own parameters; a failing substitution, like a
      refusal, leaves the world as it was. */
  lemma SqlToolMeans<W>(env: Env<W>, config: Config, name: string, args: map<string, Value>, w: W, budget: nat)
    requires budget > 0 && name in config.tools
    requires config.tools[name].compose.None? && config.tools[name].steps.None? && config.tools[name].sql.Some?
    ensures var tool, r := config.tools[name], Raw(env, config, name, args, w, budget);
      match Substitute(env.js, tool.sql.value, args, tool.parameters)
      case Err(e) => r == (w, Err(BadTemplate(e)))
      case Ok(s) => RunsAs(env, tool, s.sql, s.values, w, r)
  {
    hide Substitute;
  }

  /** A multi-step tool is run as one, and nothing else happens. */
  lemma StepsToolMeans<W>(env: Env<W>, config: Config, name: string, args: map<string, Value>, w: W, budget: nat)
    requires budget > 0 && name in config.tools
    requires config.tools[name].compose.None? && config.tools[name].steps.Some?
    ensures var r, (after, answer) := Raw(env, config, name, args, w, budget), env.steps(w, config.tools[name], args);
      && r.0 == after
      && (answer.Ok? ==> r.1 == Ok(answer.value))
      && (answer.Err? ==> r.1 == Err(BackendError(answer.error)))
  {
  }

  /** An inline step: references are expanded first, then parameters substituted, with the enclosing tool's
      arguments, parameters and checks. */
  lemma InlineStepMeans<W>(env: Env<W>, config: Config, tool: Tool, step: ComposeStep, args: map<string, Value>,
      ctx: Context, w: W, budget: nat)
    requires budget > 0 && step.tool.None? && step.sql.Some?
    ensures var r := RunStep(env, config, tool, step, args, ctx, w, budget);
      match Expand(step.sql.value, ctx)
      case Err(e) => r == (w, Err(BadTemplate(e)))
      case Ok(text) =>
        match Substitute(env.js, text, args, tool.parameters)
        case Err(e) => r == (w, Err(BadTemplate(e)))
        case Ok(s) => RunsAs(env, tool, s.sql, s.values, w, r)
  {
    hide Substitute, Expand;
  }

  /** A step that names a tool runs that tool with the arguments the step gives: one that is exactly `{name}`
      stands for the caller's argument of that name, undefined if there is none; any other is passed on. */
  lemma ToolStepMeans<W>(env: Env<W>, config: Config, tool: Tool, step: ComposeStep, callee: string,
      args: map<string, Value>, ctx: Context, w: W, budget: nat, given: map<string, Value>)
    requires budget > 0 && step.tool == Some(callee) && callee != "" && given.Keys == step.args.Keys
    requires forall k, name :: k in given && IsWord(name) && step.args[k] == Str(['{'] + (name + (['}'] + ""))) ==>
      given[k] == if name in args then args[name] else Undefined
    requires forall k ::
      k in given && (forall name :: IsWord(name) ==> step.args[k] != Str(['{'] + (name + (['}'] + "")))) ==>
        given[k] == step.args[k]
    ensures RunStep(env, config, tool, step, args, ctx, w, budget) == Raw(env, config, callee, given, w, budget - 1)
  {
    hide Raw, StepArg;
    forall k | k in given ensures StepArg(step.args[k], args) == given[k] {
      StepArgMeans(step.args[k], args, given[k]);
    }
    assert StepArgs(step.args, args) == given;
  }

  lemma StepArgMeans(v: Value, args: map<string, Value>, r: Value)
    requires forall name :: IsWord(name) && v == Str(['{'] + (name + (['}'] + ""))) ==>
      r == if name in args then args[name] else Undefined
    requires (forall name :: IsWord(name) ==> v != Str(['{'] + (name + (['}'] + "")))) ==> r == v
    ensures StepArg(v, args) == r
  {
    hide ParamLen, ParamName, IsWord;
    if v.Str? && v.s != "" && ParamLen(v.s) == |v.s| {
      WholeParam(v.s);
      assert v == Str(['{'] + (ParamName(v.s) + (['}'] + "")));
    } else {
      forall name | IsWord(name) ensures v != Str(['{'] + (name + (['}'] + ""))) {
        if v == Str(['{'] + (name + (['}'] + ""))) {
          WordIsName(v.s, name, "");
        }
      }
    }
  }

  lemma WholeParam(s: string)
    requires s != "" && ParamLen(s) == |s|
    ensures s == ['{'] + (ParamName(s) + (['}'] + "")) && IsWord(ParamName(s))
  {
    var name := ParamName(s);
    assert s[|s| - 1] == '}';
    assert s == ['{'] + (name + (['}'] + ""));
    assert forall i :: 0 <= i < |name| ==> name[i] == s[1..][i];
  }

  // ---------------------------------------------------------------------
  // The budget is never spent
  // ---------------------------------------------------------------------

  /** Failures that only an unchecked configuration, or endless nesting, could cause. */
  predicate Internal(r: Outcome) {
    r.Err? && (r.error.TooDeep? || r.error.ToolMissing? || r.error.NoResult? || r.error.NoMode?)
  }

  /** A chain of calls down to `name`, in an accepted configuration. */
  ghost predicate CallChain(config: Config, chain: seq<string>) {
    && WellFormed(config)
    && chain != []
    && IsWalk(ToolGraph(config), chain)
    && forall i :: 0 <= i < |chain| ==> chain[i] in config.tools
  }

  /** Callers never repeat, so they are at most as many as there are tools. */
  lemma ChainBound(config: Config, chain: seq<string>)
    requires CallChain(config, chain)
    ensures |chain| <= |config.tools|
  {
    hide ToolGraph;
    AcyclicNoRepeats(ToolGraph(config), chain);
    NoRepeatsBound(chain, config.tools.Keys);
  }

  lemma CalleeChain(config: Config, chain: seq<string>, tool: Tool, steps: seq<ComposeStep>, i: nat)
    requires CallChain(config, chain) && config.tools[chain[|chain| - 1]] == tool
    requires tool.compose == Some(steps) && i < |steps| && CallsTool(steps[i])
    ensures CallChain(config, chain + [steps[i].tool.value])
  {
    var caller, callee := chain[|chain| - 1], steps[i].tool.value;
    assert ToolOk(config, caller, tool);
    assert StepOk(config, tool, steps[i]);
    CallsMember(steps, i);
    assert callee in ToolRefs(tool);
    assert callee in Next(ToolGraph(config), caller);
    hide ToolGraph;
    ExtendWalk(ToolGraph(config), chain, callee);
  }

  /** At the end of a chain, a budget covering the tools not yet on it is enough: no tool is missing,
      every pipeline yields a result, and more budget changes nothing. */
  lemma {:induction false} RawWithinBudget<W>(env: Env<W>, config: Config, chain: seq<string>,
          args: map<string, Value>, w: W, budget: nat, more: nat)
    requires CallChain(config, chain)
    requires budget + |chain| > |config.tools| && more >= budget
    ensures !Internal(Raw(env, config, chain[|chain| - 1], args, w, budget).1)
    ensures Raw(env, config, chain[|chain| - 1], args, w, more) == Raw(env, config, chain[|chain| - 1], args, w, budget)
    decreases budget, 2, 0
  {
    hide IsWalk, ToolGraph, Cyclic, Substitute, PipelineOk, PlaceholdersOk, IdentRun;
    ChainBound(config, chain);
    var name := chain[|chain| - 1];
    var tool := config.tools[name];
    assert ToolOk(config, name, tool);
    if tool.compose.Some? {
      assert tool.compose.value != [] by { assert PipelineOk(config, tool, tool.compose.value);
        NonEmptyPipeline(config, tool); }
      PipelineWithinBudget(env, config, chain, tool, 0, args, map[], None, w, budget, more);
      assert tool.compose.value[0..] == tool.compose.value;
    }
  }

  lemma NonEmptyPipeline(config: Config, tool: Tool)
    requires tool.compose.Some? && PipelineOk(config, tool, tool.compose.value)
    ensures tool.compose.value != []
  {
  }

  /** One step of a pipeline at the end of a chain. */
  lemma {:induction false} StepWithinBudget<W>(env: Env<W>, config: Config, chain: seq<string>, tool: Tool, i: nat,
      args: map<string, Value>, ctx: Context, w: W, budget: nat, more: nat)
    requires CallChain(config, chain) && config.tools[chain[|chain| - 1]] == tool
    requires tool.compose.Some? && i < |tool.compose.value|
    requires budget > 0 && budget + |chain| > |config.tools| && more >= budget
    ensures var step := tool.compose.value[i];
      && !Internal(RunStep(env, config, tool, step, args, ctx, w, budget).1)
      && RunStep(env, config, tool, step, args, ctx, w, more) == RunStep(env, config, tool, step, args, ctx, w, budget)
    decreases budget, 0, 0
  {
    hide IsWalk, ToolGraph, Cyclic, Substitute, PlaceholdersOk, IdentRun, Raw, WellFormed, StepOk;
    var step := tool.compose.value[i];
    StepIsWellFormed(config, chain, tool, i);
    if CallsTool(step) {
      CalleeChain(config, chain, tool, tool.compose.value, i);
      ChainBound(config, chain + [step.tool.value]);
      RawWithinBudget(env, config, chain + [step.tool.value], StepArgs(step.args, args), w, budget - 1, more - 1);
    }
  }

  lemma PipelineTurn<W>(env: Env<W>, config: Config, tool: Tool, steps: seq<ComposeStep>, i: nat,
          args: map<string, Value>,
      ctx: Context, last: Option<QueryResult>, w: W, budget: nat)
    requires budget > 0 && i <= |steps|
    ensures Pipeline(env, config, tool, steps[i..], args, ctx, last, w, budget) ==
      if i == |steps| then (w, if last.Some? then Ok(last.value) else Err(NoResult))
      else
        var (w1, r) := RunStep(env, config, tool, steps[i], args, ctx, w, budget);
        if r.Err? then (w1, r)
        else Pipeline(env, config, tool, steps[i + 1..], args, ctx[steps[i].name := r.value], Some(r.value), w1, budget)
  {
    hide RunStep;
    if i < |steps| {
      assert steps[i..][1..] == steps[i + 1..];
    }
  }

  lemma {:induction false} PipelineWithinBudget<W>(env: Env<W>, config: Config, chain: seq<string>, tool: Tool, i: nat,
      args: map<string, Value>, ctx: Context, last: Option<QueryResult>, w: W, budget: nat, more: nat)
    requires CallChain(config, chain) && config.tools[chain[|chain| - 1]] == tool
    requires tool.compose.Some? && tool.compose.value != [] && i <= |tool.compose.value|
    requires i > 0 ==> last.Some?
    requires budget > 0 && budget + |chain| > |config.tools| && more >= budget
    ensures var rest := tool.compose.value[i..];
      && !Internal(Pipeline(env, config, tool, rest, args, ctx, last, w, budget).1)
      && Pipeline(env, config, tool, rest, args, ctx, last, w, more)
         == Pipeline(env, config, tool, rest, args, ctx, last, w, budget)
    decreases budget, 1, |tool.compose.value| - i
  {
    hide IsWalk, WellFormed, Pipeline, RunStep;
    var steps := tool.compose.value;
    PipelineTurn(env, config, tool, steps, i, args, ctx, last, w, budget);
    PipelineTurn(env, config, tool, steps, i, args, ctx, last, w, more);
    if i < |steps| {
      StepWithinBudget(env, config, chain, tool, i, args, ctx, w, budget, more);
      var (w1, r) := RunStep(env, config, tool, steps[i], args, ctx, w, budget);
      if r.Ok? {
        PipelineWithinBudget(env, config, chain, tool, i + 1, args, ctx[steps[i].name := r.value],
          Some(r.value), w1, budget, more);
      }
    }
  }

  lemma StepIsWellFormed(config: Config, chain: seq<string>, tool: Tool, i: nat)
    requires CallChain(config, chain) && config.tools[chain[|chain| - 1]] == tool
    requires tool.compose.Some? && i < |tool.compose.value|
    ensures StepOk(config, tool, tool.compose.value[i])
    ensures CallsTool(tool.compose.value[i]) || tool.compose.value[i].sql.Some?
  {
    hide IsWalk, ToolGraph, Cyclic, PlaceholdersOk, IdentRun;
    assert ToolOk(config, chain[|chain| - 1], tool);
    var step := tool.compose.value[i];
    assert StepOk(config, tool, step);
    if step.tool == Some("") {
      EmptyNameNotOk(config, config.tools[""]);
    }
  }

  /** In an accepted configuration every tool runs to a result or to a failure of its own: nesting never
      goes deeper than the number of tools, no lookup misses, and any larger budget gives the same run. */
  lemma AcceptedToolsTerminate<W>(env: Env<W>, config: Config, name: string, args: map<string, Value>, w: W,
          budget: nat)
    requires WellFormed(config) && name in config.tools && budget >= |config.tools|
    ensures !Internal(Raw(env, config, name, args, w, budget).1)
    ensures Raw(env, config, name, args, w, budget) == Raw(env, config, name, args, w, |config.tools|)
  {
    hide ToolGraph, Raw;
    SingleWalk(ToolGraph(config), name);
    assert [] + [name] == [name];
    RawWithinBudget(env, config, [name], args, w, |config.tools|, budget);
  }

  /** Without the check it can: a tool that calls itself exhausts every budget. */
  lemma {:induction false} SelfCallNeverEnds<W>(env: Env<W>, config: Config, name: string, step: ComposeStep,
          args: map<string, Value>, w: W, budget: nat)
    requires name in config.tools && name != "" && config.tools[name].compose == Some([step])
    requires step.tool == Some(name)
    ensures Raw(env, config, name, args, w, budget) == (w, Err(TooDeep))
    decreases budget
  {
    if budget > 0 {
      var tool := config.tools[name];
      SelfCallNeverEnds(env, config, name, step, StepArgs(step.args, args), w, budget - 1);
      assert RunStep(env, config, tool, step, args, map[], w, budget) == (w, Err(TooDeep));
      assert Pipeline(env, config, tool, [step], args, map[], None, w, budget) == (w, Err(TooDeep));
    }
  }

  // ---------------------------------------------------------------------
  // What each step sees
  // ---------------------------------------------------------------------

  /** One executed step: the results it could refer to, and what came of it. */
  datatype Record<W> = Record(seen: Context, before: W, after: W, outcome: Outcome)

  function Trace<W>(env: Env<W>, config: Config, tool: Tool, steps: seq<ComposeStep>, args: map<string, Value>,
                    ctx: Context, w: W, budget: nat): (t: seq<Record<W>>)
    requires budget > 0
    ensures |t| <= |steps|
  {
    if steps == [] then []
    else
      var (w1, r) := RunStep(env, config, tool, steps[0], args, ctx, w, budget);
      [Record(ctx, w, w1, r)]
      + if r.Err? then [] else Trace(env, config, tool, steps[1..], args, ctx[steps[0].name := r.value], w1, budget)
  }

  /** From one step to the next: the world is handed on and the result is filed under the step's name. */
  lemma {:induction false} TraceStep<W>(env: Env<W>, config: Config, tool: Tool, steps: seq<ComposeStep>,
          args: map<string, Value>,
      ctx: Context, w: W, budget: nat, i: nat)
    requires budget > 0
    requires i < |Trace(env, config, tool, steps, args, ctx, w, budget)|
    ensures var t := Trace(env, config, tool, steps, args, ctx, w, budget);
      && RunStep(env, config, tool, steps[i], args, t[i].seen, t[i].before, budget) == (t[i].after, t[i].outcome)
      && (i == 0 ==> t[i].seen == ctx && t[i].before == w)
      && (i > 0 ==> t[i - 1].outcome.Ok? && t[i].before == t[i - 1].after
                    && t[i].seen == t[i - 1].seen[steps[i - 1].name := t[i - 1].outcome.value])
    decreases |steps|
  {
    hide RunStep;
    var t := Trace(env, config, tool, steps, args, ctx, w, budget);
    if i > 0 {
      var (w1, r) := RunStep(env, config, tool, steps[0], args, ctx, w, budget);
      var ctx1 := ctx[steps[0].name := r.value];
      var t1 := Trace(env, config, tool, steps[1..], args, ctx1, w1, budget);
      assert t == [Record(ctx, w, w1, r)] + t1;
      TraceStep(env, config, tool, steps[1..], args, ctx1, w1, budget, i - 1);
    }
  }

  /** The results filed by the first i steps, and nothing else. */
  ghost predicate SeesEarlier<W>(steps: seq<ComposeStep>, t: seq<Record<W>>, i: nat)
    requires i < |t| <= |steps|
  {
    && t[i].seen.Keys == (set j | 0 <= j < i :: steps[j].name)
    && (forall j :: 0 <= j < i ==> t[j].outcome.Ok? && t[i].seen[steps[j].name] == t[j].outcome.value)
  }

  /** Step i of a pipeline sees, under its name, the result of each earlier step of that pipeline, and nothing else. */
  lemma {:induction false} StepsSeeEarlier<W>(env: Env<W>, config: Config, tool: Tool, steps: seq<ComposeStep>,
          args: map<string, Value>,
      w: W, budget: nat, i: nat)
    requires budget > 0 && DistinctNames(steps)
    requires i < |Trace(env, config, tool, steps, args, map[], w, budget)|
    ensures SeesEarlier(steps, Trace(env, config, tool, steps, args, map[], w, budget), i)
    decreases i
  {
    hide RunStep, Trace;
    TraceStep(env, config, tool, steps, args, map[], w, budget, i);
    if i > 0 {
      StepsSeeEarlier(env, config, tool, steps, args, w, budget, i - 1);
    }
  }

  /** The pipeline's outcome is that of the last step executed, and a failing step is the last. */
  lemma {:induction false} PipelineIsLast<W>(env: Env<W>, config: Config, tool: Tool, steps: seq<ComposeStep>,
          args: map<string, Value>,
      ctx: Context, last: Option<QueryResult>, w: W, budget: nat)
    requires budget > 0 && steps != []
    ensures var t := Trace(env, config, tool, steps, args, ctx, w, budget);
      && t != []
      && Pipeline(env, config, tool, steps, args, ctx, last, w, budget) == (t[|t| - 1].after, t[|t| - 1].outcome)
      && (t[|t| - 1].outcome.Ok? ==> |t| == |steps|)
    decreases |steps|
  {
    hide RunStep;
    var (w1, r) := RunStep(env, config, tool, steps[0], args, ctx, w, budget);
    if r.Ok? && |steps| > 1 {
      PipelineIsLast(env, config, tool, steps[1..], args, ctx[steps[0].name := r.value], Some(r.value), w1, budget);
    }
  }

  /** A reference fails as "step not found" exactly when it names no earlier step of its own pipeline. */
  lemma ReferencesReachBack<W>(env: Env<W>, config: Config, tool: Tool, steps: seq<ComposeStep>,
          args: map<string, Value>, w: W, budget: nat, i: nat,
      step: string, column: string)
    requires budget > 0 && DistinctNames(steps)
    requires i < |Trace(env, config, tool, steps, args, map[], w, budget)|
    ensures var seen := Trace(env, config, tool, steps, args, map[], w, budget)[i].seen;
      Lookup(step, column, seen) == Err(StepNotFound(step)) <==> forall j :: 0 <= j < i ==> steps[j].name != step
  {
    hide Trace;
    StepsSeeEarlier(env, config, tool, steps, args, w, budget, i);
  }

  // ---------------------------------------------------------------------
  // The mutually recursive methods
  // ---------------------------------------------------------------------

  /** `executeRawCustomTool`, reached through the callers in `chain`. */
  method ExecuteRawCustomTool<W>(env: Env<W>, config: Config, name: string, args: map<string, Value>, w: W,
          ghost chain: seq<string>)
    returns (w': W, r: Outcome)
    requires CallChain(config, chain) && chain[|chain| - 1] == name
    ensures (w', r) == Raw(env, config, name, args, w, |config.tools|)
    decreases |config.tools| - |chain|, 1
  {
    hide IsWalk, ToolGraph, Cyclic, Substitute, IdentRun, PlaceholdersOk;
    ChainBound(config, chain);
    var tool := config.tools[name];
    assert ToolOk(config, name, tool);
    if tool.compose.Some? && tool.compose.value != [] {
      w', r := ExecuteComposedToolRaw(env, config, tool, args, w, chain);
    } else if tool.steps.Some? {
      var x := Wrap(env.steps(w, tool, args));
      w', r := x.0, x.1;
    } else {
      var sent := Substitute(env.js, tool.sql.value, args, tool.parameters);
      var x := RunSql(env, tool, sent, w);
      w', r := x.0, x.1;
    }
  }

  /** `executeComposedToolRaw`: the loop over the steps, collecting results in a context. */
  method ExecuteComposedToolRaw<W>(env: Env<W>, config: Config, tool: Tool, args: map<string, Value>, w: W,
          ghost chain: seq<string>)
    returns (w': W, r: Outcome)
    requires CallChain(config, chain) && config.tools[chain[|chain| - 1]] == tool
    requires tool.compose.Some? && tool.compose.value != []
    ensures (w', r) == Pipeline(env, config, tool, tool.compose.value, args, map[], None, w, |config.tools|)
    decreases |config.tools| - |chain|, 0
  {
    hide IsWalk, ToolGraph, Cyclic, Substitute, IdentRun, PlaceholdersOk, Raw, WellFormed;
    ChainBound(config, chain);
    var steps := tool.compose.value;
    ghost var budget := |config.tools|;
    ghost var whole := Pipeline(env, config, tool, steps, args, map[], None, w, budget);
    var context: Context := map[];
    var lastResult: Option<QueryResult> := None;
    w' := w;
    assert steps[0..] == steps;
    for i := 0 to |steps|
      invariant whole == Pipeline(env, config, tool, steps[i..], args, context, lastResult, w', budget)
      invariant i > 0 ==> lastResult.Some?
    {
      var step := steps[i];
      StepIsWellFormed(config, chain, tool, i);
      ghost var before := w';
      if CallsTool(step) {
        CalleeChain(config, chain, tool, steps, i);
        ChainBound(config, chain + [step.tool.value]);
        RawWithinBudget(env, config, chain + [step.tool.value], StepArgs(step.args, args), w', budget - 1, budget);
        w', r := ExecuteRawCustomTool(env, config, step.tool.value,
          StepArgs(step.args, args), w', chain + [step.tool.value]);
      } else {
        var x := RunSql(env, tool, InlineSql(env, tool, step.sql.value, args, context), w');
        w', r := x.0, x.1;
      }
      assert (w', r) == RunStep(env, config, tool, step, args, context, before, budget);
      assert steps[i..][0] == step && steps[i..][1..] == steps[i + 1..];
      if r.Err? {
        return;
      }
      context := context[step.name := r.value];
      lastResult := Some(r.value);
    }
    r := Ok(lastResult.value);
  }
}
