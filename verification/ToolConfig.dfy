/**
  Custom tools and what `validateCustomTools` accepts (src/custom-tools.ts).
*/
module ToolConfig {
  import opened Common
  import opened Templates
  import opened ComposeText

  /** One `compose` step; `name` is its `as`. */
  datatype ComposeStep = ComposeStep(name: string, tool: Option<string>, sql: Option<string>, args: map<string, Value>)

  datatype SqlStep = SqlStep(sql: string, isReturn: bool)

  /** An empty description or permission counts as none. */
  datatype Tool = Tool(
    description: string,
    connection: string,
    permission: string,
    sql: Option<string>,
    steps: Option<seq<SqlStep>>,
    compose: Option<seq<ComposeStep>>,
    parameters: map<string, ParamDef>)

  /** `order` lists the tool names in the order the configuration gives them; `connections` are the names,
      in any letter case, that `getConnection` resolves. */
  datatype Config = Config(order: seq<string>, tools: map<string, Tool>, connections: set<string>)

  const BUILT_IN_TOOL_NAMES: set<string> := {
    "list_connections", "test_connection", "get_schema", "execute_sql", "explain_query", "get_sample",
    "search_schema", "list_tables", "get_relationships", "get_indexes", "validate_query", "get_table_stats",
    "get_distinct_values", "query_history"
  }

  const VALID_PERMISSIONS: set<string> := {"read-only", "read-write", "admin"}

  ghost predicate Listed(config: Config) {
    forall n :: n in config.order <==> n in config.tools
  }

  datatype ConfigError =
    | BadToolName(tool: string)
    | BuiltInName(tool: string)
    | NoDescription(tool: string)
    | UnknownConnection(tool: string)
    | BadPermission(tool: string)
    | ModeCount(tool: string)
    | EmptySteps(tool: string)
    | TooManyReturns(tool: string)
    | EmptyCompose(tool: string)
    | BadStepName(tool: string, step: string)
    | DuplicateStep(tool: string, step: string)
    | ShadowsParameter(tool: string, step: string)
    | ToolOrSql(tool: string, step: string)
    | UnknownTool(tool: string, step: string)
    | UndefinedPlaceholder(tool: string)
    | BadParameter(tool: string, parameter: string)
    | CircularDependency(cycle: seq<string>)

  // ---------------------------------------------------------------------
  // What is accepted
  // ---------------------------------------------------------------------

  /** `^[a-zA-Z_][a-zA-Z0-9_]*$` */
  predicate IsIdentifier(s: string) {
    s != "" && IsIdentStart(s[0]) && IdentRun(s) == |s|
  }

  /** `^[a-zA-Z][a-zA-Z0-9_]*$` */
  predicate IsToolName(s: string) {
    IsIdentifier(s) && s[0] != '_'
  }

  /** Whether a step calls a tool: an empty name counts as none. */
  predicate CallsTool(step: ComposeStep) {
    step.tool.Some? && step.tool.value != ""
  }

  predicate StepOk(config: Config, tool: Tool, step: ComposeStep) {
    && IsIdentifier(step.name)
    && step.name !in tool.parameters
    && step.tool.Some? != step.sql.Some?
    && (step.tool.Some? ==> step.tool.value in config.tools)
  }

  predicate DistinctNames(steps: seq<ComposeStep>) {
    forall i, j :: 0 <= i < j < |steps| ==> steps[i].name != steps[j].name
  }

  predicate PipelineOk(config: Config, tool: Tool, steps: seq<ComposeStep>) {
    steps != [] && DistinctNames(steps) && forall i :: 0 <= i < |steps| ==> StepOk(config, tool, steps[i])
  }

  function Returns(steps: seq<SqlStep>): nat {
    if steps == [] then 0 else (if steps[0].isReturn then 1 else 0) + Returns(steps[1..])
  }

  /** Every `{param}` of sql is declared. */
  predicate PlaceholdersOk(sql: string, tool: Tool)
    decreases |sql|
  {
    if sql == "" then true
    else if ParamLen(sql) > 0 then ParamName(sql) in tool.parameters && PlaceholdersOk(sql[ParamLen(sql)..], tool)
    else PlaceholdersOk(sql[1..], tool)
  }

  /** Everything about a tool that does not depend on what it runs. */
  predicate HeaderOk(config: Config, name: string, tool: Tool) {
    && IsToolName(name)
    && name !in BUILT_IN_TOOL_NAMES
    && tool.description != ""
    && tool.connection in config.connections
    && (tool.permission != "" ==> tool.permission in VALID_PERMISSIONS)
  }

  /** An enum lists values, and a parameter that may be left out has a default. */
  predicate ParameterOk(def: ParamDef) {
    (def.kind.EnumType? ==> def.values != []) && (def.optional ==> def.default != Undefined)
  }

  predicate ParametersOk(tool: Tool) {
    forall p :: p in tool.parameters ==> ParameterOk(tool.parameters[p])
  }

  /** One mode, and what it needs. */
  predicate ModeOk(config: Config, tool: Tool) {
    match (tool.sql, tool.steps, tool.compose)
    case (Some(sql), None, None) => PlaceholdersOk(sql, tool)
    case (None, Some(steps), None) =>
      steps != [] && Returns(steps) <= 1 && forall i :: 0 <= i < |steps| ==> PlaceholdersOk(steps[i].sql, tool)
    case (None, None, Some(steps)) => PipelineOk(config, tool, steps)
    case _ => false
  }

  predicate ToolOk(config: Config, name: string, tool: Tool) {
    HeaderOk(config, name, tool) && ModeOk(config, tool) && ParametersOk(tool)
  }

  // ---------------------------------------------------------------------
  // The same rule by rule
  // ---------------------------------------------------------------------

  lemma IdentifierIsWord(s: string)
    ensures IsIdentifier(s) <==> IsWord(s)
  {
    if IsWord(s) {
      RunOfWord(s, "");
      assert s + "" == s;
    }
  }

  /** At most one step is marked to return its result. */
  predicate OneReturn(steps: seq<SqlStep>) {
    forall i, j :: 0 <= i < j < |steps| ==> !(steps[i].isReturn && steps[j].isReturn)
  }

  lemma {:induction false} ReturnsCount(steps: seq<SqlStep>)
    ensures Returns(steps) == 0 <==> forall i :: 0 <= i < |steps| ==> !steps[i].isReturn
    ensures Returns(steps) <= 1 <==> OneReturn(steps)
  {
    if steps != [] {
      var rest := steps[1..];
      assert forall i :: 0 <= i < |rest| ==> rest[i] == steps[i + 1];
      ReturnsCount(rest);
      if Returns(steps) == 0 {
        assert forall i :: 0 < i < |steps| ==> steps[i] == rest[i - 1];
      }
      if forall i :: 0 <= i < |steps| ==> !steps[i].isReturn {
        assert forall i :: 0 <= i < |rest| ==> !rest[i].isReturn;
      }
      if OneReturn(steps) {
        assert OneReturn(rest);
        assert steps[0].isReturn ==> forall i :: 0 <= i < |rest| ==> !rest[i].isReturn;
      }
      if Returns(steps) <= 1 {
        forall i, j | 0 <= i < j < |steps| ensures !(steps[i].isReturn && steps[j].isReturn) {
          assert steps[j] == rest[j - 1];
          assert i > 0 ==> steps[i] == rest[i - 1];
        }
      }
    }
  }

  /** Wherever a parameter pattern stands in sql, its name is declared. */
  predicate AllDeclared(sql: string, tool: Tool) {
    forall i :: 0 <= i < |sql| && ParamLen(sql[i..]) > 0 ==> ParamName(sql[i..]) in tool.parameters
  }

  lemma {:induction false} PlaceholdersMeans(sql: string, tool: Tool, k: nat)
    requires k <= |sql|
    ensures PlaceholdersOk(sql[k..], tool) <==>
      forall i :: k <= i < |sql| && ParamLen(sql[i..]) > 0 ==> ParamName(sql[i..]) in tool.parameters
    decreases |sql| - k
  {
    hide ParamLen, ParamName, PlaceholdersOk;
    if k == |sql| {
      NoPlaceholder(sql[k..], tool);
    } else {
      NextPlaceholder(sql, k, tool);
      var m := ParamLen(sql[k..]);
      var n := if m > 0 then m else 1;
      PlaceholdersMeans(sql, tool, k + n);
      forall i | k < i < k + n ensures ParamLen(sql[i..]) == 0 {
        InsideParam(sql, k, i);
      }
    }
  }

  lemma InsideParam(sql: string, k: nat, i: nat)
    requires k < |sql| && k < i < k + ParamLen(sql[k..]) && i <= |sql|
    ensures ParamLen(sql[i..]) == 0
  {
    hide IdentRun;
    if i < |sql| {
      assert sql[i..][0] == sql[i] == sql[k..][i - k] != '{';
    }
  }

  /** A step with a word for a name that is no parameter's, and either a known tool or SQL. */
  predicate GoodStep(config: Config, tool: Tool, step: ComposeStep) {
    && IsWord(step.name) && step.name !in tool.parameters
    && ((step.tool.Some? && step.sql.None? && step.tool.value in config.tools) || (step.tool.None? && step.sql.Some?))
  }

  /** An accepted tool, rule by rule: a word not starting with `_` for a name, and not a built-in one; a
      description, a known connection and, if any, one of the three permissions; exactly one of sql, steps and
      compose; every parameter mentioned in SQL declared; not two steps to return; composed steps of different
      names; values for every enum and a default for every parameter that may be left out. */
  lemma ToolOkMeans(config: Config, name: string, tool: Tool)
    ensures ToolOk(config, name, tool) <==>
      && IsWord(name) && name[0] != '_' && name !in BUILT_IN_TOOL_NAMES
      && tool.description != "" && tool.connection in config.connections
      && tool.permission in {"", "read-only", "read-write", "admin"}
      && (tool.sql.Some? ==> tool.steps.None? && tool.compose.None? && AllDeclared(tool.sql.value, tool))
      && (tool.steps.Some? ==>
            && tool.compose.None? && tool.steps.value != [] && OneReturn(tool.steps.value)
            && forall i :: 0 <= i < |tool.steps.value| ==> AllDeclared(tool.steps.value[i].sql, tool))
      && (tool.compose.Some? ==>
            && tool.compose.value != []
            && (forall i :: 0 <= i < |tool.compose.value| ==> GoodStep(config, tool, tool.compose.value[i]))
            && forall i, j :: 0 <= i < j < |tool.compose.value| ==>
                 tool.compose.value[i].name != tool.compose.value[j].name)
      && (tool.sql.Some? || tool.steps.Some? || tool.compose.Some?)
      && (forall p :: p in tool.parameters && tool.parameters[p].kind == EnumType ==> tool.parameters[p].values != [])
      && (forall p :: p in tool.parameters && tool.parameters[p].optional ==> tool.parameters[p].default != Undefined)
  {
    hide IdentRun, IsIdentifier, IsWord, PlaceholdersOk, AllDeclared, Returns, OneReturn;
    IdentifierIsWord(name);
    if tool.sql.Some? {
      SqlMeans(tool.sql.value, tool);
    }
    if tool.steps.Some? {
      ReturnsCount(tool.steps.value);
      forall i | 0 <= i < |tool.steps.value|
        ensures PlaceholdersOk(tool.steps.value[i].sql, tool) <==> AllDeclared(tool.steps.value[i].sql, tool)
      {
        SqlMeans(tool.steps.value[i].sql, tool);
      }
    }
    if tool.compose.Some? {
      forall i | 0 <= i < |tool.compose.value|
        ensures StepOk(config, tool, tool.compose.value[i]) <==> GoodStep(config, tool, tool.compose.value[i])
      {
        IdentifierIsWord(tool.compose.value[i].name);
      }
    }
  }

  lemma SqlMeans(sql: string, tool: Tool)
    ensures PlaceholdersOk(sql, tool) <==> AllDeclared(sql, tool)
  {
    hide ParamLen, ParamName, PlaceholdersOk;
    assert sql[0..] == sql;
    PlaceholdersMeans(sql, tool, 0);
  }

  lemma EmptyNameNotOk(config: Config, tool: Tool)
    ensures !ToolOk(config, "", tool)
  {
  }

  // ---------------------------------------------------------------------
  // Checking it
  // ---------------------------------------------------------------------

  method ValidateComposePipeline(config: Config, name: string, tool: Tool, compose: seq<ComposeStep>)
    returns (r: Result<(), ConfigError>)
    ensures r.Ok? <==> PipelineOk(config, tool, compose)
    ensures r.Err? ==> !r.error.CircularDependency?
  {
    if compose == [] {
      return Err(EmptyCompose(name));
    }
    var stepNames: set<string> := {};
    for k := 0 to |compose|
      invariant stepNames == set i | 0 <= i < k :: compose[i].name
      invariant DistinctNames(compose[..k])
      invariant forall i :: 0 <= i < k ==> StepOk(config, tool, compose[i])
    {
      var step := compose[k];
      if step.name == "" || !IsIdentifier(step.name) {
        return Err(BadStepName(name, step.name));
      }
      if step.name in stepNames {
        return Err(DuplicateStep(name, step.name));
      }
      stepNames := stepNames + {step.name};
      if step.name in tool.parameters {
        return Err(ShadowsParameter(name, step.name));
      }
      if step.tool.Some? == step.sql.Some? {
        return Err(ToolOrSql(name, step.name));
      }
      if step.tool.Some? && step.tool.value !in config.tools {
        return Err(UnknownTool(name, step.name));
      }
    }
    assert compose[..|compose|] == compose;
    return Ok(());
  }

  lemma NextPlaceholder(sql: string, i: nat, tool: Tool)
    requires i < |sql|
    ensures var rest := sql[i..]; var m := ParamLen(rest);
      PlaceholdersOk(rest, tool) ==
        if m > 0 then ParamName(rest) in tool.parameters && PlaceholdersOk(sql[i + m..], tool)
        else PlaceholdersOk(sql[i + 1..], tool)
  {
    hide ParamLen, ParamName;
    var rest := sql[i..];
    assert rest[ParamLen(rest)..] == sql[i + ParamLen(rest)..] && rest[1..] == sql[i + 1..];
  }

  method CheckPlaceholders(sql: string, tool: Tool) returns (ok: bool)
    ensures ok == PlaceholdersOk(sql, tool)
  {
    hide ParamLen, ParamName, PlaceholdersOk;
    var i := 0;
    assert sql[0..] == sql;
    while i < |sql|
      invariant i <= |sql|
      invariant PlaceholdersOk(sql, tool) == PlaceholdersOk(sql[i..], tool)
    {
      NextPlaceholder(sql, i, tool);
      var m := ParamLen(sql[i..]);
      if m > 0 && ParamName(sql[i..]) !in tool.parameters {
        return false;
      }
      i := i + if m > 0 then m else 1;
    }
    NoPlaceholder(sql[i..], tool);
    return true;
  }

  lemma NoPlaceholder(s: string, tool: Tool)
    requires s == ""
    ensures PlaceholdersOk(s, tool)
  {
  }

  method CheckHeader(config: Config, name: string, tool: Tool) returns (r: Result<(), ConfigError>)
    ensures r.Ok? <==> HeaderOk(config, name, tool)
    ensures r.Err? ==> !r.error.CircularDependency?
  {
    hide IdentRun;
    if !IsToolName(name) {
      return Err(BadToolName(name));
    }
    if name in BUILT_IN_TOOL_NAMES {
      return Err(BuiltInName(name));
    }
    if tool.description == "" {
      return Err(NoDescription(name));
    }
    if tool.connection !in config.connections {
      return Err(UnknownConnection(name));
    }
    if tool.permission != "" && tool.permission !in VALID_PERMISSIONS {
      return Err(BadPermission(name));
    }
    return Ok(());
  }

  method CheckMode(config: Config, name: string, tool: Tool) returns (r: Result<(), ConfigError>)
    ensures r.Ok? <==> ModeOk(config, tool)
    ensures r.Err? ==> !r.error.CircularDependency?
  {
    hide PipelineOk, PlaceholdersOk;
    var modes := if tool.sql.Some? then 1 else 0;
    modes := modes + if tool.steps.Some? then 1 else 0;
    modes := modes + if tool.compose.Some? then 1 else 0;
    if modes != 1 {
      return Err(ModeCount(name));
    }
    if tool.steps.Some? {
      var steps := tool.steps.value;
      if steps == [] {
        return Err(EmptySteps(name));
      }
      if Returns(steps) > 1 {
        return Err(TooManyReturns(name));
      }
      for i := 0 to |steps|
        invariant forall j :: 0 <= j < i ==> PlaceholdersOk(steps[j].sql, tool)
      {
        var ok := CheckPlaceholders(steps[i].sql, tool);
        if !ok {
          return Err(UndefinedPlaceholder(name));
        }
      }
    } else if tool.compose.Some? {
      r := ValidateComposePipeline(config, name, tool, tool.compose.value);
      return r;
    } else {
      var ok := CheckPlaceholders(tool.sql.value, tool);
      if !ok {
        return Err(UndefinedPlaceholder(name));
      }
    }
    return Ok(());
  }

  method CheckParameters(name: string, tool: Tool) returns (r: Result<(), ConfigError>)
    ensures r.Ok? <==> ParametersOk(tool)
    ensures r.Err? ==> !r.error.CircularDependency?
  {
    var left := tool.parameters.Keys;
    while left != {}
      invariant left <= tool.parameters.Keys
      invariant forall p :: p in tool.parameters && p !in left ==> ParameterOk(tool.parameters[p])
      decreases left
    {
      var p :| p in left;
      if !ParameterOk(tool.parameters[p]) {
        return Err(BadParameter(name, p));
      }
      left := left - {p};
    }
    return Ok(());
  }

  /** All checks on one tool, in the order of the source. */
  method ValidateTool(config: Config, name: string) returns (r: Result<(), ConfigError>)
    requires name in config.tools
    ensures r.Ok? <==> ToolOk(config, name, config.tools[name])
    ensures r.Err? ==> !r.error.CircularDependency?
  {
    hide HeaderOk, ModeOk, ParametersOk;
    var tool := config.tools[name];
    r := CheckHeader(config, name, tool);
    if r.Err? {
      return;
    }
    r := CheckMode(config, name, tool);
    if r.Err? {
      return;
    }
    r := CheckParameters(name, tool);
  }
}
