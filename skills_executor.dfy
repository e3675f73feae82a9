/// The skill executor: the guards and the dispatch on a skill's kind,
/// placeholder expansion for slash commands and templates, the sequential
/// workflow runner, and running every hook filed under a trigger.
module SkillsExecutor {
  import opened Common
  import opened Strings
  import opened Json
  import opened SkillTypes
  import opened SkillsRegistry

  /** What a finished shell command printed and its exit code. */
  datatype ShellOutput = ShellOutput(stdout: string, stderr: string, exitCode: int)

  /** What the world outside the model answers: the outcome of a shell
      command (given the command, the working directory, the timeout in
      seconds and the environment), the result of the nested `execute` a
      SkillRef step makes for a skill id, and the process environment. */
  datatype Outside = Outside(
    shell: (string, string, nat, seq<(string, string)>) -> Result<ShellOutput, string>,
    nested: string -> SkillResult,
    processEnv: seq<(string, string)>)

  /** A result that failed with `message` before producing anything. */
  function Failure(message: string): SkillResult
  {
    SkillResult(false, None, Some(message), None)
  }

  // ----- slash commands -----

  const ArgumentsPlaceholder := "$ARGUMENTS"

  /** The text `$ARGUMENTS` stands for: the "ARGUMENTS" argument when it is
      a string, "" when it is another value, nothing when it is absent. */
  function ArgumentsText(arguments: seq<(string, JsonValue)>): Option<string>
  {
    match LookupKey(arguments, "ARGUMENTS")
    case None => None
    case Some(v) => Some(if v.JString? then v.s else "")
  }

  /** "${key}". */
  function VariablePlaceholder(key: string): string
  {
    "${" + key + "}"
  }

  /** The first step: every `$ARGUMENTS` replaced, when there are
      arguments. */
  function ArgumentsExpanded(prompt: string, arguments: seq<(string, JsonValue)>): string
  {
    match ArgumentsText(arguments)
    case None => prompt
    case Some(text) => Replace(prompt, ArgumentsPlaceholder, text)
  }

  /** The second step: each variable's "${key}" replaced by its text, one
      variable after the other in the map's iteration order. */
  function VariablesExpanded(prompt: string, variables: seq<(string, JsonValue)>): string
  {
    if variables == [] then prompt
    else
      var last := variables[|variables| - 1];
      Replace(VariablesExpanded(prompt, variables[..|variables| - 1]), VariablePlaceholder(last.0),
              SubstitutionText(last.1))
  }

  /** The expanded prompt of a slash command. */
  function SlashPrompt(prompt: string, context: SkillContext): string
  {
    VariablesExpanded(ArgumentsExpanded(prompt, context.arguments), context.variables)
  }

  /** `execute_slash_command`: without its configuration the skill fails;
      with it, the result is always a success carrying the expanded prompt
      and the command name. */
  function SlashResult(config: Option<SlashCommandConfig>, context: SkillContext): SkillResult
  {
    match config
    case None => Failure(InvalidConfig(SlashCommand))
    case Some(c) =>
      SkillResult(true, Some(JObject([("prompt", JString(SlashPrompt(c.prompt, context))), ("command", JString(c.name))])),
                  None, None)
  }

  /** One more variable: its placeholder replaced in the text so far. */
  lemma VariablesStep(prompt: string, variables: seq<(string, JsonValue)>, i: nat)
    requires i < |variables|
    ensures VariablesExpanded(prompt, variables[..i + 1])
         == Replace(VariablesExpanded(prompt, variables[..i]), VariablePlaceholder(variables[i].0),
                    SubstitutionText(variables[i].1))
  {
    assert variables[..i + 1][..i] == variables[..i];
  }

  /** The two expansion steps in place, as the source reassigns `prompt`. */
  method ExpandSlashPrompt(prompt: string, context: SkillContext) returns (r: string)
    ensures r == SlashPrompt(prompt, context)
  {
    r := prompt;
    match ArgumentsText(context.arguments) {
      case Some(text) => r := Replace(r, ArgumentsPlaceholder, text);
      case None =>
    }
    ghost var expanded := ArgumentsExpanded(prompt, context.arguments);
    var variables := context.variables;
    var i := 0;
    while i < |variables|
      invariant 0 <= i <= |variables|
      invariant r == VariablesExpanded(expanded, variables[..i])
    {
      VariablesStep(expanded, variables, i);
      r := Replace(r, VariablePlaceholder(variables[i].0), SubstitutionText(variables[i].1));
      i := i + 1;
    }
    assert variables[..|variables|] == variables;
  }

  /** The first step cuts the prompt at every `$ARGUMENTS` and joins the
      pieces with the argument text; a prompt without the placeholder is
      kept as it is. */
  lemma ArgumentsExpansion(prompt: string, arguments: seq<(string, JsonValue)>)
    ensures ArgumentsText(arguments).Some? ==>
      ArgumentsExpanded(prompt, arguments) == Join(Split(prompt, ArgumentsPlaceholder), ArgumentsText(arguments).value)
    ensures !Contains(prompt, ArgumentsPlaceholder) ==> ArgumentsExpanded(prompt, arguments) == prompt
  {
    if ArgumentsText(arguments).Some? {
      ReplaceIsJoinOfSplit(prompt, ArgumentsPlaceholder, ArgumentsText(arguments).value);
      if !Contains(prompt, ArgumentsPlaceholder) {
        ReplaceAbsent(prompt, ArgumentsPlaceholder, ArgumentsText(arguments).value);
      }
    }
  }

  /** Text without "${" is left alone by the second step, whatever the
      variables and their order. */
  lemma {:induction false} VariablesNeedMarker(prompt: string, variables: seq<(string, JsonValue)>)
    requires !Contains(prompt, "${")
    ensures VariablesExpanded(prompt, variables) == prompt
  {
    if variables != [] {
      var last := variables[|variables| - 1];
      VariablesNeedMarker(prompt, variables[..|variables| - 1]);
      ContainsPrefix(prompt, "${", last.0 + "}");
      assert VariablePlaceholder(last.0) == "${" + (last.0 + "}");
      ReplaceAbsent(prompt, VariablePlaceholder(last.0), SubstitutionText(last.1));
    }
  }

  // ----- templates -----

  /** "{{name}}". */
  function TemplatePlaceholder(name: string): string
  {
    "{{" + name + "}}"
  }

  /** What a template variable becomes: the context variable's text, else
      the variable's default, else "". */
  function VariableValue(v: TemplateVariable, variables: seq<(string, JsonValue)>): string
  {
    match LookupKey(variables, v.name)
    case Some(value) => SubstitutionText(value)
    case None => if v.default.Some? then v.default.value else ""
  }

  /** Each declared variable's placeholder replaced in turn. */
  function TemplateExpanded(content: string, declared: seq<TemplateVariable>, variables: seq<(string, JsonValue)>): string
  {
    if declared == [] then content
    else
      var v := declared[|declared| - 1];
      Replace(TemplateExpanded(content, declared[..|declared| - 1], variables), TemplatePlaceholder(v.name),
              VariableValue(v, variables))
  }

  /** `execute_template`: without its configuration the skill fails; with
      it, a success carrying the expanded content. */
  function TemplateResult(config: Option<TemplateConfig>, context: SkillContext): SkillResult
  {
    match config
    case None => Failure(InvalidConfig(Template))
    case Some(t) =>
      SkillResult(true, Some(JObject([("content", JString(TemplateExpanded(t.content, t.variables, context.variables)))])),
                  None, None)
  }

  method ExpandTemplate(template: TemplateConfig, variables: seq<(string, JsonValue)>) returns (content: string)
    ensures content == TemplateExpanded(template.content, template.variables, variables)
  {
    content := template.content;
    var declared := template.variables;
    var i := 0;
    while i < |declared|
      invariant 0 <= i <= |declared|
      invariant content == TemplateExpanded(template.content, declared[..i], variables)
    {
      assert declared[..i + 1][..i] == declared[..i];
      content := Replace(content, TemplatePlaceholder(declared[i].name), VariableValue(declared[i], variables));
      i := i + 1;
    }
    assert declared[..|declared|] == declared;
  }

  /** A variable takes the context's value first, then its default, then
      "". */
  lemma VariableValuePrecedence(v: TemplateVariable, variables: seq<(string, JsonValue)>, value: JsonValue, s: string)
    ensures LookupKey(variables, v.name) == Some(value) ==> VariableValue(v, variables) == SubstitutionText(value)
    ensures LookupKey(variables, v.name).None? && v.default == Some(s) ==> VariableValue(v, variables) == s
    ensures LookupKey(variables, v.name).None? && v.default.None? ==> VariableValue(v, variables) == ""
    ensures LookupKey(variables, v.name) == Some(JString(s)) ==> VariableValue(v, variables) == s
  {
  }

  /** With one declared variable, the content is cut at every "{{name}}"
      and the pieces joined with the variable's value. */
  lemma TemplateOneVariable(content: string, v: TemplateVariable, variables: seq<(string, JsonValue)>)
    ensures TemplateExpanded(content, [v], variables)
      == Join(Split(content, TemplatePlaceholder(v.name)), VariableValue(v, variables))
  {
    assert [v][..0] == [];
    ReplaceIsJoinOfSplit(content, TemplatePlaceholder(v.name), VariableValue(v, variables));
  }

  /** Content without "{{" comes out unchanged. */
  lemma {:induction false} TemplateNeedsMarker(content: string, declared: seq<TemplateVariable>,
                                               variables: seq<(string, JsonValue)>)
    requires !Contains(content, "{{")
    ensures TemplateExpanded(content, declared, variables) == content
  {
    if declared != [] {
      var v := declared[|declared| - 1];
      TemplateNeedsMarker(content, declared[..|declared| - 1], variables);
      ContainsPrefix(content, "{{", v.name + "}}");
      assert TemplatePlaceholder(v.name) == "{{" + (v.name + "}}");
      ReplaceAbsent(content, TemplatePlaceholder(v.name), VariableValue(v, variables));
    }
  }

  // ----- hooks and agents -----

  /** The JSON a finished shell command reports. */
  function ShellJson(out: ShellOutput): JsonValue
  {
    JObject([("stdout", JString(out.stdout)), ("stderr", JString(out.stderr)), ("exit_code", JNumber(out.exitCode))])
  }

  /** `execute_hook`: without its configuration the skill fails; otherwise
      the hook's command runs in the project directory, and succeeds exactly
      when it exits with 0, reporting its stderr when it does not. */
  function HookResult(config: Option<HookConfig>, context: SkillContext, outside: Outside): (r: SkillResult)
    ensures config.Some? && outside.shell(config.value.command, context.projectPath, config.value.timeoutSecs,
                                          config.value.env).Ok? ==>
      var out := outside.shell(config.value.command, context.projectPath, config.value.timeoutSecs, config.value.env).value;
      (r.success <==> out.exitCode == 0) && (r.error.None? <==> r.success) && (!r.success ==> r.error == Some(out.stderr))
  {
    match config
    case None => Failure(InvalidConfig(Hook))
    case Some(h) =>
      match outside.shell(h.command, context.projectPath, h.timeoutSecs, h.env)
      case Err(e) => Failure(e)
      case Ok(out) =>
        SkillResult(out.exitCode == 0, Some(ShellJson(out)), if out.exitCode == 0 then None else Some(out.stderr), None)
  }

  function TextArray(xs: seq<string>): JsonValue
  {
    JArray(seq(|xs|, i requires 0 <= i < |xs| => JString(xs[i])))
  }

  /** `execute_agent`: without its configuration the skill fails; with it,
      a success handing the agent's configuration back to the caller. */
  function AgentResult(config: Option<AgentConfig>): SkillResult
  {
    match config
    case None => Failure(InvalidConfig(Agent))
    case Some(a) =>
      var agent := JObject([
        ("name", JString(a.name)), ("model", JString(a.model)), ("system_prompt", JString(a.systemPrompt)),
        ("permission_mode", JString(a.permissionMode)), ("allowed_tools", TextArray(a.allowedTools)),
        ("denied_tools", TextArray(a.deniedTools)), ("mcp_servers", TextArray(a.mcpServers)),
        ("max_turns", if a.maxTurns.Some? then JNumber(a.maxTurns.value) else JNull)]);
      SkillResult(true, Some(JObject([("agent", agent)])), None, None)
  }

  // ----- workflows -----

  /** What a workflow step does, by its kind: a Shell step runs its
      "command" (60 seconds unless the step says otherwise), a Prompt step
      hands back its "prompt", a SkillRef step takes the nested run's
      outcome, and any other step succeeds with no output. The triple is
      success, output and error. */
  function StepOutcome(step: WorkflowStep, context: SkillContext, outside: Outside): (bool, Option<JsonValue>, Option<string>)
  {
    match step.kind
    case Shell =>
      var command := match GetStr(step.config, "command") case Some(c) => c case None => "";
      var timeout := match step.timeoutSecs case Some(t) => t case None => 60;
      (match outside.shell(command, context.projectPath, timeout, context.env)
       case Err(e) => (false, None, Some(e))
       case Ok(out) => (out.exitCode == 0, Some(ShellJson(out)), if out.exitCode == 0 then None else Some(out.stderr)))
    case Prompt =>
      var prompt := match GetStr(step.config, "prompt") case Some(p) => p case None => "";
      (true, Some(JObject([("prompt", JString(prompt))])), None)
    case SkillRef =>
      var id := match GetStr(step.config, "skill_id") case Some(s) => s case None => "";
      var nested := outside.nested(id);
      (nested.success, nested.output, nested.error)
    case _ => (true, None, None)
  }

  /** `execute_workflow_step`: the step's outcome under its own id and
      name, with no retries. */
  function ExecuteStep(step: WorkflowStep, context: SkillContext, outside: Outside): (r: StepResult)
    ensures r.stepId == step.id && r.stepName == step.name && r.retries == 0
    ensures (r.success, r.output, r.error) == StepOutcome(step, context, outside)
  {
    var outcome := StepOutcome(step, context, outside);
    StepResult(step.id, step.name, outcome.0, outcome.1, outcome.2, 0)
  }

  /** The result recorded for a step whose dependencies have not all
      completed. */
  function Unmet(step: WorkflowStep): StepResult
  {
    StepResult(step.id, step.name, false, None, Some("Dependencies not met"), 0)
  }

  /** Every step `step` depends on has completed with output. */
  predicate DepsMet(step: WorkflowStep, completed: seq<(string, JsonValue)>)
  {
    forall j :: 0 <= j < |step.dependsOn| ==> LookupKey(completed, step.dependsOn[j]).Some?
  }

  /** The runner's state: the results so far, the outputs of the completed
      steps by step id, and whether it has stopped. */
  datatype RunState = RunState(results: seq<StepResult>, completed: seq<(string, JsonValue)>, stopped: bool)

  /** One turn of the loop: a stopped run ignores the step; a step with
      unmet dependencies is recorded as failed and the run goes on; any
      other step runs, its output is kept if it succeeded, and a failure
      stops the run. */
  function Advance(st: RunState, step: WorkflowStep, context: SkillContext, outside: Outside): RunState
  {
    if st.stopped then st
    else if !DepsMet(step, st.completed) then st.(results := st.results + [Unmet(step)])
    else
      var r := ExecuteStep(step, context, outside);
      RunState(st.results + [r],
               if r.success && r.output.Some? then Put(st.completed, step.id, r.output.value) else st.completed,
               !r.success)
  }

  /** The state after the first `n` steps. */
  function Progress(steps: seq<WorkflowStep>, n: nat, context: SkillContext, outside: Outside): RunState
    requires n <= |steps|
  {
    if n == 0 then RunState([], [], false)
    else Advance(Progress(steps, n - 1, context, outside), steps[n - 1], context, outside)
  }

  /** Whether every recorded step succeeded. */
  predicate AllSucceeded(results: seq<StepResult>)
  {
    forall i :: 0 <= i < |results| ==> results[i].success
  }

  /** The error of the first recorded step that failed. */
  function FirstFailureError(results: seq<StepResult>): Option<string>
  {
    if results == [] then None
    else if !results[0].success then results[0].error
    else FirstFailureError(results[1..])
  }

  /** The workflow's result from the runner's final state. */
  function WorkflowResult(context: SkillContext, st: RunState): SkillResult
  {
    var success := AllSucceeded(st.results);
    SkillResult(success,
                Some(JObject([("completed", JObject(st.completed)), ("variables", JObject(context.variables))])),
                if success then None else FirstFailureError(st.results),
                Some(st.results))
  }

  /** The outputs kept along a list of results: the output of every
      successful result that has one, by step id. */
  function Collected(results: seq<StepResult>): seq<(string, JsonValue)>
  {
    if results == [] then []
    else
      var r := results[|results| - 1];
      var before := Collected(results[..|results| - 1]);
      if r.success && r.output.Some? then Put(before, r.stepId, r.output.value) else before
  }

  /** Once stopped, later steps change nothing. */
  lemma {:induction false} StoppedStays(steps: seq<WorkflowStep>, m: nat, n: nat, context: SkillContext, outside: Outside)
    requires m <= n <= |steps| && Progress(steps, m, context, outside).stopped
    ensures Progress(steps, n, context, outside) == Progress(steps, m, context, outside)
    decreases n - m
  {
    if m < n {
      StoppedStays(steps, m, n - 1, context, outside);
    }
  }

  /** The shape of a run: one result per step, in step order, until the
      run stops; a run that has not stopped has recorded every step; the
      only failures before the last result are unmet dependencies, and a
      stopped run ends with an executed step that failed; the completed
      outputs are those the results carry. */
  ghost predicate WellRun(steps: seq<WorkflowStep>, st: RunState, n: nat)
    requires n <= |steps|
  {
    |st.results| <= n
    && (!st.stopped ==> |st.results| == n)
    && (forall i :: 0 <= i < |st.results| ==> st.results[i].stepId == steps[i].id && st.results[i].stepName == steps[i].name)
    && (forall i :: 0 <= i < |st.results| ==>
          st.results[i].success || st.results[i] == Unmet(steps[i]) || (st.stopped && i == |st.results| - 1))
    && (st.stopped ==> |st.results| > 0 && !st.results[|st.results| - 1].success)
    && st.completed == Collected(st.results)
  }

  /** One turn of the loop keeps a run well formed. */
  lemma AdvanceWellRun(steps: seq<WorkflowStep>, st: RunState, n: nat, context: SkillContext, outside: Outside)
    requires n < |steps| && WellRun(steps, st, n)
    ensures WellRun(steps, Advance(st, steps[n], context, outside), n + 1)
  {
    if !st.stopped {
      var after := Advance(st, steps[n], context, outside);
      assert after.results[..|after.results| - 1] == st.results;
    }
  }

  lemma {:induction false} ProgressWellRun(steps: seq<WorkflowStep>, n: nat, context: SkillContext, outside: Outside)
    requires n <= |steps|
    ensures WellRun(steps, Progress(steps, n, context, outside), n)
  {
    if n > 0 {
      ProgressWellRun(steps, n - 1, context, outside);
      AdvanceWellRun(steps, Progress(steps, n - 1, context, outside), n - 1, context, outside);
    }
  }

  /** The error of the first failure is the error of the earliest failing
      result. */
  lemma {:induction false} FirstFailureIsEarliest(results: seq<StepResult>)
    requires !AllSucceeded(results)
    ensures exists k :: 0 <= k < |results| && !results[k].success && (forall j :: 0 <= j < k ==> results[j].success)
                        && FirstFailureError(results) == results[k].error
  {
    if results[0].success {
      assert !AllSucceeded(results[1..]) by {
        var i :| 0 <= i < |results| && !results[i].success;
        assert results[1..][i - 1] == results[i];
      }
      FirstFailureIsEarliest(results[1..]);
      var k :| 0 <= k < |results[1..]| && !results[1..][k].success && (forall j :: 0 <= j < k ==> results[1..][j].success)
               && FirstFailureError(results[1..]) == results[1..][k].error;
      assert !results[k + 1].success;
    } else {
      assert FirstFailureError(results) == results[0].error;
    }
  }

  /** A workflow succeeds exactly when every step ran and succeeded; when
      it fails, its error is the earliest failing step's. */
  lemma WorkflowOutcome(steps: seq<WorkflowStep>, context: SkillContext, outside: Outside)
    ensures var st := Progress(steps, |steps|, context, outside);
      var r := WorkflowResult(context, st);
      (r.success <==> |st.results| == |steps| && AllSucceeded(st.results))
      && (!r.success ==> exists k :: 0 <= k < |st.results| && !st.results[k].success
                           && (forall j :: 0 <= j < k ==> st.results[j].success) && r.error == st.results[k].error)
  {
    var st := Progress(steps, |steps|, context, outside);
    ProgressWellRun(steps, |steps|, context, outside);
    if !AllSucceeded(st.results) {
      FirstFailureIsEarliest(st.results);
    }
  }

  /** A step id is among the completed outputs exactly when some recorded
      step with that id succeeded with output. */
  lemma {:induction false} CollectedIds(results: seq<StepResult>, id: string)
    ensures LookupKey(Collected(results), id).Some? <==>
      exists i :: 0 <= i < |results| && results[i].success && results[i].output.Some? && results[i].stepId == id
  {
    if results != [] {
      var n := |results| - 1;
      CollectedIds(results[..n], id);
      assert forall i :: 0 <= i < n ==> results[..n][i] == results[i];
    }
  }

  /** One turn of the loop in place: the dependency check, then the step
      and the bookkeeping of its outcome. */
  method RunStep(st: RunState, step: WorkflowStep, context: SkillContext, outside: Outside) returns (next: RunState)
    requires !st.stopped
    ensures next == Advance(st, step, context, outside)
  {
    var depsMet := forall j :: 0 <= j < |step.dependsOn| ==> LookupKey(st.completed, step.dependsOn[j]).Some?;
    if !depsMet {
      return st.(results := st.results + [Unmet(step)]);
    }
    var r := ExecuteStep(step, context, outside);
    var completed := st.completed;
    if r.success && r.output.Some? {
      completed := Put(completed, step.id, r.output.value);
    }
    next := RunState(st.results + [r], completed, !r.success);
  }

  /** `st` is the runner's state after the first `i` steps. */
  ghost predicate RanUpTo(steps: seq<WorkflowStep>, i: nat, st: RunState, context: SkillContext, outside: Outside)
  {
    i <= |steps| && st == Progress(steps, i, context, outside)
  }

  /** Advancing over the next step runs one step further. */
  lemma RanOneMore(steps: seq<WorkflowStep>, i: nat, st: RunState, context: SkillContext, outside: Outside)
    requires RanUpTo(steps, i, st, context, outside) && i < |steps|
    ensures RanUpTo(steps, i + 1, Advance(st, steps[i], context, outside), context, outside)
  {
  }

  /** A run that has stopped, or has seen every step, is finished. */
  lemma RanToEnd(steps: seq<WorkflowStep>, i: nat, st: RunState, context: SkillContext, outside: Outside)
    requires RanUpTo(steps, i, st, context, outside) && (i == |steps| || st.stopped)
    ensures st == Progress(steps, |steps|, context, outside)
  {
    if i < |steps| {
      StoppedStays(steps, i, |steps|, context, outside);
    }
  }

  /** `execute_workflow`: the steps in order, stopping at the first step
      that ran and failed, as `Progress` describes. */
  method RunWorkflow(steps: seq<WorkflowStep>, context: SkillContext, outside: Outside) returns (st: RunState)
    ensures st == Progress(steps, |steps|, context, outside)
  {
    st := RunState([], [], false);
    var i := 0;
    while i < |steps| && !st.stopped
      invariant RanUpTo(steps, i, st, context, outside)
    {
      var next := RunStep(st, steps[i], context, outside);
      RanOneMore(steps, i, st, context, outside);
      st := next;
      i := i + 1;
    }
    RanToEnd(steps, i, st, context, outside);
  }

  // ----- dispatch -----

  /** The name the "Invalid ... configuration" error gives each kind. */
  function KindLabel(kind: SkillKind): string
  {
    match kind
    case SlashCommand => "slash command"
    case Hook => "hook"
    case Workflow => "workflow"
    case Template => "template"
    case Agent => "agent"
  }

  /** The error of a skill that lacks its kind's configuration. */
  function InvalidConfig(kind: SkillKind): string
  {
    "Invalid " + KindLabel(kind) + " configuration"
  }

  /** The configuration a skill's kind calls for is present. */
  predicate HasKindConfig(skill: Skill)
  {
    match skill.kind
    case SlashCommand => skill.config.slashCommand.Some?
    case Hook => skill.config.hook.Some?
    case Workflow => skill.config.workflow.Some?
    case Template => skill.config.template.Some?
    case Agent => skill.config.agent.Some?
  }

  /** Running an enabled skill, by its kind. */
  function SkillOutcome(skill: Skill, context: SkillContext, outside: Outside): SkillResult
  {
    match skill.kind
    case SlashCommand => SlashResult(skill.config.slashCommand, context)
    case Hook => HookResult(skill.config.hook, context, outside)
    case Workflow =>
      (match skill.config.workflow
       case None => Failure(InvalidConfig(Workflow))
       case Some(w) => WorkflowResult(context, Progress(w.steps, |w.steps|, context, outside)))
    case Template => TemplateResult(skill.config.template, context)
    case Agent => AgentResult(skill.config.agent)
  }

  /** `execute`: an unknown id and a disabled skill fail before anything
      runs; otherwise the skill runs by its kind. */
  function ExecuteOutcome(st: RegistryState, id: string, context: SkillContext, outside: Outside): SkillResult
  {
    match GetSkill(st, id)
    case None => Failure("Skill not found: " + id)
    case Some(skill) => if !skill.enabled then Failure("Skill is disabled") else SkillOutcome(skill, context, outside)
  }

  /** A skill without the configuration its kind calls for fails with
      "Invalid <kind> configuration" and produces nothing. */
  lemma MissingConfigFails(skill: Skill, context: SkillContext, outside: Outside)
    requires !HasKindConfig(skill)
    ensures SkillOutcome(skill, context, outside) == Failure(InvalidConfig(skill.kind))
  {
  }

  /** Slash commands, templates and agents with their configuration always
      succeed without an error. */
  lemma ConfiguredSucceeds(skill: Skill, context: SkillContext, outside: Outside)
    requires HasKindConfig(skill) && skill.kind in {SlashCommand, Template, Agent}
    ensures SkillOutcome(skill, context, outside).success && SkillOutcome(skill, context, outside).error.None?
  {
  }

  /** A success means the skill exists and is enabled. */
  lemma SuccessNeedsEnabledSkill(st: RegistryState, id: string, context: SkillContext, outside: Outside)
    ensures ExecuteOutcome(st, id, context, outside).success ==> id in st.skills && st.skills[id].enabled
  {
  }

  class SkillExecutor {
    const registry: SkillRegistry
    var defaultTimeoutSecs: nat

    /** An executor over `registry` with a five-minute default timeout. */
    constructor (registry: SkillRegistry)
      ensures this.registry == registry && defaultTimeoutSecs == 300
    {
      this.registry := registry;
      defaultTimeoutSecs := 300;
    }

    method WithTimeout(timeoutSecs: nat)
      modifies this
      ensures defaultTimeoutSecs == timeoutSecs
    {
      defaultTimeoutSecs := timeoutSecs;
    }

    /** `execute`, running the expansions and the workflow loop in place. */
    method Execute(id: string, context: SkillContext, outside: Outside) returns (r: SkillResult)
      ensures r == ExecuteOutcome(registry.State(), id, context, outside)
      ensures id !in registry.skills ==> r == Failure("Skill not found: " + id)
      ensures id in registry.skills && !registry.skills[id].enabled ==> r == Failure("Skill is disabled")
    {
      if id !in registry.skills {
        return Failure("Skill not found: " + id);
      }
      var skill := registry.skills[id];
      if !skill.enabled {
        return Failure("Skill is disabled");
      }
      match skill.kind {
        case SlashCommand =>
          match skill.config.slashCommand {
            case None => r := Failure(InvalidConfig(SlashCommand));
            case Some(c) =>
              var prompt := ExpandSlashPrompt(c.prompt, context);
              r := SkillResult(true, Some(JObject([("prompt", JString(prompt)), ("command", JString(c.name))])), None, None);
          }
        case Hook => r := HookResult(skill.config.hook, context, outside);
        case Workflow =>
          match skill.config.workflow {
            case None => r := Failure(InvalidConfig(Workflow));
            case Some(w) =>
              var st := RunWorkflow(w.steps, context, outside);
              r := WorkflowResult(context, st);
          }
        case Template =>
          match skill.config.template {
            case None => r := Failure(InvalidConfig(Template));
            case Some(t) =>
              var content := ExpandTemplate(t, context.variables);
              r := SkillResult(true, Some(JObject([("content", JString(content))])), None, None);
          }
        case Agent => r := AgentResult(skill.config.agent);
      }
    }

    /** `execute_slash_command_by_name`: an unknown command fails; a known
        one runs with the arguments as "ARGUMENTS", no variables and the
        process environment, and, as in the source, whether or not the
        skill is enabled. */
    method ExecuteSlashCommandByName(name: string, arguments: string, projectPath: string, outside: Outside)
      returns (r: SkillResult)
      ensures GetSlashCommand(registry.State(), name).None? ==> r == Failure("Slash command not found: /" + name)
      ensures GetSlashCommand(registry.State(), name).Some? ==>
        var skill := GetSlashCommand(registry.State(), name).value;
        r == SlashResult(skill.config.slashCommand,
                         SkillContext(projectPath, None, [("ARGUMENTS", JString(arguments))], outside.processEnv, []))
      ensures GetSlashCommand(registry.State(), name).Some? &&
              GetSlashCommand(registry.State(), name).value.config.slashCommand.Some? ==>
        var c := GetSlashCommand(registry.State(), name).value.config.slashCommand.value;
        r.success && r.output == Some(JObject([("prompt", JString(Replace(c.prompt, ArgumentsPlaceholder, arguments))),
                                              ("command", JString(c.name))]))
    {
      var found := GetSlashCommand(registry.State(), name);
      if found.None? {
        return Failure("Slash command not found: /" + name);
      }
      var skill := found.value;
      var context := SkillContext(projectPath, None, [("ARGUMENTS", JString(arguments))], outside.processEnv, []);
      match skill.config.slashCommand {
        case None => r := Failure(InvalidConfig(SlashCommand));
        case Some(c) =>
          var prompt := ExpandSlashPrompt(c.prompt, context);
          r := SkillResult(true, Some(JObject([("prompt", JString(prompt)), ("command", JString(c.name))])), None, None);
      }
    }

    /** `execute_hooks_for_trigger`: one result per hook filed under the
        trigger, in registration order, each as `execute` gives it. */
    method ExecuteHooksForTrigger(trigger: HookTrigger, context: SkillContext, outside: Outside)
      returns (results: seq<SkillResult>)
      ensures var hooks := GetHooksForTrigger(registry.State(), TriggerKey(trigger));
        |results| == |hooks|
        && forall i :: 0 <= i < |results| ==> results[i] == ExecuteOutcome(registry.State(), hooks[i].id, context, outside)
    {
      var hooks := GetHooksForTrigger(registry.State(), TriggerKey(trigger));
      results := [];
      var i := 0;
      while i < |hooks|
        invariant 0 <= i <= |hooks| && |results| == i
        invariant forall j :: 0 <= j < i ==> results[j] == ExecuteOutcome(registry.State(), hooks[j].id, context, outside)
      {
        var r := Execute(hooks[i].id, context, outside);
        results := results + [r];
        i := i + 1;
      }
    }
  }
}
