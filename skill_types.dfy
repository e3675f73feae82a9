/// The unified skills system's data: skills of five kinds with their
/// kind-specific configuration, the context a skill runs in, and the
/// results it produces.
module SkillTypes {
  import opened Common
  import opened Json

  datatype SkillKind = SlashCommand | Hook | Workflow | Template | Agent

  datatype SkillVisibility = Global | Project | Workspace

  datatype HookTrigger = PreTool | PostTool | SessionStart | SessionEnd | CheckpointCreate | OnError

  datatype WorkflowStepKind = Prompt | Tool | Shell | Condition | Parallel | UserInput | SkillRef

  /** One node of a workflow; `config` is the kind-specific JSON object. */
  datatype WorkflowStep = WorkflowStep(
    id: string,
    kind: WorkflowStepKind,
    name: string,
    config: JsonValue,
    dependsOn: seq<string>,
    condition: Option<string>,
    timeoutSecs: Option<nat>)

  datatype SlashCommandConfig = SlashCommandConfig(
    name: string,
    description: string,
    help: Option<string>,
    prompt: string,
    requiresArgs: bool,
    examples: seq<string>)

  /** `env` lists the environment variables in the hash map's iteration
      order, which the model leaves open. */
  datatype HookConfig = HookConfig(
    trigger: HookTrigger,
    toolPatterns: Option<seq<string>>,
    command: string,
    timeoutSecs: nat,
    canBlock: bool,
    env: seq<(string, string)>)

  datatype WorkflowConfig = WorkflowConfig(
    steps: seq<WorkflowStep>,
    timeoutSecs: Option<nat>,
    maxParallel: Option<nat>)

  datatype TemplateVariable = TemplateVariable(name: string, description: string, default: Option<string>)

  datatype TemplateConfig = TemplateConfig(content: string, variables: seq<TemplateVariable>)

  datatype AgentConfig = AgentConfig(
    name: string,
    systemPrompt: string,
    model: string,
    permissionMode: string,
    allowedTools: seq<string>,
    deniedTools: seq<string>,
    mcpServers: seq<string>,
    maxTurns: Option<nat>)

  /** At most one of these is meant to be present, the one for the skill's
      kind; nothing enforces it. */
  datatype SkillConfig = SkillConfig(
    slashCommand: Option<SlashCommandConfig>,
    hook: Option<HookConfig>,
    workflow: Option<WorkflowConfig>,
    template: Option<TemplateConfig>,
    agent: Option<AgentConfig>)

  /** `SkillConfig::default`: no configuration of any kind. */
  const EmptyConfig := SkillConfig(None, None, None, None, None)

  datatype Skill = Skill(
    id: string,
    kind: SkillKind,
    name: string,
    description: string,
    visibility: SkillVisibility,
    enabled: bool,
    config: SkillConfig,
    projectPath: Option<string>,
    source: string)

  /** The context a skill runs in. The maps are association lists in the
      hash maps' iteration order; a lookup takes the first entry for a
      key. */
  datatype SkillContext = SkillContext(
    projectPath: string,
    sessionId: Option<string>,
    arguments: seq<(string, JsonValue)>,
    env: seq<(string, string)>,
    variables: seq<(string, JsonValue)>)

  datatype StepResult = StepResult(
    stepId: string,
    stepName: string,
    success: bool,
    output: Option<JsonValue>,
    error: Option<string>,
    retries: nat)

  /** The outcome of running a skill; the elapsed time is not modelled. */
  datatype SkillResult = SkillResult(
    success: bool,
    output: Option<JsonValue>,
    error: Option<string>,
    steps: Option<seq<StepResult>>)

  /** The key under which the registry files a hook: the trigger's variant
      name in lower case. */
  function TriggerKey(t: HookTrigger): string
  {
    match t
    case PreTool => "pretool"
    case PostTool => "posttool"
    case SessionStart => "sessionstart"
    case SessionEnd => "sessionend"
    case CheckpointCreate => "checkpointcreate"
    case OnError => "onerror"
  }

  /** Different triggers are filed under different keys. */
  lemma TriggerKeyInjective(t: HookTrigger, u: HookTrigger)
    ensures TriggerKey(t) == TriggerKey(u) <==> t == u
  {
    if t != u {
      assert TriggerKey(t)[|TriggerKey(t)| - 1] != TriggerKey(u)[|TriggerKey(u)| - 1]
        || |TriggerKey(t)| != |TriggerKey(u)|;
    }
  }
}
