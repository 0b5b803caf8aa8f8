/**
 The ReAct loop of one agent (orchestra/agent.py) with its pusher chain
 (orchestra/budget.py), as a function of what the model, the tools and the
 clock do. A run is determined by an environment that may answer anything.
 */
module ReactLoop {
  import opened Wrappers
  import opened Messages
  import opened Budget
  import opened Escalation
  import opened Cadence
  import Condensation

  // ------------------------------------------------------------- configuration

  datatype GuardKey = TextResponse | RequireTool(tool: string) | OtherGuard(name: string)

  /** A configured guard; `message` is the text after interpolation. */
  datatype Guard = Guard(key: GuardKey, message: string)

  /** An entry of `BudgetConfig.pushers`. */
  datatype PusherConfig = PusherConfig(at: real, kind: PusherType, message: string)

  datatype Words = Words(token: Wording, time: Wording, step: Wording, context: Wording, cadence: string,
                         stepLimit: string)

  /** `reflectThreshold` is 0 for an agent without the reflect cadence. */
  datatype Config = Config(
    limits: Limits, pushers: seq<PusherConfig>, words: Words, reflectThreshold: real,
    guards: seq<Guard>, tools: seq<string>, condensation: Option<Condensation.Config>)

  const MAX_GUARD_RETRIES: nat := 2

  function TokenLevels(cfg: Config): seq<Level> {
    SortLevels(Configured(0.5, Some(0.75), Some(1.0), None, cfg.words.token))
  }

  function TimeLevels(cfg: Config): seq<Level> {
    SortLevels(Configured(0.5, Some(0.75), Some(1.0), None, cfg.words.time))
  }

  function StepLevels(cfg: Config): seq<Level> {
    SortLevels(Configured(0.5, Some(0.75), Some(0.9), None, cfg.words.step))
  }

  function ContextLevels(cfg: Config): seq<Level> {
    SortLevels(Configured(0.5, Some(0.75), None, None, cfg.words.context))
  }

  // --------------------------------------------------------------- environment

  /** One tool call of a reply with what its execution returned. `findings` is
      the output a valid `done` or `answer` delivers; None stands for JSON null. */
  datatype Call = Call(id: string, name: string, arguments: string, content: string, clean: string,
                       findings: Option<string>)

  datatype Reply =
    | Failed
    | Answer(usage: Option<Usage>, content: string, calls: seq<Call>)

  /** One step's outside world: the clock at its three readings, messages
      injected by the parent, callbacks of finished children, the model's
      reply and the summary a condenser would get. */
  datatype Turn = Turn(
    checkTime: real, ratioTime: real, wallTime: real,
    injected: seq<string>, callbacks: seq<string>, reply: Reply, summary: string)

  // --------------------------------------------------------------------- state

  /** The latches and counters of the pusher chain. */
  datatype Chain = Chain(
    counter: nat, configured: set<nat>, token: seq<bool>, time: seq<bool>, step: seq<bool>, context: seq<bool>,
    cadence: Latches)

  datatype Status = Running | Finished(output: string) | NaturalStop | Stopped

  /** `offered` lists the tools offered at each model call. */
  datatype State = State(
    messages: seq<Message>, called: set<string>, retries: map<GuardKey, nat>, account: Account, chain: Chain,
    status: Status, llmCalls: nat, reprompts: nat, offered: seq<seq<string>>)

  function FreshChain(cfg: Config): Chain {
    Chain(0, {}, Unfired(|TokenLevels(cfg)|), Unfired(|TimeLevels(cfg)|), Unfired(|StepLevels(cfg)|),
          Unfired(|ContextLevels(cfg)|), FRESH)
  }

  function Start(cfg: Config, messages: seq<Message>): State {
    State(messages, {}, map[], Opened(cfg.limits), FreshChain(cfg), Running, 0, 0, [])
  }

  predicate Fits(cfg: Config, c: Chain) {
    && |c.token| == |TokenLevels(cfg)| && |c.time| == |TimeLevels(cfg)|
    && |c.step| == |StepLevels(cfg)| && |c.context| == |ContextLevels(cfg)|
  }

  // ------------------------------------------------------------- pusher chain

  function AsNudges(texts: seq<string>): seq<Action> {
    seq(|texts|, i requires 0 <= i < |texts| => Action(Nudge, texts[i]))
  }

  /** The one-shot pushers of the configuration that fire now, among the first `n`. */
  function ConfiguredFiring(pushers: seq<PusherConfig>, fired: set<nat>, ratio: real, n: nat): set<nat>
    requires n <= |pushers|
  {
    set i: nat | i < n && i !in fired && ratio >= pushers[i].at
  }

  function ConfiguredActions(pushers: seq<PusherConfig>, fired: set<nat>, ratio: real, n: nat): seq<Action>
    requires n <= |pushers|
  {
    if n == 0 then []
    else ConfiguredActions(pushers, fired, ratio, n - 1)
         + if n - 1 !in fired && ratio >= pushers[n - 1].at
           then [Action(pushers[n - 1].kind, pushers[n - 1].message)] else []
  }

  /** The actions of the axes with levels, in chain order. */
  function LevelActions(cfg: Config, c: Chain, a: Account, t: Turn): seq<Action>
    requires Fits(cfg, c)
  {
    Emitted(TokenLevels(cfg), c.token, Some(TokenRatio(a)))
    + Emitted(TimeLevels(cfg), c.time, WallRatio(a, t.wallTime))
    + Emitted(StepLevels(cfg), c.step, Some(StepRatio(a)))
    + Emitted(ContextLevels(cfg), c.context, ContextRatio(a))
  }

  /** Everything the producers append in one step. */
  function Produced(cfg: Config, c: Chain, a: Account, t: Turn): seq<Action>
    requires Fits(cfg, c)
  {
    AsNudges(t.callbacks)
    + ConfiguredActions(cfg.pushers, c.configured, MaxRatio(a, t.ratioTime), |cfg.pushers|)
    + LevelActions(cfg, c, a, t)
    + TickActions(c.cadence, cfg.reflectThreshold, None, c.counter, cfg.words.cadence)
  }

  function Advanced(cfg: Config, c: Chain, a: Account, t: Turn): (r: Chain)
    requires Fits(cfg, c)
    ensures Fits(cfg, r) && r.counter == c.counter
  {
    Chain(c.counter,
          c.configured + ConfiguredFiring(cfg.pushers, c.configured, MaxRatio(a, t.ratioTime), |cfg.pushers|),
          Latched(TokenLevels(cfg), c.token, Some(TokenRatio(a))),
          Latched(TimeLevels(cfg), c.time, WallRatio(a, t.wallTime)),
          Latched(StepLevels(cfg), c.step, Some(StepRatio(a))),
          Latched(ContextLevels(cfg), c.context, ContextRatio(a)),
          Ticked(c.cadence, cfg.reflectThreshold, None, c.counter))
  }

  function Only(tools: seq<string>, name: string): seq<string> {
    if tools == [] then [] else (if tools[0] == name then [name] else []) + Only(tools[1..], name)
  }

  /** `_narrow_to`: an empty selection leaves the tools alone. */
  function NarrowTo(all: seq<string>, current: seq<string>, name: string): seq<string> {
    if Only(all, name) == [] then current else Only(all, name)
  }

  /** `ApplyActionsHandler`: nudges become user messages, the others change no message. */
  function Delivered(actions: seq<Action>): seq<Message> {
    if actions == [] then []
    else
      var last := actions[|actions| - 1];
      Delivered(actions[..|actions| - 1])
      + if last.kind == Nudge && last.message != "" then [User(last.message)] else []
  }

  function Narrowed(actions: seq<Action>, all: seq<string>, current: seq<string>): seq<string> {
    if actions == [] then current
    else
      var before := Narrowed(actions[..|actions| - 1], all, current);
      if actions[|actions| - 1].kind == ForceDone then NarrowTo(all, before, "done") else before
  }

  // -------------------------------------------------------------------- guards

  function Retries(retries: map<GuardKey, nat>, key: GuardKey): nat {
    if key in retries then retries[key] else 0
  }

  /** `_check_guard("text_response", ...)`. */
  function CheckText(guards: seq<Guard>, retries: map<GuardKey, nat>): (Option<string>, map<GuardKey, nat>) {
    if guards == [] then (None, retries)
    else if guards[0].key == TextResponse then
      if Retries(retries, TextResponse) >= MAX_GUARD_RETRIES then (None, retries)
      else (Some(guards[0].message), retries[TextResponse := Retries(retries, TextResponse) + 1])
    else CheckText(guards[1..], retries)
  }

  /** A required tool that was not called and whose guard has retries left. */
  predicate Open(g: Guard, called: set<string>, retries: map<GuardKey, nat>) {
    g.key.RequireTool? && g.key.tool !in called && Retries(retries, g.key) < MAX_GUARD_RETRIES
  }

  /** `_check_require_tool_guards`: the first open guard fires. */
  function CheckTools(guards: seq<Guard>, called: set<string>, retries: map<GuardKey, nat>)
    : (Option<string>, map<GuardKey, nat>)
  {
    if guards == [] then (None, retries)
    else if Open(guards[0], called, retries) then
      (Some(guards[0].message), retries[guards[0].key := Retries(retries, guards[0].key) + 1])
    else CheckTools(guards[1..], called, retries)
  }

  // ---------------------------------------------------------------- tool calls

  predicate IsValidationError(content: string) { "validation error" <= content }

  function Names(calls: seq<Call>): set<string> { set c | c in calls :: c.name }

  function Ref(c: Call): CallRef { CallRef(c.id, c.name, c.arguments) }

  function Refs(calls: seq<Call>): seq<CallRef> {
    seq(|calls|, i requires 0 <= i < |calls| => Ref(calls[i]))
  }

  function Results(calls: seq<Call>): seq<Message> {
    seq(|calls|, i requires 0 <= i < |calls| => ToolResult(calls[i].id, calls[i].clean))
  }

  function Outcomes(calls: seq<Call>): seq<Outcome> {
    seq(|calls|, i requires 0 <= i < |calls| => Outcome(calls[i].name, IsValidationError(calls[i].content)))
  }

  predicate Closes(c: Call) {
    (c.name == "done" || c.name == "answer") && !IsValidationError(c.content)
  }

  /** The output of the last valid `done` or `answer` of a step. */
  function Findings(calls: seq<Call>): Option<string> {
    if calls == [] then None
    else if Closes(calls[|calls| - 1]) then calls[|calls| - 1].findings
    else Findings(calls[..|calls| - 1])
  }

  // ------------------------------------------------------------------- one step

  /** A reply without tool calls: re-prompt or stop. */
  function TextTurn(cfg: Config, s: State, content: string): State {
    var (text, r1) := CheckText(cfg.guards, s.retries);
    var (guard, r2) := if text.Some? then (text, r1) else CheckTools(cfg.guards, s.called, r1);
    if guard.Some? && guard.value != "" then
      s.(messages := s.messages + [Assistant(content), User(guard.value)], retries := r2, reprompts := s.reprompts + 1)
    else s.(retries := r2, status := NaturalStop)
  }

  /** A reply with tool calls: results, counter, then finish, re-prompt or go on. */
  function ToolTurn(cfg: Config, s: State, calls: seq<Call>, summary: string): State {
    var log := s.messages + [ToolCalls(Refs(calls))] + Results(calls);
    var chain := s.chain.(counter := Counted(s.chain.counter, Outcomes(calls)));
    match Findings(calls)
    case Some(output) =>
      var (guard, r) := CheckTools(cfg.guards, s.called, s.retries);
      if guard.Some? && guard.value != "" then
        s.(messages := log + [User(guard.value)], chain := chain, retries := r, reprompts := s.reprompts + 1)
      else s.(messages := log, chain := chain, retries := r, status := Finished(output))
    case None =>
      s.(messages := Condensation.MaybeCondense(log, cfg.condensation, summary), chain := chain)
  }

  function Users(texts: seq<string>): seq<Message> {
    seq(|texts|, i requires 0 <= i < |texts| => User(texts[i]))
  }

  /** The state the model is called in. */
  function Prompted(cfg: Config, s: State, t: Turn): State
    requires Fits(cfg, s.chain)
  {
    var actions := Produced(cfg, s.chain, s.account, t);
    s.(messages := s.messages + Users(t.injected) + Delivered(actions),
       chain := Advanced(cfg, s.chain, s.account, t),
       llmCalls := s.llmCalls + 1,
       offered := s.offered + [Narrowed(actions, cfg.tools, cfg.tools)])
  }

  /** The state after the model answered step `step`. */
  function Answered(s: State, step: nat, usage: Option<Usage>, calls: seq<Call>): State {
    var a := if usage.Some? then Charged(s.account, usage.value) else s.account;
    s.(account := a.(stepsUsed := step + 1), called := s.called + Names(calls))
  }

  function Turned(cfg: Config, s: State, step: nat, t: Turn): (r: State)
    requires Fits(cfg, s.chain)
    ensures Fits(cfg, r.chain)
  {
    if Exhausted(s.account, t.checkTime) then s.(status := Stopped)
    else
      var p := Prompted(cfg, s, t);
      match t.reply
      case Failed => p.(status := Stopped)
      case Answer(usage, content, calls) =>
        var q := Answered(p, step, usage, calls);
        if calls == [] then TextTurn(cfg, q, content) else ToolTurn(cfg, q, calls, t.summary)
  }

  // --------------------------------------------------------------------- a run

  /** The state before step `k`, or where the loop stopped earlier. */
  function Before(cfg: Config, messages: seq<Message>, env: nat -> Turn, k: nat): (s: State)
    ensures Fits(cfg, s.chain)
  {
    if k == 0 then Start(cfg, messages)
    else
      var s := Before(cfg, messages, env, k - 1);
      if s.status.Running? then Turned(cfg, s, k - 1, env(k - 1)) else s
  }

  /** How a run ends: the AGENT_DONE event, or AGENT_FORCED_DONE. */
  datatype Ending = AgentDone(output: Option<string>) | ForcedDone(output: Option<string>)

  datatype Result = Result(end: Ending, last: State)

  /** After the loop. `forced` is what the force-done call returns, if it is made. */
  function Closed(cfg: Config, s: State, forced: Option<string>): Result {
    match s.status
    case Finished(output) => Result(AgentDone(Some(output)), s)
    case NaturalStop => Result(AgentDone(None), s)
    case _ =>
      var asked := Only(cfg.tools, "done") != [];
      Result(ForcedDone(if asked then forced else None),
             s.(messages := s.messages + [User(cfg.words.stepLimit)],
                llmCalls := if asked then s.llmCalls + 1 else s.llmCalls))
  }

  function Run(cfg: Config, messages: seq<Message>, env: nat -> Turn, forced: Option<string>): Result {
    Closed(cfg, Before(cfg, messages, env, cfg.limits.maxSteps), forced)
  }
}
