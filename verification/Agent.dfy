/**
 The agent as the source writes it: objects that update their fields
 (orchestra/agent.py, orchestra/budget.py). Every method is proved to compute
 the corresponding function of `ReactLoop`, whose whole-run properties are
 proved there.
 */
module Agent {
  import opened Wrappers
  import opened Messages
  import opened Budget
  import opened Escalation
  import opened Cadence
  import opened ReactLoop
  import Condensation

  /** `RatioPusher`: each configured threshold fires once per run. */
  class RatioPusher {
    const pushers: seq<PusherConfig>
    var fired: set<nat>

    constructor (pushers: seq<PusherConfig>)
      ensures this.pushers == pushers && fired == {}
    {
      this.pushers := pushers;
      fired := {};
    }

    method Apply(ratio: real) returns (actions: seq<Action>)
      modifies this
      ensures fired == old(fired) + ConfiguredFiring(pushers, old(fired), ratio, |pushers|)
      ensures actions == ConfiguredActions(pushers, old(fired), ratio, |pushers|)
    {
      actions := [];
      for i := 0 to |pushers|
        invariant fired == old(fired) + ConfiguredFiring(pushers, old(fired), ratio, i)
        invariant actions == ConfiguredActions(pushers, old(fired), ratio, i)
      {
        if i in fired {
          continue;
        }
        if ratio < pushers[i].at {
          continue;
        }
        fired := fired + {i};
        actions := actions + [Action(pushers[i].kind, pushers[i].message)];
      }
    }
  }

  /** The pusher chain of one agent: producers in pipeline order, then the consumer that applies their actions. */
  class BudgetTracker {
    const cfg: Config
    const counter: ReflectCadenceCounter
    const configured: RatioPusher
    const token: RatioEscalationPusher
    const time: RatioEscalationPusher
    const step: RatioEscalationPusher
    const context: RatioEscalationPusher
    const cadence: ReflectCadencePusher

    ghost function Parts(): set<object> {
      {counter, configured, token, time, step, context, cadence}
    }

    ghost predicate Valid()
      reads this, Parts()
    {
      && configured.pushers == cfg.pushers
      && token.levels == TokenLevels(cfg) && time.levels == TimeLevels(cfg)
      && step.levels == StepLevels(cfg) && context.levels == ContextLevels(cfg)
      && cadence.threshold == cfg.reflectThreshold && cadence.multiplier.None? && cadence.message == cfg.words.cadence
      && Fits(cfg, Value())
      && token != time && token != step && token != context && time != step && time != context && step != context
    }

    function Value(): Chain
      reads Parts()
    {
      Chain(counter.counter, configured.fired, token.fired, time.fired, step.fired, context.fired, cadence.Value())
    }

    constructor (cfg: Config)
      ensures Valid() && fresh(Parts()) && this.cfg == cfg && Value() == FreshChain(cfg)
    {
      this.cfg := cfg;
      counter := new ReflectCadenceCounter();
      configured := new RatioPusher(cfg.pushers);
      token := new RatioEscalationPusher(0.5, Some(0.75), Some(1.0), None, cfg.words.token);
      time := new RatioEscalationPusher(0.5, Some(0.75), Some(1.0), None, cfg.words.time);
      step := new RatioEscalationPusher(0.5, Some(0.75), Some(0.9), None, cfg.words.step);
      context := new RatioEscalationPusher(0.5, Some(0.75), None, None, cfg.words.context);
      cadence := new ReflectCadencePusher(cfg.reflectThreshold, None, cfg.words.cadence);
    }

    /** Phase 1: the producers append actions, which are then applied to the messages and the tools. */
    method ApplyHandlers(state: BudgetState, t: Turn, messages: seq<Message>)
      returns (log: seq<Message>, tools: seq<string>)
      requires Valid()
      modifies configured, token, time, step, context, cadence
      ensures Valid() && Value() == Advanced(cfg, old(Value()), state.Value(), t)
      ensures var actions := Produced(cfg, old(Value()), state.Value(), t);
              log == messages + Delivered(actions) && tools == Narrowed(actions, cfg.tools, cfg.tools)
    {
      hide Latched, Emitted, TokenLevels, TimeLevels, StepLevels, ContextLevels, Ticked, TickActions,
        ConfiguredActions, ConfiguredFiring, TokenRatio, WallRatio, StepRatio, ContextRatio, MaxRatio;
      ghost var a := state.Value();
      var fromConfig := configured.Apply(MaxRatio(state.Value(), t.ratioTime));
      var fromToken := token.Apply(Some(TokenRatio(state.Value())));
      var fromTime := time.Apply(WallRatio(state.Value(), t.wallTime));
      var fromStep := step.Apply(Some(StepRatio(state.Value())));
      var fromContext := context.Apply(ContextRatio(state.Value()));
      var fromCadence := cadence.Apply(counter.counter);
      assert state.Value() == a;
      var actions := AsNudges(t.callbacks) + fromConfig + (fromToken + fromTime + fromStep + fromContext) + fromCadence;
      log, tools := ApplyActions(actions, messages, cfg.tools, cfg.tools);
    }
  }

  /** `ApplyActionsHandler`. A custom action without a handler changes nothing. */
  method ApplyActions(actions: seq<Action>, messages: seq<Message>, all: seq<string>, current: seq<string>)
    returns (log: seq<Message>, tools: seq<string>)
    ensures log == messages + Delivered(actions) && tools == Narrowed(actions, all, current)
  {
    log, tools := messages, current;
    for i := 0 to |actions|
      invariant log == messages + Delivered(actions[..i]) && tools == Narrowed(actions[..i], all, current)
    {
      var action := actions[i];
      assert actions[..i + 1][..i] == actions[..i];
      if action.kind == Nudge {
        if action.message != "" {
          log := log + [User(action.message)];
        }
      } else if action.kind == ForceDone {
        tools := NarrowTo(all, tools, "done");
      }
    }
    assert actions[..|actions|] == actions;
  }

  /** `_check_require_tool_guards`, which also records the retry. */
  method CheckRequireToolGuards(guards: seq<Guard>, called: set<string>, retries: map<GuardKey, nat>)
    returns (message: Option<string>, spent: map<GuardKey, nat>)
    ensures (message, spent) == CheckTools(guards, called, retries)
  {
    for i := 0 to |guards|
      invariant CheckTools(guards[i..], called, retries) == CheckTools(guards, called, retries)
    {
      var g := guards[i];
      assert guards[i..][0] == g && guards[i..][1..] == guards[i + 1..];
      if !g.key.RequireTool? {
        continue;
      }
      if g.key.tool in called {
        continue;
      }
      var count := Retries(retries, g.key);
      if count >= MAX_GUARD_RETRIES {
        continue;
      }
      return Some(g.message), retries[g.key := count + 1];
    }
    return None, retries;
  }

  /** The loop over the tool calls of one reply: results into the log, outcomes, and the output of `done`. */
  method ProcessCalls(calls: seq<Call>, messages: seq<Message>)
    returns (log: seq<Message>, outcomes: seq<Outcome>, findings: Option<string>)
    ensures log == messages + [ToolCalls(Refs(calls))] + Results(calls)
    ensures outcomes == Outcomes(calls) && findings == Findings(calls)
  {
    log := messages + [ToolCalls(Refs(calls))];
    outcomes := [];
    findings := None;
    ghost var start := log;
    for i := 0 to |calls|
      invariant log == start + Results(calls[..i])
      invariant outcomes == Outcomes(calls[..i]) && findings == Findings(calls[..i])
    {
      var c := calls[i];
      assert calls[..i + 1][..i] == calls[..i];
      assert Results(calls[..i + 1]) == Results(calls[..i]) + [ToolResult(c.id, c.clean)];
      assert Outcomes(calls[..i + 1]) == Outcomes(calls[..i]) + [Outcome(c.name, IsValidationError(c.content))];
      log := log + [ToolResult(c.id, c.clean)];
      outcomes := outcomes + [Outcome(c.name, IsValidationError(c.content))];
      if c.name == "done" {
        if !IsValidationError(c.content) {
          findings := c.findings;
        }
      } else if c.name == "answer" {
        if !IsValidationError(c.content) {
          findings := c.findings;
        }
      }
    }
    assert calls[..|calls|] == calls;
  }

  class ReactAgent {
    const cfg: Config
    const budget: BudgetState
    const tracker: BudgetTracker

    ghost predicate Fresh()
      reads this, budget, tracker, tracker.Parts()
    {
      && tracker.Valid() && tracker.cfg == cfg && tracker.Value() == FreshChain(cfg)
      && budget.limits == cfg.limits && budget.Value() == Opened(cfg.limits)
    }

    constructor (cfg: Config)
      ensures Fresh() && this.cfg == cfg && fresh(budget) && fresh(tracker.Parts())
    {
      this.cfg := cfg;
      budget := new BudgetState(cfg.limits);
      tracker := new BudgetTracker(cfg);
    }

    /** `_run_react`: the result of the run is the one `ReactLoop.Run` defines. */
    method RunReact(start: seq<Message>, env: nat -> Turn, forced: Option<string>) returns (r: Result)
      requires Fresh()
      modifies budget, tracker.Parts()
      ensures r == Run(cfg, start, env, forced)
    {
      var s := Start(cfg, start);
      var step := 0;
      while step < cfg.limits.maxSteps && s.status.Running?
        invariant step <= cfg.limits.maxSteps && tracker.Valid()
        invariant s == Before(cfg, start, env, step)
        invariant s.status.Running? ==> tracker.Value() == s.chain && budget.Value() == s.account
        decreases cfg.limits.maxSteps - step
      {
        s := TakeStep(s, step, env(step));
        step := step + 1;
      }
      StaysEnded(cfg, start, env, step, cfg.limits.maxSteps);
      r := Closed(cfg, s, forced);
    }

    /** The body of the loop. */
    method TakeStep(s: State, step: nat, t: Turn) returns (next: State)
      requires tracker.Valid() && tracker.cfg == cfg && s.status.Running?
      requires tracker.Value() == s.chain && budget.Value() == s.account && Fits(cfg, s.chain)
      modifies budget, tracker.Parts()
      ensures tracker.Valid() && next == Turned(cfg, s, step, t)
      ensures next.status.Running? ==> tracker.Value() == next.chain && budget.Value() == next.account
    {
      hide Exhausted, Advanced, Produced, Delivered, Narrowed, Charged, TextTurn, ToolTurn, Names, Users;
      if Exhausted(budget.Value(), t.checkTime) {
        return s.(status := Stopped);
      }
      var messages := s.messages + Users(t.injected);
      var tools;
      messages, tools := tracker.ApplyHandlers(budget, t, messages);
      next := s.(messages := messages, chain := tracker.Value(), llmCalls := s.llmCalls + 1,
                 offered := s.offered + [tools]);
      if t.reply.Failed? {
        return next.(status := Stopped);
      }
      if t.reply.usage.Some? {
        budget.UpdateTokens(t.reply.usage.value);
      }
      budget.SetStepsUsed(step + 1);
      var calls := t.reply.calls;
      next := next.(account := budget.Value(), called := s.called + Names(calls));
      ghost var q := next;
      assert q == Answered(Prompted(cfg, s, t), step, t.reply.usage, calls);
      if calls == [] {
        next := RepromptText(next, t.reply.content);
      } else {
        next := UseTools(next, calls, t.summary);
      }
    }

    /** A reply with tool calls: their results, then the end, a guard message or the next step. */
    method UseTools(s: State, calls: seq<Call>, summary: string) returns (next: State)
      requires tracker.Valid() && tracker.cfg == cfg && tracker.Value() == s.chain && Fits(cfg, s.chain)
      modifies tracker.counter
      ensures tracker.Valid() && next == ToolTurn(cfg, s, calls, summary)
      ensures tracker.Value() == next.chain && next.account == s.account
    {
      hide TokenLevels, TimeLevels, StepLevels, ContextLevels, Counted, CheckTools, Findings,
        Condensation.MaybeCondense;
      var log, outcomes, findings := ProcessCalls(calls, s.messages);
      tracker.counter.OnStepDone(outcomes);
      next := s.(chain := tracker.Value());
      if findings.Some? {
        var guard, spent := CheckRequireToolGuards(cfg.guards, next.called, next.retries);
        if guard.Some? && guard.value != "" {
          next := next.(messages := log + [User(guard.value)], retries := spent, reprompts := next.reprompts + 1);
          return;
        }
        next := next.(messages := log, retries := spent, status := Finished(findings.value));
        return;
      }
      next := next.(messages := Condensation.MaybeCondense(log, cfg.condensation, summary));
    }

    /** A reply without tool calls: the text guard first, then the required tools. */
    method RepromptText(s: State, content: string) returns (next: State)
      ensures next == TextTurn(cfg, s, content) && next.chain == s.chain && next.account == s.account
    {
      var (guard, spent) := CheckText(cfg.guards, s.retries);
      if guard.None? {
        guard, spent := CheckRequireToolGuards(cfg.guards, s.called, spent);
      }
      if guard.Some? && guard.value != "" {
        return s.(messages := s.messages + [Assistant(content), User(guard.value)], retries := spent,
                  reprompts := s.reprompts + 1);
      }
      return s.(retries := spent, status := NaturalStop);
    }
  }

  /** Once the loop has ended its state no longer changes. */
  lemma {:induction false} StaysEnded(cfg: Config, messages: seq<Message>, env: nat -> Turn, j: nat, k: nat)
    requires j <= k && (j == k || !Before(cfg, messages, env, j).status.Running?)
    ensures Before(cfg, messages, env, k) == Before(cfg, messages, env, j)
    decreases k
  {
    if j < k {
      StaysEnded(cfg, messages, env, j, k - 1);
    }
  }
}
