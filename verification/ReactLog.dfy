/** The message log of a whole run stays paired. */
module ReactLog {
  import opened Wrappers
  import opened Messages
  import opened Escalation
  import opened ReactLoop
  import Budget
  import Condensation
  import ReactBudget

  lemma {:induction false} DeliveredPlain(actions: seq<Action>)
    ensures forall m :: m in Delivered(actions) ==> m.User?
  {
    if actions != [] {
      DeliveredPlain(actions[..|actions| - 1]);
    }
  }

  /** Nudges and injected messages land behind complete blocks. */
  lemma PromptedPaired(cfg: Config, s: State, t: Turn)
    requires Fits(cfg, s.chain) && Paired(s.messages)
    ensures Paired(Prompted(cfg, s, t).messages)
  {
    hide Produced, Advanced, Paired;
    var delivered := Delivered(Produced(cfg, s.chain, s.account, t));
    DeliveredPlain(Produced(cfg, s.chain, s.account, t));
    PlainPaired(delivered);
    PlainPaired(Users(t.injected));
    PairedAppend(s.messages, Users(t.injected));
    PairedAppend(s.messages + Users(t.injected), delivered);
  }

  lemma TextTurnPaired(cfg: Config, s: State, content: string)
    requires Paired(s.messages)
    ensures Paired(TextTurn(cfg, s, content).messages)
  {
    hide Paired, CheckText, CheckTools;
    var next := TextTurn(cfg, s, content);
    if next.messages != s.messages {
      var more := next.messages[|s.messages|..];
      assert next.messages == s.messages + more;
      PlainPaired(more);
      PairedAppend(s.messages, more);
    }
  }

  /** One assistant message with its results is a complete block. */
  lemma BlockAppended(log: seq<Message>, calls: seq<Call>)
    requires Paired(log)
    ensures Paired(log + [ToolCalls(Refs(calls))] + Results(calls))
  {
    BlockPaired(Refs(calls), Results(calls));
    var block := [ToolCalls(Refs(calls))] + Results(calls);
    PairedAppend(log, block);
    assert log + [ToolCalls(Refs(calls))] + Results(calls) == log + block;
  }

  /** A step with tool calls keeps the log paired exactly when its condensation, if any, cuts no block. */
  lemma ToolTurnPaired(cfg: Config, s: State, calls: seq<Call>, summary: string)
    requires Paired(s.messages)
    ensures var log := s.messages + [ToolCalls(Refs(calls))] + Results(calls);
            Paired(ToolTurn(cfg, s, calls, summary).messages) <==>
              !(Findings(calls).None? && cfg.condensation.Some?
                && Condensation.ShouldCondense(log, cfg.condensation.value.trigger)
                && Condensation.CutsBlock(log, cfg.condensation.value))
  {
    hide Paired, CheckTools, Condensation.CutsBlock, Condensation.Condense, Condensation.ShouldCondense;
    var log := s.messages + [ToolCalls(Refs(calls))] + Results(calls);
    BlockAppended(s.messages, calls);
    if Findings(calls).Some? {
      var guard := CheckTools(cfg.guards, s.called, s.retries).0;
      if guard.Some? {
        PlainPaired([User(guard.value)]);
        PairedAppend(log, [User(guard.value)]);
      }
    } else if cfg.condensation.Some? {
      Condensation.CondensePairing(log, cfg.condensation.value, summary);
    }
  }

  /** The log of a step with tool calls when condensation looks at it. */
  function LogToCondense(cfg: Config, s: State, t: Turn): seq<Message>
    requires Fits(cfg, s.chain) && t.reply.Answer?
  {
    Prompted(cfg, s, t).messages + [ToolCalls(Refs(t.reply.calls))] + Results(t.reply.calls)
  }

  /** The condensation at the end of a step cuts between tool calls and their results. */
  predicate StepCuts(cfg: Config, s: State, t: Turn)
    requires Fits(cfg, s.chain)
  {
    && s.status.Running? && !Budget.Exhausted(s.account, t.checkTime)
    && t.reply.Answer? && t.reply.calls != [] && Findings(t.reply.calls).None? && cfg.condensation.Some?
    && Condensation.ShouldCondense(LogToCondense(cfg, s, t), cfg.condensation.value.trigger)
    && Condensation.CutsBlock(LogToCondense(cfg, s, t), cfg.condensation.value)
  }

  /** One step of the loop keeps the log paired exactly when it cuts no block. */
  lemma TurnPaired(cfg: Config, s: State, step: nat, t: Turn)
    requires Fits(cfg, s.chain) && s.status.Running? && Paired(s.messages)
    ensures Paired(Turned(cfg, s, step, t).messages) <==> !StepCuts(cfg, s, t)
  {
    hide Paired, Prompted, TextTurn, ToolTurn, Condensation.ShouldCondense, Condensation.CutsBlock, Budget.Exhausted;
    var p := Prompted(cfg, s, t);
    PromptedPaired(cfg, s, t);
    if t.reply.Answer? {
      var q := Answered(p, step, t.reply.usage, t.reply.calls);
      TextTurnPaired(cfg, q, t.reply.content);
      ToolTurnPaired(cfg, q, t.reply.calls, t.summary);
    }
  }

  /** Step `j` of a run cuts a block. */
  predicate CutsAt(cfg: Config, messages: seq<Message>, env: nat -> Turn, j: nat) {
    StepCuts(cfg, Before(cfg, messages, env, j), env(j))
  }

  predicate PairedAt(cfg: Config, messages: seq<Message>, env: nat -> Turn, j: nat) {
    Paired(Before(cfg, messages, env, j).messages)
  }

  ghost predicate NoCutBefore(cfg: Config, messages: seq<Message>, env: nat -> Turn, k: nat) {
    forall j: nat :: j < k ==> !CutsAt(cfg, messages, env, j)
  }

  ghost predicate PairedUpTo(cfg: Config, messages: seq<Message>, env: nat -> Turn, k: nat) {
    forall j: nat :: j <= k ==> PairedAt(cfg, messages, env, j)
  }

  /** Whatever the condensation strategy: the log is paired before every step of
      a run up to step `k` exactly when no step before `k` cuts a block. */
  lemma {:induction false} LogPaired(cfg: Config, messages: seq<Message>, env: nat -> Turn, k: nat)
    requires Paired(messages)
    ensures PairedUpTo(cfg, messages, env, k) <==> NoCutBefore(cfg, messages, env, k)
  {
    hide PairedAt, CutsAt;
    if k == 0 {
      StartPaired(cfg, messages, env);
    } else {
      LogPaired(cfg, messages, env, k - 1);
      NextPaired(cfg, messages, env, k - 1);
    }
  }

  lemma StartPaired(cfg: Config, messages: seq<Message>, env: nat -> Turn)
    requires Paired(messages)
    ensures PairedAt(cfg, messages, env, 0)
  {
  }

  lemma NextPaired(cfg: Config, messages: seq<Message>, env: nat -> Turn, k: nat)
    ensures PairedAt(cfg, messages, env, k) ==>
              (PairedAt(cfg, messages, env, k + 1) <==> !CutsAt(cfg, messages, env, k))
  {
    hide Paired, Turned;
    var s := Before(cfg, messages, env, k);
    if s.status.Running? && Paired(s.messages) {
      TurnPaired(cfg, s, k, env(k));
    }
  }

  /** Condensation that keeps no part of a block: none, the truncation of tool
      results, or one that preserves no message. */
  predicate KeepsBlocks(cfg: Config) {
    || cfg.condensation.None?
    || cfg.condensation.value.strategy == Condensation.DropToolResults
    || cfg.condensation.value.preserveLast == 0
  }

  /** Such a condensation never cuts. */
  lemma KeepsBlocksNeverCuts(cfg: Config, s: State, t: Turn)
    requires Fits(cfg, s.chain) && KeepsBlocks(cfg)
    ensures !StepCuts(cfg, s, t)
  {
  }

  /** The log a run returns is paired when no step has cut a block - in
      particular, always, when the condensation keeps blocks whole. */
  lemma RunPaired(cfg: Config, messages: seq<Message>, env: nat -> Turn, forced: Option<string>)
    requires Paired(messages)
    ensures NoCutBefore(cfg, messages, env, cfg.limits.maxSteps) || KeepsBlocks(cfg) ==>
              Paired(Run(cfg, messages, env, forced).last.messages)
  {
    hide Paired, StepCuts, Before;
    var s := Before(cfg, messages, env, cfg.limits.maxSteps);
    if KeepsBlocks(cfg) {
      forall j: nat | j < cfg.limits.maxSteps ensures !CutsAt(cfg, messages, env, j) {
        KeepsBlocksNeverCuts(cfg, Before(cfg, messages, env, j), env(j));
      }
    }
    LogPaired(cfg, messages, env, cfg.limits.maxSteps);
    assert NoCutBefore(cfg, messages, env, cfg.limits.maxSteps) ==> PairedAt(cfg, messages, env, cfg.limits.maxSteps);
    PlainPaired([User(cfg.words.stepLimit)]);
    if Paired(s.messages) {
      PairedAppend(s.messages, [User(cfg.words.stepLimit)]);
    }
  }

  // -------------------------------------------- which configurations are safe

  function Flood(n: nat, content: string): seq<Call> {
    seq(n, i requires 0 <= i < n => Call("id", "look", "", content, content, None))
  }

  /** A first step that makes `n` calls. */
  function FloodTurn(n: nat, content: string): Turn {
    Turn(0.0, 0.0, 0.0, [""], [], Answer(None, "", Flood(n, content)), "")
  }

  const FAILED_TURN := Turn(0.0, 0.0, 0.0, [], [], Failed, "")

  lemma {:induction false} FloodGoesOn(calls: seq<Call>)
    requires forall c :: c in calls ==> c.name == "look"
    ensures Findings(calls) == None
  {
    if calls != [] {
      assert calls[|calls| - 1] in calls;
      FloodGoesOn(calls[..|calls| - 1]);
    }
  }

  /** As many long results as the condensation preserves messages: it cuts right
      behind the calls they answer. */
  lemma FloodCuts(log: seq<Message>, calls: seq<CallRef>, results: seq<Message>, c: Condensation.Config,
                  content: string)
    requires log != [] && c.strategy != Condensation.DropToolResults && |content| / 4 > c.trigger
    requires |results| == c.preserveLast > 0
    requires forall i :: 0 <= i < |results| ==> results[i] == ToolResult("id", content)
    ensures var all := log + [ToolCalls(calls)] + results;
            Condensation.ShouldCondense(all, c.trigger) && Condensation.CutsBlock(all, c)
  {
    var all := log + [ToolCalls(calls)] + results;
    var light := Condensation.Dropped(all, c.preserveLast);
    assert all[|all| - c.preserveLast] == results[0] && all[|all| - 1] == results[|results| - 1];
    assert light[|light| - 1] == all[|all| - 1];
    EndsLong(all, c.trigger);
    EndsLong(light, c.trigger);
  }

  lemma EndsLong(log: seq<Message>, trigger: int)
    requires log != [] && Condensation.Chars(log[|log| - 1]) / 4 > trigger
    ensures Condensation.ShouldCondense(log, trigger)
  {
    LongEnough(log[..|log| - 1], log[|log| - 1]);
    assert log == log[..|log| - 1] + [log[|log| - 1]];
  }

  lemma FloodStepCuts(cfg: Config, messages: seq<Message>, content: string)
    requires !KeepsBlocks(cfg) && |content| / 4 > cfg.condensation.value.trigger
    ensures StepCuts(cfg, Start(cfg, messages), FloodTurn(cfg.condensation.value.preserveLast, content))
  {
    hide Produced, Advanced, Narrowed, Condensation.ShouldCondense, Condensation.CutsBlock;
    var s, t := Start(cfg, messages), FloodTurn(cfg.condensation.value.preserveLast, content);
    var calls := t.reply.calls;
    FloodGoesOn(calls);
    FloodCuts(Prompted(cfg, s, t).messages, Refs(calls), Results(calls), cfg.condensation.value, content);
  }

  /** A step in which the model call fails, or that is not made, mends nothing. */
  lemma FailedMendsNothing(cfg: Config, s: State, step: nat)
    requires Fits(cfg, s.chain) && !Paired(s.messages)
    ensures !Paired(Turned(cfg, s, step, FAILED_TURN).messages)
  {
    hide Produced, Paired, Budget.Exhausted, Advanced, Narrowed;
    var more := Delivered(Produced(cfg, s.chain, s.account, FAILED_TURN));
    DeliveredPlain(Produced(cfg, s.chain, s.account, FAILED_TURN));
    PlainAfter(s.messages, more);
    assert s.messages + Users([]) + more == s.messages + more;
  }

  lemma {:induction false} StaysUnpaired(cfg: Config, messages: seq<Message>, env: nat -> Turn, k: nat)
    requires k > 0 && !PairedAt(cfg, messages, env, 1) && forall j: nat :: j > 0 ==> env(j) == FAILED_TURN
    ensures !PairedAt(cfg, messages, env, k)
  {
    hide Paired, Turned;
    if k > 1 {
      StaysUnpaired(cfg, messages, env, k - 1);
      FailedMendsNothing(cfg, Before(cfg, messages, env, k - 1), k - 1);
    }
  }

  /** Any other condensation can be made to return an unpaired log. */
  lemma CondensationBreaks(cfg: Config, messages: seq<Message>) returns (env: nat -> Turn)
    requires Paired(messages) && !KeepsBlocks(cfg) && cfg.limits.maxSteps > 0
    ensures forall forced :: !Paired(Run(cfg, messages, env, forced).last.messages)
  {
    hide Paired, StepCuts, Turned, FloodTurn;
    var c := cfg.condensation.value;
    var content := seq(if c.trigger < 0 then 0 else 4 * (c.trigger + 1), _ => 'x');
    env := k => if k == 0 then FloodTurn(c.preserveLast, content) else FAILED_TURN;
    FloodStepCuts(cfg, messages, content);
    TurnPaired(cfg, Start(cfg, messages), 0, env(0));
    assert Before(cfg, messages, env, 1) == Turned(cfg, Start(cfg, messages), 0, env(0));
    StaysUnpaired(cfg, messages, env, cfg.limits.maxSteps);
    PlainAfter(Before(cfg, messages, env, cfg.limits.maxSteps).messages, [User(cfg.words.stepLimit)]);
  }

  ghost predicate AlwaysPaired(cfg: Config, messages: seq<Message>) {
    forall env: nat -> Turn, forced: Option<string> :: Paired(Run(cfg, messages, env, forced).last.messages)
  }

  /** From a paired log every run of a configuration returns a paired log exactly
      when its condensation keeps blocks whole (or there is no step to make). */
  lemma RunsStayPaired(cfg: Config, messages: seq<Message>)
    requires Paired(messages)
    ensures AlwaysPaired(cfg, messages) <==> KeepsBlocks(cfg) || cfg.limits.maxSteps == 0
  {
    hide Paired, Run, KeepsBlocks;
    if KeepsBlocks(cfg) || cfg.limits.maxSteps == 0 {
      forall env: nat -> Turn, forced: Option<string>
        ensures Paired(Run(cfg, messages, env, forced).last.messages)
      {
        RunPaired(cfg, messages, env, forced);
      }
    } else {
      var env := CondensationBreaks(cfg, messages);
      assert !Paired(Run(cfg, messages, env, None).last.messages);
    }
  }

  // ------------------------------------------------------- an orphaned result

  predicate Silent(actions: seq<Action>) { forall a :: a in actions ==> a.message == "" }

  lemma {:induction false} SilentDelivered(actions: seq<Action>)
    requires Silent(actions)
    ensures Delivered(actions) == []
  {
    if actions != [] {
      assert actions[|actions| - 1] in actions;
      SilentDelivered(actions[..|actions| - 1]);
    }
  }

  const NO_WORDING := Wording("", "", "")

  /** No budget, no pusher, no guard; the default condensation with the given trigger. */
  function PlainConfig(trigger: int): Config {
    Config(Budget.Limits(0, 40, None, None, 0.1), [], Words(NO_WORDING, NO_WORDING, NO_WORDING, NO_WORDING, "", ""),
           0.0, [], ["look", "done"], Some(Condensation.Config(trigger, Condensation.LlmSummary, 5)))
  }

  /** A step in which the model makes one call. */
  function LookTurn(content: string): Turn {
    Turn(0.0, 0.0, 0.0, [], [], Answer(None, "", [Call("id", "look", "", content, content, None)]), "")
  }

  lemma PlainPrompt(trigger: int, s: State, content: string)
    requires Fits(PlainConfig(trigger), s.chain)
    ensures Prompted(PlainConfig(trigger), s, LookTurn(content)).messages == s.messages
  {
    hide Emitted, Firing, Delivered;
    var cfg, t := PlainConfig(trigger), LookTurn(content);
    ReactBudget.Tables(cfg);
    hide TokenLevels, TimeLevels, StepLevels, ContextLevels;
    QuietLevels(TokenLevels(cfg), s.chain.token, Some(Budget.TokenRatio(s.account)));
    QuietLevels(TimeLevels(cfg), s.chain.time, Budget.WallRatio(s.account, t.wallTime));
    QuietLevels(StepLevels(cfg), s.chain.step, Some(Budget.StepRatio(s.account)));
    QuietLevels(ContextLevels(cfg), s.chain.context, Budget.ContextRatio(s.account));
    SilentDelivered(Produced(cfg, s.chain, s.account, t));
  }

  lemma QuietLevels(levels: seq<Level>, fired: seq<bool>, ratio: Option<real>)
    requires |levels| == |fired| && forall l :: l in levels ==> l.message == ""
    ensures Silent(Emitted(levels, fired, ratio))
  {
    FiringInRange(levels, fired, ratio, |levels|);
  }

  /** One such step while nothing is exhausted. */
  lemma PlainStep(trigger: int, s: State, k: nat, content: string)
    requires var cfg := PlainConfig(trigger);
             && Fits(cfg, s.chain) && s.status.Running? && k < 40
             && s.account == Budget.Opened(cfg.limits).(stepsUsed := k)
    ensures var cfg := PlainConfig(trigger);
            var next := Turned(cfg, s, k, LookTurn(content));
            && next.status.Running? && next.account == Budget.Opened(cfg.limits).(stepsUsed := k + 1)
            && LogToCondense(cfg, s, LookTurn(content)) == s.messages + Condensation.OneCall("id", content)
            && next.messages == Condensation.MaybeCondense(s.messages + Condensation.OneCall("id", content),
                                                           cfg.condensation, "")
            && !Budget.Exhausted(s.account, 0.0)
  {
    hide Produced, Advanced, Narrowed, Delivered, Condensation.MaybeCondense;
    var cfg, t := PlainConfig(trigger), LookTurn(content);
    PlainPrompt(trigger, s, content);
    assert Refs(t.reply.calls) == [CallRef("id", "look", "")];
    assert Results(t.reply.calls) == [ToolResult("id", content)];
    assert s.messages + [ToolCalls(Refs(t.reply.calls))] + Results(t.reply.calls)
        == s.messages + Condensation.OneCall("id", content);
    assert Findings(t.reply.calls) == None;
  }

  /** A run with the default condensation in which the third step leaves a tool
      result without its call: any result longer than the trigger does it. */
  lemma DefaultsOrphanRun(trigger: int, content: string)
    requires |content| / 4 > trigger
    ensures var log := [System(""), User("")];
            var last := Before(PlainConfig(trigger), log, _ => LookTurn(content), 3);
            last.status.Running? && Paired(log) && !Paired(last.messages)
  {
    hide Turned, Paired, PlainConfig, LookTurn, Condensation.MaybeCondense, Condensation.OneCall, Condensation.Condense;
    var cfg, log, env := PlainConfig(trigger), [System(""), User("")], _ => LookTurn(content);
    var one := Condensation.OneCall("id", content);
    PlainPaired(log);
    PlainStart(trigger, log, env);
    PlainStep(trigger, Before(cfg, log, env, 0), 0, content);
    ShortStays(trigger, log, content);
    PlainStep(trigger, Before(cfg, log, env, 1), 1, content);
    ShortStays(trigger, log + one, content);
    PlainStep(trigger, Before(cfg, log, env, 2), 2, content);
    Condensation.DefaultsOrphan(log, "id", content, trigger, "");
    LongCondenses(trigger, log + one + one, content);
  }

  lemma PlainStart(trigger: int, log: seq<Message>, env: nat -> Turn)
    ensures var s := Before(PlainConfig(trigger), log, env, 0);
            && s.status.Running? && s.messages == log
            && s.account == Budget.Opened(PlainConfig(trigger).limits).(stepsUsed := 0)
  {
  }

  /** The summary leaves logs of up to six messages alone. */
  lemma ShortStays(trigger: int, log: seq<Message>, content: string)
    requires |log| <= 4
    ensures var steps := log + Condensation.OneCall("id", content);
            |steps| == |log| + 2 && Condensation.MaybeCondense(steps, PlainConfig(trigger).condensation, "") == steps
  {
  }

  /** A log that ends with a result longer than the trigger is condensed. */
  lemma LongCondenses(trigger: int, log: seq<Message>, content: string)
    requires |content| / 4 > trigger
    ensures var steps := log + Condensation.OneCall("id", content);
            Condensation.MaybeCondense(steps, PlainConfig(trigger).condensation, "")
            == Condensation.Condense(steps, Condensation.Config(trigger, Condensation.LlmSummary, 5), "")
  {
    hide Condensation.Condense;
    var steps := log + Condensation.OneCall("id", content);
    EndsLong(steps, trigger);
  }

  lemma LongEnough(log: seq<Message>, last: Message)
    ensures Condensation.TotalChars(log + [last]) >= Condensation.Chars(last)
  {
    assert (log + [last])[..|log|] == log;
  }
}
