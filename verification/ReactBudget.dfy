/** When the pusher chain narrows the tools of a run to `done`. */
module ReactBudget {
  import opened Wrappers
  import opened Budget
  import opened Escalation
  import opened Cadence
  import opened ReactLoop
  import opened ReactHistory
  import Messages
  import ReactTheorems

  // ------------------------------------------------------------- level tables

  lemma SortThree(a: Level, b: Level, c: Level)
    requires a.threshold <= b.threshold <= c.threshold
    ensures SortLevels([a, b, c]) == [a, b, c] && SortLevels([a, b]) == [a, b]
  {
    assert [a][..0] == [];
    assert SortLevels([]) == [];
    assert SortLevels([a]) == [a];
    assert [a, b][..1] == [a];
    assert [a, b, c][..2] == [a, b];
  }

  lemma Tables(cfg: Config)
    ensures var w := cfg.words.step;
            StepLevels(cfg) == [Level(0.5, Nudge, w.nudge), Level(0.75, Nudge, w.nudgeHigh),
                                Level(0.9, ForceDone, w.forceDone)]
    ensures var w := cfg.words.token;
            TokenLevels(cfg) == [Level(0.5, Nudge, w.nudge), Level(0.75, Nudge, w.nudgeHigh),
                                 Level(1.0, ForceDone, w.forceDone)]
    ensures var w := cfg.words.time;
            TimeLevels(cfg) == [Level(0.5, Nudge, w.nudge), Level(0.75, Nudge, w.nudgeHigh),
                                Level(1.0, ForceDone, w.forceDone)]
    ensures var w := cfg.words.context;
            ContextLevels(cfg) == [Level(0.5, Nudge, w.nudge), Level(0.75, Nudge, w.nudgeHigh)]
  {
    hide SortLevels;
    OneTable(cfg.words.step, 0.9);
    OneTable(cfg.words.token, 1.0);
    OneTable(cfg.words.time, 1.0);
    OneTable(cfg.words.context, 1.0);
  }

  lemma OneTable(w: Wording, at: real)
    requires at >= 0.75
    ensures SortLevels(Configured(0.5, Some(0.75), Some(at), None, w))
            == [Level(0.5, Nudge, w.nudge), Level(0.75, Nudge, w.nudgeHigh), Level(at, ForceDone, w.forceDone)]
    ensures SortLevels(Configured(0.5, Some(0.75), None, None, w))
            == [Level(0.5, Nudge, w.nudge), Level(0.75, Nudge, w.nudgeHigh)]
  {
    var a, b, c := Level(0.5, Nudge, w.nudge), Level(0.75, Nudge, w.nudgeHigh), Level(at, ForceDone, w.forceDone);
    SortThree(a, b, c);
    assert Configured(0.5, Some(0.75), Some(at), None, w) == [a, b, c];
    assert Configured(0.5, Some(0.75), None, None, w) == [a, b];
  }

  predicate Forces(actions: seq<Action>) { exists a :: a in actions && a.kind == ForceDone }

  lemma {:induction false} FiringPrefix(levels: seq<Level>, fired: seq<bool>, ratio: Option<real>, m: nat, n: nat)
    requires |levels| == |fired| && n <= m <= |levels|
    ensures Firing(levels[..m], fired[..m], ratio, n) == Firing(levels, fired, ratio, n)
  {
    if n > 0 {
      FiringPrefix(levels, fired, ratio, m, n - 1);
    }
  }

  /** An axis forces the end exactly when its third level fires now. */
  lemma AxisForces(levels: seq<Level>, fired: seq<bool>, ratio: Option<real>)
    requires |levels| == |fired| && 2 <= |levels| <= 3 && levels[0].kind == Nudge == levels[1].kind
    requires |levels| == 3 ==> levels[2].kind == ForceDone
    ensures Forces(Emitted(levels, fired, ratio))
            <==> |levels| == 3 && !fired[2] && ratio.Some? && ratio.value >= levels[2].threshold
  {
    FiringInRange(levels, fired, ratio, |levels|);
    var which := Firing(levels, fired, ratio, |levels|);
    if ratio.Some? {
      var low := Firing(levels, fired, ratio, 2);
      FiringInRange(levels[..2], fired[..2], ratio, 2);
      FiringPrefix(levels, fired, ratio, 2, 2);
      var actions := ActionsOf(levels, which);
      if |levels| == 3 && !fired[2] && ratio.value >= levels[2].threshold {
        assert which == low + [2];
        assert actions[|low|].kind == ForceDone && actions[|low|] in actions;
      } else {
        assert which == low;
        forall a | a in actions ensures a.kind == Nudge {
          var i :| 0 <= i < |actions| && actions[i] == a;
          assert which[i] < 2;
        }
      }
    }
  }

  // -------------------------------------------------------- the four axes

  lemma ThreeLevels(cfg: Config, axis: Axis)
    requires axis != Context
    ensures var levels := LevelsOf(cfg, axis);
            |levels| == 3 && levels[0].kind == Nudge == levels[1].kind && levels[2].kind == ForceDone
  {
    Tables(cfg);
  }

  /** An axis with a third level forces the end at the first step that sees its threshold reached, and never again. */
  lemma AxisForcesFirst(cfg: Config, messages: seq<Messages.Message>, env: nat -> Turn, axis: Axis, k: nat)
    requires Before(cfg, messages, env, k).status.Running? && axis != Context
    ensures |LevelsOf(cfg, axis)| == 3
    ensures Forces(EmittedAt(cfg, messages, env, axis, k))
            <==> Hits(cfg, env, axis, 2, k) && forall j: nat :: j < k ==> !Hits(cfg, env, axis, 2, j)
  {
    hide Before, Forces, Emitted, RatioOf, AccountAt, LevelsOf;
    ThreeLevels(cfg, axis);
    var s := Before(cfg, messages, env, k);
    ReactTheorems.CallsBounded(cfg, messages, env, k);
    HistoriesOfRun(cfg, messages, env, k);
    RunningAccount(cfg, env, s);
    AxisLatches(cfg, messages, env, axis, 2, k);
    AxisForces(LevelsOf(cfg, axis), LatchesOf(s.chain, axis), RatioOf(s.account, env(k), axis));
  }

  /** The step at which nine tenths of the steps are used up. */
  predicate CapStep(steps: nat, k: nat) {
    10 * k >= 9 * steps && 10 * (k - 1) < 9 * steps
  }

  /** The cap step lies within the loop exactly for ten steps or more. */
  lemma CapWithinLoop(steps: nat)
    requires steps > 0
    ensures (exists k: nat :: k < steps && CapStep(steps, k)) <==> steps >= 10
  {
    var k := (9 * steps + 9) / 10;
    assert CapStep(steps, k);
    if steps >= 10 {
      assert k < steps;
    }
  }

  lemma StepHits(cfg: Config, env: nat -> Turn, j: nat)
    requires cfg.limits.maxSteps > 0
    ensures |StepLevels(cfg)| == 3 && (Hits(cfg, env, Steps, 2, j) <==> 10 * j >= 9 * cfg.limits.maxSteps)
  {
    Tables(cfg);
    hide StepLevels, ChargedAll;
    var us, steps := UsagesOf(env, j), cfg.limits.maxSteps;
    ChargedAllKeepsSteps(Opened(cfg.limits), us);
    QuotientAtLeast(j as real, steps as real, 0.9);
    assert j as real >= 0.9 * steps as real <==> 10 * j >= 9 * steps;
  }

  /** At a step that calls the model, the step axis forces the end exactly at the cap step. */
  lemma StepAxisForces(cfg: Config, messages: seq<Messages.Message>, env: nat -> Turn, k: nat)
    requires cfg.limits.maxSteps > 0 && Before(cfg, messages, env, k).status.Running?
    ensures Forces(EmittedAt(cfg, messages, env, Steps, k)) <==> CapStep(cfg.limits.maxSteps, k)
  {
    hide Before, Forces, EmittedAt, Hits, StepLevels;
    AxisForcesFirst(cfg, messages, env, Steps, k);
    forall j: nat ensures Hits(cfg, env, Steps, 2, j) <==> 10 * j >= 9 * cfg.limits.maxSteps {
      StepHits(cfg, env, j);
    }
    if k > 0 {
      assert Hits(cfg, env, Steps, 2, k - 1) <==> 10 * (k - 1) >= 9 * cfg.limits.maxSteps;
    }
  }

  /** The token axis never forces the end: exhaustion stops the loop first. */
  lemma TokenAxisNeverForces(cfg: Config, s: State, t: Turn)
    requires Fits(cfg, s.chain) && !Exhausted(s.account, t.checkTime)
    ensures !Forces(Emitted(TokenLevels(cfg), s.chain.token, Some(TokenRatio(s.account))))
  {
    Tables(cfg);
    AxisForces(TokenLevels(cfg), s.chain.token, Some(TokenRatio(s.account)));
  }

  /** The context axis has no such level. */
  lemma ContextAxisNeverForces(cfg: Config, s: State)
    requires Fits(cfg, s.chain)
    ensures !Forces(Emitted(ContextLevels(cfg), s.chain.context, ContextRatio(s.account)))
  {
    Tables(cfg);
    AxisForces(ContextLevels(cfg), s.chain.context, ContextRatio(s.account));
  }

  /** The wall-clock limit, if there is one, has passed. */
  predicate LimitPassed(limits: Limits, elapsed: real) {
    limits.maxWall.Some? && 0.0 < limits.maxWall.value <= elapsed
  }

  /** The time axis forces the end exactly if its own reading of the clock is at
      or past the limit for the first time; as the loop's exhaustion check comes
      before, the limit then passed between the two readings. */
  lemma TimeAxisForces(cfg: Config, s: State, t: Turn)
    requires Fits(cfg, s.chain)
    ensures |s.chain.time| == 3
    ensures Forces(Emitted(TimeLevels(cfg), s.chain.time, WallRatio(s.account, t.wallTime)))
            <==> LimitPassed(s.account.limits, t.wallTime) && !s.chain.time[2]
    ensures LimitPassed(s.account.limits, t.checkTime) ==> Exhausted(s.account, t.checkTime)
  {
    Tables(cfg);
    AxisForces(TimeLevels(cfg), s.chain.time, WallRatio(s.account, t.wallTime));
    if s.account.limits.maxWall.Some? && 0.0 < s.account.limits.maxWall.value {
      var limit := s.account.limits.maxWall.value;
      FullRatio(t.wallTime, limit);
      FullRatio(t.checkTime, limit);
      assert AtMostOne(t.checkTime / limit) <= MaxRatio(s.account, t.checkTime);
    }
  }

  lemma FullRatio(x: real, limit: real)
    requires limit > 0.0
    ensures AtMostOne(x / limit) >= 1.0 <==> x >= limit
  {
    QuotientAtLeast(x, limit, 1.0);
  }

  lemma TimeHits(cfg: Config, env: nat -> Turn, j: nat)
    ensures |TimeLevels(cfg)| == 3 && (Hits(cfg, env, Time, 2, j) <==> LimitPassed(cfg.limits, env(j).wallTime))
  {
    Tables(cfg);
    hide TimeLevels, ChargedAll;
    ChargedAllKeepsSteps(Opened(cfg.limits), UsagesOf(env, j));
    if cfg.limits.maxWall.Some? && 0.0 < cfg.limits.maxWall.value {
      FullRatio(env(j).wallTime, cfg.limits.maxWall.value);
    }
  }

  /** Before step `k` the last time level is latched exactly if a reading of an earlier step was past the limit. */
  lemma TimeLatches(cfg: Config, messages: seq<Messages.Message>, env: nat -> Turn, k: nat)
    ensures var s := Before(cfg, messages, env, k);
            && |s.chain.time| == 3
            && (s.chain.time[2] <==> exists j: nat :: j < s.llmCalls && LimitPassed(cfg.limits, env(j).wallTime))
  {
    hide Before, Hits, LimitPassed, TimeLevels;
    forall j: nat
      ensures |TimeLevels(cfg)| == 3 && (Hits(cfg, env, Time, 2, j) <==> LimitPassed(cfg.limits, env(j).wallTime))
    {
      TimeHits(cfg, env, j);
    }
    TimeHits(cfg, env, 0);
    AxisLatches(cfg, messages, env, Time, 2, k);
  }

  /** Step `k` is the first whose pusher reads the clock past the limit. */
  ghost predicate FirstPassed(cfg: Config, env: nat -> Turn, k: nat) {
    LimitPassed(cfg.limits, env(k).wallTime) && forall j: nat :: j < k ==> !LimitPassed(cfg.limits, env(j).wallTime)
  }

  // ------------------------------------------------------ configured pushers

  lemma {:induction false} ConfiguredForces(pushers: seq<PusherConfig>, fired: set<nat>, ratio: real, n: nat)
    requires n <= |pushers|
    ensures Forces(ConfiguredActions(pushers, fired, ratio, n))
            <==> exists p: nat :: p < n && p !in fired && ratio >= pushers[p].at && pushers[p].kind == ForceDone
  {
    if n > 0 {
      ConfiguredForces(pushers, fired, ratio, n - 1);
      var p := pushers[n - 1];
      var now: seq<Action> := if n - 1 !in fired && ratio >= p.at then [Action(p.kind, p.message)] else [];
      ForcesEither(ConfiguredActions(pushers, fired, ratio, n - 1), now);
      assert Forces(now) <==> now != [] && now[0].kind == ForceDone;
    }
  }

  /** Some configured FORCE_DONE pusher sees its threshold reached for the first time at step `k`. */
  ghost predicate ConfiguredForce(cfg: Config, env: nat -> Turn, k: nat) {
    exists p: nat :: p < |cfg.pushers| && cfg.pushers[p].kind == ForceDone
                     && Reaches(cfg, env, p, k) && !ReachedBefore(cfg, env, p, k)
  }

  lemma ConfiguredForcesFirst(cfg: Config, messages: seq<Messages.Message>, env: nat -> Turn, k: nat)
    requires Before(cfg, messages, env, k).status.Running?
    ensures var s := Before(cfg, messages, env, k);
            Forces(ConfiguredActions(cfg.pushers, s.chain.configured, MaxRatio(s.account, env(k).ratioTime),
                                     |cfg.pushers|))
            <==> ConfiguredForce(cfg, env, k)
  {
    hide Before, Forces, MaxRatio, AccountAt;
    var s := Before(cfg, messages, env, k);
    ReactTheorems.CallsBounded(cfg, messages, env, k);
    HistoriesOfRun(cfg, messages, env, k);
    RunningAccount(cfg, env, s);
    ConfiguredForces(cfg.pushers, s.chain.configured, MaxRatio(s.account, env(k).ratioTime), |cfg.pushers|);
    forall p: nat | p < |cfg.pushers|
      ensures p !in s.chain.configured && MaxRatio(s.account, env(k).ratioTime) >= cfg.pushers[p].at
              <==> Reaches(cfg, env, p, k) && !ReachedBefore(cfg, env, p, k)
    {
    }
  }

  // ------------------------------------------------------------- tools offered

  lemma {:induction false} NarrowedBy(actions: seq<Action>, all: seq<string>)
    ensures Narrowed(actions, all, all) == if Forces(actions) then NarrowTo(all, all, "done") else all
  {
    if actions != [] {
      var before, last := actions[..|actions| - 1], actions[|actions| - 1];
      NarrowedBy(before, all);
      assert actions == before + [last];
      assert Forces(actions) <==> Forces(before) || last.kind == ForceDone;
    }
  }

  lemma ForcesEither(a: seq<Action>, b: seq<Action>)
    ensures Forces(a + b) <==> Forces(a) || Forces(b)
  {
    if Forces(a) {
      var x :| x in a && x.kind == ForceDone;
      assert x in a + b;
    }
    if Forces(b) {
      var x :| x in b && x.kind == ForceDone;
      assert x in a + b;
    }
  }

  /** Nothing else in the chain forces the end. */
  lemma ProducedForces(cfg: Config, c: Chain, a: Account, t: Turn)
    requires Fits(cfg, c)
    ensures Forces(Produced(cfg, c, a, t)) <==>
      || Forces(ConfiguredActions(cfg.pushers, c.configured, MaxRatio(a, t.ratioTime), |cfg.pushers|))
      || Forces(Emitted(TokenLevels(cfg), c.token, Some(TokenRatio(a))))
      || Forces(Emitted(TimeLevels(cfg), c.time, WallRatio(a, t.wallTime)))
      || Forces(Emitted(StepLevels(cfg), c.step, Some(StepRatio(a))))
      || Forces(Emitted(ContextLevels(cfg), c.context, ContextRatio(a)))
  {
    hide Emitted, ConfiguredActions, MaxRatio, TokenLevels, TimeLevels, StepLevels, ContextLevels, Forces;
    var token := Emitted(TokenLevels(cfg), c.token, Some(TokenRatio(a)));
    var time := Emitted(TimeLevels(cfg), c.time, WallRatio(a, t.wallTime));
    var step := Emitted(StepLevels(cfg), c.step, Some(StepRatio(a)));
    var context := Emitted(ContextLevels(cfg), c.context, ContextRatio(a));
    ForcesEither(token, time);
    ForcesEither(token + time, step);
    ForcesEither(token + time + step, context);
    var callbacks := AsNudges(t.callbacks);
    var configured := ConfiguredActions(cfg.pushers, c.configured, MaxRatio(a, t.ratioTime), |cfg.pushers|);
    var tick := TickActions(c.cadence, cfg.reflectThreshold, None, c.counter, cfg.words.cadence);
    ForcesEither(callbacks, configured);
    ForcesEither(callbacks + configured, LevelActions(cfg, c, a, t));
    ForcesEither(callbacks + configured + LevelActions(cfg, c, a, t), tick);
    OnlyNudges(callbacks);
    OnlyNudges(tick);
  }

  lemma OnlyNudges(actions: seq<Action>)
    ensures (forall a :: a in actions ==> a.kind == Nudge) ==> !Forces(actions)
  {
  }

  /** The steps at which the tools are narrowed. */
  ghost predicate NarrowsAt(cfg: Config, env: nat -> Turn, i: nat) {
    CapStep(cfg.limits.maxSteps, i) || FirstPassed(cfg, env, i) || ConfiguredForce(cfg, env, i)
  }

  /** The tools of every model call of a run: narrowed to `done`, if the agent
      has it, at the cap step, at the step whose pusher first reads the clock
      past the limit and where a configured FORCE_DONE pusher fires; the whole
      list at every other step. */
  lemma {:induction false} ToolsOffered(cfg: Config, messages: seq<Messages.Message>, env: nat -> Turn, k: nat)
    requires k <= cfg.limits.maxSteps
    ensures var offered := Before(cfg, messages, env, k).offered;
            forall i :: 0 <= i < |offered| ==>
              offered[i] == if NarrowsAt(cfg, env, i) then NarrowTo(cfg.tools, cfg.tools, "done") else cfg.tools
  {
    hide Turned, NarrowTo, NarrowsAt, Exhausted, Narrowed, Produced;
    if k > 0 {
      ToolsOffered(cfg, messages, env, k - 1);
      ReactTheorems.CallsBounded(cfg, messages, env, k - 1);
      var s, t := Before(cfg, messages, env, k - 1), env(k - 1);
      if s.status.Running? {
        OfferedNext(cfg, s, k - 1, t);
        if !Exhausted(s.account, t.checkTime) {
          OfferedNow(cfg, messages, env, k - 1);
        }
      }
    }
  }

  lemma OfferedNext(cfg: Config, s: State, step: nat, t: Turn)
    requires Fits(cfg, s.chain)
    ensures Turned(cfg, s, step, t).offered
            == s.offered + if Exhausted(s.account, t.checkTime) then []
                           else [Narrowed(Produced(cfg, s.chain, s.account, t), cfg.tools, cfg.tools)]
  {
    hide Produced, Advanced, Narrowed, TextTurn, ToolTurn, Exhausted;
    if !Exhausted(s.account, t.checkTime) && t.reply.Answer? {
      var q := Answered(Prompted(cfg, s, t), step, t.reply.usage, t.reply.calls);
      ReactTheorems.TextTurnKeeps(cfg, q, t.reply.content);
      ReactTheorems.ToolTurnKeeps(cfg, q, t.reply.calls, t.summary);
    }
  }

  lemma OfferedNow(cfg: Config, messages: seq<Messages.Message>, env: nat -> Turn, k: nat)
    requires cfg.limits.maxSteps > 0 && Before(cfg, messages, env, k).status.Running?
    requires !Exhausted(Before(cfg, messages, env, k).account, env(k).checkTime)
    ensures var s := Before(cfg, messages, env, k);
            Narrowed(Produced(cfg, s.chain, s.account, env(k)), cfg.tools, cfg.tools)
            == if NarrowsAt(cfg, env, k) then NarrowTo(cfg.tools, cfg.tools, "done") else cfg.tools
  {
    hide Before, Produced, Emitted, Forces, Exhausted, CapStep, LimitPassed, ConfiguredForce, ConfiguredActions,
      MaxRatio, TokenLevels, TimeLevels, StepLevels, ContextLevels;
    var s, t := Before(cfg, messages, env, k), env(k);
    NarrowedBy(Produced(cfg, s.chain, s.account, t), cfg.tools);
    ProducedForces(cfg, s.chain, s.account, t);
    TokenAxisNeverForces(cfg, s, t);
    ContextAxisNeverForces(cfg, s);
    StepAxisForces(cfg, messages, env, k);
    ReactTheorems.CallsBounded(cfg, messages, env, k);
    TimeAxisForces(cfg, s, t);
    TimeLatches(cfg, messages, env, k);
    ConfiguredForcesFirst(cfg, messages, env, k);
  }

  lemma {:induction false} OnlyDone(tools: seq<string>)
    ensures (forall x :: x in Only(tools, "done") ==> x == "done")
    ensures |Only(tools, "done")| == multiset(tools)["done"]
  {
    if tools != [] {
      OnlyDone(tools[1..]);
      assert tools == [tools[0]] + tools[1..];
    }
  }

  /** Narrowed means `done` alone: where the tools are narrowed and the agent has
      `done`, it is all that is offered; everywhere else the whole list is. */
  lemma DoneAlone(cfg: Config, messages: seq<Messages.Message>, env: nat -> Turn, k: nat, i: nat)
    requires k <= cfg.limits.maxSteps && i < |Before(cfg, messages, env, k).offered|
    ensures var offered := Before(cfg, messages, env, k).offered[i];
            if NarrowsAt(cfg, env, i) && "done" in cfg.tools
            then offered != [] && |offered| == multiset(cfg.tools)["done"] && forall x :: x in offered ==> x == "done"
            else offered == cfg.tools
  {
    hide NarrowsAt, Before;
    ToolsOffered(cfg, messages, env, k);
    OnlyDone(cfg.tools);
    assert "done" in cfg.tools <==> multiset(cfg.tools)["done"] > 0;
    assert |Only(cfg.tools, "done")| == 0 <==> Only(cfg.tools, "done") == [];
  }
}
