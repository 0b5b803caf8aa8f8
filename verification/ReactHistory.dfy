/** What the counters, latches and accounts of a run are, in terms of what happened step by step. */
module ReactHistory {
  import opened Wrappers
  import opened Budget
  import opened Escalation
  import opened Cadence
  import opened ReactLoop
  import opened Messages
  import ReactTheorems

  // -------------------------------------------------------------- histories

  /** What step `i` told the reflect counter. */
  function StepOf(t: Turn): Step {
    if t.reply.Answer? && t.reply.calls != [] then Some(Outcomes(t.reply.calls)) else None
  }

  function StepsOf(env: nat -> Turn, n: nat): seq<Step> {
    seq(n, i requires 0 <= i < n => StepOf(env(i)))
  }

  /** A step reflects exactly if its reply has a `reflect` call without validation
      error; what counts is every call that is neither `reflect` nor `done`. */
  lemma StepSays(t: Turn)
    ensures Reflects(StepOf(t)) <==>
            t.reply.Answer?
            && exists c :: c in t.reply.calls && c.name == "reflect" && !("validation error" <= c.content)
    ensures StepOf(t).Some? ==> t.reply.Answer? && t.reply.calls != []
                                && NonReflect(StepOf(t).value) == |CountedCalls(t.reply.calls)|
    ensures StepOf(t).None? ==> t.reply.Failed? || t.reply.calls == []
  {
    if StepOf(t).Some? {
      var calls, outcomes := t.reply.calls, Outcomes(t.reply.calls);
      NonReflectCounts(outcomes);
      assert Counting(outcomes) == CountedCalls(calls);
      forall i | 0 <= i < |calls| ensures outcomes[i] in outcomes && calls[i] in calls {
      }
      forall c | c in calls ensures Outcome(c.name, "validation error" <= c.content) in outcomes {
        var i :| 0 <= i < |calls| && calls[i] == c;
        assert outcomes[i] in outcomes;
      }
    }
  }

  function CountedCalls(calls: seq<Call>): set<nat> {
    set i: nat | i < |calls| && calls[i].name != "reflect" && calls[i].name != "done"
  }

  /** The counters the cadence pusher saw in the first `n` steps. */
  function CountersOf(env: nat -> Turn, n: nat): seq<nat> {
    seq(n, i requires 0 <= i < n => CounterAfter(StepsOf(env, i)))
  }

  function UsageOf(t: Turn): Option<Usage> {
    if t.reply.Answer? then t.reply.usage else None
  }

  /** The usages reported in the first `n` steps. */
  function UsagesOf(env: nat -> Turn, n: nat): seq<Usage> {
    if n == 0 then []
    else UsagesOf(env, n - 1) + match UsageOf(env(n - 1)) case None => [] case Some(u) => [u]
  }

  /** The account as step `n` finds it. */
  function AccountAt(cfg: Config, env: nat -> Turn, n: nat): Account {
    ChargedAll(Opened(cfg.limits), UsagesOf(env, n)).(stepsUsed := n)
  }

  /** The four axes with escalation levels. */
  datatype Axis = Tokens | Time | Steps | Context

  function LevelsOf(cfg: Config, axis: Axis): seq<Level> {
    match axis
    case Tokens => TokenLevels(cfg)
    case Time => TimeLevels(cfg)
    case Steps => StepLevels(cfg)
    case Context => ContextLevels(cfg)
  }

  function LatchesOf(c: Chain, axis: Axis): seq<bool> {
    match axis case Tokens => c.token case Time => c.time case Steps => c.step case Context => c.context
  }

  function RatioOf(a: Account, t: Turn, axis: Axis): Option<real> {
    match axis
    case Tokens => Some(TokenRatio(a))
    case Time => WallRatio(a, t.wallTime)
    case Steps => Some(StepRatio(a))
    case Context => ContextRatio(a)
  }

  /** The ratios one axis has seen in the first `n` steps. */
  function Ratios(cfg: Config, env: nat -> Turn, axis: Axis, n: nat): seq<Option<real>> {
    seq(n, i requires 0 <= i < n => RatioOf(AccountAt(cfg, env, i), env(i), axis))
  }

  /** Step `i` sees the threshold of the configured pusher `p` reached. */
  predicate Reaches(cfg: Config, env: nat -> Turn, p: nat, i: nat)
    requires p < |cfg.pushers|
  {
    MaxRatio(AccountAt(cfg, env, i), env(i).ratioTime) >= cfg.pushers[p].at
  }

  ghost predicate ReachedBefore(cfg: Config, env: nat -> Turn, p: nat, n: nat)
    requires p < |cfg.pushers|
  {
    exists i: nat :: i < n && Reaches(cfg, env, p, i)
  }

  // --------------------------------------------------- what a run has recorded

  /** The account is the accumulated one; only a failed call leaves its step uncounted. */
  ghost predicate AccountFollows(cfg: Config, env: nat -> Turn, a: Account, n: nat) {
    a.(stepsUsed := 0) == ChargedAll(Opened(cfg.limits), UsagesOf(env, n))
  }

  ghost predicate CadenceFollows(cfg: Config, env: nat -> Turn, c: Chain, n: nat) {
    c.counter == CounterAfter(StepsOf(env, n)) && c.cadence == LatchesAfter(CountersOf(env, n), cfg.reflectThreshold)
  }

  ghost predicate AxisFollows(cfg: Config, env: nat -> Turn, c: Chain, axis: Axis, n: nat) {
    LatchesOf(c, axis) == After(LevelsOf(cfg, axis), Ratios(cfg, env, axis, n))
  }

  ghost predicate PushersFollow(cfg: Config, env: nat -> Turn, c: Chain, n: nat) {
    forall p: nat :: p in c.configured <==> p < |cfg.pushers| && ReachedBefore(cfg, env, p, n)
  }

  /** Everything a state remembers is determined by its first `n` steps. */
  ghost predicate Follows(cfg: Config, env: nat -> Turn, s: State, n: nat) {
    && AccountFollows(cfg, env, s.account, n)
    && CadenceFollows(cfg, env, s.chain, n)
    && (forall axis: Axis :: AxisFollows(cfg, env, s.chain, axis, n))
    && PushersFollow(cfg, env, s.chain, n)
  }

  /** In every state of every run, ended or not, with as many steps as model calls were made. */
  lemma {:induction false} HistoriesOfRun(cfg: Config, messages: seq<Message>, env: nat -> Turn, k: nat)
    ensures var s := Before(cfg, messages, env, k);
            Follows(cfg, env, s, s.llmCalls)
  {
    hide Turned, Follows;
    if k == 0 {
      FollowsStart(cfg, messages, env);
    } else {
      HistoriesOfRun(cfg, messages, env, k - 1);
      ReactTheorems.CallsBounded(cfg, messages, env, k - 1);
      var s := Before(cfg, messages, env, k - 1);
      if s.status.Running? {
        FollowsNext(cfg, env, s, k - 1);
      }
    }
  }

  lemma FollowsStart(cfg: Config, messages: seq<Message>, env: nat -> Turn)
    ensures Follows(cfg, env, Start(cfg, messages), 0)
  {
    forall axis: Axis ensures AxisFollows(cfg, env, FreshChain(cfg), axis, 0) {
      assert Ratios(cfg, env, axis, 0) == [];
    }
    assert StepsOf(env, 0) == [] && CountersOf(env, 0) == [];
  }

  /** The account of a running loop is the one its next step finds. */
  lemma RunningAccount(cfg: Config, env: nat -> Turn, s: State)
    requires AccountFollows(cfg, env, s.account, s.llmCalls) && s.account.stepsUsed == s.llmCalls
    ensures s.account == AccountAt(cfg, env, s.llmCalls)
  {
  }

  lemma FollowsNext(cfg: Config, env: nat -> Turn, s: State, n: nat)
    requires Fits(cfg, s.chain) && Follows(cfg, env, s, n)
    requires s.llmCalls == s.account.stepsUsed == n
    ensures var next := Turned(cfg, s, n, env(n));
            Follows(cfg, env, next, next.llmCalls)
  {
    hide Turned, Advanced, Exhausted, AxisFollows, PushersFollow, CadenceFollows, AccountFollows;
    var t, next := env(n), Turned(cfg, s, n, env(n));
    TurnedRecords(cfg, s, n, t);
    if !Exhausted(s.account, t.checkTime) {
      RunningAccount(cfg, env, s);
      AccountNext(cfg, env, s.account, next.account, n);
      var d, m := next.chain, n + 1;
      CadenceNext(cfg, env, s, d, n);
      forall axis: Axis ensures AxisFollows(cfg, env, d, axis, m) {
        AxisNext(cfg, env, s, d, axis, n);
      }
      PushersNext(cfg, env, s, d, n);
    }
  }

  /** What one step of the loop records, however it ends. */
  lemma TurnedRecords(cfg: Config, s: State, step: nat, t: Turn)
    requires Fits(cfg, s.chain)
    ensures var next := Turned(cfg, s, step, t);
            Exhausted(s.account, t.checkTime) ==>
              next.chain == s.chain && next.account == s.account && next.llmCalls == s.llmCalls
    ensures var next := Turned(cfg, s, step, t);
            !Exhausted(s.account, t.checkTime) ==>
              && next.llmCalls == s.llmCalls + 1
              && next.chain == Advanced(cfg, s.chain, s.account, t).(counter := next.chain.counter)
              && next.chain.counter
                 == (match StepOf(t) case None => s.chain.counter case Some(o) => Counted(s.chain.counter, o))
              && next.account.(stepsUsed := 0)
                 == (match UsageOf(t) case None => s.account case Some(u) => Charged(s.account, u)).(stepsUsed := 0)
  {
    hide Exhausted, Produced, Advanced, Charged, Counted, Narrowed;
    if !Exhausted(s.account, t.checkTime) && t.reply.Answer? {
      var q := Answered(Prompted(cfg, s, t), step, t.reply.usage, t.reply.calls);
      ReactTheorems.TextTurnKeeps(cfg, q, t.reply.content);
      ReactTheorems.ToolTurnKeeps(cfg, q, t.reply.calls, t.summary);
    }
  }

  lemma AccountNext(cfg: Config, env: nat -> Turn, a: Account, b: Account, n: nat)
    requires AccountFollows(cfg, env, a, n)
    requires b.(stepsUsed := 0)
             == (match UsageOf(env(n)) case None => a case Some(u) => Charged(a, u)).(stepsUsed := 0)
    ensures AccountFollows(cfg, env, b, n + 1)
  {
    var us, more := UsagesOf(env, n), UsagesOf(env, n + 1);
    match UsageOf(env(n))
    case None => assert more == us + [] == us;
    case Some(u) =>
      assert more[..|more| - 1] == us && more[|more| - 1] == u;
      ChargedAllKeepsSteps(Opened(cfg.limits), us);
  }

  lemma {:induction false} ChargedAllKeepsSteps(a: Account, us: seq<Usage>)
    ensures ChargedAll(a, us).stepsUsed == a.stepsUsed && ChargedAll(a, us).limits == a.limits
  {
    if us != [] {
      ChargedAllKeepsSteps(a, us[..|us| - 1]);
    }
  }

  lemma CadenceNext(cfg: Config, env: nat -> Turn, s: State, d: Chain, n: nat)
    requires Fits(cfg, s.chain) && CadenceFollows(cfg, env, s.chain, n)
    requires d == Advanced(cfg, s.chain, s.account, env(n)).(counter := d.counter)
    requires d.counter
             == (match StepOf(env(n)) case None => s.chain.counter case Some(o) => Counted(s.chain.counter, o))
    ensures CadenceFollows(cfg, env, d, n + 1)
  {
    hide StepOf, Counted, Ticked;
    assert StepsOf(env, n + 1)[..n] == StepsOf(env, n);
    assert CountersOf(env, n + 1)[..n] == CountersOf(env, n);
  }

  lemma AxisNext(cfg: Config, env: nat -> Turn, s: State, d: Chain, axis: Axis, n: nat)
    requires Fits(cfg, s.chain) && Fits(cfg, d) && AxisFollows(cfg, env, s.chain, axis, n)
    requires s.account == AccountAt(cfg, env, n)
    requires d == Advanced(cfg, s.chain, s.account, env(n)).(counter := d.counter)
    ensures AxisFollows(cfg, env, d, axis, n + 1)
  {
    hide AccountAt, Latched, TokenLevels, TimeLevels, StepLevels, ContextLevels;
    var seen := Ratios(cfg, env, axis, n + 1);
    assert seen[..n] == Ratios(cfg, env, axis, n);
    assert seen[n] == RatioOf(s.account, env(n), axis);
  }

  lemma PushersNext(cfg: Config, env: nat -> Turn, s: State, d: Chain, n: nat)
    requires Fits(cfg, s.chain) && PushersFollow(cfg, env, s.chain, n)
    requires s.account == AccountAt(cfg, env, n)
    requires d == Advanced(cfg, s.chain, s.account, env(n)).(counter := d.counter)
    ensures PushersFollow(cfg, env, d, n + 1)
  {
    hide AccountAt, MaxRatio;
    forall p: nat ensures p in d.configured <==> p < |cfg.pushers| && ReachedBefore(cfg, env, p, n + 1) {
      if p < |cfg.pushers| && Reaches(cfg, env, p, n) {
        assert ReachedBefore(cfg, env, p, n + 1);
      }
    }
  }

  /** Step `j` sees a ratio of the axis at or above the threshold of its level `i`. */
  predicate Hits(cfg: Config, env: nat -> Turn, axis: Axis, i: nat, j: nat)
    requires i < |LevelsOf(cfg, axis)|
  {
    var ratio := RatioOf(AccountAt(cfg, env, j), env(j), axis);
    ratio.Some? && ratio.value >= LevelsOf(cfg, axis)[i].threshold
  }

  /** In every state of every run a level is latched exactly if one of its steps saw the threshold reached. */
  lemma AxisLatches(cfg: Config, messages: seq<Message>, env: nat -> Turn, axis: Axis, i: nat, k: nat)
    requires i < |LevelsOf(cfg, axis)|
    ensures var s := Before(cfg, messages, env, k);
            && |LatchesOf(s.chain, axis)| == |LevelsOf(cfg, axis)|
            && (LatchesOf(s.chain, axis)[i] <==> exists j: nat :: j < s.llmCalls && Hits(cfg, env, axis, i, j))
  {
    hide Before, LevelsOf, RatioOf, AccountAt, Follows;
    var s := Before(cfg, messages, env, k);
    HistoriesOfRun(cfg, messages, env, k);
    FollowsAxis(cfg, env, s, axis, s.llmCalls);
    var levels, seen := LevelsOf(cfg, axis), Ratios(cfg, env, axis, s.llmCalls);
    FiredIff(levels, seen, i);
    forall j: nat | j < s.llmCalls
      ensures Hits(cfg, env, axis, i, j) <==> seen[j].Some? && seen[j].value >= levels[i].threshold
    {
    }
  }

  // --------------------------------------------------------- whole-run results

  /** Every step that made a call found the loop running. */
  lemma {:induction false} RunningAt(cfg: Config, messages: seq<Message>, env: nat -> Turn, j: nat, k: nat)
    requires j < Before(cfg, messages, env, k).llmCalls
    ensures j < k && Before(cfg, messages, env, j).status.Running? && Before(cfg, messages, env, j).llmCalls == j
    ensures Before(cfg, messages, env, j).account == AccountAt(cfg, env, j)
    decreases k
  {
    hide Turned;
    ReactTheorems.CallsBounded(cfg, messages, env, k);
    ReactTheorems.CallsBounded(cfg, messages, env, k - 1);
    if j < Before(cfg, messages, env, k - 1).llmCalls {
      RunningAt(cfg, messages, env, j, k - 1);
    } else {
      HistoriesOfRun(cfg, messages, env, j);
      RunningAccount(cfg, env, Before(cfg, messages, env, j));
    }
  }

  /** How many steps of a run called the model; the force-done call is not one of them. */
  function StepsMade(cfg: Config, messages: seq<Message>, env: nat -> Turn): nat {
    Before(cfg, messages, env, cfg.limits.maxSteps).llmCalls
  }

  function CostsOfRun(cfg: Config, messages: seq<Message>, env: nat -> Turn): seq<int> {
    Costs(UsagesOf(env, StepsMade(cfg, messages, env)), cfg.limits.cacheDiscount)
  }

  ghost predicate NonDecreasing(costs: seq<int>) { forall i, j :: 0 <= i < j < |costs| ==> costs[i] <= costs[j] }

  /** What a run has paid when it returns, however it ends: the last costs of the
      stretches in which the cost did not drop, at least every single cost, at most
      their sum, and the last one if the cost never dropped. */
  lemma PaidOfRun(cfg: Config, messages: seq<Message>, env: nat -> Turn, forced: Option<string>)
    requires cfg.limits.cacheDiscount >= 0.0
    ensures var paid := Run(cfg, messages, env, forced).last.account.cumulativePaid;
            var costs := CostsOfRun(cfg, messages, env);
            && paid == PeakSum(costs, |costs|) <= Sum(costs)
            && (forall i :: 0 <= i < |costs| ==> costs[i] <= paid)
            && (NonDecreasing(costs) ==> paid == if costs == [] then 0 else costs[|costs| - 1])
  {
    hide PeakSum, Sum, Before, StepPaid;
    HistoriesOfRun(cfg, messages, env, cfg.limits.maxSteps);
    var us := UsagesOf(env, StepsMade(cfg, messages, env));
    PaidBounds(Opened(cfg.limits), us);
    if us != [] {
      CostsAreNat(us[0], cfg.limits.cacheDiscount);
    }
    PaidIsPeaks(Opened(cfg.limits), us);
  }

  /** The paid total never decreases during a run. */
  lemma {:induction false} PaidNeverFalls(cfg: Config, messages: seq<Message>, env: nat -> Turn, j: nat, k: nat)
    requires cfg.limits.cacheDiscount >= 0.0 && j <= k
    ensures Before(cfg, messages, env, j).account.cumulativePaid <= Before(cfg, messages, env, k).account.cumulativePaid
    decreases k
  {
    hide Turned, StepPaid, Exhausted;
    if j < k {
      PaidNeverFalls(cfg, messages, env, j, k - 1);
      ReactTheorems.CallsBounded(cfg, messages, env, k - 1);
      var s, t := Before(cfg, messages, env, k - 1), env(k - 1);
      TurnedRecords(cfg, s, k - 1, t);
      if UsageOf(t).Some? {
        CostsAreNat(UsageOf(t).value, cfg.limits.cacheDiscount);
      }
    }
  }

  /** The actions one axis emits at step `k`. */
  function EmittedAt(cfg: Config, messages: seq<Message>, env: nat -> Turn, axis: Axis, k: nat): seq<Action> {
    var s := Before(cfg, messages, env, k);
    Emitted(LevelsOf(cfg, axis), LatchesOf(s.chain, axis), RatioOf(s.account, env(k), axis))
  }

  /** The actions one axis emits in the first `n` steps. */
  function EmittedOver(cfg: Config, messages: seq<Message>, env: nat -> Turn, axis: Axis, n: nat): seq<Action> {
    if n == 0 then [] else EmittedOver(cfg, messages, env, axis, n - 1) + EmittedAt(cfg, messages, env, axis, n - 1)
  }

  lemma LevelsSorted(cfg: Config, axis: Axis)
    ensures Sorted(LevelsOf(cfg, axis))
  {
    match axis
    case Tokens => SortSorts(Configured(0.5, Some(0.75), Some(1.0), None, cfg.words.token));
    case Time => SortSorts(Configured(0.5, Some(0.75), Some(1.0), None, cfg.words.time));
    case Steps => SortSorts(Configured(0.5, Some(0.75), Some(0.9), None, cfg.words.step));
    case Context => SortSorts(Configured(0.5, Some(0.75), None, None, cfg.words.context));
  }

  lemma {:induction false} EmittedIsLog(cfg: Config, messages: seq<Message>, env: nat -> Turn, axis: Axis, n: nat,
                                        k: nat)
    requires n <= Before(cfg, messages, env, k).llmCalls
    ensures var levels, log := LevelsOf(cfg, axis), FiredLog(LevelsOf(cfg, axis), Ratios(cfg, env, axis, n));
            InRange(log, |levels|) && EmittedOver(cfg, messages, env, axis, n) == ActionsOf(levels, log)
    decreases n
  {
    hide Before, LevelsOf, Firing, AccountAt, Follows, FiredLog, ActionsOf, InRange, EmittedAt, LatchesOf, After,
      RatioOf;
    if n == 0 {
      NothingFired(cfg, env, axis);
    } else {
      EmittedIsLog(cfg, messages, env, axis, n - 1, k);
      var levels, seen := LevelsOf(cfg, axis), Ratios(cfg, env, axis, n);
      assert seen[..n - 1] == Ratios(cfg, env, axis, n - 1);
      var now := Firing(levels, After(levels, seen[..n - 1]), seen[n - 1], |levels|);
      EmittedFires(cfg, messages, env, axis, n - 1, k);
      LogNext(levels, seen);
      ActionsAppend(levels, FiredLog(levels, seen[..n - 1]), now);
    }
  }

  lemma NothingFired(cfg: Config, env: nat -> Turn, axis: Axis)
    ensures var levels := LevelsOf(cfg, axis);
            var log := FiredLog(levels, Ratios(cfg, env, axis, 0));
            InRange(log, |levels|) && ActionsOf(levels, log) == []
  {
    assert Ratios(cfg, env, axis, 0) == [];
  }

  lemma LogNext(levels: seq<Level>, seen: seq<Option<real>>)
    requires seen != []
    ensures FiredLog(levels, seen)
            == FiredLog(levels, seen[..|seen| - 1])
               + Firing(levels, After(levels, seen[..|seen| - 1]), seen[|seen| - 1], |levels|)
  {
  }

  /** A step of a run emits the levels its history lets fire. */
  lemma EmittedFires(cfg: Config, messages: seq<Message>, env: nat -> Turn, axis: Axis, j: nat, k: nat)
    requires j < Before(cfg, messages, env, k).llmCalls
    ensures var levels := LevelsOf(cfg, axis);
            var now := Firing(levels, After(levels, Ratios(cfg, env, axis, j)),
                              RatioOf(AccountAt(cfg, env, j), env(j), axis),
                              |levels|);
            InRange(now, |levels|) && EmittedAt(cfg, messages, env, axis, j) == ActionsOf(levels, now)
  {
    hide Before, LevelsOf, Firing, AccountAt, Follows, ActionsOf, InRange, LatchesOf, After;
    RunningAt(cfg, messages, env, j, k);
    HistoriesOfRun(cfg, messages, env, j);
    var s, levels := Before(cfg, messages, env, j), LevelsOf(cfg, axis);
    FollowsAxis(cfg, env, s, axis, j);
    FiringInRange(levels, LatchesOf(s.chain, axis), RatioOf(s.account, env(j), axis), |levels|);
  }

  lemma ActionsAppend(levels: seq<Level>, a: seq<nat>, b: seq<nat>)
    requires InRange(a, |levels|) && InRange(b, |levels|)
    ensures InRange(a + b, |levels|) && ActionsOf(levels, a + b) == ActionsOf(levels, a) + ActionsOf(levels, b)
  {
  }

  /** Over a whole run each axis emits a prefix of its levels, once each, in
      order, and the latches the run ends with are those of that prefix. */
  lemma EscalationOfRun(cfg: Config, messages: seq<Message>, env: nat -> Turn, forced: Option<string>, axis: Axis)
    returns (m: nat)
    ensures var levels := LevelsOf(cfg, axis);
            && m <= |levels| && InRange(Upto(m), |levels|)
            && EmittedOver(cfg, messages, env, axis, StepsMade(cfg, messages, env)) == ActionsOf(levels, Upto(m))
            && LatchedPrefix(LatchesOf(Run(cfg, messages, env, forced).last.chain, axis), m)
  {
    hide Before, LevelsOf, Follows, EmittedOver, FiredLog, Ratios, After, LatchedPrefix, Sorted, LatchesOf;
    var levels, n := LevelsOf(cfg, axis), StepsMade(cfg, messages, env);
    LevelsSorted(cfg, axis);
    EmittedIsLog(cfg, messages, env, axis, n, cfg.limits.maxSteps);
    m := FiresInOrder(levels, Ratios(cfg, env, axis, n));
    HistoriesOfRun(cfg, messages, env, cfg.limits.maxSteps);
    FollowsAxis(cfg, env, Before(cfg, messages, env, cfg.limits.maxSteps), axis, n);
  }

  lemma FollowsAxis(cfg: Config, env: nat -> Turn, s: State, axis: Axis, n: nat)
    requires Follows(cfg, env, s, n)
    ensures AxisFollows(cfg, env, s.chain, axis, n)
  {
  }

  /** The cadence nudges of the first `n` steps. */
  function CadenceNudges(cfg: Config, messages: seq<Message>, env: nat -> Turn, n: nat): nat {
    if n == 0 then 0
    else
      var c := Before(cfg, messages, env, n - 1).chain;
      CadenceNudges(cfg, messages, env, n - 1)
      + |TickActions(c.cadence, cfg.reflectThreshold, None, c.counter, cfg.words.cadence)|
  }

  lemma {:induction false} NudgesAreHistory(cfg: Config, messages: seq<Message>, env: nat -> Turn, n: nat, m: nat,
                                            k: nat)
    requires n <= m <= Before(cfg, messages, env, k).llmCalls
    ensures CadenceNudges(cfg, messages, env, n) == Nudges(CountersOf(env, m), cfg.reflectThreshold, n)
    decreases n
  {
    hide Before, Ticked, CounterAfter;
    if n > 0 {
      NudgesAreHistory(cfg, messages, env, n - 1, m, k);
      RunningAt(cfg, messages, env, n - 1, k);
      HistoriesOfRun(cfg, messages, env, n - 1);
      assert CountersOf(env, m)[..n - 1] == CountersOf(env, n - 1);
    }
  }

  /** Over a whole run the cadence nudges are at most one more than the steps with a valid reflect. */
  lemma NudgesOfRun(cfg: Config, messages: seq<Message>, env: nat -> Turn)
    ensures var n := StepsMade(cfg, messages, env);
            CadenceNudges(cfg, messages, env, n) <= ValidReflects(StepsOf(env, n), n) + 1
  {
    hide Before, CounterAfter, TickActions;
    var n := StepsMade(cfg, messages, env);
    NudgesAreHistory(cfg, messages, env, n, n, cfg.limits.maxSteps);
    if cfg.reflectThreshold <= 0.0 {
      NoNudges(CountersOf(env, n), cfg.reflectThreshold, n);
    } else if n > 0 {
      forall i | 0 <= i < n ensures CountersOf(env, n)[i] == CounterAfter(StepsOf(env, n - 1)[..i]) {
        assert StepsOf(env, n - 1)[..i] == StepsOf(env, i);
      }
      NudgesBounded(StepsOf(env, n - 1), CountersOf(env, n), cfg.reflectThreshold, n);
      ReflectsGrow(StepsOf(env, n - 1), StepsOf(env, n), n - 1);
    }
  }

  lemma {:induction false} NoNudges(counters: seq<nat>, threshold: real, n: nat)
    requires threshold <= 0.0 && n <= |counters|
    ensures Nudges(counters, threshold, n) == 0
  {
    if n > 0 {
      NoNudges(counters, threshold, n - 1);
    }
  }

  lemma {:induction false} ReflectsGrow(steps: seq<Step>, more: seq<Step>, n: nat)
    requires n <= |steps| && steps <= more
    ensures ValidReflects(steps, n) == ValidReflects(more, n)
  {
    if n > 0 {
      ReflectsGrow(steps, more, n - 1);
    }
  }
}
