/**
 What one step of the loop tells the model, what it adds to the log, and what a
 run returns - in terms of the replies, the tool results and the configuration.
 */
module ReactStep {
  import opened Seqs
  import opened Wrappers
  import opened Messages
  import opened Budget
  import opened Escalation
  import opened ReactLoop
  import opened ReactHistory
  import Cadence
  import Condensation
  import ReactTheorems

  // ------------------------------------------------------- what the model is told

  /** One user message per text. */
  ghost predicate Says(msgs: seq<Message>, texts: seq<string>) {
    |msgs| == |texts| && forall i :: 0 <= i < |msgs| ==> msgs[i] == User(texts[i])
  }

  predicate NotEmpty(text: string) { text != "" }

  /** One user message per text that is not empty, in order, and nothing else. */
  ghost predicate SaysWords(msgs: seq<Message>, texts: seq<string>) {
    exists due: seq<string> :: Picked(due, texts, NotEmpty) && Says(msgs, due)
  }

  predicate Telling(a: Action) { a.kind == Nudge && a.message != "" }

  function MessagesOf(actions: seq<Action>): (texts: seq<string>)
    ensures |texts| == |actions|
  {
    seq(|actions|, i requires 0 <= i < |actions| => actions[i].message)
  }

  /** One user message per nudge with a text, in order, and nothing else. */
  ghost predicate SaysNudges(msgs: seq<Message>, actions: seq<Action>) {
    exists due: seq<Action> :: Picked(due, actions, Telling) && Says(msgs, MessagesOf(due))
  }

  /** What the consumer of the pusher chain appends to the log. */
  lemma {:induction false} DeliveredNudges(actions: seq<Action>)
    ensures SaysNudges(Delivered(actions), actions)
  {
    hide Picked;
    if actions == [] {
      PickedNone(Telling);
      assert Says([], MessagesOf([]));
    } else {
      var front, last := actions[..|actions| - 1], actions[|actions| - 1];
      DeliveredNudges(front);
      var due: seq<Action> :| Picked(due, front, Telling) && Says(Delivered(front), MessagesOf(due));
      PickedNext(due, front, Telling, last);
      assert actions == front + [last];
      var more := if Telling(last) then due + [last] else due;
      assert Picked(more, actions, Telling);
      assert Says(Delivered(actions), MessagesOf(more));
    }
  }

  lemma {:induction false} DeliveredAppend(a: seq<Action>, b: seq<Action>)
    ensures Delivered(a + b) == Delivered(a) + Delivered(b)
  {
    if b == [] {
      assert a + b == a;
    } else {
      DeliveredAppend(a, b[..|b| - 1]);
      assert (a + b)[..|a + b| - 1] == a + b[..|b| - 1];
    }
  }

  lemma {:induction false} CallbacksDelivered(texts: seq<string>)
    ensures SaysWords(Delivered(AsNudges(texts)), texts)
  {
    hide Picked, Delivered, AsNudges;
    if texts == [] {
      PickedNone(NotEmpty);
      NoNudges();
      assert Says([], []);
    } else {
      var front, last := texts[..|texts| - 1], texts[|texts| - 1];
      CallbacksDelivered(front);
      var due: seq<string> :| Picked(due, front, NotEmpty) && Says(Delivered(AsNudges(front)), due);
      PickedNext(due, front, NotEmpty, last);
      assert texts == front + [last];
      var more := if NotEmpty(last) then due + [last] else due;
      assert Picked(more, texts, NotEmpty);
      OneMoreNudge(front, last);
      assert Says(Delivered(AsNudges(texts)), more);
    }
  }

  lemma NoNudges()
    ensures Delivered(AsNudges([])) == []
  {
  }

  lemma OneMoreNudge(texts: seq<string>, last: string)
    ensures Delivered(AsNudges(texts + [last]))
            == Delivered(AsNudges(texts)) + if last != "" then [User(last)] else []
  {
    var all := AsNudges(texts + [last]);
    assert all[..|all| - 1] == AsNudges(texts) && all[|all| - 1] == Action(Nudge, last);
  }

  /** The configured pusher `p` is due: it has not fired and the largest ratio has reached its threshold. */
  predicate DuePusher(cfg: Config, c: Chain, a: Account, t: Turn, p: nat) {
    p < |cfg.pushers| && p !in c.configured && MaxRatio(a, t.ratioTime) >= cfg.pushers[p].at
  }

  ghost predicate ActsOnPushers(actions: seq<Action>, cfg: Config, c: Chain, a: Account, t: Turn) {
    exists at: seq<nat> :: PushersAt(actions, cfg, c, a, t, at)
  }

  ghost predicate PushersAt(actions: seq<Action>, cfg: Config, c: Chain, a: Account, t: Turn, at: seq<nat>) {
    && |at| == |actions|
    && (forall i, j :: 0 <= i < j < |at| ==> at[i] < at[j])
    && (forall p: nat :: p in at <==> DuePusher(cfg, c, a, t, p))
    && (forall k :: 0 <= k < |at| ==>
         at[k] < |cfg.pushers| && actions[k] == Action(cfg.pushers[at[k]].kind, cfg.pushers[at[k]].message))
  }

  lemma {:induction false} ConfiguredActs(cfg: Config, c: Chain, a: Account, t: Turn, n: nat) returns (at: seq<nat>)
    requires n <= |cfg.pushers|
    ensures var actions := ConfiguredActions(cfg.pushers, c.configured, MaxRatio(a, t.ratioTime), n);
            && |at| == |actions|
            && (forall i, j :: 0 <= i < j < |at| ==> at[i] < at[j])
            && (forall p: nat :: p in at <==> p < n && DuePusher(cfg, c, a, t, p))
            && (forall k :: 0 <= k < |at| ==>
                 at[k] < n && actions[k] == Action(cfg.pushers[at[k]].kind, cfg.pushers[at[k]].message))
  {
    hide MaxRatio;
    if n == 0 {
      at := [];
    } else {
      at := ConfiguredActs(cfg, c, a, t, n - 1);
      if n - 1 !in c.configured && MaxRatio(a, t.ratioTime) >= cfg.pushers[n - 1].at {
        at := at + [n - 1];
      }
    }
  }

  /** The actions of the budget pushers and the reflect cadence in one step. */
  function ChainActions(cfg: Config, c: Chain, a: Account, t: Turn): seq<Action>
    requires Fits(cfg, c)
  {
    ConfiguredActions(cfg.pushers, c.configured, MaxRatio(a, t.ratioTime), |cfg.pushers|)
    + LevelActions(cfg, c, a, t)
    + Cadence.TickActions(c.cadence, cfg.reflectThreshold, None, c.counter, cfg.words.cadence)
  }

  ghost predicate ActsOnAxis(actions: seq<Action>, cfg: Config, c: Chain, a: Account, t: Turn, axis: Axis) {
    ActsOnDue(actions, LevelsOf(cfg, axis), LatchesOf(c, axis), RatioOf(a, t, axis))
  }

  /** They are those of the configured pushers and of the levels that are due, axis
      by axis, and at most one nudge of the cadence. */
  lemma ChainActs(cfg: Config, c: Chain, a: Account, t: Turn)
    returns (conf: seq<Action>, tok: seq<Action>, tim: seq<Action>, stp: seq<Action>, ctx: seq<Action>,
             cad: seq<Action>)
    requires Fits(cfg, c)
    ensures ChainActions(cfg, c, a, t) == conf + (tok + tim + stp + ctx) + cad
    ensures ActsOnPushers(conf, cfg, c, a, t)
    ensures ActsOnAxis(tok, cfg, c, a, t, Tokens) && ActsOnAxis(tim, cfg, c, a, t, Time)
    ensures ActsOnAxis(stp, cfg, c, a, t, Steps) && ActsOnAxis(ctx, cfg, c, a, t, Context)
    ensures cad == [] || cad == [Action(Nudge, cfg.words.cadence)]
  {
    hide Emitted, MaxRatio, TokenLevels, TimeLevels, StepLevels, ContextLevels, ActsOnDue, PushersAt;
    var at := ConfiguredActs(cfg, c, a, t, |cfg.pushers|);
    conf := ConfiguredActions(cfg.pushers, c.configured, MaxRatio(a, t.ratioTime), |cfg.pushers|);
    PushersHold(conf, cfg, c, a, t, at);
    tok := Emitted(TokenLevels(cfg), c.token, Some(TokenRatio(a)));
    tim := Emitted(TimeLevels(cfg), c.time, WallRatio(a, t.wallTime));
    stp := Emitted(StepLevels(cfg), c.step, Some(StepRatio(a)));
    ctx := Emitted(ContextLevels(cfg), c.context, ContextRatio(a));
    EmittedActs(TokenLevels(cfg), c.token, Some(TokenRatio(a)));
    EmittedActs(TimeLevels(cfg), c.time, WallRatio(a, t.wallTime));
    EmittedActs(StepLevels(cfg), c.step, Some(StepRatio(a)));
    EmittedActs(ContextLevels(cfg), c.context, ContextRatio(a));
    cad := Cadence.TickActions(c.cadence, cfg.reflectThreshold, None, c.counter, cfg.words.cadence);
  }

  lemma PushersHold(actions: seq<Action>, cfg: Config, c: Chain, a: Account, t: Turn, at: seq<nat>)
    requires |at| == |actions| && (forall i, j :: 0 <= i < j < |at| ==> at[i] < at[j])
    requires forall p: nat :: p in at <==> p < |cfg.pushers| && DuePusher(cfg, c, a, t, p)
    requires forall k :: 0 <= k < |at| ==>
               at[k] < |cfg.pushers| && actions[k] == Action(cfg.pushers[at[k]].kind, cfg.pushers[at[k]].message)
    ensures ActsOnPushers(actions, cfg, c, a, t)
  {
    assert PushersAt(actions, cfg, c, a, t, at);
  }

  /** The messages the model is called with in step `k`. */
  function PromptAt(cfg: Config, messages: seq<Message>, env: nat -> Turn, k: nat): seq<Message> {
    Prompted(cfg, Before(cfg, messages, env, k), env(k)).messages
  }

  /** Behind the old log the model reads the injected texts, then the callbacks of
      finished children, then the nudges of the chain - one user message for each
      that has a text, in order, and nothing else. */
  lemma PromptSays(cfg: Config, s: State, t: Turn)
    returns (injected: seq<Message>, callbacks: seq<Message>, nudges: seq<Message>)
    requires Fits(cfg, s.chain)
    ensures Prompted(cfg, s, t).messages == s.messages + injected + callbacks + nudges
    ensures Says(injected, t.injected) && SaysWords(callbacks, t.callbacks)
    ensures SaysNudges(nudges, ChainActions(cfg, s.chain, s.account, t))
  {
    hide Delivered, LevelActions, ConfiguredActions, Cadence.TickActions, MaxRatio, Advanced, Narrowed, AsNudges,
      SaysWords, SaysNudges;
    injected := Users(t.injected);
    callbacks := Delivered(AsNudges(t.callbacks));
    nudges := Delivered(ChainActions(cfg, s.chain, s.account, t));
    CallbacksDelivered(t.callbacks);
    DeliveredNudges(ChainActions(cfg, s.chain, s.account, t));
    DeliveredAppend(AsNudges(t.callbacks), ChainActions(cfg, s.chain, s.account, t));
    assert Produced(cfg, s.chain, s.account, t) == AsNudges(t.callbacks) + ChainActions(cfg, s.chain, s.account, t);
  }

  lemma SaidNudge(msgs: seq<Message>, actions: seq<Action>, act: Action)
    requires SaysNudges(msgs, actions) && act in actions && Telling(act)
    ensures User(act.message) in msgs
  {
    hide Picked;
    var due: seq<Action> :| Picked(due, actions, Telling) && Says(msgs, MessagesOf(due));
    PickedMembers(due, actions, Telling);
    var i :| 0 <= i < |due| && due[i] == act;
    assert msgs[i] == User(MessagesOf(due)[i]);
  }

  /** What step `k` puts behind the log before it calls the model. */
  function ToldAt(cfg: Config, messages: seq<Message>, env: nat -> Turn, k: nat): seq<Message> {
    var old_, now := |Before(cfg, messages, env, k).messages|, PromptAt(cfg, messages, env, k);
    if old_ <= |now| then now[old_..] else []
  }

  lemma LevelActs(cfg: Config, c: Chain, a: Account, t: Turn, axis: Axis, i: nat)
    requires Fits(cfg, c) && i < |LevelsOf(cfg, axis)|
    requires DueLevel(LevelsOf(cfg, axis), LatchesOf(c, axis), RatioOf(a, t, axis), i)
    ensures Action(LevelsOf(cfg, axis)[i].kind, LevelsOf(cfg, axis)[i].message) in ChainActions(cfg, c, a, t)
  {
    hide ChainActions, RatioOf, LevelsOf, LatchesOf, DueLevel;
    var conf, tok, tim, stp, ctx, cad := ChainActs(cfg, c, a, t);
    var mine := match axis case Tokens => tok case Time => tim case Steps => stp case Context => ctx;
    var at: seq<nat> :| ActsAt(mine, LevelsOf(cfg, axis), LatchesOf(c, axis), RatioOf(a, t, axis), at);
    var j :| 0 <= j < |at| && at[j] == i;
    assert mine[j] in mine;
  }

  /** A level's nudge reaches the model in the step that sees its threshold reached for the first time. */
  lemma LevelReachesModel(cfg: Config, messages: seq<Message>, env: nat -> Turn, axis: Axis, i: nat, k: nat)
    requires k < StepsMade(cfg, messages, env) && i < |LevelsOf(cfg, axis)|
    requires Hits(cfg, env, axis, i, k) && forall j: nat :: j < k ==> !Hits(cfg, env, axis, i, j)
    requires LevelsOf(cfg, axis)[i].kind == Nudge && LevelsOf(cfg, axis)[i].message != ""
    ensures User(LevelsOf(cfg, axis)[i].message) in ToldAt(cfg, messages, env, k)
  {
    hide Before, LevelsOf, LatchesOf, RatioOf, AccountAt, ChainActions, Prompted, SaysNudges, SaysWords;
    var s, t := Before(cfg, messages, env, k), env(k);
    RunningAt(cfg, messages, env, k, cfg.limits.maxSteps);
    AxisLatches(cfg, messages, env, axis, i, k);
    LevelActs(cfg, s.chain, s.account, t, axis, i);
    var injected, callbacks, nudges := PromptSays(cfg, s, t);
    SaidNudge(nudges, ChainActions(cfg, s.chain, s.account, t),
              Action(LevelsOf(cfg, axis)[i].kind, LevelsOf(cfg, axis)[i].message));
    Behind(s.messages, injected, callbacks, nudges);
  }

  lemma Behind(log: seq<Message>, a: seq<Message>, b: seq<Message>, c: seq<Message>)
    ensures (log + a + b + c)[|log|..] == a + b + c
  {
  }

  /** A configured nudge reaches the model in the step in which the largest ratio first reaches its threshold. */
  lemma PusherReachesModel(cfg: Config, messages: seq<Message>, env: nat -> Turn, p: nat, k: nat)
    requires k < StepsMade(cfg, messages, env) && p < |cfg.pushers|
    requires Reaches(cfg, env, p, k) && !ReachedBefore(cfg, env, p, k)
    requires cfg.pushers[p].kind == Nudge && cfg.pushers[p].message != ""
    ensures User(cfg.pushers[p].message) in ToldAt(cfg, messages, env, k)
  {
    hide Before, AccountAt, MaxRatio, Prompted, SaysNudges, SaysWords, ChainActions, PushersAt, ActsOnDue;
    var s, t := Before(cfg, messages, env, k), env(k);
    RunningAt(cfg, messages, env, k, cfg.limits.maxSteps);
    HistoriesOfRun(cfg, messages, env, k);
    assert DuePusher(cfg, s.chain, s.account, t, p);
    var conf, tok, tim, stp, ctx, cad := ChainActs(cfg, s.chain, s.account, t);
    var at: seq<nat> :| PushersAt(conf, cfg, s.chain, s.account, t, at);
    PusherActs(conf, cfg, s.chain, s.account, t, at, p);
    var injected, callbacks, nudges := PromptSays(cfg, s, t);
    SaidNudge(nudges, ChainActions(cfg, s.chain, s.account, t), Action(cfg.pushers[p].kind, cfg.pushers[p].message));
    Behind(s.messages, injected, callbacks, nudges);
  }

  lemma PusherActs(actions: seq<Action>, cfg: Config, c: Chain, a: Account, t: Turn, at: seq<nat>, p: nat)
    requires PushersAt(actions, cfg, c, a, t, at) && DuePusher(cfg, c, a, t, p)
    ensures Action(cfg.pushers[p].kind, cfg.pushers[p].message) in actions
  {
    var j :| 0 <= j < |at| && at[j] == p;
    assert actions[j] in actions;
  }

  /** The cadence nudge reaches the model exactly when the counter of calls since
      the last valid reflect is high for the first time since it dropped. */
  lemma CadenceReachesModel(cfg: Config, messages: seq<Message>, env: nat -> Turn, k: nat)
    requires k < StepsMade(cfg, messages, env) && cfg.reflectThreshold > 0.0 && cfg.words.cadence != ""
    requires Cadence.FirstHigh(CountersOf(env, k + 1), cfg.reflectThreshold, k)
    ensures User(cfg.words.cadence) in ToldAt(cfg, messages, env, k)
  {
    hide Before, Prompted, SaysNudges, SaysWords, ConfiguredActions, LevelActions, Cadence.FirstHigh,
      Cadence.CounterAfter, Cadence.Ticked;
    var s, t := Before(cfg, messages, env, k), env(k);
    RunningAt(cfg, messages, env, k, cfg.limits.maxSteps);
    HistoriesOfRun(cfg, messages, env, k);
    var counters := CountersOf(env, k + 1);
    Cadence.NudgeIff(counters, cfg.reflectThreshold, k);
    assert counters[..k] == CountersOf(env, k);
    assert counters[k] == s.chain.counter;
    Cadence.LatchesMean(counters, cfg.reflectThreshold, k);
    var cad := Cadence.TickActions(s.chain.cadence, cfg.reflectThreshold, None, s.chain.counter, cfg.words.cadence);
    assert cad == [Action(Nudge, cfg.words.cadence)];
    assert cad[0] in ChainActions(cfg, s.chain, s.account, t);
    var injected, callbacks, nudges := PromptSays(cfg, s, t);
    SaidNudge(nudges, ChainActions(cfg, s.chain, s.account, t), Action(Nudge, cfg.words.cadence));
    Behind(s.messages, injected, callbacks, nudges);
  }

  /** Injected messages and callbacks of finished children reach the model in the step that drains them. */
  lemma CallbackReachesModel(cfg: Config, messages: seq<Message>, env: nat -> Turn, k: nat, text: string)
    ensures text in env(k).injected || (text in env(k).callbacks && text != "") ==>
              User(text) in ToldAt(cfg, messages, env, k)
  {
    hide Before, Prompted, SaysNudges, ChainActions, Picked;
    var s, t := Before(cfg, messages, env, k), env(k);
    var injected, callbacks, nudges := PromptSays(cfg, s, t);
    Behind(s.messages, injected, callbacks, nudges);
    if text in t.injected {
      var i :| 0 <= i < |t.injected| && t.injected[i] == text;
      assert injected[i] in injected;
    } else if text in t.callbacks && text != "" {
      var due: seq<string> :| Picked(due, t.callbacks, NotEmpty) && Says(callbacks, due);
      PickedMembers(due, t.callbacks, NotEmpty);
      var i :| 0 <= i < |due| && due[i] == text;
      assert callbacks[i] in callbacks;
    }
  }

  // ------------------------------------------------------------------- the guards

  predicate Spare(retries: map<GuardKey, nat>, key: GuardKey) { key in retries ==> retries[key] < 2 }

  /** A guard that requires a tool not called so far and may still ask. */
  predicate Asks(g: Guard, called: set<string>, retries: map<GuardKey, nat>) {
    g.key.RequireTool? && g.key.tool !in called && Spare(retries, g.key)
  }

  /** `g` is the first such guard. */
  ghost predicate FirstAsks(guards: seq<Guard>, called: set<string>, retries: map<GuardKey, nat>, i: nat) {
    i < |guards| && Asks(guards[i], called, retries) && forall j :: 0 <= j < i ==> !Asks(guards[j], called, retries)
  }

  /** The first guard for text replies, if it may still ask. */
  ghost predicate TextAsks(guards: seq<Guard>, retries: map<GuardKey, nat>, i: nat) {
    && i < |guards| && guards[i].key == TextResponse && Spare(retries, TextResponse)
    && forall j :: 0 <= j < i ==> guards[j].key != TextResponse
  }

  lemma {:induction false} ToolGuardAsks(guards: seq<Guard>, called: set<string>, retries: map<GuardKey, nat>)
    ensures var (m, r) := CheckTools(guards, called, retries);
            && (m.None? <==> forall i: nat :: !FirstAsks(guards, called, retries, i))
            && (forall i: nat :: FirstAsks(guards, called, retries, i) ==> m == Some(guards[i].message))
  {
    if guards == [] {
    } else if Open(guards[0], called, retries) {
      assert FirstAsks(guards, called, retries, 0);
    } else {
      ToolGuardAsks(guards[1..], called, retries);
      forall i: nat | FirstAsks(guards, called, retries, i)
        ensures i > 0 && FirstAsks(guards[1..], called, retries, i - 1)
      {
      }
      forall i: nat | FirstAsks(guards[1..], called, retries, i) ensures FirstAsks(guards, called, retries, i + 1) {
        AsksLater(guards, called, retries, i);
      }
    }
  }

  lemma AsksLater(guards: seq<Guard>, called: set<string>, retries: map<GuardKey, nat>, i: nat)
    requires guards != [] && !Asks(guards[0], called, retries) && FirstAsks(guards[1..], called, retries, i)
    ensures FirstAsks(guards, called, retries, i + 1)
  {
    forall j | 0 <= j < i + 1 ensures !Asks(guards[j], called, retries) {
      if j > 0 {
        assert guards[j] == guards[1..][j - 1];
      }
    }
  }

  lemma {:induction false} TextGuardAsks(guards: seq<Guard>, retries: map<GuardKey, nat>)
    ensures var (m, r) := CheckText(guards, retries);
            && (m.None? ==> r == retries)
            && (m.None? <==> forall i: nat :: !TextAsks(guards, retries, i))
            && (forall i: nat :: TextAsks(guards, retries, i) ==> m == Some(guards[i].message))
  {
    if guards == [] {
    } else if guards[0].key == TextResponse {
      assert Spare(retries, TextResponse) ==> TextAsks(guards, retries, 0);
    } else {
      TextGuardAsks(guards[1..], retries);
      forall i: nat | TextAsks(guards, retries, i) ensures i > 0 && TextAsks(guards[1..], retries, i - 1) {
      }
      forall i: nat | TextAsks(guards[1..], retries, i) ensures TextAsks(guards, retries, i + 1) {
        forall j | 0 <= j < i + 1 ensures guards[j].key != TextResponse {
          if j > 0 {
            assert guards[j] == guards[1..][j - 1];
          }
        }
      }
    }
  }

  /** The message that answers a reply without tool calls: that of the text guard,
      or, if that may not ask, of the first guard that requires a tool. */
  ghost predicate AskedForCalls(cfg: Config, called: set<string>, retries: map<GuardKey, nat>, m: string) {
    || (exists i: nat :: TextAsks(cfg.guards, retries, i) && m == cfg.guards[i].message)
    || ((forall i: nat :: !TextAsks(cfg.guards, retries, i)) && AskedForTool(cfg, called, retries, m))
  }

  ghost predicate AskedForTool(cfg: Config, called: set<string>, retries: map<GuardKey, nat>, m: string) {
    exists i: nat :: FirstAsks(cfg.guards, called, retries, i) && m == cfg.guards[i].message
  }

  // ---------------------------------------------------------- what a step appends

  /** An assistant message with the calls, then one result per call. */
  ghost predicate IsBlock(block: seq<Message>, calls: seq<Call>) {
    && |block| == 1 + |calls| && block[0].ToolCalls? && |block[0].calls| == |calls|
    && forall i :: 0 <= i < |calls| ==>
         && block[0].calls[i] == CallRef(calls[i].id, calls[i].name, calls[i].arguments)
         && block[1 + i] == ToolResult(calls[i].id, calls[i].clean)
  }

  /** A `done` or `answer` whose arguments were valid. */
  predicate IsClosing(c: Call) {
    (c.name == "done" || c.name == "answer") && !("validation error" <= c.content)
  }

  /** The last closing call of a reply carries the output. */
  ghost predicate Delivers(calls: seq<Call>, output: string) {
    exists i :: 0 <= i < |calls| && ClosesLast(calls, i) && calls[i].findings == Some(output)
  }

  ghost predicate ClosesLast(calls: seq<Call>, i: nat)
    requires i < |calls|
  {
    IsClosing(calls[i]) && forall j :: i < j < |calls| ==> !IsClosing(calls[j])
  }

  lemma {:induction false} FindingsDelivered(calls: seq<Call>, output: string)
    ensures Findings(calls) == Some(output) <==> Delivers(calls, output)
  {
    if calls != [] {
      var n := |calls| - 1;
      var front, last := calls[..n], calls[n];
      FindingsDelivered(front, output);
      if IsClosing(last) {
        assert ClosesLast(calls, n);
        assert forall i :: 0 <= i < n ==> !ClosesLast(calls, i);
      } else {
        forall i | 0 <= i < n ensures ClosesLast(calls, i) <==> ClosesLast(front, i) {
        }
      }
    }
  }

  /** A reply without calls: the run stops, or the guard asks and the model goes on. */
  lemma TextStep(cfg: Config, s: State, content: string)
    requires s.status.Running?
    ensures var next := TextTurn(cfg, s, content);
            && (forall m :: m != "" && AskedForCalls(cfg, s.called, s.retries, m) ==>
                 next.status.Running? && next.messages == s.messages + [Assistant(content), User(m)])
            && ((forall m :: m != "" ==> !AskedForCalls(cfg, s.called, s.retries, m)) ==>
                 next.status.NaturalStop? && next.messages == s.messages)
  {
    TextGuardAsks(cfg.guards, s.retries);
    ToolGuardAsks(cfg.guards, s.called, s.retries);
    var text := CheckText(cfg.guards, s.retries).0;
    var tool := CheckTools(cfg.guards, s.called, s.retries).0;
    var asked := if text.Some? then text else tool;
    if asked.Some? {
      assert AskedForCalls(cfg, s.called, s.retries, asked.value);
    }
    forall m | AskedForCalls(cfg, s.called, s.retries, m) ensures asked == Some(m) {
    }
  }

  /** A reply with calls: block behind the log; then the run ends with the output,
      or the guard asks, or the log is condensed and the loop goes on. */
  lemma ToolStep(cfg: Config, s: State, calls: seq<Call>, summary: string) returns (block: seq<Message>)
    requires s.status.Running?
    ensures IsBlock(block, calls)
    ensures var next := ToolTurn(cfg, s, calls, summary);
            && (forall output, m :: Delivers(calls, output) && m != "" && AskedForTool(cfg, s.called, s.retries, m) ==>
                 next.status.Running? && next.messages == s.messages + block + [User(m)])
            && (forall output :: (Delivers(calls, output)
                                  && forall m :: m != "" ==> !AskedForTool(cfg, s.called, s.retries, m)) ==>
                 next.status == Finished(output) && next.messages == s.messages + block)
            && ((forall output :: !Delivers(calls, output)) ==>
                 next.status.Running?
                 && next.messages == Condensation.MaybeCondense(s.messages + block, cfg.condensation, summary))
  {
    hide Condensation.MaybeCondense, Delivers, Findings;
    block := [ToolCalls(Refs(calls))] + Results(calls);
    assert s.messages + [ToolCalls(Refs(calls))] + Results(calls) == s.messages + block;
    ToolGuardAsks(cfg.guards, s.called, s.retries);
    forall output ensures Findings(calls) == Some(output) <==> Delivers(calls, output) {
      FindingsDelivered(calls, output);
    }
    var tool := CheckTools(cfg.guards, s.called, s.retries).0;
    if tool.Some? {
      assert AskedForTool(cfg, s.called, s.retries, tool.value);
    }
    forall m | AskedForTool(cfg, s.called, s.retries, m) ensures tool == Some(m) {
    }
  }

  /** A whole step whose reply has calls: prompt, block, and then one of three things. */
  lemma CallStep(cfg: Config, s: State, step: nat, t: Turn) returns (block: seq<Message>)
    requires Fits(cfg, s.chain) && s.status.Running? && !Exhausted(s.account, t.checkTime)
    requires t.reply.Answer? && t.reply.calls != []
    ensures IsBlock(block, t.reply.calls)
    ensures var next, log := Turned(cfg, s, step, t), Prompted(cfg, s, t).messages + block;
            || (next.status.Finished? && Delivers(t.reply.calls, next.status.output) && next.messages == log)
            || (next.status.Running? && (exists output :: Delivers(t.reply.calls, output))
                && exists m :: m != "" && next.messages == log + [User(m)])
            || (next.status.Running? && (forall output :: !Delivers(t.reply.calls, output))
                && next.messages == Condensation.MaybeCondense(log, cfg.condensation, t.summary))
  {
    hide Exhausted, Produced, Advanced, Narrowed, Delivered, Delivers, ToolTurn, AskedForTool, IsBlock,
      Condensation.MaybeCondense;
    var q := Answered(Prompted(cfg, s, t), step, t.reply.usage, t.reply.calls);
    block := ToolStep(cfg, q, t.reply.calls, t.summary);
    if output :| Delivers(t.reply.calls, output) {
      if m :| m != "" && AskedForTool(cfg, q.called, q.retries, m) {
      }
    }
  }

  // -------------------------------------------------------------- the end of a run

  lemma {:induction false} EndedStays(cfg: Config, messages: seq<Message>, env: nat -> Turn, j: nat, k: nat)
    requires j <= k && !Before(cfg, messages, env, j).status.Running?
    ensures Before(cfg, messages, env, k) == Before(cfg, messages, env, j)
    decreases k
  {
    hide Turned;
    if j < k {
      EndedStays(cfg, messages, env, j, k - 1);
    }
  }

  /** The loop ends as its last step with a model call left it, unless the budget
      check before the next step stopped it there. */
  lemma LastStep(cfg: Config, messages: seq<Message>, env: nat -> Turn, k: nat)
    ensures var end := Before(cfg, messages, env, k);
            var n := end.llmCalls;
            && n <= k
            && (end == Before(cfg, messages, env, n)
                || (Before(cfg, messages, env, n).status.Running?
                    && end == Before(cfg, messages, env, n).(status := Stopped)))
            && (n > 0 ==>
                 && Before(cfg, messages, env, n - 1).status.Running?
                 && Before(cfg, messages, env, n - 1).llmCalls == n - 1
                 && !Exhausted(Before(cfg, messages, env, n - 1).account, env(n - 1).checkTime))
  {
    hide Turned, Exhausted;
    var end := Before(cfg, messages, env, k);
    var n := end.llmCalls;
    ReactTheorems.CallsBounded(cfg, messages, env, k);
    if n > 0 {
      RunningAt(cfg, messages, env, n - 1, k);
      StopsIfExhausted(cfg, messages, env, n - 1, k);
    }
    var b := Before(cfg, messages, env, n);
    if n < k && b.status.Running? {
      ReactTheorems.CallsBounded(cfg, messages, env, n);
      StopsIfExhausted(cfg, messages, env, n, k);
      if !Exhausted(b.account, env(n).checkTime) {
        MoreCalls(cfg, messages, env, n, k);
      }
    } else if n < k {
      EndedStays(cfg, messages, env, n, k);
    }
  }

  lemma StopsIfExhausted(cfg: Config, messages: seq<Message>, env: nat -> Turn, j: nat, k: nat)
    requires j < k && Before(cfg, messages, env, j).status.Running?
    ensures var b := Before(cfg, messages, env, j);
            Exhausted(b.account, env(j).checkTime) ==> Before(cfg, messages, env, k) == b.(status := Stopped)
  {
    hide Exhausted;
    var b := Before(cfg, messages, env, j);
    if Exhausted(b.account, env(j).checkTime) {
      assert Before(cfg, messages, env, j + 1) == b.(status := Stopped);
      EndedStays(cfg, messages, env, j + 1, k);
    }
  }

  lemma {:induction false} MoreCalls(cfg: Config, messages: seq<Message>, env: nat -> Turn, j: nat, k: nat)
    requires j < k && Before(cfg, messages, env, j).status.Running?
    requires !Exhausted(Before(cfg, messages, env, j).account, env(j).checkTime)
    ensures Before(cfg, messages, env, k).llmCalls > j
    decreases k
  {
    hide Turned, Exhausted;
    ReactTheorems.CallsBounded(cfg, messages, env, j);
    if k == j + 1 {
      TurnedRecords(cfg, Before(cfg, messages, env, j), j, env(j));
    } else {
      MoreCalls(cfg, messages, env, j, k - 1);
      ReactTheorems.TurnedCalls(cfg, Before(cfg, messages, env, k - 1), k - 1, env(k - 1));
    }
  }

  /** The last model call of the loop was answered with a closing call, and no guard message follows its results. */
  ghost predicate EndsWithOutput(cfg: Config, messages: seq<Message>, env: nat -> Turn, end: State, output: string) {
    && end.llmCalls > 0 && env(end.llmCalls - 1).reply.Answer?
    && Delivers(env(end.llmCalls - 1).reply.calls, output)
    && end.messages != [] && end.messages[|end.messages| - 1].ToolResult?
  }

  /** The last model call of the loop was answered without tool calls, and nothing follows in the log. */
  ghost predicate EndsWithText(cfg: Config, messages: seq<Message>, env: nat -> Turn, end: State) {
    && end.llmCalls > 0 && env(end.llmCalls - 1).reply.Answer? && env(end.llmCalls - 1).reply.calls == []
    && end.messages == PromptAt(cfg, messages, env, end.llmCalls - 1)
  }

  lemma OneStep(cfg: Config, s: State, step: nat, t: Turn, output: string)
    requires Fits(cfg, s.chain) && s.status.Running? && !Exhausted(s.account, t.checkTime)
    ensures var next, prompt := Turned(cfg, s, step, t), Prompted(cfg, s, t).messages;
            && (next.status == Finished(output) <==>
                 t.reply.Answer? && Delivers(t.reply.calls, output)
                 && next.messages != [] && next.messages[|next.messages| - 1].ToolResult?)
            && (next.status.NaturalStop? <==> t.reply.Answer? && t.reply.calls == [] && next.messages == prompt)
  {
    hide Exhausted, Produced, Advanced, Narrowed, Delivered, Delivers, TextTurn, ToolTurn;
    if t.reply.Answer? {
      var q := Answered(Prompted(cfg, s, t), step, t.reply.usage, t.reply.calls);
      if t.reply.calls == [] {
        NoneDelivered(output);
        TextEnds(cfg, q, t.reply.content);
      } else {
        ToolsEnd(cfg, q, t.reply.calls, t.summary, output);
      }
    }
  }

  lemma NoneDelivered(output: string)
    ensures !Delivers([], output)
  {
  }

  lemma TextEnds(cfg: Config, s: State, content: string)
    requires s.status.Running?
    ensures var next := TextTurn(cfg, s, content);
            && (next.status.NaturalStop? <==> next.messages == s.messages)
            && (next.status.Running? || next.status.NaturalStop?)
  {
    hide AskedForCalls;
    TextStep(cfg, s, content);
    if exists m :: m != "" && AskedForCalls(cfg, s.called, s.retries, m) {
      var m :| m != "" && AskedForCalls(cfg, s.called, s.retries, m);
      assert |s.messages + [Assistant(content), User(m)]| > |s.messages|;
    }
  }

  lemma ToolsEnd(cfg: Config, s: State, calls: seq<Call>, summary: string, output: string)
    requires s.status.Running? && calls != []
    ensures var next := ToolTurn(cfg, s, calls, summary);
            && (next.status == Finished(output) <==>
                 Delivers(calls, output) && next.messages != [] && next.messages[|next.messages| - 1].ToolResult?)
            && (next.status.Running? || next.status.Finished?)
  {
    hide Condensation.MaybeCondense, Delivers, AskedForTool, ToolTurn;
    var block := ToolStep(cfg, s, calls, summary);
    var next := ToolTurn(cfg, s, calls, summary);
    var last := calls[|calls| - 1];
    assert block[1 + (|calls| - 1)] == ToolResult(last.id, last.clean);
    assert (s.messages + block)[|s.messages + block| - 1] == block[|block| - 1];
    if exists out :: Delivers(calls, out) {
      var out :| Delivers(calls, out);
      OneOutput(calls, out, output);
      if exists m :: m != "" && AskedForTool(cfg, s.called, s.retries, m) {
        var m :| m != "" && AskedForTool(cfg, s.called, s.retries, m);
        assert next.messages == s.messages + block + [User(m)];
        assert next.messages[|next.messages| - 1] == User(m);
      } else {
        assert next.status == Finished(out) && next.messages == s.messages + block;
      }
    }
  }

  lemma OneOutput(calls: seq<Call>, a: string, b: string)
    requires Delivers(calls, a)
    ensures Delivers(calls, b) <==> a == b
  {
    FindingsDelivered(calls, a);
    FindingsDelivered(calls, b);
  }

  /** What a run returns. The output of a valid `done` or `answer`, exactly if the
      last model call was answered with one and no guard message followed; no
      output, exactly if that reply had no tool calls and was not re-prompted;
      otherwise what the force-done call returns, if the agent has `done`. */
  lemma RunReturns(cfg: Config, messages: seq<Message>, env: nat -> Turn, forced: Option<string>)
    ensures var r, end := Run(cfg, messages, env, forced), Before(cfg, messages, env, cfg.limits.maxSteps);
            && (forall output :: r.end == AgentDone(Some(output)) <==> EndsWithOutput(cfg, messages, env, end, output))
            && (r.end == AgentDone(None) <==> EndsWithText(cfg, messages, env, end))
            && (r.end.ForcedDone? ==> r.end == ForcedDone(if "done" in cfg.tools then forced else None))
    ensures var r, end := Run(cfg, messages, env, forced), Before(cfg, messages, env, cfg.limits.maxSteps);
            r.last.messages == end.messages + if r.end.AgentDone? then [] else [User(cfg.words.stepLimit)]
  {
    hide Turned, Exhausted, EndsWithOutput, EndsWithText;
    var end := Before(cfg, messages, env, cfg.limits.maxSteps);
    forall output ensures end.status == Finished(output) <==> EndsWithOutput(cfg, messages, env, end, output) {
      LoopEnds(cfg, messages, env, cfg.limits.maxSteps, output);
    }
    LoopEnds(cfg, messages, env, cfg.limits.maxSteps, "");
    DoneIsThere(cfg.tools);
    assert end.messages + [] == end.messages;
  }

  lemma {:induction false} DoneIsThere(tools: seq<string>)
    ensures Only(tools, "done") != [] <==> "done" in tools
  {
    if tools != [] {
      DoneIsThere(tools[1..]);
    }
  }

  lemma LoopEnds(cfg: Config, messages: seq<Message>, env: nat -> Turn, k: nat, output: string)
    ensures var end := Before(cfg, messages, env, k);
            && (end.status == Finished(output) <==> EndsWithOutput(cfg, messages, env, end, output))
            && (end.status.NaturalStop? <==> EndsWithText(cfg, messages, env, end))
  {
    hide Turned, Exhausted, Prompted, Delivers;
    var end := Before(cfg, messages, env, k);
    var n := end.llmCalls;
    LastStep(cfg, messages, env, k);
    if n > 0 {
      OneStep(cfg, Before(cfg, messages, env, n - 1), n - 1, env(n - 1), output);
    }
  }

  // ------------------------------------------------------------ what a run calls

  ghost predicate CalledAt(env: nat -> Turn, j: nat, tool: string) {
    env(j).reply.Answer? && exists c :: c in env(j).reply.calls && c.name == tool
  }

  /** The tools a run has called are those named in the replies of its steps. */
  lemma {:induction false} CalledInRun(cfg: Config, messages: seq<Message>, env: nat -> Turn, k: nat, tool: string)
    ensures var s := Before(cfg, messages, env, k);
            tool in s.called <==> exists j: nat :: j < s.llmCalls && CalledAt(env, j, tool)
  {
    hide Turned, CalledAt;
    if k > 0 {
      CalledInRun(cfg, messages, env, k - 1, tool);
      var s := Before(cfg, messages, env, k - 1);
      if s.status.Running? {
        ReactTheorems.CallsBounded(cfg, messages, env, k - 1);
        CallsRecorded(cfg, s, k - 1, env, tool);
      }
    }
  }

  lemma CallsRecorded(cfg: Config, s: State, k: nat, env: nat -> Turn, tool: string)
    requires Fits(cfg, s.chain) && s.llmCalls == k
    ensures var next := Turned(cfg, s, k, env(k));
            && (next.llmCalls == k || next.llmCalls == k + 1)
            && (tool in next.called <==> tool in s.called || (next.llmCalls == k + 1 && CalledAt(env, k, tool)))
  {
    hide Exhausted, Produced, Advanced, Narrowed, TextTurn, ToolTurn;
    var t := env(k);
    if !Exhausted(s.account, t.checkTime) && t.reply.Answer? {
      var q := Answered(Prompted(cfg, s, t), k, t.reply.usage, t.reply.calls);
      ReactTheorems.TextTurnKeeps(cfg, q, t.reply.content);
      ReactTheorems.ToolTurnKeeps(cfg, q, t.reply.calls, t.summary);
    }
  }

  /** The guard contract in terms of the replies: a run that ends with AGENT_DONE
      has a reply that calls each required tool, or its guard was spent; while no
      condensation rewrites the log, its message then stands in it twice. */
  lemma GuardsInReplies(cfg: Config, messages: seq<Message>, env: nat -> Turn, forced: Option<string>, g: Guard)
    requires ReactTheorems.MessagesOk(cfg.guards) && g in cfg.guards && g.key.RequireTool?
    requires Run(cfg, messages, env, forced).end.AgentDone?
    ensures var r := Run(cfg, messages, env, forced);
            || (exists j: nat :: j < StepsMade(cfg, messages, env) && CalledAt(env, j, g.key.tool))
            || (g.key in r.last.retries && r.last.retries[g.key] >= 2
                && (ReactTheorems.DistinctGuards(cfg.guards) && cfg.condensation.None? ==>
                     multiset(r.last.messages)[User(g.message)] >= 2))
  {
    hide Before, CalledAt, ReactTheorems.MessagesOk, ReactTheorems.DistinctGuards;
    ReactTheorems.RunGuardContract(cfg, messages, env, forced);
    CalledInRun(cfg, messages, env, cfg.limits.maxSteps, g.key.tool);
  }

  // ------------------------------------------------------------- what is never lost

  ghost predicate StartsWith(log: seq<Message>, system: Message) { log != [] && log[0] == system }

  lemma SystemStays(cfg: Config, s: State, step: nat, t: Turn, system: Message)
    requires Fits(cfg, s.chain) && system.System? && StartsWith(s.messages, system)
    ensures StartsWith(Turned(cfg, s, step, t).messages, system)
  {
    hide Exhausted, Produced, Advanced, Narrowed, Condensation.MaybeCondense, CheckText, CheckTools, Delivered;
    if !Exhausted(s.account, t.checkTime) && t.reply.Answer? && t.reply.calls != [] {
      var p := Prompted(cfg, s, t).messages;
      var log := p + [ToolCalls(Refs(t.reply.calls))] + Results(t.reply.calls);
      assert StartsWith(log, system);
      CondensedStarts(log, cfg.condensation, t.summary, system);
    }
  }

  lemma CondensedStarts(log: seq<Message>, c: Option<Condensation.Config>, summary: string, system: Message)
    requires system.System? && StartsWith(log, system)
    ensures StartsWith(Condensation.MaybeCondense(log, c, summary), system)
  {
    hide Condensation.Condense, Condensation.TotalChars;
    if c.Some? {
      Condensation.CondenseKeeps(log, c.value, summary);
    }
  }

  /** The system message a log starts with stays its first message in every state
      of every run, whatever the condensation, and in the log returned. */
  lemma {:induction false} SystemPromptStays(cfg: Config, messages: seq<Message>, env: nat -> Turn, k: nat,
                                             forced: Option<string>)
    requires messages != [] && messages[0].System?
    ensures StartsWith(Before(cfg, messages, env, k).messages, messages[0])
    ensures k == cfg.limits.maxSteps ==> StartsWith(Run(cfg, messages, env, forced).last.messages, messages[0])
  {
    hide Turned;
    if k > 0 {
      SystemPromptStays(cfg, messages, env, k - 1, forced);
      SystemStays(cfg, Before(cfg, messages, env, k - 1), k - 1, env(k - 1), messages[0]);
    }
  }

  /** After a step with tool calls that goes on, the last `preserveLast` messages
      of its log stand unchanged at the end, condensed or not. */
  lemma RecentStay(cfg: Config, s: State, calls: seq<Call>, summary: string) returns (log: seq<Message>)
    requires s.status.Running? && cfg.condensation.Some? && forall output :: !Delivers(calls, output)
    ensures |log| == |s.messages| + 1 + |calls| && s.messages <= log && IsBlock(log[|s.messages|..], calls)
    ensures Condensation.KeepsEnds(ToolTurn(cfg, s, calls, summary).messages, log, cfg.condensation.value.preserveLast)
  {
    hide Condensation.MaybeCondense, Condensation.KeepsEnds, Delivers, ToolTurn, AskedForTool, Condensation.Condense,
      Condensation.TotalChars;
    var block := ToolStep(cfg, s, calls, summary);
    log := s.messages + block;
    assert log[|s.messages|..] == block;
    Condensation.CondensesWhen(log, cfg.condensation, summary);
    Condensation.CondenseKeeps(log, cfg.condensation.value, summary);
    Condensation.AsItIs(log, cfg.condensation.value.preserveLast);
  }
}
