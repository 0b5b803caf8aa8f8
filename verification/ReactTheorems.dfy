/** Whole-run properties of the ReAct loop, whatever the model, the tools and the clock do. */
module ReactTheorems {
  import opened Wrappers
  import opened Messages
  import opened Budget
  import opened ReactLoop

  // --------------------------------------------------------------- model calls

  lemma TextTurnKeeps(cfg: Config, s: State, content: string)
    ensures var t := TextTurn(cfg, s, content);
            && t.llmCalls == s.llmCalls && t.offered == s.offered && t.account == s.account && t.chain == s.chain
            && t.called == s.called
  {
  }

  lemma ToolTurnKeeps(cfg: Config, s: State, calls: seq<Call>, summary: string)
    ensures var t := ToolTurn(cfg, s, calls, summary);
            && t.llmCalls == s.llmCalls && t.offered == s.offered && t.account == s.account
            && t.called == s.called && t.chain == s.chain.(counter := t.chain.counter)
  {
  }

  /** One step makes at most one model call, exactly one if the loop goes on. */
  lemma TurnedCalls(cfg: Config, s: State, step: nat, t: Turn)
    requires Fits(cfg, s.chain)
    ensures var next := Turned(cfg, s, step, t);
            && s.llmCalls <= next.llmCalls <= s.llmCalls + 1
            && |next.offered| - next.llmCalls == |s.offered| - s.llmCalls
            && next.account.limits == s.account.limits
            && (next.status == s.status && !Exhausted(s.account, t.checkTime) && t.reply.Answer? ==>
                 next.llmCalls == s.llmCalls + 1 && next.account.stepsUsed == step + 1)
  {
    if !Exhausted(s.account, t.checkTime) && t.reply.Answer? {
      var q := Answered(Prompted(cfg, s, t), step, t.reply.usage, t.reply.calls);
      TextTurnKeeps(cfg, q, t.reply.content);
      ToolTurnKeeps(cfg, q, t.reply.calls, t.summary);
    }
  }

  /** At most one model call per step, each with its offer on record. */
  lemma {:induction false} CallsBounded(cfg: Config, messages: seq<Message>, env: nat -> Turn, k: nat)
    ensures var s := Before(cfg, messages, env, k);
            && s.llmCalls == |s.offered| <= k
            && (s.status.Running? ==> s.llmCalls == k && s.account.stepsUsed == k)
            && s.account.limits == cfg.limits
  {
    hide Turned, Exhausted;
    if k > 0 {
      CallsBounded(cfg, messages, env, k - 1);
      var s := Before(cfg, messages, env, k - 1);
      TurnedCalls(cfg, s, k - 1, env(k - 1));
      StoppedIf(cfg, s, k - 1, env(k - 1));
    }
  }

  lemma StoppedIf(cfg: Config, s: State, step: nat, t: Turn)
    requires Fits(cfg, s.chain)
    ensures Exhausted(s.account, t.checkTime) || t.reply.Failed? ==> Turned(cfg, s, step, t).status.Stopped?
  {
  }

  /** A run makes at most `maxSteps` calls in the loop and one force-done call,
      and the latter only when it does not end with AGENT_DONE. */
  lemma RunCallsBounded(cfg: Config, messages: seq<Message>, env: nat -> Turn, forced: Option<string>)
    ensures var r := Run(cfg, messages, env, forced);
            r.last.llmCalls <= cfg.limits.maxSteps + if r.end.AgentDone? then 0 else 1
  {
    CallsBounded(cfg, messages, env, cfg.limits.maxSteps);
  }

  // -------------------------------------------------------------------- guards

  ghost predicate DistinctGuards(guards: seq<Guard>) {
    forall i, j :: 0 <= i < j < |guards| ==> guards[i].key != guards[j].key
  }

  /** The retries spent on the guards that can re-prompt. */
  function Spent(guards: seq<Guard>, retries: map<GuardKey, nat>): nat {
    if guards == [] then 0
    else (if guards[0].key.OtherGuard? then 0 else Retries(retries, guards[0].key)) + Spent(guards[1..], retries)
  }

  ghost predicate WithinLimits(retries: map<GuardKey, nat>) {
    forall key :: key in retries ==> retries[key] <= MAX_GUARD_RETRIES
  }

  lemma {:induction false} SpentUntouched(guards: seq<Guard>, retries: map<GuardKey, nat>, key: GuardKey, n: nat)
    requires forall g :: g in guards ==> g.key != key
    ensures Spent(guards, retries[key := n]) == Spent(guards, retries)
  {
    if guards != [] {
      SpentUntouched(guards[1..], retries, key, n);
    }
  }

  lemma {:induction false} SpentOne(guards: seq<Guard>, retries: map<GuardKey, nat>, i: nat)
    requires DistinctGuards(guards) && i < |guards| && !guards[i].key.OtherGuard?
    ensures Spent(guards, retries[guards[i].key := Retries(retries, guards[i].key) + 1]) == Spent(guards, retries) + 1
  {
    if i == 0 {
      SpentUntouched(guards[1..], retries, guards[0].key, Retries(retries, guards[0].key) + 1);
    } else {
      SpentOne(guards[1..], retries, i - 1);
    }
  }

  /** What a guard check does: nothing, or it spends one retry of the guard whose message it returns. */
  ghost predicate Fired(guards: seq<Guard>, retries: map<GuardKey, nat>, r: (Option<string>, map<GuardKey, nat>)) {
    || (r.0.None? && r.1 == retries)
    || exists i :: 0 <= i < |guards| && FiredAt(guards, retries, r, i)
  }

  ghost predicate FiredAt(guards: seq<Guard>, retries: map<GuardKey, nat>, r: (Option<string>, map<GuardKey, nat>),
                          i: nat)
    requires i < |guards|
  {
    && !guards[i].key.OtherGuard? && r.0 == Some(guards[i].message)
    && Retries(retries, guards[i].key) < MAX_GUARD_RETRIES
    && r.1 == retries[guards[i].key := Retries(retries, guards[i].key) + 1]
  }

  lemma {:induction false} CheckTextFires(guards: seq<Guard>, retries: map<GuardKey, nat>)
    ensures Fired(guards, retries, CheckText(guards, retries))
  {
    var r := CheckText(guards, retries);
    if guards != [] && guards[0].key != TextResponse {
      CheckTextFires(guards[1..], retries);
      if r.0.Some? {
        var i :| 0 <= i < |guards[1..]| && FiredAt(guards[1..], retries, r, i);
        assert FiredAt(guards, retries, r, i + 1);
      }
    } else if guards != [] && r.0.Some? {
      assert FiredAt(guards, retries, r, 0);
    }
  }

  lemma {:induction false} CheckToolsFires(guards: seq<Guard>, called: set<string>, retries: map<GuardKey, nat>)
    ensures Fired(guards, retries, CheckTools(guards, called, retries))
  {
    var r := CheckTools(guards, called, retries);
    if guards != [] {
      if Open(guards[0], called, retries) {
        assert FiredAt(guards, retries, r, 0);
      } else {
        CheckToolsFires(guards[1..], called, retries);
        if r.0.Some? {
          var i :| 0 <= i < |guards[1..]| && FiredAt(guards[1..], retries, r, i);
          assert FiredAt(guards, retries, r, i + 1);
        }
      }
    }
  }

  /** The check that decides whether a turn re-prompts. */
  function TextCheck(cfg: Config, s: State): (Option<string>, map<GuardKey, nat>) {
    var (text, r1) := CheckText(cfg.guards, s.retries);
    if text.Some? then (text, r1) else CheckTools(cfg.guards, s.called, r1)
  }

  lemma TextCheckFires(cfg: Config, s: State)
    ensures Fired(cfg.guards, s.retries, TextCheck(cfg, s))
  {
    CheckTextFires(cfg.guards, s.retries);
    CheckToolsFires(cfg.guards, s.called, s.retries);
  }

  ghost predicate GuardInv(cfg: Config, s: State) {
    WithinLimits(s.retries) && s.reprompts <= Spent(cfg.guards, s.retries)
  }

  lemma FiredKeeps(cfg: Config, s: State, r: (Option<string>, map<GuardKey, nat>), again: nat)
    requires DistinctGuards(cfg.guards) && GuardInv(cfg, s) && Fired(cfg.guards, s.retries, r)
    requires again <= s.reprompts + if r.0.Some? then 1 else 0
    ensures WithinLimits(r.1) && again <= Spent(cfg.guards, r.1)
  {
    if r.0.Some? {
      var i :| 0 <= i < |cfg.guards| && FiredAt(cfg.guards, s.retries, r, i);
      SpentOne(cfg.guards, s.retries, i);
    }
  }

  lemma TurnedKeepsGuards(cfg: Config, s: State, step: nat, t: Turn)
    requires Fits(cfg, s.chain) && DistinctGuards(cfg.guards) && GuardInv(cfg, s)
    ensures GuardInv(cfg, Turned(cfg, s, step, t))
  {
    if !Exhausted(s.account, t.checkTime) && t.reply.Answer? {
      var q := Answered(Prompted(cfg, s, t), step, t.reply.usage, t.reply.calls);
      var text, tools := TextCheck(cfg, q), CheckTools(cfg.guards, q.called, q.retries);
      TextCheckFires(cfg, q);
      CheckToolsFires(cfg.guards, q.called, q.retries);
      var next := Turned(cfg, s, step, t);
      if t.reply.calls == [] {
        FiredKeeps(cfg, q, text, next.reprompts);
      } else if Findings(t.reply.calls).Some? {
        FiredKeeps(cfg, q, tools, next.reprompts);
      }
    }
  }

  lemma {:induction false} GuardsHold(cfg: Config, messages: seq<Message>, env: nat -> Turn, k: nat)
    requires DistinctGuards(cfg.guards)
    ensures GuardInv(cfg, Before(cfg, messages, env, k))
  {
    hide Turned;
    if k == 0 {
      NothingSpent(cfg.guards);
    } else {
      GuardsHold(cfg, messages, env, k - 1);
      if Before(cfg, messages, env, k - 1).status.Running? {
        TurnedKeepsGuards(cfg, Before(cfg, messages, env, k - 1), k - 1, env(k - 1));
      }
    }
  }

  lemma {:induction false} NothingSpent(guards: seq<Guard>)
    ensures Spent(guards, map[]) == 0
  {
    if guards != [] {
      NothingSpent(guards[1..]);
    }
  }

  /** The number of required tools. */
  function RequiredTools(guards: seq<Guard>): nat {
    if guards == [] then 0 else (if guards[0].key.RequireTool? then 1 else 0) + RequiredTools(guards[1..])
  }

  lemma {:induction false} SpentBounded(guards: seq<Guard>, retries: map<GuardKey, nat>)
    requires DistinctGuards(guards) && WithinLimits(retries)
    ensures Spent(guards, retries)
            <= 2 * RequiredTools(guards) + if exists g :: g in guards && g.key == TextResponse then 2 else 0
  {
    if guards != [] {
      SpentBounded(guards[1..], retries);
      var g := guards[0];
      assert g in guards;
      assert forall h :: h in guards[1..] ==> h in guards && h.key != g.key;
    }
  }

  /** At most two re-prompts for text replies and two for each required tool, over the whole run. */
  lemma RepromptsBounded(cfg: Config, messages: seq<Message>, env: nat -> Turn, forced: Option<string>)
    requires DistinctGuards(cfg.guards)
    ensures Run(cfg, messages, env, forced).last.reprompts <= 2 + 2 * RequiredTools(cfg.guards)
  {
    GuardsHold(cfg, messages, env, cfg.limits.maxSteps);
    SpentBounded(cfg.guards, Before(cfg, messages, env, cfg.limits.maxSteps).retries);
  }

  // ------------------------------------------------------------- guard contract

  /** Each required tool was called, or its guard was used up. */
  ghost predicate Honoured(cfg: Config, s: State) {
    forall g :: g in cfg.guards && g.key.RequireTool? ==>
      g.key.tool in s.called || Retries(s.retries, g.key) >= MAX_GUARD_RETRIES
  }

  /** No guard message that could silently end a run: none of a required tool is
      empty, and an empty text guard stands with no required tool. */
  ghost predicate MessagesOk(guards: seq<Guard>) {
    && (forall g :: g in guards && g.key.RequireTool? ==> g.message != "")
    && (forall g, h :: g in guards && h in guards && g.key == TextResponse && h.key.RequireTool? ==> g.message != "")
  }

  lemma {:induction false} NoneOpen(guards: seq<Guard>, called: set<string>, retries: map<GuardKey, nat>)
    ensures CheckTools(guards, called, retries).0.None? <==> forall g :: g in guards ==> !Open(g, called, retries)
  {
    if guards != [] && !Open(guards[0], called, retries) {
      NoneOpen(guards[1..], called, retries);
      assert forall g :: g in guards <==> g == guards[0] || g in guards[1..];
    }
  }

  lemma TextFired(guards: seq<Guard>, retries: map<GuardKey, nat>)
    ensures var text := CheckText(guards, retries).0;
            text.Some? ==> exists g :: g in guards && g.key == TextResponse && g.message == text.value
    decreases |guards|
  {
    if guards != [] {
      if guards[0].key == TextResponse {
        assert guards[0] in guards;
      } else {
        TextFired(guards[1..], retries);
      }
    }
  }

  lemma {:induction false} ToolFired(guards: seq<Guard>, called: set<string>, retries: map<GuardKey, nat>)
    ensures var tool := CheckTools(guards, called, retries).0;
            tool.Some? ==> exists g :: g in guards && g.key.RequireTool? && g.message == tool.value
  {
    if guards != [] {
      if Open(guards[0], called, retries) {
        assert guards[0] in guards;
      } else {
        ToolFired(guards[1..], called, retries);
      }
    }
  }

  lemma TextEndHonours(cfg: Config, s: State, content: string)
    requires MessagesOk(cfg.guards) && TextTurn(cfg, s, content).status.NaturalStop? && !s.status.NaturalStop?
    ensures Honoured(cfg, TextTurn(cfg, s, content))
  {
    TextFired(cfg.guards, s.retries);
    CheckTextFires(cfg.guards, s.retries);
    ToolFired(cfg.guards, s.called, s.retries);
    CheckToolsFires(cfg.guards, s.called, s.retries);
    NoneOpen(cfg.guards, s.called, s.retries);
    if CheckText(cfg.guards, s.retries).0.Some? {
      assert CheckText(cfg.guards, s.retries).0 == Some("");
      assert forall g :: g in cfg.guards ==> !g.key.RequireTool?;
    } else {
      var last := TextTurn(cfg, s, content);
      assert last.retries == s.retries && last.called == s.called;
      forall g | g in cfg.guards && g.key.RequireTool?
        ensures g.key.tool in s.called || Retries(s.retries, g.key) >= MAX_GUARD_RETRIES
      {
        assert !Open(g, s.called, s.retries);
      }
    }
  }

  lemma ToolEndHonours(cfg: Config, s: State, calls: seq<Call>, summary: string)
    requires MessagesOk(cfg.guards) && ToolTurn(cfg, s, calls, summary).status.Finished? && s.status.Running?
    ensures Honoured(cfg, ToolTurn(cfg, s, calls, summary))
  {
    ToolFired(cfg.guards, s.called, s.retries);
    CheckToolsFires(cfg.guards, s.called, s.retries);
    NoneOpen(cfg.guards, s.called, s.retries);
    forall g | g in cfg.guards && g.key.RequireTool?
      ensures g.key.tool in s.called || Retries(s.retries, g.key) >= MAX_GUARD_RETRIES
    {
      assert !Open(g, s.called, s.retries);
    }
  }

  /** A turn that ends the run has checked every required tool. */
  lemma EndHonours(cfg: Config, s: State, step: nat, t: Turn)
    requires Fits(cfg, s.chain) && MessagesOk(cfg.guards) && s.status.Running?
    ensures var next := Turned(cfg, s, step, t);
            next.status.Finished? || next.status.NaturalStop? ==> Honoured(cfg, next)
  {
    hide Honoured, MessagesOk, TextTurn, ToolTurn, Exhausted;
    if !Exhausted(s.account, t.checkTime) && t.reply.Answer? {
      var q := Answered(Prompted(cfg, s, t), step, t.reply.usage, t.reply.calls);
      if t.reply.calls == [] {
        StatusOfText(cfg, q, t.reply.content);
        if TextTurn(cfg, q, t.reply.content).status.NaturalStop? {
          TextEndHonours(cfg, q, t.reply.content);
        }
      } else {
        StatusOfTools(cfg, q, t.reply.calls, t.summary);
        if ToolTurn(cfg, q, t.reply.calls, t.summary).status.Finished? {
          ToolEndHonours(cfg, q, t.reply.calls, t.summary);
        }
      }
    }
  }

  lemma StatusOfText(cfg: Config, s: State, content: string)
    requires s.status.Running?
    ensures TextTurn(cfg, s, content).status in {Running, NaturalStop}
  {
  }

  lemma StatusOfTools(cfg: Config, s: State, calls: seq<Call>, summary: string)
    requires s.status.Running?
    ensures ToolTurn(cfg, s, calls, summary).status.Running? || ToolTurn(cfg, s, calls, summary).status.Finished?
  {
  }

  /** Whatever the model does, a run that ends with AGENT_DONE has called every
      required tool or used its guard twice. */
  lemma {:induction false} GuardContract(cfg: Config, messages: seq<Message>, env: nat -> Turn, k: nat)
    requires MessagesOk(cfg.guards)
    ensures var s := Before(cfg, messages, env, k);
            s.status.Finished? || s.status.NaturalStop? ==> Honoured(cfg, s)
  {
    hide Turned, Honoured;
    if k > 0 {
      GuardContract(cfg, messages, env, k - 1);
      var s := Before(cfg, messages, env, k - 1);
      if s.status.Running? {
        EndHonours(cfg, s, k - 1, env(k - 1));
      }
    }
  }

  // ------------------------------------------------------ guard messages sent

  /** Every retry of a guard has put its message into the log. */
  ghost predicate Sent(cfg: Config, log: seq<Message>, retries: map<GuardKey, nat>) {
    forall g :: g in cfg.guards && !g.key.OtherGuard? && g.message != "" ==>
      Retries(retries, g.key) <= multiset(log)[User(g.message)]
  }

  lemma SentGrows(cfg: Config, log: seq<Message>, more: seq<Message>, retries: map<GuardKey, nat>)
    requires Sent(cfg, log, retries)
    ensures Sent(cfg, log + more, retries)
  {
    assert multiset(log + more) == multiset(log) + multiset(more);
  }

  /** A guard that fires with a message keeps the account, if the message is sent. */
  lemma SentFires(cfg: Config, log: seq<Message>, retries: map<GuardKey, nat>, r: (Option<string>, map<GuardKey, nat>))
    requires DistinctGuards(cfg.guards) && Sent(cfg, log, retries) && Fired(cfg.guards, retries, r)
    ensures r.0.Some? ==> Sent(cfg, log + [User(r.0.value)], r.1)
    ensures r.0 == None || r.0 == Some("") ==> Sent(cfg, log, r.1)
  {
    if r.0.Some? {
      var i :| 0 <= i < |cfg.guards| && FiredAt(cfg.guards, retries, r, i);
      var after := log + [User(r.0.value)];
      assert multiset(after) == multiset(log) + multiset{User(r.0.value)};
      forall g | g in cfg.guards && !g.key.OtherGuard? && g.message != ""
        ensures Retries(r.1, g.key) <= multiset(after)[User(g.message)]
        ensures r.0 == Some("") ==> Retries(r.1, g.key) <= multiset(log)[User(g.message)]
      {
        var j :| 0 <= j < |cfg.guards| && cfg.guards[j] == g;
        assert j != i ==> cfg.guards[j].key != cfg.guards[i].key;
      }
    }
  }

  lemma TurnedKeepsSent(cfg: Config, s: State, step: nat, t: Turn)
    requires Fits(cfg, s.chain) && DistinctGuards(cfg.guards) && cfg.condensation.None?
    requires Sent(cfg, s.messages, s.retries)
    ensures var next := Turned(cfg, s, step, t); Sent(cfg, next.messages, next.retries)
  {
    if !Exhausted(s.account, t.checkTime) {
      hide Sent, Fired, DistinctGuards, Exhausted, Advanced;
      var p := Prompted(cfg, s, t);
      SentGrows(cfg, s.messages, Users(t.injected), s.retries);
      SentGrows(cfg, s.messages + Users(t.injected), Delivered(Produced(cfg, s.chain, s.account, t)), s.retries);
      if t.reply.Answer? {
        var q := Answered(p, step, t.reply.usage, t.reply.calls);
        if t.reply.calls == [] {
          TextCheckFires(cfg, q);
          SentText(cfg, q, t.reply.content);
        } else {
          SentTools(cfg, q, t.reply.calls, t.summary);
        }
      }
    }
  }

  lemma SentText(cfg: Config, s: State, content: string)
    requires DistinctGuards(cfg.guards) && Sent(cfg, s.messages, s.retries)
    ensures var next := TextTurn(cfg, s, content); Sent(cfg, next.messages, next.retries)
  {
    hide Sent, Fired, DistinctGuards;
    var r := TextCheck(cfg, s);
    TextCheckFires(cfg, s);
    SentFires(cfg, s.messages, s.retries, r);
    SentGrows(cfg, s.messages, [Assistant(content)], s.retries);
    SentFires(cfg, s.messages + [Assistant(content)], s.retries, r);
    if r.0.Some? {
      assert s.messages + [Assistant(content), User(r.0.value)]
          == s.messages + [Assistant(content)] + [User(r.0.value)];
    }
  }

  lemma SentTools(cfg: Config, s: State, calls: seq<Call>, summary: string)
    requires DistinctGuards(cfg.guards) && cfg.condensation.None? && Sent(cfg, s.messages, s.retries)
    ensures var next := ToolTurn(cfg, s, calls, summary); Sent(cfg, next.messages, next.retries)
  {
    hide Sent, Fired, DistinctGuards;
    var log := s.messages + [ToolCalls(Refs(calls))] + Results(calls);
    SentGrows(cfg, s.messages, [ToolCalls(Refs(calls))], s.retries);
    SentGrows(cfg, s.messages + [ToolCalls(Refs(calls))], Results(calls), s.retries);
    CheckToolsFires(cfg.guards, s.called, s.retries);
    SentFires(cfg, log, s.retries, CheckTools(cfg.guards, s.called, s.retries));
  }

  lemma {:induction false} SentHolds(cfg: Config, messages: seq<Message>, env: nat -> Turn, k: nat)
    requires DistinctGuards(cfg.guards) && cfg.condensation.None?
    ensures var s := Before(cfg, messages, env, k); Sent(cfg, s.messages, s.retries)
  {
    hide Turned;
    if k > 0 {
      hide Sent;
      SentHolds(cfg, messages, env, k - 1);
      var s := Before(cfg, messages, env, k - 1);
      if s.status.Running? {
        TurnedKeepsSent(cfg, s, k - 1, env(k - 1));
      }
    }
  }

  /** The contract of the `require_tool` guards: a run that ends with AGENT_DONE
      has called every required tool or spent its guard - which, while no
      condensation rewrites the log, means that its message was sent twice. */
  lemma RunGuardContract(cfg: Config, messages: seq<Message>, env: nat -> Turn, forced: Option<string>)
    requires MessagesOk(cfg.guards)
    ensures var r := Run(cfg, messages, env, forced);
            && (r.end.AgentDone? ==> Honoured(cfg, r.last))
            && (r.end.AgentDone? && DistinctGuards(cfg.guards) && cfg.condensation.None? ==>
                 forall g :: g in cfg.guards && g.key.RequireTool? ==>
                   g.key.tool in r.last.called || multiset(r.last.messages)[User(g.message)] >= 2)
  {
    GuardContract(cfg, messages, env, cfg.limits.maxSteps);
    if DistinctGuards(cfg.guards) && cfg.condensation.None? {
      SentHolds(cfg, messages, env, cfg.limits.maxSteps);
    }
  }

  /** The calls of every required tool but one, then a closing call. */
  function AllBut(guards: seq<Guard>, tool: string): seq<Call> {
    if guards == [] then [Call("end", if tool == "done" then "answer" else "done", "", "", "", Some(""))]
    else
      (if guards[0].key.RequireTool? && guards[0].key.tool != tool
       then [Call("call", guards[0].key.tool, "", "", "", Some(""))] else [])
      + AllBut(guards[1..], tool)
  }

  lemma {:induction false} AllButFacts(guards: seq<Guard>, tool: string)
    ensures AllBut(guards, tool) != [] && Findings(AllBut(guards, tool)) == Some("")
            && tool !in Names(AllBut(guards, tool))
    ensures forall g :: g in guards && g.key.RequireTool? && g.key.tool != tool ==>
              g.key.tool in Names(AllBut(guards, tool))
  {
    var calls := AllBut(guards, tool);
    if guards != [] {
      var rest := AllBut(guards[1..], tool);
      AllButFacts(guards[1..], tool);
      FindingsAtEnd(calls[..|calls| - |rest|], rest);
      assert calls[..|calls| - |rest|] + rest == calls;
      assert forall c :: c in rest ==> c in calls;
      forall g | g in guards && g.key.RequireTool? && g.key.tool != tool ensures g.key.tool in Names(calls) {
        if g == guards[0] {
          assert calls[0].name == g.key.tool && calls[0] in calls;
        } else {
          assert g in guards[1..];
        }
      }
    } else {
      assert Closes(calls[0]);
    }
  }

  lemma {:induction false} FindingsAtEnd(a: seq<Call>, b: seq<Call>)
    requires Findings(b).Some?
    ensures Findings(a + b) == Findings(b)
  {
    var all := a + b;
    assert b != [] ==> all[|all| - 1] == b[|b| - 1];
    if b != [] && !Closes(b[|b| - 1]) {
      FindingsAtEnd(a, b[..|b| - 1]);
      assert all[..|all| - 1] == a + b[..|b| - 1];
    }
  }

  lemma {:induction false} EmptyFires(guards: seq<Guard>, called: set<string>, i: nat)
    requires i < |guards| && guards[i].key.RequireTool? && guards[i].message == "" && guards[i].key.tool !in called
    requires forall j :: 0 <= j < i && guards[j].key.RequireTool? ==> guards[j].key.tool in called
    ensures CheckTools(guards, called, map[]) == (Some(""), map[guards[i].key := 1])
  {
    if i > 0 {
      EmptyFires(guards[1..], called, i - 1);
    }
  }

  lemma {:induction false} EmptyTextFires(guards: seq<Guard>, i: nat)
    requires i < |guards| && guards[i].key == TextResponse && guards[i].message == ""
    requires forall j :: 0 <= j < i ==> guards[j].key != TextResponse
    ensures CheckText(guards, map[]).0 == Some("") && CheckText(guards, map[]).1 == map[TextResponse := 1]
  {
    if i > 0 {
      EmptyTextFires(guards[1..], i - 1);
    }
  }

  function QuietTurn(calls: seq<Call>): Turn {
    Turn(0.0, 0.0, 0.0, [], [], Answer(None, "", calls), "")
  }

  lemma FirstStep(cfg: Config, messages: seq<Message>, calls: seq<Call>) returns (q: State)
    ensures q.called == Names(calls) && q.retries == map[] && q.status.Running?
    ensures Turned(cfg, Start(cfg, messages), 0, QuietTurn(calls))
            == if calls == [] then TextTurn(cfg, q, "") else ToolTurn(cfg, q, calls, "")
  {
    hide Advanced, Produced, TextTurn, ToolTurn;
    var s, t := Start(cfg, messages), QuietTurn(calls);
    assert !Exhausted(s.account, 0.0);
    q := Answered(Prompted(cfg, s, t), 0, None, calls);
    assert {} + Names(calls) == Names(calls);
  }

  lemma EmptyToolMessageEnds(cfg: Config, messages: seq<Message>, i: nat)
    requires DistinctGuards(cfg.guards) && i < |cfg.guards| && cfg.guards[i].key.RequireTool?
            && cfg.guards[i].message == ""
    ensures var last := Turned(cfg, Start(cfg, messages), 0, QuietTurn(AllBut(cfg.guards, cfg.guards[i].key.tool)));
            last.status.Finished? && !Honoured(cfg, last)
  {
    hide Turned;
    var g := cfg.guards[i];
    var calls := AllBut(cfg.guards, g.key.tool);
    AllButFacts(cfg.guards, g.key.tool);
    var q := FirstStep(cfg, messages, calls);
    forall j | 0 <= j < i && cfg.guards[j].key.RequireTool? ensures cfg.guards[j].key.tool in q.called {
      assert cfg.guards[j] in cfg.guards;
    }
    EmptyFires(cfg.guards, q.called, i);
    assert g in cfg.guards;
  }

  lemma EmptyTextMessageEnds(cfg: Config, messages: seq<Message>, i: nat, g: Guard)
    requires DistinctGuards(cfg.guards) && i < |cfg.guards| && cfg.guards[i].key == TextResponse
            && cfg.guards[i].message == ""
    requires g in cfg.guards && g.key.RequireTool?
    ensures var last := Turned(cfg, Start(cfg, messages), 0, QuietTurn([]));
            last.status.NaturalStop? && !Honoured(cfg, last)
  {
    hide Turned;
    var q := FirstStep(cfg, messages, []);
    EmptyTextFires(cfg.guards, i);
    assert Names([]) == {};
  }

  /** An empty message is not a corner case the contract survives: whenever the
      condition on the messages fails, a model can end the run in one step with
      a required tool neither called nor asked for twice. So the contract holds
      for every run of a configuration exactly when `MessagesOk` does. */
  lemma EmptyMessageBreaks(cfg: Config, messages: seq<Message>) returns (env: nat -> Turn)
    requires DistinctGuards(cfg.guards) && !MessagesOk(cfg.guards) && cfg.limits.maxSteps > 0
    ensures var r := Run(cfg, messages, env, None);
            r.end.AgentDone? && !Honoured(cfg, r.last)
  {
    hide Turned, Honoured;
    var calls: seq<Call> := [];
    if exists h :: h in cfg.guards && h.key.RequireTool? && h.message == "" {
      var g :| g in cfg.guards && g.key.RequireTool? && g.message == "";
      var i: nat :| i < |cfg.guards| && cfg.guards[i] == g;
      calls := AllBut(cfg.guards, g.key.tool);
      EmptyToolMessageEnds(cfg, messages, i);
    } else {
      var h, g :| h in cfg.guards && g in cfg.guards && h.key == TextResponse && g.key.RequireTool? && h.message == "";
      var j: nat :| j < |cfg.guards| && cfg.guards[j] == h;
      EmptyTextMessageEnds(cfg, messages, j, g);
    }
    env := k => QuietTurn(calls);
    assert Before(cfg, messages, env, 0) == Start(cfg, messages);
    assert Before(cfg, messages, env, 1) == Turned(cfg, Start(cfg, messages), 0, QuietTurn(calls));
    StaysStopped(cfg, messages, env, cfg.limits.maxSteps);
  }

  /** A loop that stopped after its first step stays as it is. */
  lemma {:induction false} StaysStopped(cfg: Config, messages: seq<Message>, env: nat -> Turn, k: nat)
    requires k > 0 && !Before(cfg, messages, env, 1).status.Running?
    ensures Before(cfg, messages, env, k) == Before(cfg, messages, env, 1)
  {
    if k > 1 {
      StaysStopped(cfg, messages, env, k - 1);
    }
  }
}
