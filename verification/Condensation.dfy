/** Condensing a long message log (orchestra/condensation.py). */
module Condensation {
  import opened Wrappers
  import opened Messages

  datatype Strategy = LlmSummary | SlidingWindow | DropToolResults | Hybrid

  datatype Config = Config(trigger: int, strategy: Strategy, preserveLast: nat)

  const CUT := "... (condensed)"

  function Arguments(calls: seq<CallRef>): nat {
    if calls == [] then 0 else Arguments(calls[..|calls| - 1]) + |calls[|calls| - 1].arguments|
  }

  function Chars(m: Message): nat {
    match m
    case ToolCalls(calls) => Arguments(calls)
    case ToolResult(_, content) => |content|
    case System(t) => |t|
    case User(t) => |t|
    case Assistant(t) => |t|
  }

  function TotalChars(log: seq<Message>): nat {
    if log == [] then 0 else TotalChars(log[..|log| - 1]) + Chars(log[|log| - 1])
  }

  method EstimateTokens(log: seq<Message>) returns (tokens: nat)
    ensures tokens == TotalChars(log) / 4
  {
    var total := 0;
    for i := 0 to |log|
      invariant total == TotalChars(log[..i])
    {
      assert log[..i + 1][..i] == log[..i];
      total := total + Chars(log[i]);
    }
    assert log[..|log|] == log;
    return total / 4;
  }

  predicate ShouldCondense(log: seq<Message>, threshold: int) {
    TotalChars(log) / 4 > threshold
  }

  // --------------------------------------------------------- drop tool results

  function Truncated(content: string): string {
    if |content| > 200 then content[..200] + CUT else content
  }

  predicate KeptVerbatim(log: seq<Message>, keep: nat, i: nat)
    requires i < |log|
  {
    (i == 0 && log[0].System?) || i >= |log| - keep || !log[i].ToolResult?
  }

  function DroppedAt(log: seq<Message>, keep: nat, i: nat): Message
    requires i < |log|
  {
    if KeptVerbatim(log, keep, i) then log[i] else ToolResult(log[i].callId, Truncated(log[i].content))
  }

  function Dropped(log: seq<Message>, keep: nat): seq<Message> {
    seq(|log|, i requires 0 <= i < |log| => DroppedAt(log, keep, i))
  }

  method DropCondense(log: seq<Message>, keep: nat) returns (result: seq<Message>)
    ensures result == Dropped(log, keep)
  {
    result := [];
    for i := 0 to |log|
      invariant result == Dropped(log, keep)[..i]
    {
      var m := log[i];
      if i == 0 && m.System? {
        result := result + [m];
        continue;
      }
      if i >= |log| - keep {
        result := result + [m];
        continue;
      }
      if m.ToolResult? {
        if |m.content| > 200 {
          m := ToolResult(m.callId, m.content[..200] + CUT);
        }
      }
      result := result + [m];
    }
  }

  lemma TruncatedTwice(content: string)
    ensures Truncated(Truncated(content)) == Truncated(content)
  {
    if |content| > 200 {
      assert Truncated(content)[..200] == content[..200];
    }
  }

  /** Count, order, kinds and call ids are kept, the last `keep` messages are
      untouched, and condensing again changes nothing. */
  lemma DropIsIdempotent(log: seq<Message>, keep: nat)
    ensures Dropped(Dropped(log, keep), keep) == Dropped(log, keep)
    ensures SameShape(Dropped(log, keep), log)
    ensures keep <= |log| ==> Dropped(log, keep)[|log| - keep..] == log[|log| - keep..]
  {
    var once := Dropped(log, keep);
    forall i | 0 <= i < |log| ensures DroppedAt(once, keep, i) == once[i] {
      if !KeptVerbatim(log, keep, i) {
        TruncatedTwice(log[i].content);
      }
    }
  }

  // ------------------------------------------------------- summary and window

  function Head(log: seq<Message>): seq<Message> {
    if log != [] && log[0].System? then [log[0]] else []
  }

  /** The messages kept word for word. */
  function Recent(log: seq<Message>, keep: nat): seq<Message>
    requires keep <= |log| - |Head(log)|
  {
    log[|log| - keep..]
  }

  /** `summary` is whatever the model answered, or the truncated text when it failed. */
  function Summarized(log: seq<Message>, keep: nat, summary: string): seq<Message> {
    if |log| <= keep + 1 then log else Head(log) + [User(summary)] + Recent(log, keep)
  }

  /** With `keep` 0 the window keeps the whole body. */
  function Windowed(log: seq<Message>, keep: nat, header: string): seq<Message> {
    var body := |log| - |Head(log)|;
    if keep == 0 || body <= keep then log else Head(log) + [User(header)] + Recent(log, keep)
  }

  function Condense(log: seq<Message>, cfg: Config, summary: string): seq<Message> {
    match cfg.strategy
    case LlmSummary => Summarized(log, cfg.preserveLast, summary)
    case SlidingWindow => Windowed(log, cfg.preserveLast, summary)
    case DropToolResults => Dropped(log, cfg.preserveLast)
    case Hybrid =>
      var light := Dropped(log, cfg.preserveLast);
      if ShouldCondense(light, cfg.trigger) then Summarized(light, cfg.preserveLast, summary) else light
  }

  /** `_maybe_condense`; None when condensation is off. */
  function MaybeCondense(log: seq<Message>, cfg: Option<Config>, summary: string): seq<Message> {
    if cfg.None? || !ShouldCondense(log, cfg.value.trigger) then log else Condense(log, cfg.value, summary)
  }

  // ------------------------------------------------------- what condensing leaves

  function Leading(log: seq<Message>): nat { if log != [] && log[0].System? then 1 else 0 }

  /** Only tool results before the last `keep` messages change: from 201 characters
      on they keep the first 200 and end with the condensation mark. */
  ghost predicate Shortened(out: seq<Message>, log: seq<Message>, keep: nat) {
    && |out| == |log|
    && forall i :: 0 <= i < |log| ==>
         if log[i].ToolResult? && i + keep < |log| && |log[i].content| > 200
         then out[i] == ToolResult(log[i].callId, log[i].content[..200] + "... (condensed)")
         else out[i] == log[i]
  }

  /** A leading system message, one user message, the last `keep` messages word for word. */
  ghost predicate CutDown(out: seq<Message>, log: seq<Message>, keep: nat, text: string) {
    && keep <= |log| && |out| == Leading(log) + 1 + keep
    && out[..Leading(log)] == log[..Leading(log)] && out[Leading(log)] == User(text)
    && out[Leading(log) + 1..] == log[|log| - keep..]
  }

  lemma DroppedShortens(log: seq<Message>, keep: nat)
    ensures Shortened(Dropped(log, keep), log, keep)
  {
  }

  /** What each strategy returns, and when it returns the log as it is. */
  lemma CondensedForm(log: seq<Message>, cfg: Config, summary: string)
    ensures var out, keep := Condense(log, cfg, summary), cfg.preserveLast;
            match cfg.strategy
            case LlmSummary => if |log| <= keep + 1 then out == log else CutDown(out, log, keep, summary)
            case SlidingWindow =>
              if keep == 0 || |log| - Leading(log) <= keep then out == log else CutDown(out, log, keep, summary)
            case DropToolResults => Shortened(out, log, keep)
            case Hybrid =>
              exists light :: Shortened(light, log, keep)
                              && if TotalChars(light) / 4 <= cfg.trigger || |light| <= keep + 1 then out == light
                                 else CutDown(out, light, keep, summary)
  {
    hide TotalChars, Dropped;
    DroppedShortens(log, cfg.preserveLast);
  }

  /** What survives: a leading system message first, the last `keep` messages word for word. */
  ghost predicate KeepsEnds(out: seq<Message>, log: seq<Message>, keep: nat) {
    && (log != [] && log[0].System? ==> out != [] && out[0] == log[0])
    && (keep <= |log| ==> keep <= |out| && out[|out| - keep..] == log[|log| - keep..])
  }

  lemma CutDownKeeps(out: seq<Message>, log: seq<Message>, keep: nat, text: string)
    requires CutDown(out, log, keep, text)
    ensures KeepsEnds(out, log, keep) && |out| <= keep + 2
  {
    if Leading(log) == 1 {
      assert out[0] == out[..1][0] && log[0] == log[..1][0];
    }
  }

  lemma ShortenedKeeps(out: seq<Message>, log: seq<Message>, keep: nat)
    requires Shortened(out, log, keep)
    ensures KeepsEnds(out, log, keep)
  {
  }

  lemma KeepsBoth(out: seq<Message>, light: seq<Message>, log: seq<Message>, keep: nat)
    requires KeepsEnds(out, light, keep) && KeepsEnds(light, log, keep) && |light| == |log|
    ensures KeepsEnds(out, log, keep)
  {
  }

  /** Whatever the strategy, and a summary leaves at most two messages more. */
  lemma CondenseKeeps(log: seq<Message>, cfg: Config, summary: string)
    ensures var out, keep := Condense(log, cfg, summary), cfg.preserveLast;
            KeepsEnds(out, log, keep) && (|out| == |log| || |out| <= keep + 2)
  {
    hide Condense, TotalChars, CutDown, Shortened, KeepsEnds;
    CondensedForm(log, cfg, summary);
    var out, keep := Condense(log, cfg, summary), cfg.preserveLast;
    AsItIs(log, keep);
    if CutDown(out, log, keep, summary) {
      CutDownKeeps(out, log, keep, summary);
    }
    match cfg.strategy
    case DropToolResults =>
      ShortenedKeeps(out, log, keep);
      DroppedSize(out, log, keep);
    case Hybrid =>
      var light :| Shortened(light, log, keep)
                   && if TotalChars(light) / 4 <= cfg.trigger || |light| <= keep + 1 then out == light
                      else CutDown(out, light, keep, summary);
      DroppedSize(light, log, keep);
      ShortenedKeeps(light, log, keep);
      if CutDown(out, light, keep, summary) {
        CutDownKeeps(out, light, keep, summary);
        KeepsBoth(out, light, log, keep);
      }
    case _ =>
  }

  lemma AsItIs(log: seq<Message>, keep: nat)
    ensures KeepsEnds(log, log, keep)
  {
  }

  lemma DroppedSize(out: seq<Message>, log: seq<Message>, keep: nat)
    requires Shortened(out, log, keep)
    ensures |out| == |log|
  {
  }

  /** Nothing happens unless a quarter of the characters exceeds the trigger; then the strategy decides. */
  lemma CondensesWhen(log: seq<Message>, cfg: Option<Config>, summary: string)
    ensures MaybeCondense(log, cfg, summary)
            == if cfg.Some? && TotalChars(log) / 4 > cfg.value.trigger then Condense(log, cfg.value, summary) else log
  {
    hide TotalChars;
  }

  // -------------------------------------------------------------- counting characters

  lemma {:induction false} CharsAppend(a: seq<Message>, b: seq<Message>)
    ensures TotalChars(a + b) == TotalChars(a) + TotalChars(b)
  {
    if b == [] {
      assert a + b == a;
    } else {
      CharsAppend(a, b[..|b| - 1]);
      assert (a + b)[..|a + b| - 1] == a + b[..|b| - 1];
    }
  }

  lemma {:induction false} ArgumentsAppend(a: seq<CallRef>, b: seq<CallRef>)
    ensures Arguments(a + b) == Arguments(a) + Arguments(b)
  {
    if b == [] {
      assert a + b == a;
    } else {
      ArgumentsAppend(a, b[..|b| - 1]);
      assert (a + b)[..|a + b| - 1] == a + b[..|b| - 1];
    }
  }

  /** Every character of a content and of a call's arguments counts once. */
  lemma CharsOfOne(text: string, id: string, call: CallRef, a: seq<CallRef>, b: seq<CallRef>)
    ensures TotalChars([System(text)]) == TotalChars([User(text)]) == TotalChars([Assistant(text)]) == |text|
    ensures TotalChars([ToolResult(id, text)]) == |text|
    ensures TotalChars([ToolCalls([call])]) == |call.arguments|
    ensures TotalChars([ToolCalls(a + b)]) == TotalChars([ToolCalls(a)]) + TotalChars([ToolCalls(b)])
  {
    OneChars(System(text));
    OneChars(User(text));
    OneChars(Assistant(text));
    OneChars(ToolResult(id, text));
    OneChars(ToolCalls([call]));
    var one := [call];
    assert one[..0] == [] && Arguments(one) == |call.arguments|;
    OneChars(ToolCalls(a + b));
    OneChars(ToolCalls(a));
    OneChars(ToolCalls(b));
    ArgumentsAppend(a, b);
  }

  lemma OneChars(m: Message)
    ensures TotalChars([m]) == Chars(m)
  {
    assert [m][..0] == [];
  }

  // ----------------------------------------------------------------- and pairing

  /** Where the summary and the window cut a paired log: the result is paired
      exactly when the first kept message is not a tool result. */
  lemma CutKeepsPairing(log: seq<Message>, keep: nat, summary: string)
    requires Paired(log) && keep <= |log| - |Head(log)|
    ensures Paired(Head(log) + [User(summary)] + Recent(log, keep))
            <==> keep == 0 || !log[|log| - keep].ToolResult?
  {
    var front := Head(log) + [User(summary)];
    PlainPaired(front);
    PairedAppend(front, Recent(log, keep));
    PairedSuffix(log, |log| - keep);
  }

  /** Whether the condensed log starts its kept part with an orphaned tool result. */
  predicate CutsBlock(log: seq<Message>, cfg: Config) {
    var keep := cfg.preserveLast;
    match cfg.strategy
    case DropToolResults => false
    case LlmSummary => |log| > keep + 1 && keep > 0 && log[|log| - keep].ToolResult?
    case SlidingWindow => keep > 0 && |log| - |Head(log)| > keep && log[|log| - keep].ToolResult?
    case Hybrid =>
      ShouldCondense(Dropped(log, keep), cfg.trigger) && |log| > keep + 1 && keep > 0 && log[|log| - keep].ToolResult?
  }

  /** Condensing a paired log gives a paired log exactly when it cuts no block. */
  lemma CondensePairing(log: seq<Message>, cfg: Config, summary: string)
    requires Paired(log)
    ensures Paired(Condense(log, cfg, summary)) <==> !CutsBlock(log, cfg)
  {
    hide Paired, SameShape, TotalChars, KeptVerbatim;
    var keep := cfg.preserveLast;
    DropIsIdempotent(log, keep);
    ShapePaired(Dropped(log, keep), log);
    if keep <= |log| - |Head(log)| {
      CutKeepsPairing(log, keep, summary);
      CutKeepsPairing(Dropped(log, keep), keep, summary);
    }
  }

  function OneCall(id: string, content: string): seq<Message> {
    [ToolCalls([CallRef(id, "look", "")]), ToolResult(id, content)]
  }

  /** With the default strategy and its five preserved messages, three steps of
      one call each are enough: the cut falls between a call and its result,
      whatever came before. */
  lemma DefaultsOrphan(log: seq<Message>, id: string, content: string, trigger: int, summary: string)
    requires log != [] && Paired(log)
    ensures var steps := log + OneCall(id, content) + OneCall(id, content) + OneCall(id, content);
            && Paired(steps)
            && steps[|steps| - 5].ToolResult?
            && !Paired(Condense(steps, Config(trigger, LlmSummary, 5), summary))
  {
    var block := OneCall(id, content);
    BlockPaired(block[0].calls, block[1..]);
    assert [block[0]] + block[1..] == block;
    PairedAppend(log, block);
    PairedAppend(log + block, block);
    PairedAppend(log + block + block, block);
    CondensePairing(log + block + block + block, Config(trigger, LlmSummary, 5), summary);
  }
}
