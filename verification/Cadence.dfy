/** The reflect cadence: `ReflectCadenceCounter` and `ReflectCadencePusher` (orchestra/budget.py). */
module Cadence {
  import opened Wrappers
  import opened Escalation

  /** One tool call of a step: its name and whether its arguments failed validation. */
  datatype Outcome = Outcome(tool: string, isError: bool)

  function NonReflect(outcomes: seq<Outcome>): nat {
    if outcomes == [] then 0
    else
      var o := outcomes[|outcomes| - 1];
      NonReflect(outcomes[..|outcomes| - 1]) + if o.tool == "reflect" || o.tool == "done" then 0 else 1
  }

  predicate ReflectedOk(outcomes: seq<Outcome>) {
    exists o :: o in outcomes && o.tool == "reflect" && !o.isError
  }

  function Counted(counter: nat, outcomes: seq<Outcome>): nat {
    if ReflectedOk(outcomes) then NonReflect(outcomes) else counter + NonReflect(outcomes)
  }

  class ReflectCadenceCounter {
    var counter: nat

    constructor ()
      ensures counter == 0
    {
      counter := 0;
    }

    method OnStepDone(outcomes: seq<Outcome>)
      modifies this
      ensures counter == Counted(old(counter), outcomes)
    {
      var nonReflect := 0;
      var reflectedOk := false;
      for i := 0 to |outcomes|
        invariant nonReflect == NonReflect(outcomes[..i])
        invariant reflectedOk == ReflectedOk(outcomes[..i])
      {
        var o := outcomes[i];
        assert outcomes[..i + 1] == outcomes[..i] + [o] && outcomes[..i + 1][..i] == outcomes[..i];
        if o.tool != "reflect" && o.tool != "done" {
          nonReflect := nonReflect + 1;
        }
        if o.tool == "reflect" && !o.isError {
          reflectedOk := true;
        }
      }
      assert outcomes[..|outcomes|] == outcomes;
      if reflectedOk {
        counter := nonReflect;
      } else {
        counter := counter + nonReflect;
      }
    }
  }

  /** The per-cycle latches and the counter last seen. */
  datatype Latches = Latches(nudged: bool, forced: bool, last: nat)

  const FRESH := Latches(false, false, 0)

  /** The latches after a counter drop has been noticed. */
  function Rearmed(l: Latches, counter: nat): Latches {
    if counter < l.last then Latches(false, false, counter) else l.(last := counter)
  }

  predicate Forces(l: Latches, threshold: real, multiplier: Option<real>, counter: nat) {
    multiplier.Some? && !l.forced && counter as real >= multiplier.value * threshold
  }

  function Ticked(l: Latches, threshold: real, multiplier: Option<real>, counter: nat): Latches {
    if threshold <= 0.0 then l
    else
      var r := Rearmed(l, counter);
      if Forces(r, threshold, multiplier, counter) then r.(forced := true)
      else if !r.nudged && counter as real >= threshold then r.(nudged := true)
      else r
  }

  function TickActions(l: Latches, threshold: real, multiplier: Option<real>, counter: nat,
                       message: string): seq<Action> {
    if threshold <= 0.0 then []
    else
      var r := Rearmed(l, counter);
      if Forces(r, threshold, multiplier, counter) then [Action(ForceReflect, "")]
      else if !r.nudged && counter as real >= threshold then [Action(Nudge, message)]
      else []
  }

  class ReflectCadencePusher {
    const threshold: real
    const multiplier: Option<real>
    const message: string
    var nudgedInCycle: bool
    var forcedInCycle: bool
    var lastCounter: nat

    constructor (threshold: real, multiplier: Option<real>, message: string)
      ensures this.threshold == threshold && this.multiplier == multiplier && this.message == message
      ensures Value() == FRESH
    {
      this.threshold := threshold;
      this.multiplier := multiplier;
      this.message := message;
      nudgedInCycle, forcedInCycle, lastCounter := false, false, 0;
    }

    function Value(): Latches
      reads this
    {
      Latches(nudgedInCycle, forcedInCycle, lastCounter)
    }

    method Apply(counter: nat) returns (actions: seq<Action>)
      modifies this
      ensures Value() == Ticked(old(Value()), threshold, multiplier, counter)
      ensures actions == TickActions(old(Value()), threshold, multiplier, counter, message)
    {
      actions := [];
      if threshold <= 0.0 {
        return;
      }
      if counter < lastCounter {
        nudgedInCycle := false;
        forcedInCycle := false;
      }
      lastCounter := counter;
      if multiplier.Some? && !forcedInCycle && counter as real >= multiplier.value * threshold {
        forcedInCycle := true;
        actions := [Action(ForceReflect, "")];
      } else if !nudgedInCycle && counter as real >= threshold {
        nudgedInCycle := true;
        actions := [Action(Nudge, message)];
      }
    }
  }

  // ------------------------------------------------------------------ whole runs

  /** A step of a run: the outcomes of its tool calls, or None when the model called no tool. */
  type Step = Option<seq<Outcome>>

  /** The counter after a run of steps. */
  function CounterAfter(steps: seq<Step>): nat {
    if steps == [] then 0
    else
      var before := CounterAfter(steps[..|steps| - 1]);
      match steps[|steps| - 1] case None => before case Some(outcomes) => Counted(before, outcomes)
  }

  predicate Reflects(step: Step) { step.Some? && ReflectedOk(step.value) }

  /** Calls other than reflect and done in the steps from `from` on. */
  function CallsFrom(steps: seq<Step>, from: nat): nat
    requires from <= |steps|
  {
    if |steps| == from then 0
    else
      CallsFrom(steps[..|steps| - 1], from)
      + match steps[|steps| - 1] case None => 0 case Some(outcomes) => NonReflect(outcomes)
  }

  /** `from` is the last step with a valid reflect, or the start of the run. */
  ghost predicate CycleStart(steps: seq<Step>, from: nat) {
    && from <= |steps|
    && (from == 0 || (from < |steps| && Reflects(steps[from])))
    && forall k :: from < k < |steps| ==> !Reflects(steps[k])
  }

  /** The counter is the number of calls since, and including, the last step with a valid reflect. */
  lemma {:induction false} CounterCounts(steps: seq<Step>, from: nat)
    requires CycleStart(steps, from)
    ensures CounterAfter(steps) == CallsFrom(steps, from)
  {
    if steps != [] {
      var k := |steps| - 1;
      var before, last := steps[..k], steps[k];
      if from == k && Reflects(last) {
        assert CallsFrom(before, k) == 0;
      } else if from <= k {
        if from == k {
          assert before == [] && CounterAfter(before) == 0;
        } else {
          CounterCounts(before, from);
        }
      }
    }
  }

  /** The positions of the calls that count. */
  function Counting(outcomes: seq<Outcome>): set<nat> {
    set i: nat | i < |outcomes| && outcomes[i].tool != "reflect" && outcomes[i].tool != "done"
  }

  /** Every call counts once, valid or not, except `reflect` and `done`. */
  lemma {:induction false} NonReflectCounts(outcomes: seq<Outcome>)
    ensures NonReflect(outcomes) == |Counting(outcomes)|
  {
    if outcomes == [] {
      assert Counting(outcomes) == {};
    } else {
      var n := |outcomes| - 1;
      var front, o := outcomes[..n], outcomes[n];
      NonReflectCounts(front);
      if o.tool == "reflect" || o.tool == "done" {
        assert Counting(outcomes) == Counting(front);
      } else {
        assert Counting(outcomes) == Counting(front) + {n};
      }
    }
  }

  /** The latches after the pusher has seen the given counters. */
  function LatchesAfter(counters: seq<nat>, threshold: real): Latches {
    if counters == [] then FRESH
    else Ticked(LatchesAfter(counters[..|counters| - 1], threshold), threshold, None, counters[|counters| - 1])
  }

  /** The pusher nudges when it sees counter `k`. */
  predicate NudgesAt(counters: seq<nat>, threshold: real, k: nat)
    requires k < |counters|
  {
    TickActions(LatchesAfter(counters[..k], threshold), threshold, None, counters[k], "") != []
  }

  predicate Drops(counters: seq<nat>, k: nat)
    requires k < |counters|
  {
    k > 0 && counters[k] < counters[k - 1]
  }

  predicate High(counters: seq<nat>, threshold: real, k: nat)
    requires k < |counters|
  {
    counters[k] as real >= threshold
  }

  /** `k` is the first position at or above the threshold since the counter last dropped. */
  ghost predicate FirstHigh(counters: seq<nat>, threshold: real, k: nat)
    requires k < |counters|
  {
    && High(counters, threshold, k)
    && forall m :: 0 <= m < k && High(counters, threshold, m) ==> exists d :: m < d <= k && Drops(counters, d)
  }

  /** What the latches remember: the last counter, and whether the cycle has been high. */
  lemma {:induction false} LatchesMean(counters: seq<nat>, threshold: real, n: nat)
    requires threshold > 0.0 && n <= |counters|
    ensures var l := LatchesAfter(counters[..n], threshold);
            && !l.forced
            && l.last == (if n == 0 then 0 else counters[n - 1])
            && (l.nudged <==> exists m :: 0 <= m < n && High(counters, threshold, m)
                                          && forall d :: m < d < n ==> !Drops(counters, d))
  {
    if n > 0 {
      LatchesMean(counters, threshold, n - 1);
      assert counters[..n][..n - 1] == counters[..n - 1];
      var before, now := LatchesAfter(counters[..n - 1], threshold), LatchesAfter(counters[..n], threshold);
      if before.nudged && !Drops(counters, n - 1) {
        var m :| 0 <= m < n - 1 && High(counters, threshold, m) && forall d :: m < d < n - 1 ==> !Drops(counters, d);
        assert forall d :: m < d < n ==> !Drops(counters, d);
      }
      if now.nudged && !High(counters, threshold, n - 1) {
        assert before.nudged && !Drops(counters, n - 1);
      }
    }
  }

  /** A nudge comes exactly when the counter is at or above the threshold for the first time since it last dropped. */
  lemma NudgeIff(counters: seq<nat>, threshold: real, k: nat)
    requires threshold > 0.0 && k < |counters|
    ensures NudgesAt(counters, threshold, k) <==> FirstHigh(counters, threshold, k)
  {
    LatchesMean(counters, threshold, k);
    var l := LatchesAfter(counters[..k], threshold);
    if High(counters, threshold, k) && !Drops(counters, k) {
      if l.nudged {
        var m :| 0 <= m < k && High(counters, threshold, m) && forall d :: m < d < k ==> !Drops(counters, d);
        assert !exists d :: m < d <= k && Drops(counters, d);
      } else {
        forall m | 0 <= m < k && High(counters, threshold, m) ensures exists d :: m < d <= k && Drops(counters, d) {
          var d :| m < d < k && Drops(counters, d);
        }
      }
    }
  }

  // ----------------------------------------------------- forcing a reflect

  /** The latches of a pusher with a multiplier after the given counters. */
  function LatchesWith(counters: seq<nat>, threshold: real, multiplier: real): Latches {
    if counters == [] then FRESH
    else
      var front := counters[..|counters| - 1];
      Ticked(LatchesWith(front, threshold, multiplier), threshold, Some(multiplier), counters[|counters| - 1])
  }

  lemma {:induction false} ForcedMeans(counters: seq<nat>, threshold: real, multiplier: real, bar: real, n: nat)
    requires threshold > 0.0 && n <= |counters| && bar == multiplier * threshold
    ensures var l := LatchesWith(counters[..n], threshold, multiplier);
            && l.last == (if n == 0 then 0 else counters[n - 1])
            && (l.forced <==> exists m :: 0 <= m < n && High(counters, bar, m)
                                          && forall d :: m < d < n ==> !Drops(counters, d))
  {
    if n > 0 {
      ForcedMeans(counters, threshold, multiplier, bar, n - 1);
      assert counters[..n][..n - 1] == counters[..n - 1];
      var before := LatchesWith(counters[..n - 1], threshold, multiplier);
      var now := LatchesWith(counters[..n], threshold, multiplier);
      TickForces(before, threshold, multiplier, bar, counters[n - 1], "");
      if before.forced && !Drops(counters, n - 1) {
        var m :| 0 <= m < n - 1 && High(counters, bar, m) && forall d :: m < d < n - 1 ==> !Drops(counters, d);
        assert forall d :: m < d < n ==> !Drops(counters, d);
      }
      if now.forced && !High(counters, bar, n - 1) {
        assert before.forced && !Drops(counters, n - 1);
      }
    }
  }

  /** One tick of a pusher with a multiplier. */
  lemma TickForces(l: Latches, threshold: real, multiplier: real, bar: real, counter: nat, message: string)
    requires threshold > 0.0 && bar == multiplier * threshold
    ensures var now := Ticked(l, threshold, Some(multiplier), counter);
            && now.last == counter
            && (now.forced <==> counter as real >= bar || (l.forced && counter >= l.last))
    ensures TickActions(l, threshold, Some(multiplier), counter, message) == [Action(ForceReflect, "")]
            || TickActions(l, threshold, Some(multiplier), counter, message) == [Action(Nudge, message)]
            || TickActions(l, threshold, Some(multiplier), counter, message) == []
    ensures TickActions(l, threshold, Some(multiplier), counter, message) == [Action(ForceReflect, "")]
            <==> counter as real >= bar && !(l.forced && counter >= l.last)
  {
  }

  /** A reflect is forced exactly when the counter reaches the multiplied threshold
      for the first time since it last dropped. */
  lemma ForceIff(counters: seq<nat>, threshold: real, multiplier: real, k: nat, message: string)
    requires threshold > 0.0 && k < |counters|
    ensures var l := LatchesWith(counters[..k], threshold, multiplier);
            TickActions(l, threshold, Some(multiplier), counters[k], message) == [Action(ForceReflect, "")]
            <==> FirstHigh(counters, multiplier * threshold, k)
  {
    hide Ticked, TickActions;
    var bar := multiplier * threshold;
    ForcedMeans(counters, threshold, multiplier, bar, k);
    var l := LatchesWith(counters[..k], threshold, multiplier);
    TickForces(l, threshold, multiplier, bar, counters[k], message);
    if High(counters, bar, k) && !Drops(counters, k) {
      if l.forced {
        var m :| 0 <= m < k && High(counters, bar, m) && forall d :: m < d < k ==> !Drops(counters, d);
        assert !exists d :: m < d <= k && Drops(counters, d);
      } else {
        forall m | 0 <= m < k && High(counters, bar, m) ensures exists d :: m < d <= k && Drops(counters, d) {
          var d :| m < d < k && Drops(counters, d);
        }
      }
    }
  }

  function Nudges(counters: seq<nat>, threshold: real, n: nat): nat
    requires n <= |counters|
  {
    if n == 0 then 0 else Nudges(counters, threshold, n - 1) + if NudgesAt(counters, threshold, n - 1) then 1 else 0
  }

  /** The counters the pusher sees: before the first step, after each step. */
  ghost predicate Seen(steps: seq<Step>, counters: seq<nat>) {
    |counters| == |steps| + 1 && forall k :: 0 <= k < |counters| ==> counters[k] == CounterAfter(steps[..k])
  }

  function ValidReflects(steps: seq<Step>, n: nat): nat
    requires n <= |steps|
  {
    if n == 0 then 0 else ValidReflects(steps, n - 1) + if Reflects(steps[n - 1]) then 1 else 0
  }

  /** Over a run the nudges are at most one more than the steps with a valid reflect. */
  lemma {:induction false} NudgesBounded(steps: seq<Step>, counters: seq<nat>, threshold: real, n: nat)
    requires threshold > 0.0 && Seen(steps, counters) && 0 < n <= |counters|
    ensures Nudges(counters, threshold, n)
            <= ValidReflects(steps, n - 1) + if LatchesAfter(counters[..n], threshold).nudged then 1 else 0
  {
    assert counters[..n][..n - 1] == counters[..n - 1];
    if n == 1 {
      assert counters[..0] == [];
      assert Nudges(counters, threshold, 1) == if NudgesAt(counters, threshold, 0) then 1 else 0;
    } else {
      NudgesBounded(steps, counters, threshold, n - 1);
      LatchesMean(counters, threshold, n - 1);
      assert steps[..n - 1][..n - 2] == steps[..n - 2];
      assert counters[n - 1] == CounterAfter(steps[..n - 1]) && counters[n - 2] == CounterAfter(steps[..n - 2]);
    }
  }
}
