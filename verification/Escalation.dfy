/** The latched escalation levels of one budget axis: `RatioEscalationPusher` (orchestra/budget.py). */
module Escalation {
  import opened Wrappers

  datatype PusherType = Nudge | ForceReflect | ForceDone | Custom

  datatype Action = Action(kind: PusherType, message: string)

  datatype Level = Level(threshold: real, kind: PusherType, message: string)

  /** The messages of one axis. */
  datatype Wording = Wording(nudge: string, nudgeHigh: string, forceDone: string)

  function InsertLevel(levels: seq<Level>, l: Level): seq<Level> {
    if levels != [] && l.threshold < levels[|levels| - 1].threshold
    then InsertLevel(levels[..|levels| - 1], l) + [levels[|levels| - 1]] else levels + [l]
  }

  function SortLevels(levels: seq<Level>): seq<Level> {
    if levels == [] then [] else InsertLevel(SortLevels(levels[..|levels| - 1]), levels[|levels| - 1])
  }

  ghost predicate Sorted(levels: seq<Level>) {
    forall i, j :: 0 <= i < j < |levels| ==> levels[i].threshold <= levels[j].threshold
  }

  lemma SortedAppend(levels: seq<Level>, l: Level)
    requires Sorted(levels)
    requires levels == [] || levels[|levels| - 1].threshold <= l.threshold
             || forall x :: x in levels ==> x.threshold <= l.threshold
    ensures Sorted(levels + [l])
  {
    forall i | 0 <= i < |levels| ensures levels[i].threshold <= l.threshold {
      assert i == |levels| - 1 || levels[i].threshold <= levels[|levels| - 1].threshold;
    }
  }

  lemma {:induction false} InsertSorts(levels: seq<Level>, l: Level)
    requires Sorted(levels)
    ensures Sorted(InsertLevel(levels, l))
    ensures multiset(InsertLevel(levels, l)) == multiset(levels) + multiset{l}
  {
    if levels != [] && l.threshold < levels[|levels| - 1].threshold {
      var front, last := levels[..|levels| - 1], levels[|levels| - 1];
      var inserted := InsertLevel(front, l);
      InsertSorts(front, l);
      assert levels == front + [last];
      forall i | 0 <= i < |inserted| ensures inserted[i].threshold <= last.threshold {
        assert inserted[i] in multiset(inserted);
        if inserted[i] != l {
          assert inserted[i] in multiset(front);
          assert inserted[i] in front;
        }
      }
      SortedAppend(inserted, last);
      assert multiset(inserted + [last]) == multiset(inserted) + multiset{last};
    } else {
      SortedAppend(levels, l);
    }
  }

  /** The levels come out in ascending order, none lost. */
  lemma {:induction false} SortSorts(levels: seq<Level>)
    ensures Sorted(SortLevels(levels)) && multiset(SortLevels(levels)) == multiset(levels)
  {
    if levels != [] {
      SortSorts(levels[..|levels| - 1]);
      InsertSorts(SortLevels(levels[..|levels| - 1]), levels[|levels| - 1]);
      assert levels == levels[..|levels| - 1] + [levels[|levels| - 1]];
    }
  }

  function Optional(at: Option<real>, kind: PusherType, message: string): seq<Level> {
    match at case None => [] case Some(x) => [Level(x, kind, message)]
  }

  /** The levels a constructor call configures, in the order it appends them. */
  function Configured(nudgeAt: real, nudgeHighAt: Option<real>, forceDoneAt: Option<real>, forceReflectAt: Option<real>,
                      w: Wording): seq<Level> {
    [Level(nudgeAt, Nudge, w.nudge)] + Optional(nudgeHighAt, Nudge, w.nudgeHigh)
    + Optional(forceDoneAt, ForceDone, w.forceDone) + Optional(forceReflectAt, ForceReflect, "")
  }

  // ------------------------------------------------------------ one application

  function Latched(levels: seq<Level>, fired: seq<bool>, ratio: Option<real>): (r: seq<bool>)
    requires |fired| == |levels|
    ensures |r| == |levels|
  {
    seq(|levels|, i requires 0 <= i < |levels| => fired[i] || (ratio.Some? && ratio.value >= levels[i].threshold))
  }

  /** The levels that fire now, by index. */
  function Firing(levels: seq<Level>, fired: seq<bool>, ratio: Option<real>, n: nat): seq<nat>
    requires |fired| == |levels| && n <= |levels|
  {
    if n == 0 || ratio.None? then []
    else Firing(levels, fired, ratio, n - 1)
         + if !fired[n - 1] && ratio.value >= levels[n - 1].threshold then [n - 1] else []
  }

  predicate InRange(which: seq<nat>, n: nat) { forall k :: 0 <= k < |which| ==> which[k] < n }

  function ActionsOf(levels: seq<Level>, which: seq<nat>): seq<Action>
    requires InRange(which, |levels|)
  {
    seq(|which|, k requires 0 <= k < |which| => Action(levels[which[k]].kind, levels[which[k]].message))
  }

  lemma {:induction false} FiringInRange(levels: seq<Level>, fired: seq<bool>, ratio: Option<real>, n: nat)
    requires |fired| == |levels| && n <= |levels|
    ensures InRange(Firing(levels, fired, ratio, n), |levels|)
  {
    if n > 0 && ratio.Some? {
      FiringInRange(levels, fired, ratio, n - 1);
    }
  }

  /** The actions of one application. */
  function Emitted(levels: seq<Level>, fired: seq<bool>, ratio: Option<real>): seq<Action>
    requires |fired| == |levels|
  {
    FiringInRange(levels, fired, ratio, |levels|);
    ActionsOf(levels, Firing(levels, fired, ratio, |levels|))
  }

  /** Level `i` is due: it has not fired and the ratio has reached its threshold. */
  predicate DueLevel(levels: seq<Level>, fired: seq<bool>, ratio: Option<real>, i: nat)
    requires |fired| == |levels|
  {
    i < |levels| && !fired[i] && ratio.Some? && ratio.value >= levels[i].threshold
  }

  /** The actions of exactly the levels that are due, in order, each with its level's kind and message. */
  ghost predicate ActsOnDue(actions: seq<Action>, levels: seq<Level>, fired: seq<bool>, ratio: Option<real>) {
    |fired| == |levels| && exists at: seq<nat> :: ActsAt(actions, levels, fired, ratio, at)
  }

  ghost predicate ActsAt(actions: seq<Action>, levels: seq<Level>, fired: seq<bool>, ratio: Option<real>, at: seq<nat>)
    requires |fired| == |levels|
  {
    && |at| == |actions|
    && (forall i, j :: 0 <= i < j < |at| ==> at[i] < at[j])
    && (forall i: nat :: i in at <==> DueLevel(levels, fired, ratio, i))
    && (forall k :: 0 <= k < |at| ==>
         at[k] < |levels| && actions[k] == Action(levels[at[k]].kind, levels[at[k]].message))
  }

  lemma {:induction false} FiringDue(levels: seq<Level>, fired: seq<bool>, ratio: Option<real>, n: nat)
    requires |fired| == |levels| && n <= |levels|
    ensures var at := Firing(levels, fired, ratio, n);
            && (forall i, j :: 0 <= i < j < |at| ==> at[i] < at[j])
            && (forall i: nat :: i in at <==> i < n && DueLevel(levels, fired, ratio, i))
  {
    if n > 0 && ratio.Some? {
      FiringDue(levels, fired, ratio, n - 1);
      var before, at := Firing(levels, fired, ratio, n - 1), Firing(levels, fired, ratio, n);
      forall i, j | 0 <= i < j < |at| ensures at[i] < at[j] {
        assert at[i] == before[i] && before[i] in before;
        assert j < |before| ==> at[j] == before[j];
      }
    }
  }

  lemma EmittedActs(levels: seq<Level>, fired: seq<bool>, ratio: Option<real>)
    requires |fired| == |levels|
    ensures ActsOnDue(Emitted(levels, fired, ratio), levels, fired, ratio)
  {
    FiringDue(levels, fired, ratio, |levels|);
    FiringInRange(levels, fired, ratio, |levels|);
    assert ActsAt(Emitted(levels, fired, ratio), levels, fired, ratio, Firing(levels, fired, ratio, |levels|));
  }

  class RatioEscalationPusher {
    const levels: seq<Level>
    var fired: seq<bool>

    constructor (nudgeAt: real, nudgeHighAt: Option<real>, forceDoneAt: Option<real>, forceReflectAt: Option<real>,
                 w: Wording)
      ensures levels == SortLevels(Configured(nudgeAt, nudgeHighAt, forceDoneAt, forceReflectAt, w))
      ensures Sorted(levels) && fired == Unfired(|levels|)
    {
      SortSorts(Configured(nudgeAt, nudgeHighAt, forceDoneAt, forceReflectAt, w));
      levels := SortLevels(Configured(nudgeAt, nudgeHighAt, forceDoneAt, forceReflectAt, w));
      fired := Unfired(|SortLevels(Configured(nudgeAt, nudgeHighAt, forceDoneAt, forceReflectAt, w))|);
    }

    method Apply(ratio: Option<real>) returns (actions: seq<Action>)
      requires |fired| == |levels|
      modifies this
      ensures fired == Latched(levels, old(fired), ratio)
      ensures actions == Emitted(levels, old(fired), ratio)
    {
      actions := [];
      if ratio.None? {
        assert fired == Latched(levels, fired, ratio);
        return;
      }
      ghost var start := fired;
      for i := 0 to |levels|
        invariant |fired| == |levels|
        invariant forall j :: 0 <= j < i ==> fired[j] == Latched(levels, start, ratio)[j]
        invariant forall j :: i <= j < |levels| ==> fired[j] == start[j]
        invariant var which := Firing(levels, start, ratio, i);
                  InRange(which, |levels|) && actions == ActionsOf(levels, which)
      {
        FiringInRange(levels, start, ratio, i + 1);
        if fired[i] {
          continue;
        }
        if ratio.value < levels[i].threshold {
          continue;
        }
        fired := fired[i := true];
        assert Firing(levels, start, ratio, i + 1) == Firing(levels, start, ratio, i) + [i];
        actions := actions + [Action(levels[i].kind, levels[i].message)];
      }
    }
  }

  // ------------------------------------------------------------------ whole runs

  function Unfired(n: nat): seq<bool> { seq(n, _ => false) }

  /** The latches after a run of applications. */
  function After(levels: seq<Level>, ratios: seq<Option<real>>): (fired: seq<bool>)
    ensures |fired| == |levels|
  {
    if ratios == [] then Unfired(|levels|)
    else Latched(levels, After(levels, ratios[..|ratios| - 1]), ratios[|ratios| - 1])
  }

  /** The indices of all levels fired during a run, in order. */
  function FiredLog(levels: seq<Level>, ratios: seq<Option<real>>): seq<nat> {
    if ratios == [] then []
    else
      var before := ratios[..|ratios| - 1];
      FiredLog(levels, before) + Firing(levels, After(levels, before), ratios[|ratios| - 1], |levels|)
  }

  /** A level is latched exactly when some application saw a ratio at or above its threshold. */
  lemma {:induction false} FiredIff(levels: seq<Level>, ratios: seq<Option<real>>, i: nat)
    requires i < |levels|
    ensures After(levels, ratios)[i] <==>
            exists k :: 0 <= k < |ratios| && ratios[k].Some? && ratios[k].value >= levels[i].threshold
  {
    if ratios != [] {
      var before, last := ratios[..|ratios| - 1], ratios[|ratios| - 1];
      FiredIff(levels, before, i);
      if After(levels, before)[i] {
        var k :| 0 <= k < |before| && before[k].Some? && before[k].value >= levels[i].threshold;
        assert ratios[k] == before[k];
      }
    }
  }

  /** How many levels are latched, when they form a prefix. */
  ghost predicate LatchedPrefix(fired: seq<bool>, n: nat) {
    n <= |fired| && forall i :: 0 <= i < |fired| ==> (fired[i] <==> i < n)
  }

  function Upto(n: nat): seq<nat> { Between(0, n) }

  /** The latches are always a prefix of the sorted levels, even when the ratio
      falls, and over the whole run the levels of that prefix fired once each,
      in threshold order. */
  lemma {:induction false} FiresInOrder(levels: seq<Level>, ratios: seq<Option<real>>) returns (n: nat)
    requires Sorted(levels)
    ensures LatchedPrefix(After(levels, ratios), n) && FiredLog(levels, ratios) == Upto(n)
  {
    if ratios == [] {
      n := 0;
    } else {
      var before, last := ratios[..|ratios| - 1], ratios[|ratios| - 1];
      var m := FiresInOrder(levels, before);
      n := Reach(levels, last, |levels|);
      if n < m { n := m; }
      FiringIsNext(levels, After(levels, before), last, m, n, |levels|);
      UptoBetween(m, n);
      forall i | 0 <= i < |levels| ensures After(levels, ratios)[i] <==> i < n {
        assert Reached(levels, last, i) || !Reached(levels, last, i);
      }
    }
  }

  lemma UptoBetween(m: nat, n: nat)
    requires m <= n
    ensures Upto(m) + Between(m, n) == Upto(n)
  {
  }

  predicate Reached(levels: seq<Level>, ratio: Option<real>, i: nat)
    requires i < |levels|
  {
    ratio.Some? && ratio.value >= levels[i].threshold
  }

  /** The number of leading levels at or below the ratio. */
  lemma {:induction false} Reach(levels: seq<Level>, ratio: Option<real>, k: nat) returns (n: nat)
    requires Sorted(levels) && k <= |levels|
    ensures n <= k && forall i :: 0 <= i < k ==> (Reached(levels, ratio, i) <==> i < n)
  {
    if k == 0 || ratio.None? {
      n := 0;
    } else {
      n := Reach(levels, ratio, k - 1);
      if Reached(levels, ratio, k - 1) {
        forall i | 0 <= i < k ensures Reached(levels, ratio, i) {
          assert levels[i].threshold <= levels[k - 1].threshold;
        }
        n := k;
      }
    }
  }

  lemma {:induction false} FiringIsNext(levels: seq<Level>, fired: seq<bool>, ratio: Option<real>, m: nat, n: nat,
                                        k: nat)
    requires |fired| == |levels| && k <= |levels| && LatchedPrefix(fired, m) && m <= n <= |levels|
    requires forall i :: 0 <= i < |levels| ==> (i < m || Reached(levels, ratio, i) <==> i < n)
    ensures Firing(levels, fired, ratio, k) == if k <= m then [] else Between(m, if k < n then k else n)
  {
    if ratio.None? {
      assert m < n ==> Reached(levels, ratio, m);
    } else if k > 0 {
      FiringIsNext(levels, fired, ratio, m, n, k - 1);
      assert Reached(levels, ratio, k - 1) || k - 1 < m || n <= k - 1;
    }
  }

  function Between(m: nat, n: nat): seq<nat>
    requires m <= n
  {
    seq(n - m, i => m + i)
  }
}
