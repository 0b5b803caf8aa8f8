/**
 Who gets what from `agent_await` and from the callback drain, in terms of the
 actions of a run (orchestra/agent.py): which children a call returns, in which
 order, and that a drain leaves nobody behind.
 */
module AsyncReturns {
  import opened AsyncDelivery

  // ------------------------------------------------------------ what has happened

  ghost predicate Spawned(actions: seq<Action>, c: Id) { exists cb: bool :: Spawn(c, cb) in actions }

  ghost predicate SpawnedBefore(actions: seq<Action>, c: Id, d: Id) {
    exists i, j :: 0 <= i < j < |actions| && Spawns(actions[i], c) && Spawns(actions[j], d)
  }

  predicate Spawns(a: Action, c: Id) { a.Spawn? && a.c == c }

  ghost predicate EnqueuedBefore(actions: seq<Action>, c: Id, d: Id) {
    exists i, j :: 0 <= i < j < |actions| && actions[i] == Enqueue(c) && actions[j] == Enqueue(d)
  }

  /** The lists of a state are those of the actions that led to it. */
  lemma {:induction false} WhatHappened(actions: seq<Action>, c: Id)
    requires Run(actions).Some?
    ensures var s := Run(actions).value;
            && (c in s.spawned <==> Spawned(actions, c))
            && (c in s.results <==> Publish(c) in actions)
            && (c in s.enqueued <==> Enqueue(c) in actions)
  {
    if actions != [] {
      var before, a := actions[..|actions| - 1], actions[|actions| - 1];
      WhatHappened(before, c);
      assert actions == before + [a];
      forall cb: bool ensures Spawn(c, cb) in actions <==> Spawn(c, cb) in before || a == Spawn(c, cb) {
      }
      StepHappened(Run(before).value, a, c);
    }
  }

  lemma StepHappened(s: State, a: Action, c: Id)
    requires Enabled(s, a)
    ensures var t := Do(s, a);
            && (c in t.spawned <==> c in s.spawned || Spawns(a, c))
            && (c in t.results <==> c in s.results || a == Publish(c))
            && (c in t.enqueued <==> c in s.enqueued || a == Enqueue(c))
  {
  }

  /** Spawned and enqueued lists grow at their end. */
  lemma StepAppends(s: State, a: Action)
    requires Enabled(s, a)
    ensures var t := Do(s, a);
            && t.spawned == s.spawned + (if a.Spawn? then [a.c] else [])
            && t.enqueued == s.enqueued + (if a.Enqueue? then [a.c] else [])
  {
  }

  lemma {:induction false} InActionOrder(actions: seq<Action>)
    requires Run(actions).Some?
    ensures var q := Run(actions).value.spawned;
            forall i, j :: 0 <= i < j < |q| ==> SpawnedBefore(actions, q[i], q[j])
    ensures var q := Run(actions).value.enqueued;
            forall i, j :: 0 <= i < j < |q| ==> EnqueuedBefore(actions, q[i], q[j])
  {
    hide Do, Enabled;
    if actions != [] {
      var n := |actions| - 1;
      var before, a := actions[..n], actions[n];
      var s, t := Run(before).value, Run(actions).value;
      InActionOrder(before);
      StepAppends(s, a);
      forall i, j | 0 <= i < j < |t.spawned| ensures SpawnedBefore(actions, t.spawned[i], t.spawned[j]) {
        SpawnIndex(before, t.spawned[i]);
        if j < |s.spawned| {
          assert SpawnedBefore(before, s.spawned[i], s.spawned[j]);
          var x, y :| 0 <= x < y < n && Spawns(before[x], t.spawned[i]) && Spawns(before[y], t.spawned[j]);
          assert actions[x] == before[x] && actions[y] == before[y];
        } else {
          WhatHappened(before, t.spawned[i]);
          var x :| 0 <= x < n && Spawns(before[x], t.spawned[i]);
          assert actions[x] == before[x] && Spawns(actions[n], t.spawned[j]);
        }
      }
      forall i, j | 0 <= i < j < |t.enqueued| ensures EnqueuedBefore(actions, t.enqueued[i], t.enqueued[j]) {
        if j < |s.enqueued| {
          assert EnqueuedBefore(before, s.enqueued[i], s.enqueued[j]);
          var x, y :| 0 <= x < y < n && before[x] == Enqueue(t.enqueued[i]) && before[y] == Enqueue(t.enqueued[j]);
          assert actions[x] == before[x] && actions[y] == before[y];
        } else {
          WhatHappened(before, t.enqueued[i]);
          var x :| 0 <= x < n && before[x] == Enqueue(t.enqueued[i]);
          assert actions[x] == before[x] && actions[n] == Enqueue(t.enqueued[j]);
        }
      }
    }
  }

  lemma SpawnIndex(actions: seq<Action>, c: Id)
    ensures Spawned(actions, c) ==> exists x :: 0 <= x < |actions| && Spawns(actions[x], c)
  {
    if Spawned(actions, c) {
      var cb: bool :| Spawn(c, cb) in actions;
      var x :| 0 <= x < |actions| && actions[x] == Spawn(c, cb);
      assert Spawns(actions[x], c);
    }
  }

  // --------------------------------------------------------- whom an await targets

  predicate Opens(a: Action) { a.AwaitAll? || a.AwaitOne? }

  /** Whom the call is for: everyone spawned and not handed over yet, or the child asked for. */
  ghost predicate Wanted(actions: seq<Action>, a: Action, c: Id)
    requires Run(actions).Some?
  {
    match a
    case AwaitAll => Spawned(actions, c) && !HandedOver(Run(actions).value.log, c)
    case AwaitOne(x) => c == x && Spawned(actions, x)
    case _ => false
  }

  /** `a` comes before `b` wherever both stand. */
  ghost predicate KeepsOrder(part: seq<Id>, all: seq<Id>) {
    forall i, j :: 0 <= i < j < |part| ==> Ahead(all, part[i], part[j])
  }

  ghost predicate Ahead(all: seq<Id>, c: Id, d: Id) {
    exists p, q :: 0 <= p < q < |all| && all[p] == c && all[q] == d
  }

  lemma {:induction false} FiltersKeepOrder(q: seq<Id>, ids: set<Id>)
    ensures KeepsOrder(Without(q, ids), q) && KeepsOrder(Within(q, ids), q)
  {
    if q != [] {
      var front, last := q[..|q| - 1], q[|q| - 1];
      FiltersKeepOrder(front, ids);
      Members(front, ids);
      assert q == front + [last];
      OrderNext(Without(front, ids), front, last);
      OrderNext(Within(front, ids), front, last);
    }
  }

  lemma OrderNext(part: seq<Id>, all: seq<Id>, last: Id)
    requires KeepsOrder(part, all) && forall c :: c in part ==> c in all
    ensures KeepsOrder(part, all + [last]) && KeepsOrder(part + [last], all + [last])
  {
    forall i, j | 0 <= i < j < |part| + 1
      ensures Ahead(all + [last], (part + [last])[i], (part + [last])[j])
    {
      var more := all + [last];
      if j < |part| {
        assert Ahead(all, part[i], part[j]);
        var p, q :| 0 <= p < q < |all| && all[p] == part[i] && all[q] == part[j];
        assert more[p] == part[i] && more[q] == part[j];
      } else {
        assert part[i] in all;
        var p :| 0 <= p < |all| && all[p] == part[i];
        assert more[p] == part[i] && more[|all|] == last;
      }
    }
    forall i, j | 0 <= i < j < |part| ensures Ahead(all + [last], part[i], part[j]) {
      assert (part + [last])[i] == part[i] && (part + [last])[j] == part[j];
    }
  }

  lemma OrderThrough(a: seq<Id>, b: seq<Id>, c: seq<Id>)
    requires KeepsOrder(a, b) && KeepsOrder(b, c)
    ensures KeepsOrder(a, c)
  {
    forall i, j | 0 <= i < j < |a| ensures Ahead(c, a[i], a[j]) {
      assert Ahead(b, a[i], a[j]);
      var p, q :| 0 <= p < q < |b| && b[p] == a[i] && b[q] == a[j];
      assert Ahead(c, b[p], b[q]);
    }
  }

  /** An await that finds nobody to wait for answers at once. Otherwise it waits
      for exactly the children it is for, in the order they were spawned. */
  lemma AwaitTargets(actions: seq<Action>, a: Action)
    requires Run(actions).Some? && Enabled(Run(actions).value, a) && Opens(a)
    ensures var s, t := Run(actions).value, Do(Run(actions).value, a);
            && s.nextCall !in s.awaits
            && ((forall c :: !Wanted(actions, a, c)) ==> t == s)
            && ((exists c :: Wanted(actions, a, c)) ==> s.nextCall in t.awaits)
    ensures var s, t := Run(actions).value, Do(Run(actions).value, a);
            var k := s.nextCall;
            k in t.awaits ==>
              && t.awaits[k].Waiting? && t.awaits[k].all == a.AwaitAll?
              && (forall c :: c in t.awaits[k].targets <==> Wanted(actions, a, c))
              && KeepsOrder(t.awaits[k].targets, s.spawned)
  {
    hide Inv;
    var s := Run(actions).value;
    Reachable(actions);
    InvCalls(s);
    NextCallIsNew(s);
    Members(s.spawned, s.collected);
    FiltersKeepOrder(s.spawned, s.collected);
    forall c ensures c in s.spawned <==> Spawned(actions, c) {
      WhatHappened(actions, c);
    }
    forall c ensures c in s.collected <==> HandedOver(s.log, c) {
      CollectedIsHandedOver(actions, c);
    }
    var targets := if a.AwaitAll? then Without(s.spawned, s.collected) else if a.c in s.spawned then [a.c] else [];
    assert forall c :: c in targets <==> Wanted(actions, a, c);
    assert targets != [] ==> targets[0] in targets;
  }

  // ------------------------------------------------------------ whom it returns

  /** A waiting call stays as it is until it collects. */
  lemma WaitingStays(s: State, a: Action, k: nat)
    requires Calls(s) && Enabled(s, a) && k in s.awaits && s.awaits[k].Waiting? && a != AwaitCollect(k)
    ensures var t := Do(s, a); k in t.awaits && t.awaits[k] == s.awaits[k]
  {
    hide Calls, CallOk;
    NextCallIsNew(s);
  }

  lemma RunPrefix(actions: seq<Action>, more: seq<Action>)
    requires Run(actions + more).Some?
    ensures Run(actions).Some?
    decreases |more|
  {
    if more == [] {
      assert actions + more == actions;
    } else {
      assert (actions + more)[..|actions + more| - 1] == actions + more[..|more| - 1];
      RunPrefix(actions, more[..|more| - 1]);
    }
  }

  lemma {:induction false} StillWaiting(actions: seq<Action>, more: seq<Action>, k: nat)
    requires Run(actions + more).Some? && AwaitCollect(k) !in more
    requires Run(actions).Some? && k in Run(actions).value.awaits && Run(actions).value.awaits[k].Waiting?
    ensures k in Run(actions + more).value.awaits
            && Run(actions + more).value.awaits[k] == Run(actions).value.awaits[k]
    decreases |more|
  {
    hide Inv, Do, Enabled;
    if more == [] {
      assert actions + more == actions;
    } else {
      var front, a := more[..|more| - 1], more[|more| - 1];
      assert (actions + more)[..|actions + more| - 1] == actions + front;
      StillWaiting(actions, front, k);
      Reachable(actions + front);
      InvCalls(Run(actions + front).value);
      assert a in more;
      WaitingStays(Run(actions + front).value, a, k);
    }
  }

  /** What the call hands over when it collects. */
  ghost function Returned(actions: seq<Action>, k: nat): seq<Delivery>
    requires Run(actions).Some? && Enabled(Run(actions).value, AwaitCollect(k))
  {
    Collect(Run(actions).value, k).log[|Run(actions).value.log|..]
  }

  /** What an await returns, from the call to its collection: exactly the children
      it is for whose result has been published by then, each once, in the order
      they were spawned. For an await-all these are all children spawned and not
      handed over when it was called. */
  lemma AwaitReturns(actions: seq<Action>, a: Action, more: seq<Action>)
    requires Run(actions).Some? && Enabled(Run(actions).value, a) && Opens(a)
    requires exists c :: Wanted(actions, a, c)
    requires var k := Run(actions).value.nextCall;
             var all := actions + [a] + more;
             AwaitCollect(k) !in more && Run(all).Some? && Enabled(Run(all).value, AwaitCollect(k))
    ensures var k := Run(actions).value.nextCall;
            var all := actions + [a] + more;
            var got := Returned(all, k);
            && (forall c :: HandedOver(got, c) <==> Wanted(actions, a, c) && Publish(c) in all)
            && (forall d :: d in got ==> d.Awaited? && d.call == k && d.all == a.AwaitAll?)
            && (forall i, j :: 0 <= i < j < |got| ==> SpawnedBefore(actions, got[i].id, got[j].id))
  {
    hide Inv, Do, Collect, Collected, Enabled, Wanted;
    var k := Run(actions).value.nextCall;
    var all := actions + [a] + more;
    var s := Run(all).value;
    AwaitTargets(actions, a);
    RunStep(actions, Run(actions).value, a);
    StillWaiting(actions + [a], more, k);
    Reachable(all);
    InvCalls(s);
    assert CallOk(s, k);
    CollectedFacts(s, k);
    var got := Returned(all, k);
    assert got == Collected(s, k);
    forall c ensures HandedOver(got, c) <==> Wanted(actions, a, c) && Publish(c) in all {
      WhatHappened(all, c);
      if c in s.awaits[k].targets && c in s.results {
        HandsNow(s, k, c);
      }
    }
    var targets := s.awaits[k].targets;
    FiltersKeepOrder(targets, s.results);
    OrderThrough(Within(targets, s.results), targets, Run(actions).value.spawned);
    InActionOrder(actions);
    forall i, j | 0 <= i < j < |got| ensures SpawnedBefore(actions, got[i].id, got[j].id) {
      ReturnedIds(s, k);
      assert Ahead(Run(actions).value.spawned, got[i].id, got[j].id);
    }
  }

  lemma HandsNow(s: State, k: nat, c: Id)
    requires Enabled(s, AwaitCollect(k)) && c in s.awaits[k].targets && c in s.results
    ensures HandedOver(Collected(s, k), c)
  {
    TargetIsHanded(s, k, c);
  }

  lemma ReturnedIds(s: State, k: nat)
    requires Enabled(s, AwaitCollect(k))
    ensures var got, ids := Collected(s, k), Within(s.awaits[k].targets, s.results);
            |got| == |ids| && forall i :: 0 <= i < |ids| ==> got[i].id == ids[i]
  {
  }

  // ------------------------------------------------------------ whom a drain hands over

  lemma {:induction false} CallbacksAsked(actions: seq<Action>, c: Id)
    requires Run(actions).Some?
    ensures c in Run(actions).value.callback <==> Spawn(c, true) in actions
  {
    hide Enabled;
    if actions != [] {
      var before, a := actions[..|actions| - 1], actions[|actions| - 1];
      CallbacksAsked(before, c);
      assert actions == before + [a];
    }
  }

  /** Only children spawned with a callback whose result is published are ever drained. */
  lemma OnlyCallbacksDrained(actions: seq<Action>, c: Id)
    requires Run(actions).Some? && Drained(c) in Run(actions).value.log
    ensures Spawn(c, true) in actions && Publish(c) in actions && Enqueue(c) in actions
  {
    hide Inv;
    var s := Run(actions).value;
    Reachable(actions);
    InvParts(s);
    CallbacksAsked(actions, c);
    WhatHappened(actions, c);
    OnePlace(s, c);
    DrainedMembers(s.log);
    assert c in multiset(DrainedIds(s.log));
  }

  // ------------------------------------------------------------ drains, in order

  /** Everyone who went through the queue and was not taken out of it by an await. */
  ghost function Line(s: State): seq<Id> { DrainedIds(s.log) + InHand(s) + s.queue }

  lemma LineMembers(s: State, c: Id)
    requires Threads(s) && Conserved(s)
    ensures c in Line(s) ==> c in s.enqueued
  {
    OnePlace(s, c);
    if c in Line(s) {
      assert c in multiset(DrainedIds(s.log)) || c in multiset(InHand(s)) || c in multiset(s.queue);
    }
  }

  lemma StepLine(s: State, a: Action)
    requires Inv(s) && Enabled(s, a) && KeepsOrder(Line(s), s.enqueued)
    ensures KeepsOrder(Line(Do(s, a)), Do(s, a).enqueued)
  {
    hide Inv, Threads, Conserved, Calls, KeepsOrder, Line, HandOne, Collect, Filter;
    InvParts(s);
    match a
    case Enqueue(c) => EnqueueLine(s, c);
    case DrainTake => SameLine(s, Do(s, a));
    case DrainHand => HandLine(s);
    case AwaitCollect(k) => CollectLine(s, k);
    case AwaitFilter(k) => FilterLine(s, k);
    case _ => SameLine(s, Do(s, a));
  }

  lemma EnqueueLine(s: State, c: Id)
    requires Threads(s) && Conserved(s) && Enabled(s, Enqueue(c)) && KeepsOrder(Line(s), s.enqueued)
    ensures KeepsOrder(Line(Do(s, Enqueue(c))), s.enqueued + [c])
  {
    hide Threads, Conserved, KeepsOrder;
    forall d | d in Line(s) ensures d in s.enqueued {
      LineMembers(s, d);
    }
    OrderNext(Line(s), s.enqueued, c);
    assert Line(Do(s, Enqueue(c))) == Line(s) + [c];
  }

  /** The queue is taken in hand, an empty hand is put down, or nothing moves. */
  lemma SameLine(s: State, t: State)
    requires t.log == s.log && InHand(t) + t.queue == InHand(s) + s.queue
    ensures Line(t) == Line(s)
  {
    assert Line(t) == DrainedIds(t.log) + (InHand(t) + t.queue);
    assert Line(s) == DrainedIds(s.log) + (InHand(s) + s.queue);
  }

  lemma HandLine(s: State)
    requires Conserved(s) && Enabled(s, DrainHand)
    ensures Line(HandOne(s)) == Line(s) && HandOne(s).enqueued == s.enqueued
  {
    hide DrainedIds, Conserved;
    HandConserved(s);
    assert s.inHand.value == [s.inHand.value[0]] + s.inHand.value[1..];
  }

  lemma CollectLine(s: State, k: nat)
    requires Conserved(s) && Calls(s) && Enabled(s, AwaitCollect(k))
    ensures Line(Collect(s, k)) == Line(s) && Collect(s, k).enqueued == s.enqueued
  {
    assert CallOk(s, k);
    CollectConserved(s, k);
  }

  lemma FilterLine(s: State, k: nat)
    requires Enabled(s, AwaitFilter(k)) && KeepsOrder(Line(s), s.enqueued)
    ensures KeepsOrder(Line(Filter(s, k)), Filter(s, k).enqueued)
  {
    hide KeepsOrder;
    FiltersKeepOrder(s.queue, s.awaits[k].done);
    Members(s.queue, s.awaits[k].done);
    BehindKeepsOrder(DrainedIds(s.log) + InHand(s), Without(s.queue, s.awaits[k].done), s.queue);
    OrderThrough(Line(Filter(s, k)), Line(s), s.enqueued);
  }

  lemma InvParts(s: State)
    requires Inv(s)
    ensures Threads(s) && Conserved(s) && Calls(s)
  {
  }

  lemma BehindKeepsOrder(front: seq<Id>, part: seq<Id>, all: seq<Id>)
    requires KeepsOrder(part, all) && forall c :: c in part ==> c in all
    ensures KeepsOrder(front + part, front + all)
  {
    var a, b := front + part, front + all;
    forall i, j | 0 <= i < j < |a| ensures Ahead(b, a[i], a[j]) {
      if j < |front| {
        assert b[i] == a[i] && b[j] == a[j];
      } else if i < |front| {
        assert part[j - |front|] in all;
        var q :| 0 <= q < |all| && all[q] == part[j - |front|];
        assert b[i] == a[i] && b[|front| + q] == a[j];
      } else {
        assert Ahead(all, part[i - |front|], part[j - |front|]);
        var p, q :| 0 <= p < q < |all| && all[p] == part[i - |front|] && all[q] == part[j - |front|];
        assert b[|front| + p] == a[i] && b[|front| + q] == a[j];
      }
    }
  }

  lemma {:induction false} LineInOrder(actions: seq<Action>)
    requires Run(actions).Some?
    ensures KeepsOrder(Line(Run(actions).value), Run(actions).value.enqueued)
  {
    hide Inv, Do, KeepsOrder;
    if actions == [] {
      NobodyInLine();
    } else {
      var before := actions[..|actions| - 1];
      LineInOrder(before);
      Reachable(before);
      StepLine(Run(before).value, actions[|actions| - 1]);
    }
  }

  lemma NobodyInLine()
    ensures KeepsOrder(Line(INIT), INIT.enqueued)
  {
    assert Line(INIT) == [];
  }

  /** Drains hand children over in the order in which they enqueued. */
  lemma DrainsInOrder(actions: seq<Action>, i: nat, j: nat)
    requires Run(actions).Some? && i < j < |Run(actions).value.log|
    requires Run(actions).value.log[i].Drained? && Run(actions).value.log[j].Drained?
    ensures EnqueuedBefore(actions, Run(actions).value.log[i].id, Run(actions).value.log[j].id)
  {
    var s := Run(actions).value;
    LineInOrder(actions);
    InActionOrder(actions);
    var p, q := DrainedAt(s.log, i, j);
    var line := Line(s);
    assert line[p] == s.log[i].id && line[q] == s.log[j].id;
    assert Ahead(s.enqueued, line[p], line[q]);
  }

  lemma {:induction false} DrainedAt(log: seq<Delivery>, i: nat, j: nat) returns (p: nat, q: nat)
    requires i < j < |log| && log[i].Drained? && log[j].Drained?
    ensures p < q < |DrainedIds(log)| && DrainedIds(log)[p] == log[i].id && DrainedIds(log)[q] == log[j].id
  {
    var front := log[..|log| - 1];
    if j < |log| - 1 {
      p, q := DrainedAt(front, i, j);
    } else {
      DrainedMembers(front);
      assert front[i] in front;
      assert log[i].id in DrainedIds(front);
      p :| 0 <= p < |DrainedIds(front)| && DrainedIds(front)[p] == log[i].id;
      q := |DrainedIds(front)|;
    }
  }

  // ------------------------------------------------------------ drains, completely

  ghost predicate InReach(s: State, c: Id) { c in InHand(s) || HandedOver(s.log, c) }

  lemma StepInReach(s: State, a: Action, c: Id)
    requires Inv(s) && Enabled(s, a) && s.inHand.Some? && InReach(s, c) && !a.DrainEnd?
    ensures Do(s, a).inHand.Some? && InReach(Do(s, a), c)
  {
    hide Inv, Collect, HandedOver;
    InvCalls(s);
    Grows(s, a);
    HandedAppend(s.log, HandedBy(s, a), c);
    if a.DrainHand? && c in InHand(s) {
      assert s.inHand.value == [s.inHand.value[0]] + s.inHand.value[1..];
      assert Hands(s, a, c) || c in s.inHand.value[1..];
    }
  }

  lemma {:induction false} StaysInReach(actions: seq<Action>, more: seq<Action>, c: Id)
    requires Run(actions + more).Some? && DrainEnd !in more
    requires Run(actions).Some? && Run(actions).value.inHand.Some? && InReach(Run(actions).value, c)
    ensures InReach(Run(actions + more).value, c) && Run(actions + more).value.inHand.Some?
    decreases |more|
  {
    hide Inv, Do, Enabled, InReach;
    if more == [] {
      assert actions + more == actions;
    } else {
      var front, a := more[..|more| - 1], more[|more| - 1];
      assert (actions + more)[..|actions + more| - 1] == actions + front;
      StaysInReach(actions, front, c);
      Reachable(actions + front);
      assert a in more;
      StepInReach(Run(actions + front).value, a, c);
    }
  }

  /** A drain leaves nobody behind: when it ends, every child that had enqueued
      when it began has been handed over, by it or before. */
  lemma DrainIsComplete(actions: seq<Action>, more: seq<Action>, c: Id)
    requires Run(actions).Some? && Enabled(Run(actions).value, DrainTake) && Enqueue(c) in actions
    requires var all := actions + [DrainTake] + more;
             DrainEnd !in more && Run(all).Some? && Enabled(Run(all).value, DrainEnd)
    ensures HandedOver(Run(actions + [DrainTake] + more).value.log, c)
  {
    hide Inv;
    var s := Run(actions).value;
    WhatHappened(actions, c);
    EnqueuedIsDelivered(actions, c);
    RunStep(actions, s, DrainTake);
    var t := Do(s, DrainTake);
    if c !in s.queue {
      assert InHand(s) == [];
      if Drained(c) !in s.log {
        var d :| d in s.log && d.Awaited? && d.id == c;
        assert HandedOver(t.log, c);
      }
    }
    assert InReach(t, c);
    StaysInReach(actions + [DrainTake], more, c);
  }
}
