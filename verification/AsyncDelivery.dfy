/**
 Delivery of asynchronously spawned children to their parent
 (orchestra/agent.py): the child thread of `_run_spawn`, the callback drain
 and `agent_await`, as atomic steps - one per critical section - in any
 interleaving.

 The parent's thread runs either a drain or a batch of tool calls, and the
 tool calls of one batch run in parallel, so any number of `agent_await` calls
 may be in flight together.
 */
module AsyncDelivery {
  import opened Wrappers

  type Id = nat

  /** Progress of a child thread. */
  datatype Phase = Running | Published | Enqueued | Finished | Crashed

  /** Progress of one `agent_await` call. `all` is false when a run_id was given. */
  datatype Await = Waiting(targets: seq<Id>, all: bool) | Filtering(done: set<Id>)

  /** One result handed to the parent. `rivals` are the other awaits in flight at that moment. */
  datatype Delivery = Drained(id: Id) | Awaited(id: Id, call: nat, all: bool, rivals: set<nat>)

  datatype State = State(
    spawned: seq<Id>, callback: set<Id>, phase: map<Id, Phase>,
    results: set<Id>, queue: seq<Id>, collected: set<Id>,
    inHand: Option<seq<Id>>,        // what a running drain took and has not handed over yet
    awaits: map<nat, Await>, nextCall: nat,
    // history
    log: seq<Delivery>, enqueued: seq<Id>, dropped: seq<Id>, missed: set<Id>)

  datatype Action =
    | Spawn(c: Id, withCallback: bool)
    | Publish(c: Id) | Crash(c: Id) | Enqueue(c: Id) | Signal(c: Id)
    | DrainTake | DrainHand | DrainEnd
    | AwaitAll | AwaitOne(c: Id) | AwaitCollect(call: nat) | AwaitFilter(call: nat)

  const INIT := State([], {}, map[], {}, [], {}, None, map[], 0, [], [], [], {})

  predicate At(s: State, c: Id, p: Phase) { c in s.phase && s.phase[c] == p }

  predicate Enabled(s: State, a: Action) {
    match a
    case Spawn(c, _) => c !in s.phase
    case Publish(c) => At(s, c, Running)
    case Crash(c) => At(s, c, Running)
    case Enqueue(c) => At(s, c, Published) && c in s.callback
    case Signal(c) => At(s, c, Enqueued) || (At(s, c, Published) && c !in s.callback)
    case DrainTake => s.inHand.None? && s.awaits == map[]
    case DrainHand => s.inHand.Some? && s.inHand.value != []
    case DrainEnd => s.inHand == Some([])
    case AwaitAll => s.inHand.None?
    case AwaitOne(_) => s.inHand.None?
    case AwaitCollect(k) => k in s.awaits && s.awaits[k].Waiting?
    case AwaitFilter(k) => k in s.awaits && s.awaits[k].Filtering?
  }

  /** The members of `q` that are in `ids`, respectively not in `ids`, in order. */
  function Within(q: seq<Id>, ids: set<Id>): seq<Id> {
    if q == [] then [] else Within(q[..|q| - 1], ids) + if q[|q| - 1] in ids then [q[|q| - 1]] else []
  }

  function Without(q: seq<Id>, ids: set<Id>): seq<Id> {
    if q == [] then [] else Without(q[..|q| - 1], ids) + if q[|q| - 1] in ids then [] else [q[|q| - 1]]
  }

  /** Opens an await; one without targets answers at once. */
  function Begin(s: State, targets: seq<Id>, all: bool): State {
    if targets == [] then s
    else s.(awaits := s.awaits[s.nextCall := Waiting(targets, all)], nextCall := s.nextCall + 1)
  }

  function Hand(ids: seq<Id>, call: nat, all: bool, rivals: set<nat>): seq<Delivery> {
    seq(|ids|, i requires 0 <= i < |ids| => Awaited(ids[i], call, all, rivals))
  }

  function Do(s: State, a: Action): State
    requires Enabled(s, a)
  {
    match a
    case Spawn(c, cb) =>
      s.(spawned := s.spawned + [c], phase := s.phase[c := Running],
         callback := if cb then s.callback + {c} else s.callback)
    case Publish(c) => s.(results := s.results + {c}, phase := s.phase[c := Published])
    case Crash(c) => s.(phase := s.phase[c := Crashed])
    case Enqueue(c) => s.(queue := s.queue + [c], phase := s.phase[c := Enqueued], enqueued := s.enqueued + [c])
    case Signal(c) => s.(phase := s.phase[c := Finished])
    case DrainTake => s.(inHand := Some(s.queue), queue := [])
    case DrainHand => HandOne(s)
    case DrainEnd => s.(inHand := None)
    case AwaitAll => Begin(s, Without(s.spawned, s.collected), true)
    case AwaitOne(c) => Begin(s, if c in s.spawned then [c] else [], false)
    case AwaitCollect(k) => Collect(s, k)
    case AwaitFilter(k) => Filter(s, k)
  }

  function HandOne(s: State): State
    requires Enabled(s, DrainHand)
  {
    var c := s.inHand.value[0];
    s.(collected := s.collected + {c}, log := s.log + [Drained(c)], inHand := Some(s.inHand.value[1..]))
  }

  function Collect(s: State, k: nat): State
    requires Enabled(s, AwaitCollect(k))
  {
    var w := s.awaits[k];
    var ids := Within(w.targets, s.results);
    var done := set c | c in ids;
    s.(log := s.log + Hand(ids, k, w.all, s.awaits.Keys - {k}),
       collected := s.collected + done,
       awaits := if ids == [] then s.awaits - {k} else s.awaits[k := Filtering(done)])
  }

  function Filter(s: State, k: nat): State
    requires Enabled(s, AwaitFilter(k))
  {
    var done := s.awaits[k].done;
    s.(queue := Without(s.queue, done), dropped := s.dropped + Within(s.queue, done),
       missed := s.missed + (set c | c in done && c in s.callback && At(s, c, Published)),
       awaits := s.awaits - {k})
  }

  /** A run is any sequence of enabled actions from the start. */
  function Run(actions: seq<Action>): Option<State> {
    if actions == [] then Some(INIT)
    else
      var before := Run(actions[..|actions| - 1]);
      var a := actions[|actions| - 1];
      if before.Some? && Enabled(before.value, a) then Some(Do(before.value, a)) else None
  }

  // -------------------------------------------------------------- vocabulary

  ghost predicate Distinct(q: seq<Id>) { forall i, j :: 0 <= i < j < |q| ==> q[i] != q[j] }

  function DrainedIds(log: seq<Delivery>): seq<Id> {
    if log == [] then []
    else DrainedIds(log[..|log| - 1]) + if log[|log| - 1].Drained? then [log[|log| - 1].id] else []
  }

  ghost predicate WasAwaited(s: State, c: Id) { exists d :: d in s.log && d.Awaited? && d.id == c }

  function InHand(s: State): seq<Id> { match s.inHand case None => [] case Some(q) => q }

  // -------------------------------------------------------------- invariants

  /** The bookkeeping of the child threads. */
  ghost predicate Threads(s: State) {
    && Distinct(s.spawned) && Distinct(s.enqueued)
    && (forall c :: c in s.spawned <==> c in s.phase)
    && (forall c :: c in s.results <==> c in s.phase && s.phase[c] in {Published, Enqueued, Finished})
    && (forall c :: c in s.enqueued <==> c in s.callback && c in s.phase && s.phase[c] in {Enqueued, Finished})
  }

  /** Every enqueued child is in exactly one place. */
  ghost predicate Conserved(s: State) {
    multiset(s.enqueued) == multiset(DrainedIds(s.log)) + multiset(InHand(s)) + multiset(s.queue) + multiset(s.dropped)
  }

  ghost predicate CallOk(s: State, k: nat)
    requires k in s.awaits
  {
    && k < s.nextCall
    && match s.awaits[k]
       case Waiting(targets, all) =>
         && Distinct(targets)
         && (forall c :: c in targets ==> c in s.spawned)
         && (all ==> forall d :: d in s.log && d.id in targets ==> d.Awaited? && k in d.rivals)
       case Filtering(done) => forall c :: c in done ==> WasAwaited(s, c)
  }

  /** Calls in flight: none while draining; an await-all still waiting targets no
      drained child, and was already in flight whenever one of its targets was handed over. */
  ghost predicate Calls(s: State) {
    && (s.inHand.Some? ==> s.awaits == map[])
    && (forall k :: k in s.awaits ==> CallOk(s, k))
    && (forall d :: d in s.log ==>
         d.id in s.collected && (d.Awaited? ==> d.call < s.nextCall && forall k :: k in d.rivals ==> k < s.nextCall))
    && s.collected <= s.results
    && (forall c :: c in s.dropped ==> WasAwaited(s, c))
  }

  /** Why an awaited callback child may still be waiting for the drain. */
  ghost predicate Accounted(s: State, c: Id) {
    || c !in s.callback
    || c in s.missed || c in s.dropped || c in DrainedIds(s.log)
    || exists k :: k in s.awaits && s.awaits[k].Filtering? && c in s.awaits[k].done
  }

  ghost predicate AwaitedFirst(log: seq<Delivery>, c: Id) {
    exists i :: 0 <= i < |log| && log[i].Awaited? && log[i].id == c && Drained(c) !in log[..i]
  }

  ghost predicate Twice(s: State) {
    && (forall d :: d in s.log && d.Awaited? ==> Accounted(s, d.id))
    && (forall c :: c in s.missed ==> AwaitedFirst(s.log, c))
  }

  /** The order of two deliveries of the same child. */
  ghost predicate Ordered(missed: set<Id>, d: Delivery, e: Delivery) {
    d.id == e.id ==>
      && !(d.Drained? && e.Drained?)
      && (d.Drained? && e.Awaited? ==> !e.all)
      && (d.Awaited? && e.Drained? ==> d.id in missed)
      && (d.Awaited? && e.Awaited? && e.all ==> e.call in d.rivals)
  }

  ghost predicate Order(s: State) {
    forall i, j :: 0 <= i < j < |s.log| ==> Ordered(s.missed, s.log[i], s.log[j])
  }

  ghost predicate Inv(s: State) { Threads(s) && Conserved(s) && Calls(s) && Twice(s) && Order(s) }

  // ---------------------------------------------------------- small facts

  lemma {:induction false} Members(q: seq<Id>, ids: set<Id>)
    ensures forall c :: c in Within(q, ids) <==> c in q && c in ids
    ensures forall c :: c in Without(q, ids) <==> c in q && c !in ids
  {
    if q != [] {
      Members(q[..|q| - 1], ids);
      assert q == q[..|q| - 1] + [q[|q| - 1]];
    }
  }

  lemma {:induction false} Parts(q: seq<Id>, ids: set<Id>)
    ensures multiset(q) == multiset(Without(q, ids)) + multiset(Within(q, ids))
  {
    if q != [] {
      hide Without, Within;
      var front, last := q[..|q| - 1], q[|q| - 1];
      Parts(front, ids);
      PartsNext(front, last, Without(front, ids), Within(front, ids));
      LastOfParts(q, ids);
    }
  }

  lemma PartsNext(q: seq<Id>, last: Id, a: seq<Id>, b: seq<Id>)
    requires multiset(q) == multiset(a) + multiset(b)
    ensures multiset(q + [last]) == multiset(a + [last]) + multiset(b)
    ensures multiset(q + [last]) == multiset(a) + multiset(b + [last])
  {
  }

  lemma LastOfParts(q: seq<Id>, ids: set<Id>)
    requires q != []
    ensures var front, last := q[..|q| - 1], q[|q| - 1];
            && q == front + [last]
            && Without(q, ids) == (if last in ids then Without(front, ids) else Without(front, ids) + [last])
            && Within(q, ids) == (if last in ids then Within(front, ids) + [last] else Within(front, ids))
  {
  }

  lemma {:induction false} StillDistinct(q: seq<Id>, ids: set<Id>)
    requires Distinct(q)
    ensures Distinct(Within(q, ids)) && Distinct(Without(q, ids))
  {
    if q != [] {
      var p := q[..|q| - 1];
      StillDistinct(p, ids);
      Members(p, ids);
    }
  }

  lemma {:induction false} DrainedAppend(log: seq<Delivery>, more: seq<Delivery>)
    ensures DrainedIds(log + more) == DrainedIds(log) + DrainedIds(more)
  {
    if more == [] {
      assert log + more == log;
    } else {
      DrainedAppend(log, more[..|more| - 1]);
      assert (log + more)[..|log + more| - 1] == log + more[..|more| - 1];
    }
  }

  lemma {:induction false} DrainedMembers(log: seq<Delivery>)
    ensures forall c :: c in DrainedIds(log) <==> Drained(c) in log
  {
    if log != [] {
      DrainedMembers(log[..|log| - 1]);
      assert log == log[..|log| - 1] + [log[|log| - 1]];
    }
  }

  lemma {:induction false} NoneDrained(log: seq<Delivery>)
    requires forall d :: d in log ==> d.Awaited?
    ensures DrainedIds(log) == []
  {
    if log != [] {
      assert log[|log| - 1] in log;
      NoneDrained(log[..|log| - 1]);
    }
  }

  /** Distinct sequences have each element once. */
  lemma {:induction false} CountOnce(q: seq<Id>, c: Id)
    requires Distinct(q)
    ensures multiset(q)[c] == if c in q then 1 else 0
  {
    if q != [] {
      CountOnce(q[1..], c);
      assert q == [q[0]] + q[1..];
    }
  }

  /** An enqueued child is in one place only. */
  lemma OnePlace(s: State, c: Id)
    requires Threads(s) && Conserved(s)
    ensures multiset(DrainedIds(s.log))[c] + multiset(InHand(s))[c] + multiset(s.queue)[c] + multiset(s.dropped)[c]
            == if c in s.enqueued then 1 else 0
  {
    CountOnce(s.enqueued, c);
  }

  // ----------------------------------------------------- every step keeps them

  lemma StepThreads(s: State, a: Action)
    requires Threads(s) && Enabled(s, a)
    ensures Threads(Do(s, a))
  {
  }

  /** What an await appends to the log. */
  ghost function Collected(s: State, k: nat): seq<Delivery>
    requires Enabled(s, AwaitCollect(k))
  {
    Hand(Within(s.awaits[k].targets, s.results), k, s.awaits[k].all, s.awaits.Keys - {k})
  }

  lemma CollectedFacts(s: State, k: nat)
    requires Enabled(s, AwaitCollect(k)) && CallOk(s, k)
    ensures var w, more, t := s.awaits[k], Collected(s, k), Collect(s, k);
            && t == s.(log := s.log + more, collected := t.collected, awaits := t.awaits)
            && (forall j :: j in t.awaits && j != k <==> j in s.awaits && j != k)
            && (forall j :: j in t.awaits && j != k ==> t.awaits[j] == s.awaits[j])
    ensures var w, more, t := s.awaits[k], Collected(s, k), Collect(s, k);
            && (more != [] ==> k in t.awaits)
            && (k in t.awaits ==> t.awaits[k].Filtering?)
            && (k in t.awaits ==> forall c :: c in t.awaits[k].done <==> exists d :: d in more && d.id == c)
            && (forall c :: c in t.collected <==> c in s.collected || exists d :: d in more && d.id == c)
    ensures var w, more := s.awaits[k], Collected(s, k);
            && DrainedIds(more) == []
            && (forall d :: d in more ==>
                 d == Awaited(d.id, k, w.all, s.awaits.Keys - {k}) && d.id in w.targets && d.id in s.results)
            && (forall i, j :: 0 <= i < j < |more| ==> more[i].id != more[j].id)
  {
    Members(s.awaits[k].targets, s.results);
    StillDistinct(s.awaits[k].targets, s.results);
    NoneDrained(Collected(s, k));
    var ids, more := Within(s.awaits[k].targets, s.results), Collected(s, k);
    forall c ensures c in ids <==> exists d :: d in more && d.id == c {
      if c in ids {
        var i :| 0 <= i < |ids| && ids[i] == c;
        assert more[i].id == c && more[i] in more;
      }
    }
  }

  lemma StepConserved(s: State, a: Action)
    requires Conserved(s) && Enabled(s, a)
    requires a.AwaitCollect? ==> CallOk(s, a.call)
    ensures Conserved(Do(s, a))
  {
    hide Conserved, HandOne, Collect, Filter;
    match a
    case DrainHand => HandConserved(s);
    case AwaitCollect(k) => CollectConserved(s, k);
    case AwaitFilter(k) => FilterConserved(s, k);
    case _ => MovedConserved(s, Do(s, a));
  }

  /** A child enters the queue, the queue is taken in hand, or nothing moves. */
  lemma MovedConserved(s: State, t: State)
    requires Conserved(s) && t.log == s.log && t.dropped == s.dropped
    requires || (t.enqueued == s.enqueued && t.queue == s.queue && InHand(t) == InHand(s))
             || (t.enqueued == s.enqueued && InHand(s) == [] && InHand(t) == s.queue && t.queue == [])
             || exists c :: t.enqueued == s.enqueued + [c] && t.queue == s.queue + [c] && InHand(t) == InHand(s)
    ensures Conserved(t)
  {
  }

  lemma CollectConserved(s: State, k: nat)
    requires Conserved(s) && Enabled(s, AwaitCollect(k)) && CallOk(s, k)
    ensures Conserved(Collect(s, k))
    ensures DrainedIds(Collect(s, k).log) == DrainedIds(s.log)
  {
    hide Collect, Collected;
    var t := Collect(s, k);
    CollectedFacts(s, k);
    DrainedAppend(s.log, Collected(s, k));
    assert DrainedIds(t.log) == DrainedIds(s.log) + [];
    assert t.enqueued == s.enqueued && InHand(t) == InHand(s) && t.queue == s.queue && t.dropped == s.dropped;
  }

  lemma HandConserved(s: State)
    requires Conserved(s) && Enabled(s, DrainHand)
    ensures Conserved(HandOne(s))
    ensures DrainedIds(HandOne(s).log) == DrainedIds(s.log) + [s.inHand.value[0]]
  {
    var q := s.inHand.value;
    DrainedAppend(s.log, [Drained(q[0])]);
    assert [Drained(q[0])][..0] == [];
    assert q == [q[0]] + q[1..];
  }

  lemma FilterConserved(s: State, k: nat)
    requires Conserved(s) && Enabled(s, AwaitFilter(k))
    ensures Conserved(Filter(s, k))
  {
    Parts(s.queue, s.awaits[k].done);
  }

  /** A call that is not touched stays in order while the log grows by deliveries that respect it. */
  lemma CallKept(s: State, t: State, k: nat)
    requires k in s.awaits && CallOk(s, k) && k in t.awaits && t.awaits[k] == s.awaits[k]
    requires s.nextCall <= t.nextCall && s.log <= t.log
    requires forall c :: c in s.spawned ==> c in t.spawned
    requires forall d :: d in t.log && d !in s.log ==> d.Awaited? && k in d.rivals
    ensures CallOk(t, k)
  {
    if s.awaits[k].Filtering? {
      forall c | c in s.awaits[k].done ensures WasAwaited(t, c) {
        AwaitedKept(s, t, c);
      }
    }
  }

  lemma AwaitedKept(s: State, t: State, c: Id)
    requires WasAwaited(s, c) && s.log <= t.log
    ensures WasAwaited(t, c)
  {
    var d :| d in s.log && d.Awaited? && d.id == c;
    assert d in t.log;
  }

  lemma StepCalls(s: State, a: Action)
    requires Threads(s) && Calls(s) && Conserved(s) && Enabled(s, a)
    ensures Calls(Do(s, a))
  {
    var t := Do(s, a);
    match a
    case DrainHand => HandCalls(s);
    case AwaitAll => BeginCalls(s, Without(s.spawned, s.collected), true);
    case AwaitOne(c) => BeginCalls(s, if c in s.spawned then [c] else [], false);
    case AwaitCollect(k) => CollectCalls(s, k);
    case AwaitFilter(k) => FilterCalls(s, k);
    case _ => QuietCalls(s, t);
  }

  lemma QuietCalls(s: State, t: State)
    requires Calls(s)
    requires t.awaits == s.awaits && t.log == s.log && t.dropped == s.dropped && t.nextCall == s.nextCall
    requires t.collected == s.collected && s.results <= t.results && s.spawned <= t.spawned
    requires t.inHand.Some? ==> t.awaits == map[]
    ensures Calls(t)
  {
    forall k | k in t.awaits ensures CallOk(t, k) {
      CallKept(s, t, k);
    }
    forall c | c in t.dropped ensures WasAwaited(t, c) {
      AwaitedKept(s, t, c);
    }
  }

  lemma HandCalls(s: State)
    requires Threads(s) && Calls(s) && Conserved(s) && Enabled(s, DrainHand)
    ensures Calls(HandOne(s))
  {
    var c, t := s.inHand.value[0], HandOne(s);
    OnePlace(s, c);
    assert c in multiset(InHand(s));
    assert c in s.results;
    forall x | x in t.dropped ensures WasAwaited(t, x) {
      AwaitedKept(s, t, x);
    }
  }

  lemma BeginCalls(s: State, targets: seq<Id>, all: bool)
    requires Threads(s) && Calls(s) && s.inHand.None?
    requires targets == if all then Without(s.spawned, s.collected) else targets
    requires !all ==> |targets| <= 1 && forall c :: c in targets ==> c in s.spawned
    ensures Calls(Begin(s, targets, all))
  {
    var t := Begin(s, targets, all);
    Members(s.spawned, s.collected);
    StillDistinct(s.spawned, s.collected);
    forall k | k in t.awaits ensures CallOk(t, k) {
      if k != s.nextCall {
        CallKept(s, t, k);
      }
    }
    forall c | c in t.dropped ensures WasAwaited(t, c) {
      AwaitedKept(s, t, c);
    }
  }

  lemma CollectCalls(s: State, k: nat)
    requires Threads(s) && Calls(s) && Enabled(s, AwaitCollect(k))
    ensures Calls(Collect(s, k))
  {
    hide Collect, Collected;
    var t := Collect(s, k);
    assert CallOk(s, k);
    CollectedFacts(s, k);
    var more := Collected(s, k);
    forall j | j in t.awaits ensures CallOk(t, j) {
      if j != k {
        CallKept(s, t, j);
      } else {
        forall c | c in t.awaits[k].done ensures WasAwaited(t, c) {
          var d :| d in more && d.id == c;
          assert d in t.log;
        }
      }
    }
    forall c | c in t.dropped ensures WasAwaited(t, c) {
      AwaitedKept(s, t, c);
    }
  }

  lemma FilterCalls(s: State, k: nat)
    requires Calls(s) && Enabled(s, AwaitFilter(k))
    ensures Calls(Filter(s, k))
  {
    var t := Filter(s, k);
    Members(s.queue, s.awaits[k].done);
    forall j | j in t.awaits ensures CallOk(t, j) {
      CallKept(s, t, j);
    }
    assert CallOk(s, k);
    forall c | c in t.dropped ensures WasAwaited(t, c) {
      AwaitedKept(s, t, c);
    }
  }

  lemma StepTwice(s: State, a: Action)
    requires Threads(s) && Conserved(s) && Calls(s) && Twice(s) && Enabled(s, a)
    ensures Twice(Do(s, a))
  {
    hide Threads, Conserved, Calls, Twice, Filter, Collect, HandOne;
    var t := Do(s, a);
    match a
    case DrainHand => HandTwice(s);
    case AwaitCollect(k) => CollectTwice(s, k);
    case AwaitFilter(k) => FilterTwice(s, k);
    case Spawn(c, cb) =>
      SpawnedIsNew(s, c);
      TwiceKept(s, t);
    case _ =>
      NextCallIsNew(s);
      TwiceKept(s, t);
  }

  lemma NextCallIsNew(s: State)
    requires Calls(s)
    ensures s.nextCall !in s.awaits
  {
    assert s.nextCall in s.awaits ==> CallOk(s, s.nextCall);
  }

  lemma HandTwice(s: State)
    requires Conserved(s) && Twice(s) && Enabled(s, DrainHand)
    ensures Twice(HandOne(s))
  {
    hide Conserved, Twice;
    HandConserved(s);
    TwiceKept(s, HandOne(s));
  }

  lemma SpawnedIsNew(s: State, c: Id)
    requires Threads(s) && Calls(s) && c !in s.phase
    ensures forall d :: d in s.log ==> d.id != c
  {
    forall d | d in s.log ensures d.id != c {
      assert d.id in s.results;
    }
  }

  lemma FirstKept(log: seq<Delivery>, more: seq<Delivery>, c: Id)
    requires AwaitedFirst(log, c) && log <= more
    ensures AwaitedFirst(more, c)
  {
    var i :| 0 <= i < |log| && log[i].Awaited? && log[i].id == c && Drained(c) !in log[..i];
    assert more[..i] == log[..i];
  }

  lemma TwiceKept(s: State, t: State)
    requires Twice(s) && s.log <= t.log && t.missed == s.missed
    requires forall c :: c in DrainedIds(s.log) ==> c in DrainedIds(t.log)
    requires forall d :: d in t.log && d.Awaited? ==> d in s.log && (d.id in t.callback ==> d.id in s.callback)
    requires forall c :: c in s.dropped ==> c in t.dropped
    requires forall k :: k in s.awaits ==> k in t.awaits && t.awaits[k] == s.awaits[k]
    ensures Twice(t)
  {
    forall c | c in t.missed ensures AwaitedFirst(t.log, c) {
      FirstKept(s.log, t.log, c);
    }
    forall d | d in t.log && d.Awaited? ensures Accounted(t, d.id) {
      assert Accounted(s, d.id);
    }
  }

  lemma CollectTwice(s: State, k: nat)
    requires Calls(s) && Twice(s) && Conserved(s) && Enabled(s, AwaitCollect(k))
    ensures Twice(Collect(s, k))
  {
    hide Collect, Collected;
    var t := Collect(s, k);
    assert CallOk(s, k);
    CollectedFacts(s, k);
    CollectConserved(s, k);
    forall c | c in t.missed ensures AwaitedFirst(t.log, c) {
      FirstKept(s.log, t.log, c);
    }
    forall d | d in t.log && d.Awaited? ensures Accounted(t, d.id) {
      if d in s.log {
        assert Accounted(s, d.id);
        if exists j :: j in s.awaits && s.awaits[j].Filtering? && d.id in s.awaits[j].done {
          OthersInFlight(s, t, k, d.id);
        }
      } else {
        assert d in Collected(s, k);
        assert d.id in t.awaits[k].done;
      }
    }
  }

  lemma OthersInFlight(s: State, t: State, k: nat, c: Id)
    requires forall j :: j in s.awaits && j != k ==> j in t.awaits && t.awaits[j] == s.awaits[j]
    requires k in s.awaits && (s.awaits[k].Filtering? ==> c !in s.awaits[k].done)
    requires exists j :: j in s.awaits && s.awaits[j].Filtering? && c in s.awaits[j].done
    ensures exists j :: j in t.awaits && t.awaits[j].Filtering? && c in t.awaits[j].done
  {
    var j :| j in s.awaits && s.awaits[j].Filtering? && c in s.awaits[j].done;
    assert j in t.awaits;
  }

  lemma FilterTwice(s: State, k: nat)
    requires Threads(s) && Conserved(s) && Calls(s) && Twice(s) && Enabled(s, AwaitFilter(k))
    ensures Twice(Filter(s, k))
  {
    hide Threads, Conserved, Calls, Accounted, AwaitedFirst;
    var t := Filter(s, k);
    forall d | d in t.log && d.Awaited? ensures Accounted(t, d.id) {
      FilterAccounts(s, k, d);
    }
    forall c | c in t.missed ensures AwaitedFirst(t.log, c) {
      if c !in s.missed {
        NewlyMissed(s, k, c);
      }
    }
  }

  /** A child the filter misses has been awaited, and it is not enqueued, so not drained. */
  lemma NewlyMissed(s: State, k: nat, c: Id)
    requires Threads(s) && Conserved(s) && Calls(s) && Enabled(s, AwaitFilter(k))
    requires c in s.awaits[k].done && At(s, c, Published)
    ensures AwaitedFirst(s.log, c)
  {
    hide Threads, Conserved;
    assert CallOk(s, k);
    assert WasAwaited(s, c);
    NotDrainedYet(s, c);
    var d :| d in s.log && d.Awaited? && d.id == c;
    var i :| 0 <= i < |s.log| && s.log[i] == d;
    assert forall j :: 0 <= j < i ==> s.log[..i][j] in s.log;
  }

  lemma NotDrainedYet(s: State, c: Id)
    requires Threads(s) && Conserved(s) && At(s, c, Published)
    ensures Drained(c) !in s.log
  {
    hide Conserved;
    assert c !in s.enqueued;
    OnePlace(s, c);
    DrainedMembers(s.log);
  }

  lemma FilterAccounts(s: State, k: nat, d: Delivery)
    requires Threads(s) && Conserved(s) && Calls(s) && Enabled(s, AwaitFilter(k))
    requires d in s.log && d.Awaited? && Accounted(s, d.id)
    ensures Accounted(Filter(s, k), d.id)
  {
    var t, c := Filter(s, k), d.id;
    Members(s.queue, s.awaits[k].done);
    if c in s.callback && c !in s.missed && c !in s.dropped && c !in DrainedIds(s.log) {
      if c !in s.awaits[k].done {
        OthersInFlight(s, t, k, c);
      } else if !At(s, c, Published) {
        assert c in s.results && c in s.enqueued;
        OnePlace(s, c);
        assert c in s.queue && c in t.dropped;
      }
    }
  }

  lemma StepOrder(s: State, a: Action)
    requires Inv(s) && Enabled(s, a)
    ensures Order(Do(s, a))
  {
    var t := Do(s, a);
    match a
    case DrainHand => HandOrder(s);
    case AwaitCollect(k) => CollectOrder(s, k);
    case AwaitFilter(k) =>
      forall i, j | 0 <= i < j < |t.log| ensures Ordered(t.missed, t.log[i], t.log[j]) {
        assert Ordered(s.missed, s.log[i], s.log[j]);
      }
    case _ =>
      forall i, j | 0 <= i < j < |t.log| ensures Ordered(t.missed, t.log[i], t.log[j]) {
        assert Ordered(s.missed, s.log[i], s.log[j]);
      }
  }

  lemma HandOrder(s: State)
    requires Inv(s) && Enabled(s, DrainHand)
    ensures Order(HandOne(s))
  {
    var c, t := s.inHand.value[0], HandOne(s);
    OnePlace(s, c);
    DrainedMembers(s.log);
    assert c in multiset(InHand(s));
    assert c in s.enqueued && c !in DrainedIds(s.log) && c !in s.dropped;
    forall i, j | 0 <= i < j < |t.log| ensures Ordered(t.missed, t.log[i], t.log[j]) {
      var d := t.log[i];
      assert d in s.log;
      if j < |s.log| {
        assert Ordered(s.missed, d, s.log[j]);
      } else if d.id == c && d.Awaited? {
        assert Accounted(s, c);
      }
    }
  }

  lemma CollectOrder(s: State, k: nat)
    requires Calls(s) && Order(s) && Enabled(s, AwaitCollect(k))
    ensures Order(Collect(s, k))
  {
    hide Collect, Collected, CallOk, Ordered;
    var t := Collect(s, k);
    assert CallOk(s, k);
    CollectedFacts(s, k);
    var more := Collected(s, k);
    forall i, j | 0 <= i < j < |t.log| ensures Ordered(t.missed, t.log[i], t.log[j]) {
      if j >= |s.log| {
        var e := more[j - |s.log|];
        assert t.log[j] == e && e in more;
        if i < |s.log| {
          assert s.log[i] in s.log;
          HandedAfter(s, k, s.log[i], e);
        } else {
          DifferentIds(s.missed, more[i - |s.log|], e);
        }
      }
    }
  }

  lemma DifferentIds(missed: set<Id>, d: Delivery, e: Delivery)
    requires d.id != e.id
    ensures Ordered(missed, d, e)
  {
  }

  lemma HandedAfter(s: State, k: nat, d: Delivery, e: Delivery)
    requires Enabled(s, AwaitCollect(k)) && CallOk(s, k)
    requires d in s.log && e.Awaited? && e.call == k && e.all == s.awaits[k].all && e.id in s.awaits[k].targets
    ensures Ordered(s.missed, d, e)
  {
  }

  lemma Step(s: State, a: Action)
    requires Inv(s) && Enabled(s, a)
    ensures Inv(Do(s, a))
  {
    StepThreads(s, a);
    assert a.AwaitCollect? ==> CallOk(s, a.call);
    StepConserved(s, a);
    StepCalls(s, a);
    StepTwice(s, a);
    StepOrder(s, a);
  }

  /** Every reachable state, over all interleavings. */
  lemma {:induction false} Reachable(actions: seq<Action>)
    requires Run(actions).Some?
    ensures Inv(Run(actions).value)
  {
    if actions != [] {
      var before := actions[..|actions| - 1];
      Reachable(before);
      Step(Run(before).value, actions[|actions| - 1]);
    }
  }

  // ------------------------------------------------------------ what it means

  /** Nothing is lost: once a child has enqueued it is queued, taken by a running
      drain, or already handed over - and it is in one of the four places only. */
  lemma EnqueuedIsDelivered(actions: seq<Action>, c: Id)
    requires Run(actions).Some?
    ensures var s := Run(actions).value;
            c in s.enqueued ==>
              && (c in s.queue || c in InHand(s) || Drained(c) in s.log || WasAwaited(s, c))
              && (c in s.queue ==> c !in InHand(s) && Drained(c) !in s.log && c !in s.dropped)
              && (Drained(c) in s.log ==> c !in InHand(s) && c !in s.dropped)
  {
    Reachable(actions);
    var s := Run(actions).value;
    OnePlace(s, c);
    DrainedMembers(s.log);
  }

  /** At most once, per channel: the drain hands a child over once; an await-all
      never hands over a drained child, and repeats a child only when it was
      itself already in flight while another await handed that child over. */
  lemma AtMostOnce(actions: seq<Action>, i: nat, j: nat)
    requires Run(actions).Some? && i < j < |Run(actions).value.log|
    requires Run(actions).value.log[i].id == Run(actions).value.log[j].id
    ensures var log := Run(actions).value.log;
            && !(log[i].Drained? && log[j].Drained?)
            && (log[i].Drained? && log[j].Awaited? ==> !log[j].all)
            && (log[i].Awaited? && log[j].Awaited? && log[j].all ==> log[j].call in log[i].rivals)
  {
    Reachable(actions);
    var s := Run(actions).value;
    assert Ordered(s.missed, s.log[i], s.log[j]);
  }

  /** With one await at a time, await-all hands every child over at most once. */
  lemma SequentialAwaits(actions: seq<Action>, i: nat, j: nat)
    requires Run(actions).Some? && i < j < |Run(actions).value.log|
    requires forall d :: d in Run(actions).value.log && d.Awaited? ==> d.rivals == {}
    requires Run(actions).value.log[j].Awaited? && Run(actions).value.log[j].all
    ensures Run(actions).value.log[i].id != Run(actions).value.log[j].id
  {
    var log := Run(actions).value.log;
    assert log[i] in log;
    if log[i].id == log[j].id {
      AtMostOnce(actions, i, j);
    }
  }

  /** An await is opened only when no other is in flight. */
  ghost predicate OneAtATime(actions: seq<Action>) {
    forall i :: 0 <= i < |actions| && (actions[i].AwaitAll? || actions[i].AwaitOne?) && Run(actions[..i]).Some? ==>
      Run(actions[..i]).value.awaits == map[]
  }

  ghost predicate Alone(s: State) {
    && (forall j, k :: j in s.awaits && k in s.awaits ==> j == k)
    && (forall d :: d in s.log && d.Awaited? ==> d.rivals == {})
  }

  lemma AloneKept(s: State, a: Action)
    requires Inv(s) && Alone(s) && Enabled(s, a) && (a.AwaitAll? || a.AwaitOne? ==> s.awaits == map[])
    ensures Alone(Do(s, a))
  {
    hide Inv, Collect, Collected;
    if a.AwaitCollect? {
      assert CallOk(s, a.call) by {
        InvCalls(s);
      }
      CollectedFacts(s, a.call);
      assert s.awaits.Keys - {a.call} == {};
    }
  }

  lemma InvCalls(s: State)
    requires Inv(s)
    ensures Calls(s)
  {
  }

  /** A schedule that opens one await at a time records no rivals. */
  lemma {:induction false} NoRivals(actions: seq<Action>)
    requires Run(actions).Some? && OneAtATime(actions)
    ensures Alone(Run(actions).value)
  {
    if actions != [] {
      var before, a := actions[..|actions| - 1], actions[|actions| - 1];
      forall i | 0 <= i < |before| ensures before[..i] == actions[..i] {
      }
      NoRivals(before);
      Reachable(before);
      AloneKept(Run(before).value, a);
    }
  }

  /** If no await is ever opened while another is in flight, await-all hands
      over no child that any channel has handed over before. */
  lemma SequentialSchedule(actions: seq<Action>, i: nat, j: nat)
    requires Run(actions).Some? && OneAtATime(actions) && i < j < |Run(actions).value.log|
    requires Run(actions).value.log[j].Awaited? && Run(actions).value.log[j].all
    ensures Run(actions).value.log[i].id != Run(actions).value.log[j].id
  {
    NoRivals(actions);
    SequentialAwaits(actions, i, j);
  }

  // ------------------------------------------------- exactly when it repeats

  ghost predicate HandedOver(log: seq<Delivery>, c: Id) { exists d :: d in log && d.id == c }

  ghost predicate HandedToRival(log: seq<Delivery>, c: Id, k: nat) {
    exists d :: d in log && d.id == c && d.Awaited? && k in d.rivals
  }

  /** What an action appends to the log. */
  ghost function HandedBy(s: State, a: Action): seq<Delivery>
    requires Enabled(s, a)
  {
    match a
    case DrainHand => [Drained(s.inHand.value[0])]
    case AwaitCollect(k) => Collected(s, k)
    case _ => []
  }

  /** The action hands child `c` over: the drain holds it next, or an await has
      it among its targets and its result is there. */
  predicate Hands(s: State, a: Action, c: Id)
    requires Enabled(s, a)
  {
    match a
    case DrainHand => s.inHand.value[0] == c
    case AwaitCollect(k) => c in s.awaits[k].targets && c in s.results
    case _ => false
  }

  lemma Grows(s: State, a: Action)
    requires Inv(s) && Enabled(s, a)
    ensures var t, more := Do(s, a), HandedBy(s, a);
            && t.log == s.log + more
            && (forall c :: c in t.collected <==> c in s.collected || HandedOver(more, c))
            && (forall i, j :: 0 <= i < j < |more| ==> more[i].id != more[j].id)
            && (forall c :: HandedOver(more, c) <==> Hands(s, a, c))
  {
    hide Inv, Collect, Collected;
    match a
    case AwaitCollect(k) =>
      InvCalls(s);
      assert CallOk(s, k);
      CollectedFacts(s, k);
      forall c | Hands(s, a, c) ensures HandedOver(Collected(s, k), c) {
        TargetIsHanded(s, k, c);
      }
    case DrainHand =>
      assert HandedBy(s, a)[0] in HandedBy(s, a);
    case _ =>
  }

  lemma TargetIsHanded(s: State, k: nat, c: Id)
    requires Enabled(s, AwaitCollect(k)) && Hands(s, AwaitCollect(k), c)
    ensures Awaited(c, k, s.awaits[k].all, s.awaits.Keys - {k}) in Collected(s, k)
    ensures HandedOver(Collected(s, k), c)
  {
    var ids, more := Within(s.awaits[k].targets, s.results), Collected(s, k);
    Members(s.awaits[k].targets, s.results);
    var i :| 0 <= i < |ids| && ids[i] == c;
    assert more[i] == Awaited(c, k, s.awaits[k].all, s.awaits.Keys - {k}) && more[i] in more;
  }

  /** `_async_collected` holds exactly the children handed over. */
  lemma {:induction false} CollectedIsHandedOver(actions: seq<Action>, c: Id)
    requires Run(actions).Some?
    ensures var s := Run(actions).value; c in s.collected <==> HandedOver(s.log, c)
  {
    hide Inv, Do, HandedBy, Hands;
    if actions != [] {
      var before, a := actions[..|actions| - 1], actions[|actions| - 1];
      var s := Run(before).value;
      CollectedIsHandedOver(before, c);
      Reachable(before);
      Grows(s, a);
      HandedAppend(s.log, HandedBy(s, a), c);
    }
  }

  lemma HandedAppend(log: seq<Delivery>, more: seq<Delivery>, c: Id)
    ensures HandedOver(log + more, c) <==> HandedOver(log, c) || HandedOver(more, c)
  {
    forall d | d in log || d in more ensures d in log + more {
    }
  }

  /** Exactly when an await repeats: a target whose result is there when the call
      collects is handed over then, and for the second time if and only if it is
      in `_async_collected` - for an await-all, if and only if another await
      handed it over while this call was already in flight. */
  lemma AwaitRepeats(actions: seq<Action>, k: nat, c: Id)
    requires Run(actions).Some?
    requires var s := Run(actions).value;
             k in s.awaits && s.awaits[k].Waiting? && c in s.awaits[k].targets && c in s.results
    ensures var s, t := Run(actions).value, Run(actions + [AwaitCollect(k)]);
            && t.Some? && s.log <= t.value.log
            && Awaited(c, k, s.awaits[k].all, s.awaits.Keys - {k}) in t.value.log[|s.log|..]
            && (HandedOver(s.log, c) <==> c in s.collected)
            && (s.awaits[k].all ==> (HandedOver(s.log, c) <==> HandedToRival(s.log, c, k)))
  {
    hide Inv, Do;
    var s := Run(actions).value;
    Reachable(actions);
    InvCalls(s);
    assert CallOk(s, k);
    CollectIsNext(actions, s, k);
    CollectedIsHandedOver(actions, c);
    TargetIsHanded(s, k, c);
    assert Collect(s, k).log[|s.log|..] == Collected(s, k);
  }

  lemma CollectIsNext(actions: seq<Action>, s: State, k: nat)
    requires Run(actions) == Some(s) && Enabled(s, AwaitCollect(k))
    ensures Run(actions + [AwaitCollect(k)]) == Some(Collect(s, k))
  {
    RunStep(actions, s, AwaitCollect(k));
  }

  /** Exactly when the drain repeats: a child it is about to hand over has been
      handed over before if and only if a queue filter of an await that returned
      it ran between its publish and its enqueue (`missed`). */
  lemma DrainRepeats(actions: seq<Action>)
    requires Run(actions).Some? && Enabled(Run(actions).value, DrainHand)
    ensures var s := Run(actions).value;
            var c := s.inHand.value[0];
            HandedOver(s.log, c) <==> c in s.missed
  {
    Reachable(actions);
    var s := Run(actions).value;
    var c := s.inHand.value[0];
    HeldIsNew(s, c);
    if HandedOver(s.log, c) {
      var d :| d in s.log && d.id == c;
      assert Accounted(s, d.id);
    }
    if c in s.missed {
      var i :| 0 <= i < |s.log| && s.log[i].Awaited? && s.log[i].id == c && Drained(c) !in s.log[..i];
      assert s.log[i] in s.log;
    }
  }

  /** A child in the hands of the drain is not drained yet, and no await has dropped it from the queue. */
  lemma HeldIsNew(s: State, c: Id)
    requires Threads(s) && Conserved(s) && c in InHand(s)
    ensures c in s.enqueued && c !in DrainedIds(s.log) && Drained(c) !in s.log && c !in s.dropped
  {
    OnePlace(s, c);
    DrainedMembers(s.log);
    assert c in multiset(InHand(s));
  }

  ghost predicate Repeated(log: seq<Delivery>, c: Id) {
    exists i, j :: 0 <= i < j < |log| && log[i].id == c && log[j].id == c
  }

  /** The state before step `m` of a run. */
  function StateAt(actions: seq<Action>, m: nat): Option<State>
    requires m <= |actions|
  {
    Run(actions[..m])
  }

  predicate HandsAgain(actions: seq<Action>, m: nat, c: Id)
    requires m < |actions|
  {
    && StateAt(actions, m).Some? && Enabled(StateAt(actions, m).value, actions[m])
    && Hands(StateAt(actions, m).value, actions[m], c) && c in StateAt(actions, m).value.collected
  }

  /** A run reports a child more than once exactly when some step of it hands
      over a child that was already collected. */
  lemma {:induction false} RepeatsExactly(actions: seq<Action>, c: Id)
    requires Run(actions).Some?
    ensures Repeated(Run(actions).value.log, c) <==> exists m: nat :: m < |actions| && HandsAgain(actions, m, c)
  {
    hide Inv, Do, HandedBy, Hands, Enabled;
    if actions != [] {
      var n := |actions| - 1;
      var before, a := actions[..n], actions[n];
      var s := Run(before).value;
      RepeatsExactly(before, c);
      Reachable(before);
      Grows(s, a);
      CollectedIsHandedOver(before, c);
      RepeatedAppend(s.log, HandedBy(s, a), c);
      forall m: nat | m < n ensures HandsAgain(actions, m, c) <==> HandsAgain(before, m, c) {
        assert before[..m] == actions[..m];
      }
      assert HandsAgain(actions, n, c) <==> Hands(s, a, c) && c in s.collected;
    }
  }

  lemma RepeatedAppend(log: seq<Delivery>, more: seq<Delivery>, c: Id)
    requires forall i, j :: 0 <= i < j < |more| ==> more[i].id != more[j].id
    ensures Repeated(log + more, c) <==> Repeated(log, c) || (HandedOver(log, c) && HandedOver(more, c))
  {
    var all := log + more;
    if Repeated(log, c) {
      var i, j :| 0 <= i < j < |log| && log[i].id == c && log[j].id == c;
      assert all[i].id == c && all[j].id == c;
    }
    if HandedOver(log, c) && HandedOver(more, c) {
      var i :| 0 <= i < |log| && log[i].id == c;
      var j :| 0 <= j < |more| && more[j].id == c;
      assert all[i].id == c && all[|log| + j].id == c;
    }
    if Repeated(all, c) {
      var i, j :| 0 <= i < j < |all| && all[i].id == c && all[j].id == c;
      if j >= |log| {
        assert more[j - |log|].id == c && more[j - |log|] in more;
        if i >= |log| {
          assert more[i - |log|].id == c;
        } else {
          assert log[i] in log;
        }
      }
    }
  }

  ghost predicate AwaitedThenDrained(log: seq<Delivery>, c: Id) {
    exists i, j :: 0 <= i < j < |log| && log[i].Awaited? && log[i].id == c && log[j] == Drained(c)
  }

  ghost predicate DrainedThenAwaited(log: seq<Delivery>, c: Id) {
    exists i, j :: 0 <= i < j < |log| && log[i] == Drained(c) && log[j].Awaited? && log[j].id == c
  }

  /** At step `m` an await for `c` by its run_id collects the already drained child. */
  predicate AskedAgain(actions: seq<Action>, m: nat, c: Id)
    requires m < |actions|
  {
    && actions[m].AwaitCollect? && StateAt(actions, m).Some? && Enabled(StateAt(actions, m).value, actions[m])
    && !StateAt(actions, m).value.awaits[actions[m].call].all
    && Hands(StateAt(actions, m).value, actions[m], c) && Drained(c) in StateAt(actions, m).value.log
  }

  /** A child reaches the parent through both channels in one of two ways. First
      by an await and then by the drain: exactly when a queue filter of an await
      that returned it ran between its publish and its enqueue (`missed`) and a
      drain took it afterwards. First by the drain and then by an await: exactly
      when an await for its run_id collects it after the drain - no race is needed. */
  lemma BothChannels(actions: seq<Action>, c: Id)
    requires Run(actions).Some?
    ensures AwaitedThenDrained(Run(actions).value.log, c)
            <==> c in Run(actions).value.missed && Drained(c) in Run(actions).value.log
    ensures DrainedThenAwaited(Run(actions).value.log, c)
            <==> exists m: nat :: m < |actions| && AskedAgain(actions, m, c)
  {
    hide AwaitedThenDrained, DrainedThenAwaited, AskedAgain;
    Reachable(actions);
    BothChannelsAt(Run(actions).value, c);
    AskedAfterDrain(actions, c);
  }

  lemma BothChannelsAt(s: State, c: Id)
    requires Inv(s)
    ensures AwaitedThenDrained(s.log, c) <==> c in s.missed && Drained(c) in s.log
  {
    hide Threads, Conserved, Calls, Twice;
    if AwaitedThenDrained(s.log, c) {
      var i, j :| 0 <= i < j < |s.log| && s.log[i].Awaited? && s.log[i].id == c && s.log[j] == Drained(c);
      assert Ordered(s.missed, s.log[i], s.log[j]);
    }
    if c in s.missed && Drained(c) in s.log {
      MissedThenDrained(s, c);
    }
  }

  lemma MissedThenDrained(s: State, c: Id)
    requires Inv(s) && c in s.missed && Drained(c) in s.log
    ensures AwaitedThenDrained(s.log, c)
  {
    hide Threads, Conserved, Calls, Order;
    var i :| 0 <= i < |s.log| && s.log[i].Awaited? && s.log[i].id == c && Drained(c) !in s.log[..i];
    var j :| 0 <= j < |s.log| && s.log[j] == Drained(c);
    assert forall m :: 0 <= m < i ==> s.log[m] == s.log[..i][m] && s.log[m] != Drained(c);
  }

  lemma {:induction false} AskedAfterDrain(actions: seq<Action>, c: Id)
    requires Run(actions).Some?
    ensures DrainedThenAwaited(Run(actions).value.log, c)
            <==> exists m: nat :: m < |actions| && AskedAgain(actions, m, c)
  {
    hide Inv, Do, HandedBy, Hands, Enabled, DrainedThenAwaited;
    if actions == [] {
      NoneAwaited(c);
    } else {
      var n := |actions| - 1;
      var before, a := actions[..n], actions[n];
      var s := Run(before).value;
      AskedAfterDrain(before, c);
      Reachable(before);
      Grows(s, a);
      AwaitedAppend(s.log, HandedBy(s, a), c);
      forall m: nat | m < n ensures AskedAgain(actions, m, c) <==> AskedAgain(before, m, c) {
        assert before[..m] == actions[..m];
      }
      if Drained(c) in s.log {
        AskedNow(s, a, c);
      }
      assert AskedAgain(actions, n, c) <==> a.AwaitCollect? && AsksFor(s, a.call, c) && Drained(c) in s.log;
    }
  }

  predicate AsksFor(s: State, k: nat, c: Id) {
    Enabled(s, AwaitCollect(k)) && !s.awaits[k].all && Hands(s, AwaitCollect(k), c)
  }

  ghost predicate AwaitedIn(log: seq<Delivery>, c: Id) { exists d :: d in log && d.Awaited? && d.id == c }

  lemma NoneAwaited(c: Id)
    ensures !DrainedThenAwaited([], c)
  {
  }

  /** An action hands over a drained child by an await only if that await asks for its run_id. */
  lemma AskedNow(s: State, a: Action, c: Id)
    requires Inv(s) && Enabled(s, a) && Drained(c) in s.log
    ensures AwaitedIn(HandedBy(s, a), c) <==> a.AwaitCollect? && AsksFor(s, a.call, c)
  {
    hide Inv, Collect, Collected;
    if a.AwaitCollect? {
      var k := a.call;
      InvCalls(s);
      assert CallOk(s, k);
      CollectedFacts(s, k);
      if Hands(s, a, c) {
        TargetIsHanded(s, k, c);
      }
    }
  }

  lemma AwaitedAppend(log: seq<Delivery>, more: seq<Delivery>, c: Id)
    requires forall i, j :: 0 <= i < j < |more| ==> more[i].id != more[j].id
    ensures DrainedThenAwaited(log + more, c)
            <==> DrainedThenAwaited(log, c) || (Drained(c) in log && AwaitedIn(more, c))
  {
    var all := log + more;
    if DrainedThenAwaited(log, c) {
      var i, j :| 0 <= i < j < |log| && log[i] == Drained(c) && log[j].Awaited? && log[j].id == c;
      assert all[i] == Drained(c) && all[j].Awaited? && all[j].id == c;
    }
    if Drained(c) in log && AwaitedIn(more, c) {
      var i :| 0 <= i < |log| && log[i] == Drained(c);
      var j :| 0 <= j < |more| && more[j].Awaited? && more[j].id == c;
      assert all[i] == Drained(c) && all[|log| + j] == more[j];
    }
    if DrainedThenAwaited(all, c) {
      var i, j :| 0 <= i < j < |all| && all[i] == Drained(c) && all[j].Awaited? && all[j].id == c;
      if j >= |log| {
        assert more[j - |log|] == all[j] && more[j - |log|] in more;
        if i >= |log| {
          assert more[i - |log|].id == more[j - |log|].id;
        } else {
          assert log[i] in log;
        }
      }
    }
  }

  // -------------------------------------------------- the repeats do happen

  lemma RunStep(actions: seq<Action>, s: State, a: Action)
    requires Run(actions) == Some(s) && Enabled(s, a)
    ensures Run(actions + [a]) == Some(Do(s, a))
  {
    assert (actions + [a])[..|actions|] == actions;
  }

  /** The run that repeats child 0, and the states it passes. */
  const LATE := [Spawn(0, true), Publish(0), AwaitAll, AwaitCollect(0), AwaitFilter(0), Enqueue(0), DrainTake,
                 DrainHand]
  const L2 := INIT.(spawned := [0], phase := map[0 := Published], callback := {0}, results := {0})
  const L3 := L2.(awaits := map[0 := Waiting([0], true)], nextCall := 1)
  const L4 := L3.(log := [Awaited(0, 0, true, {})], collected := {0}, awaits := map[0 := Filtering({0})])
  const L5 := L4.(missed := {0}, awaits := map[])
  const L7 := L5.(phase := map[0 := Enqueued], enqueued := [0], inHand := Some([0]))

  lemma LateSpawn()
    ensures Run(LATE[..2]) == Some(L2)
  {
    var a := [Spawn(0, true)];
    RunStep([], INIT, Spawn(0, true));
    assert [] + a == a;
    var s1 := Do(INIT, Spawn(0, true));
    RunStep(a, s1, Publish(0));
    assert s1.phase[0 := Published] == L2.phase && s1.spawned == [0] && s1.callback == {0};
    assert Do(s1, Publish(0)) == L2;
    assert LATE[..2] == a + [Publish(0)];
  }

  lemma SmallFilters()
    ensures Without([], {}) == [] && Within([], {0}) == [] && Without([0], {}) == [0] && Within([0], {0}) == [0]
  {
    assert [0][..0] == [];
  }

  lemma LateAsk()
    ensures Enabled(L2, AwaitAll) && Do(L2, AwaitAll) == L3
  {
    SmallFilters();
  }

  lemma LateCollect()
    ensures Enabled(L3, AwaitCollect(0)) && Do(L3, AwaitCollect(0)) == Collect(L3, 0)
  {
    SmallFilters();
  }

  lemma LateAwait()
    ensures Run(LATE[..4]) == Some(L4)
  {
    hide Do, Enabled, Within, Without;
    LateSpawn();
    LateAsk();
    SmallFilters();
    RunStep(LATE[..2], L2, AwaitAll);
    assert LATE[..3] == LATE[..2] + [AwaitAll];
    CollectOne();
    LateCollect();
    RunStep(LATE[..3], L3, AwaitCollect(0));
    assert LATE[..4] == LATE[..3] + [AwaitCollect(0)];
  }

  lemma CollectOne()
    requires Within([0], {0}) == [0]
    ensures Collect(L3, 0) == L4
  {
    assert L3.awaits.Keys - {0} == {};
    assert Hand([0], 0, true, {}) == [Awaited(0, 0, true, {})];
    assert (set c | c in [0]) == {0};
    var ids := Within(L3.awaits[0].targets, L3.results);
    assert ids == [0] && (set c | c in ids) == {0};
    var done := Collect(L3, 0).awaits[0].done;
    assert forall c :: c in done <==> c in ids;
    assert done == {0};
    assert Collect(L3, 0).awaits == L3.awaits[0 := Filtering(done)];
    assert Collect(L3, 0).log == [Awaited(0, 0, true, {})] && Collect(L3, 0).collected == {0};
  }

  lemma LateFilter()
    ensures Run(LATE[..5]) == Some(L5)
  {
    LateAwait();
    assert (set c | c in {0} && c in L4.callback && At(L4, c, Published)) == {0};
    assert L4.awaits - {0} == map[];
    assert Without([], {0}) == [] && [] + Within([], {0}) == [];
    assert Filter(L4, 0).missed == {0};
    RunStep(LATE[..4], L4, AwaitFilter(0));
    assert LATE[..5] == LATE[..4] + [AwaitFilter(0)];
  }

  /** A child caught by an await between its publish and its enqueue reaches the parent twice. */
  lemma LateEnqueueRepeats()
    ensures Run(LATE).Some? && AwaitedThenDrained(Run(LATE).value.log, 0)
  {
    LateFilter();
    RunStep(LATE[..5], L5, Enqueue(0));
    assert LATE[..6] == LATE[..5] + [Enqueue(0)];
    var queued := Do(L5, Enqueue(0));
    RunStep(LATE[..6], queued, DrainTake);
    assert LATE[..7] == LATE[..6] + [DrainTake];
    assert queued.phase == L7.phase && queued.queue == [0] && queued.enqueued == [0];
    assert Do(queued, DrainTake) == L7;
    RunStep(LATE[..7], L7, DrainHand);
    assert LATE == LATE[..7] + [DrainHand];
    var log := HandOne(L7).log;
    assert log[0].Awaited? && log[0].id == 0 && log[1] == Drained(0);
  }

  // --------------------------------------------- two awaits return one child

  /** Two await-alls in flight together both return child 0. */
  const PARALLEL := [Spawn(0, false), Publish(0), AwaitAll, AwaitAll, AwaitCollect(0), AwaitCollect(1)]
  const P2 := INIT.(spawned := [0], phase := map[0 := Published], results := {0})
  const P3 := P2.(awaits := map[0 := Waiting([0], true)], nextCall := 1)
  const P4 := P3.(awaits := map[0 := Waiting([0], true), 1 := Waiting([0], true)], nextCall := 2)

  lemma ParallelSpawn()
    ensures Run(PARALLEL[..2]) == Some(P2)
  {
    var a := [Spawn(0, false)];
    RunStep([], INIT, Spawn(0, false));
    assert [] + a == a;
    var s1 := Do(INIT, Spawn(0, false));
    RunStep(a, s1, Publish(0));
    assert s1.phase[0 := Published] == P2.phase && s1.spawned == [0];
    assert Do(s1, Publish(0)) == P2;
    assert PARALLEL[..2] == a + [Publish(0)];
  }

  lemma BothAsk()
    ensures Enabled(P2, AwaitAll) && Do(P2, AwaitAll) == P3
    ensures Enabled(P3, AwaitAll) && Do(P3, AwaitAll) == P4
  {
    SmallFilters();
    assert P3.awaits[1 := Waiting([0], true)] == P4.awaits;
  }

  lemma BothWait()
    ensures Run(PARALLEL[..4]) == Some(P4)
  {
    hide Do, Enabled;
    ParallelSpawn();
    BothAsk();
    RunStep(PARALLEL[..2], P2, AwaitAll);
    assert PARALLEL[..3] == PARALLEL[..2] + [AwaitAll];
    RunStep(PARALLEL[..3], P3, AwaitAll);
    assert PARALLEL[..4] == PARALLEL[..3] + [AwaitAll];
  }

  /** The repeat between awaits does happen: both calls hand the child over. */
  lemma ParallelAwaitsRepeat()
    ensures Run(PARALLEL).Some?
    ensures Run(PARALLEL).value.log == [Awaited(0, 0, true, {1}), Awaited(0, 1, true, {0})]
  {
    BothWait();
    BothCollect();
    var s5 := Collect(P4, 0);
    CollectIsNext(PARALLEL[..4], P4, 0);
    assert PARALLEL[..5] == PARALLEL[..4] + [AwaitCollect(0)];
    CollectIsNext(PARALLEL[..5], s5, 1);
    assert PARALLEL == PARALLEL[..5] + [AwaitCollect(1)];
  }

  lemma BothCollect()
    ensures var s5 := Collect(P4, 0);
            && s5.log == [Awaited(0, 0, true, {1})] && Enabled(s5, AwaitCollect(1))
            && Collect(s5, 1).log == [Awaited(0, 0, true, {1}), Awaited(0, 1, true, {0})]
  {
    SmallFilters();
    var s5 := Collect(P4, 0);
    assert P4.awaits.Keys - {0} == {1};
    assert s5.awaits.Keys == {0, 1} && s5.awaits.Keys - {1} == {0};
  }

  // ------------------------------- an await by run_id returns a drained child

  /** The drain hands child 0 over, then an await for its run_id returns it; no race is involved. */
  const BY_ID := [Spawn(0, true), Publish(0), Enqueue(0), DrainTake, DrainHand, DrainEnd, AwaitOne(0), AwaitCollect(0)]
  const B3 := L2.(phase := map[0 := Enqueued], queue := [0], enqueued := [0])
  const B6 := B3.(queue := [], collected := {0}, log := [Drained(0)])
  const B7 := B6.(awaits := map[0 := Waiting([0], false)], nextCall := 1)

  lemma ByIdEnqueue()
    ensures Run(BY_ID[..3]) == Some(B3)
  {
    hide Run;
    LateSpawn();
    assert BY_ID[..2] == LATE[..2];
    RunStep(BY_ID[..2], L2, Enqueue(0));
    assert BY_ID[..3] == BY_ID[..2] + [Enqueue(0)];
    assert L2.phase[0 := Enqueued] == B3.phase;
    assert Do(L2, Enqueue(0)) == B3;
  }

  lemma ByIdDrain()
    ensures Run(BY_ID[..6]) == Some(B6)
  {
    hide Run;
    ByIdEnqueue();
    var taken := B3.(inHand := Some([0]), queue := []);
    RunStep(BY_ID[..3], B3, DrainTake);
    assert BY_ID[..4] == BY_ID[..3] + [DrainTake];
    RunStep(BY_ID[..4], taken, DrainHand);
    assert BY_ID[..5] == BY_ID[..4] + [DrainHand];
    var handed := HandOne(taken);
    assert taken.inHand.value[1..] == [];
    RunStep(BY_ID[..5], handed, DrainEnd);
    assert BY_ID[..6] == BY_ID[..5] + [DrainEnd];
    assert handed.collected == {0} && handed.log == [Drained(0)];
  }

  /** The repeat by run_id does happen, and no queue filter has missed anything. */
  lemma ByIdRepeats()
    ensures Run(BY_ID).Some? && Run(BY_ID).value.log == [Drained(0), Awaited(0, 0, false, {})]
    ensures Run(BY_ID).value.missed == {}
  {
    hide Run;
    ByIdDrain();
    RunStep(BY_ID[..6], B6, AwaitOne(0));
    assert BY_ID[..7] == BY_ID[..6] + [AwaitOne(0)];
    assert Do(B6, AwaitOne(0)) == B7;
    CollectIsNext(BY_ID[..7], B7, 0);
    assert BY_ID == BY_ID[..7] + [AwaitCollect(0)];
    SmallFilters();
    assert B7.awaits.Keys - {0} == {};
    assert Hand([0], 0, false, {}) == [Awaited(0, 0, false, {})];
  }
}
