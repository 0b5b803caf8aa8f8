/** The reply threads of a snapshot partition it (diffgraph/comment_tools.py, diffgraph/orchestrator.py). */
module CommentThreads {
  import opened Seqs
  import opened Wrappers
  import opened CommentTree
  import opened CommentTools
  import opened RootFinders

  /** Unique positive ids; every reply answers an earlier comment of the list. */
  ghost predicate WellFormed(comments: seq<Rec>) {
    && UniqueIds(comments)
    && (forall c :: c in comments ==> 0 < c.id)
    && (forall c :: c in comments && HasParent(c) ==> c.parentId.value < c.id && HasId(comments, c.parentId.value))
  }

  lemma WellFormedIndex(comments: seq<Rec>)
    requires WellFormed(comments)
    ensures Descending(ById(comments))
    ensures forall c :: c in comments ==> c.id in ById(comments) && ById(comments)[c.id] == c
    ensures forall x :: x in ById(comments) ==> ById(comments)[x] in comments && Complete(ById(comments), x)
  {
    ByIdUnique(comments);
    forall x | x in ById(comments) ensures Complete(ById(comments), x) {
      AllComplete(comments, x);
    }
  }

  lemma {:induction false} AllComplete(comments: seq<Rec>, x: int)
    requires WellFormed(comments) && x in ById(comments)
    requires Descending(ById(comments))
    requires forall c :: c in comments ==> c.id in ById(comments)
    requires forall y :: y in ById(comments) ==> ById(comments)[y] in comments
    ensures Complete(ById(comments), x)
    decreases x
  {
    var c := ById(comments)[x];
    if HasParent(c) {
      var p :| p in comments && p.id == c.parentId.value;
      AllComplete(comments, p.id);
    }
  }

  /** Dropping the comments posted after the snapshot keeps the list well formed. */
  lemma {:induction false} SnapshotWellFormed(comments: seq<Rec>, maxId: int)
    requires WellFormed(comments)
    ensures WellFormed(FilterSnapshot(comments, maxId))
    ensures forall c :: c in FilterSnapshot(comments, maxId) <==> c in comments && (maxId == 0 || c.id <= maxId)
  {
    FilterMembers(comments, maxId);
    FilterUnique(comments, maxId);
    var kept := FilterSnapshot(comments, maxId);
    forall c | c in kept && HasParent(c) ensures HasId(kept, c.parentId.value) {
      var p :| p in comments && p.id == c.parentId.value;
      assert p in kept;
    }
  }

  lemma {:induction false} FilterMembers(comments: seq<Rec>, maxId: int)
    requires forall c :: c in comments ==> c.id != 0
    ensures forall c :: c in FilterSnapshot(comments, maxId) <==> c in comments && (maxId == 0 || c.id <= maxId)
  {
    if maxId != 0 && comments != [] {
      FilterMembers(comments[1..], maxId);
      assert comments == [comments[0]] + comments[1..];
    }
  }

  lemma {:induction false} FilterUnique(comments: seq<Rec>, maxId: int)
    requires UniqueIds(comments)
    ensures UniqueIds(FilterSnapshot(comments, maxId))
  {
    if maxId != 0 && comments != [] {
      var rest := comments[1..];
      forall i | 0 <= i < |rest| ensures rest[i].id != 0 { assert rest[i] == comments[i + 1]; }
      forall c | c in rest ensures c.id != 0 && c.id != comments[0].id {
        var i :| 0 <= i < |rest| && rest[i] == c;
        assert rest[i] == comments[i + 1];
      }
      FilterUnique(rest, maxId);
      FilterMembers(rest, maxId);
      UniqueCons(comments[0], FilterSnapshot(rest, maxId));
    }
  }

  lemma UniqueCons(c: Rec, rest: seq<Rec>)
    requires UniqueIds(rest) && c.id != 0 && forall x :: x in rest ==> x.id != c.id
    ensures UniqueIds([c] + rest) && UniqueIds(rest)
  {
    var all := [c] + rest;
    forall i, j | 0 <= i < j < |all| ensures all[i].id != all[j].id {
      assert all[j] == rest[j - 1] && rest[j - 1] in rest;
    }
  }

  // ------------------------------------------------------------- who is below

  /** `x` is `top` or answers it, directly or indirectly. */
  predicate Under(byId: map<int, Rec>, x: int, top: int)
    requires Descending(byId) && x in byId
    decreases x
  {
    x == top || (HasParent(byId[x]) && byId[x].parentId.value in byId && Under(byId, byId[x].parentId.value, top))
  }

  /** Below a root is the same as having it as root. */
  lemma {:induction false} UnderRoot(byId: map<int, Rec>, x: int, r: int)
    requires Descending(byId) && x in byId && r in byId && !HasParent(byId[r])
    requires Complete(byId, x)
    ensures Under(byId, x, r) <==> RootId(byId, x) == r
    decreases x
  {
    if HasParent(byId[x]) {
      UnderRoot(byId, byId[x].parentId.value, r);
    }
  }

  lemma {:induction false} UnderBelow(byId: map<int, Rec>, x: int, top: int)
    requires Descending(byId) && x in byId && Under(byId, x, top)
    ensures top <= x
    decreases x
  {
    if x != top {
      UnderBelow(byId, byId[x].parentId.value, top);
    }
  }

  /** The last comment on the way from `x` up to `top`. */
  function Hop(byId: map<int, Rec>, x: int, top: int): (k: int)
    requires Descending(byId) && x in byId && Under(byId, x, top) && x != top
    ensures k in byId && byId[k].parentId == Some(top) && HasParent(byId[k]) && Under(byId, x, k)
    decreases x
  {
    var p := byId[x].parentId.value;
    if p == top then x else Hop(byId, p, top)
  }

  /** Exactly one direct reply of `top` has `x` below it. */
  lemma {:induction false} OneHop(byId: map<int, Rec>, x: int, top: int, k: int)
    requires Descending(byId) && x in byId && top in byId
    requires k in byId && HasParent(byId[k]) && byId[k].parentId == Some(top) && Under(byId, x, k)
    ensures x != top && Under(byId, x, top) && Hop(byId, x, top) == k
    decreases x
  {
    UnderBelow(byId, x, k);
    if x != k {
      var p := byId[x].parentId.value;
      OneHop(byId, p, top, k);
    }
  }

  // ------------------------------------------------------ what the walk visits

  function Recs(w: seq<(Rec, nat)>): seq<Rec> {
    seq(|w|, i requires 0 <= i < |w| => w[i].0)
  }

  lemma RecsAppend(a: seq<(Rec, nat)>, b: seq<(Rec, nat)>)
    ensures Recs(a + b) == Recs(a) + Recs(b)
  {
  }

  lemma LastApartKeeps(s: seq<Rec>)
    requires s != []
    ensures s == s[..|s| - 1] + [s[|s| - 1]]
    ensures multiset(s) == multiset(s[..|s| - 1]) + multiset{s[|s| - 1]}
  {
    assert s == s[..|s| - 1] + [s[|s| - 1]];
  }

  lemma {:induction false} SortKeeps(s: seq<Rec>)
    ensures multiset(SortById(s)) == multiset(s)
  {
    hide Insert;
    if s != [] {
      LastApartKeeps(s);
      SortKeeps(s[..|s| - 1]);
      InsertKeeps(SortById(s[..|s| - 1]), s[|s| - 1]);
    }
  }

  lemma {:induction false} InsertKeeps(s: seq<Rec>, c: Rec)
    ensures multiset(Insert(s, c)) == multiset(s) + multiset{c}
  {
    if s != [] && c.id < s[|s| - 1].id {
      LastApartKeeps(s);
      InsertKeeps(s[..|s| - 1], c);
    }
  }

  lemma {:induction false} RepliesCount(comments: seq<Rec>, p: int, c: Rec)
    ensures multiset(RepliesTo(comments, p))[c]
            == if HasParent(c) && c.parentId.value == p then multiset(comments)[c] else 0
  {
    if comments != [] {
      var front, last := comments[..|comments| - 1], comments[|comments| - 1];
      RepliesCount(front, p, c);
      OneMore(front, last, c);
      assert comments == front + [last];
      if HasParent(last) && last.parentId.value == p {
        OneMore(RepliesTo(front, p), last, c);
      }
    }
  }

  lemma OneMore(s: seq<Rec>, last: Rec, c: Rec)
    ensures multiset(s + [last])[c] == multiset(s)[c] + if last == c then 1 else 0
  {
  }

  lemma {:induction false} UniqueOnce(comments: seq<Rec>, c: Rec)
    requires UniqueIds(comments)
    ensures multiset(comments)[c] == if c in comments then 1 else 0
  {
    if comments != [] {
      var rest := comments[1..];
      assert comments == [comments[0]] + rest;
      forall i | 0 <= i < |rest| ensures rest[i].id != 0 && rest[i].id != comments[0].id {
        assert rest[i] == comments[i + 1];
      }
      UniqueOnce(rest, c);
    }
  }

  /** Each reply is listed once among its parent's children. */
  lemma ChildrenOnce(comments: seq<Rec>, p: int, c: Rec)
    requires UniqueIds(comments)
    ensures multiset(Children(comments, p))[c]
            == if c in comments && HasParent(c) && c.parentId.value == p then 1 else 0
  {
    SortKeeps(RepliesTo(comments, p));
    RepliesCount(comments, p, c);
    UniqueOnce(comments, c);
  }

  lemma ChildrenMembers(comments: seq<Rec>, p: int)
    requires UniqueIds(comments)
    ensures forall c :: c in Children(comments, p) <==> c in comments && HasParent(c) && c.parentId.value == p
  {
    forall c ensures c in Children(comments, p) <==> c in comments && HasParent(c) && c.parentId.value == p {
      ChildrenOnce(comments, p, c);
      assert c in multiset(Children(comments, p)) <==> c in Children(comments, p);
    }
  }

  /** The walk ends: ids grow on the way down and are bounded. */
  lemma {:induction false} WalkEnds(comments: seq<Rec>, id: int, bound: int, n: nat)
    requires WellFormed(comments) && (forall c :: c in comments ==> c.id <= bound)
    requires bound - id < n
    ensures Shallow(comments, id, n)
    decreases n
  {
    ChildrenMembers(comments, id);
    forall c | c in Children(comments, id) ensures id in ById(comments) ==> Shallow(comments, c.id, n - 1) {
      if id in ById(comments) {
        WellFormedIndex(comments);
        WalkEnds(comments, c.id, bound, n - 1);
      }
    }
    if id in ById(comments) {
      ByIdUnique(comments);
    }
  }

  /** The walk from `id` visits the comments below it, each once, and nothing else. */
  lemma {:induction false} WalkVisits(comments: seq<Rec>, id: int, depth: nat, n: nat, c: Rec)
    requires WellFormed(comments) && Shallow(comments, id, n) && id in ById(comments) && Descending(ById(comments))
    ensures multiset(Recs(Walk(comments, id, depth, n)))[c]
            == if c in comments && c.id in ById(comments) && Under(ById(comments), c.id, id) then 1 else 0
    decreases n, 0
  {
    WellFormedIndex(comments);
    var byId := ById(comments);
    var kids := Children(comments, id);
    ChildrenMembers(comments, id);
    forall k | k in kids ensures k.id in byId && byId[k.id] == k && byId[k.id].parentId == Some(id) {
    }
    var head, tail := [(byId[id], depth)], WalkAll(comments, kids, depth + 1, n - 1);
    RecsAppend(head, tail);
    assert Recs(head) == [byId[id]];
    if c in comments {
      WalkAllVisits(comments, kids, id, depth + 1, n - 1, c);
      CountHops(comments, kids, id, c);
      ChildrenOnce(comments, id, byId[if c.id != id && Under(byId, c.id, id) then Hop(byId, c.id, id) else id]);
    } else {
      WalkAllVisits(comments, kids, id, depth + 1, n - 1, c);
    }
  }

  /** How many of `kids` have `c` below them. */
  function HopCount(byId: map<int, Rec>, kids: seq<Rec>, x: int): nat
    requires Descending(byId) && x in byId
  {
    if kids == [] then 0
    else HopCount(byId, kids[..|kids| - 1], x) + if Under(byId, x, kids[|kids| - 1].id) then 1 else 0
  }

  lemma {:induction false} WalkAllVisits(comments: seq<Rec>, kids: seq<Rec>, id: int, depth: nat, n: nat, c: Rec)
    requires WellFormed(comments) && Descending(ById(comments))
    requires forall k :: k in kids ==> k.id in ById(comments) && Shallow(comments, k.id, n)
    requires c in comments ==> c.id in ById(comments)
    ensures multiset(Recs(WalkAll(comments, kids, depth, n)))[c]
            == if c in comments then HopCount(ById(comments), kids, c.id) else 0
    decreases n, 1, |kids|
  {
    if kids != [] {
      hide ParentsFirst, Walk;
      var last, first := kids[|kids| - 1], kids[..|kids| - 1];
      assert last in kids;
      WalkAllVisits(comments, first, id, depth, n, c);
      WalkVisits(comments, last.id, depth, n, c);
      RecsAppend(WalkAll(comments, first, depth, n), Walk(comments, last.id, depth, n));
    }
  }

  lemma {:induction false} CountHops(comments: seq<Rec>, kids: seq<Rec>, id: int, c: Rec)
    requires Descending(ById(comments)) && c.id in ById(comments) && id in ById(comments)
    requires forall k :: k in kids ==> k.id in ById(comments) && ById(comments)[k.id] == k
                                       && HasParent(k) && k.parentId == Some(id)
    ensures var byId := ById(comments);
            HopCount(byId, kids, c.id)
            == if c.id != id && Under(byId, c.id, id) then multiset(kids)[byId[Hop(byId, c.id, id)]] else 0
  {
    if kids != [] {
      var byId, last, first := ById(comments), kids[|kids| - 1], kids[..|kids| - 1];
      assert last in kids && kids == first + [last];
      CountHops(comments, first, id, c);
      if Under(byId, c.id, last.id) {
        OneHop(byId, c.id, id, last.id);
      }
    }
  }

  // --------------------------------------------------------------- partition

  /** What `_root_of` answers for a comment. */
  function RootOfRec(byId: map<int, Rec>, c: Rec): int { Climb(byId, c, {}).id }

  /** The comments with root `r`, in list order: one entry of `roots_map`. */
  function Group(byId: map<int, Rec>, comments: seq<Rec>, r: int): seq<Rec> {
    if comments == [] then []
    else
      var c := comments[|comments| - 1];
      Group(byId, comments[..|comments| - 1], r) + if RootOfRec(byId, c) == r then [c] else []
  }

  lemma {:induction false} GroupCount(byId: map<int, Rec>, comments: seq<Rec>, r: int, c: Rec)
    ensures multiset(Group(byId, comments, r))[c] == if RootOfRec(byId, c) == r then multiset(comments)[c] else 0
  {
    hide RootOfRec;
    if comments != [] {
      GroupCount(byId, comments[..|comments| - 1], r, c);
      assert comments == comments[..|comments| - 1] + [comments[|comments| - 1]];
    }
  }

  function HasRoot(byId: map<int, Rec>, r: int): Rec -> bool { (c: Rec) => RootOfRec(byId, c) == r }

  /** A group is exactly the comments with that root, in list order. */
  lemma {:induction false} GroupPicks(byId: map<int, Rec>, comments: seq<Rec>, r: int)
    ensures Picked(Group(byId, comments, r), comments, HasRoot(byId, r))
  {
    hide Picked, RootOfRec;
    if comments == [] {
      PickedNone(HasRoot(byId, r));
    } else {
      var front, last := comments[..|comments| - 1], comments[|comments| - 1];
      GroupPicks(byId, front, r);
      PickedNext(Group(byId, front, r), front, HasRoot(byId, r), last);
      assert comments == front + [last];
      assert Group(byId, front, r) + [] == Group(byId, front, r);
    }
  }

  /** On well-formed comments the root is the topmost ancestor. */
  lemma RootOfWellFormed(comments: seq<Rec>, c: Rec)
    requires WellFormed(comments) && c in comments
    ensures Descending(ById(comments)) && c.id in ById(comments)
            && RootOfRec(ById(comments), c) == RootId(ById(comments), c.id)
  {
    WellFormedIndex(comments);
    ClimbFinds(ById(comments), c, {});
  }

  /** Walking a root lists exactly the comments that have it as root, each once. */
  lemma ThreadIsGroup(comments: seq<Rec>, r: int, n: nat)
    requires WellFormed(comments) && r in ById(comments) && !HasParent(ById(comments)[r]) && Shallow(comments, r, n)
    ensures multiset(Recs(Walk(comments, r, 0, n))) == multiset(Group(ById(comments), comments, r))
    ensures |Walk(comments, r, 0, n)| == |Group(ById(comments), comments, r)|
  {
    hide RootOfRec;
    WellFormedIndex(comments);
    var byId := ById(comments);
    var w, g := multiset(Recs(Walk(comments, r, 0, n))), multiset(Group(byId, comments, r));
    forall c ensures w[c] == g[c] {
      WalkVisits(comments, r, 0, n, c);
      GroupCount(byId, comments, r, c);
      UniqueOnce(comments, c);
      if c in comments {
        RootOfWellFormed(comments, c);
        UnderRoot(byId, c.id, r);
      }
    }
    assert w == g && |w| == |g|;
  }

  /** `roots_map` in insertion order: the roots as met, and the comments of each. */
  datatype Grouping = Grouping(keys: seq<int>, groups: map<int, seq<Rec>>)

  function TotalSize(g: Grouping, keys: seq<int>): nat
    requires forall r :: r in keys ==> r in g.groups
  {
    if keys == [] then 0
    else
      var last := keys[|keys| - 1];
      assert last in keys;
      TotalSize(g, keys[..|keys| - 1]) + |g.groups[last]|
  }

  ghost predicate DistinctKeys(keys: seq<int>) { forall i, j :: 0 <= i < j < |keys| ==> keys[i] != keys[j] }

  /** The map holds the groups of the first `i` comments. */
  ghost predicate Grouped(byId: map<int, Rec>, comments: seq<Rec>, i: nat, g: Grouping) {
    && i <= |comments|
    && DistinctKeys(g.keys) && (forall r :: r in g.keys <==> r in g.groups)
    && Holds(byId, comments[..i], g.groups)
    && TotalSize(g, g.keys) == i
  }

  lemma {:induction false} RootIsRoot(byId: map<int, Rec>, x: int)
    requires Descending(byId) && Complete(byId, x)
    ensures RootId(byId, x) in byId && !HasParent(byId[RootId(byId, x)])
    decreases x
  {
    if HasParent(byId[x]) {
      RootIsRoot(byId, byId[x].parentId.value);
    }
  }

  /** Growing one group by one comment grows the total by one. */
  lemma {:induction false} TotalGrows(g: Grouping, keys: seq<int>, r: int, c: Rec)
    requires DistinctKeys(keys) && (forall k :: k in keys ==> k in g.groups) && r in g.groups
    ensures TotalSize(Grouping(g.keys, g.groups[r := g.groups[r] + [c]]), keys)
            == TotalSize(g, keys) + if r in keys then 1 else 0
  {
    if keys != [] {
      TotalGrows(g, keys[..|keys| - 1], r, c);
      assert keys == keys[..|keys| - 1] + [keys[|keys| - 1]];
    }
  }

  lemma {:induction false} TotalSame(g: Grouping, h: Grouping, keys: seq<int>)
    requires forall k :: k in keys ==> k in g.groups && k in h.groups && g.groups[k] == h.groups[k]
    ensures TotalSize(g, keys) == TotalSize(h, keys)
  {
    if keys != [] {
      var last := keys[|keys| - 1];
      assert last in keys && g.groups[last] == h.groups[last];
      TotalSame(g, h, keys[..|keys| - 1]);
    }
  }

  /** One turn of the grouping loop. */
  function Added(g: Grouping, root: int, c: Rec): Grouping {
    if root in g.groups then Grouping(g.keys, g.groups[root := g.groups[root] + [c]])
    else Grouping(g.keys + [root], g.groups[root := [c]])
  }

  /** What the map holds after the comments `seen`: every group that is not empty. */
  ghost predicate Holds(byId: map<int, Rec>, seen: seq<Rec>, groups: map<int, seq<Rec>>) {
    && (forall r :: r in groups <==> Group(byId, seen, r) != [])
    && (forall r :: r in groups ==> groups[r] == Group(byId, seen, r))
  }

  lemma HoldsStep(byId: map<int, Rec>, seen: seq<Rec>, g: Grouping, c: Rec)
    requires Holds(byId, seen, g.groups)
    ensures Holds(byId, seen + [c], Added(g, RootOfRec(byId, c), c).groups)
  {
    hide RootOfRec, Group;
    var root := RootOfRec(byId, c);
    forall r ensures Group(byId, seen + [c], r) == Group(byId, seen, r) + if root == r then [c] else [] {
      GroupNext(byId, seen, c, r);
    }
  }

  lemma GroupNext(byId: map<int, Rec>, seen: seq<Rec>, c: Rec, r: int)
    ensures Group(byId, seen + [c], r) == Group(byId, seen, r) + if RootOfRec(byId, c) == r then [c] else []
  {
    hide RootOfRec;
    assert (seen + [c])[..|seen|] == seen;
  }

  /** One turn of the grouping loop: the comment joins the group of its root. */
  lemma GroupStep(byId: map<int, Rec>, comments: seq<Rec>, i: nat, g: Grouping)
    requires i < |comments| && Grouped(byId, comments, i, g)
    ensures Grouped(byId, comments, i + 1, Added(g, RootOfRec(byId, comments[i]), comments[i]))
  {
    hide Added, TotalSize, RootOfRec, Holds;
    assert comments[..i + 1] == comments[..i] + [comments[i]];
    HoldsStep(byId, comments[..i], g, comments[i]);
    AddedTotal(g, RootOfRec(byId, comments[i]), comments[i]);
  }

  lemma AddedTotal(g: Grouping, root: int, c: Rec)
    requires DistinctKeys(g.keys) && (forall r :: r in g.keys <==> r in g.groups)
    ensures var h := Added(g, root, c);
            && DistinctKeys(h.keys) && (forall r :: r in h.keys <==> r in h.groups)
            && TotalSize(h, h.keys) == TotalSize(g, g.keys) + 1
  {
    var h := Added(g, root, c);
    if root in g.groups {
      TotalGrows(g, g.keys, root, c);
    } else {
      assert h.keys[..|h.keys| - 1] == g.keys;
      TotalSame(g, h, g.keys);
    }
  }

  /** A comment with root `a` comes before every comment with root `b`. */
  ghost predicate MetBefore(byId: map<int, Rec>, seen: seq<Rec>, a: int, b: int) {
    exists p :: 0 <= p < |seen| && RootOfRec(byId, seen[p]) == a
                && forall q :: 0 <= q <= p ==> RootOfRec(byId, seen[q]) != b
  }

  ghost predicate KeysInOrder(byId: map<int, Rec>, seen: seq<Rec>, keys: seq<int>) {
    forall i, j :: 0 <= i < j < |keys| ==> MetBefore(byId, seen, keys[i], keys[j])
  }

  lemma {:induction false} GroupMembers(byId: map<int, Rec>, seen: seq<Rec>, r: int)
    ensures Group(byId, seen, r) != [] <==> exists p :: 0 <= p < |seen| && RootOfRec(byId, seen[p]) == r
  {
    hide RootOfRec;
    if seen != [] {
      var front, n := seen[..|seen| - 1], |seen| - 1;
      GroupMembers(byId, front, r);
      if exists p :: 0 <= p < |front| && RootOfRec(byId, front[p]) == r {
        var p :| 0 <= p < |front| && RootOfRec(byId, front[p]) == r;
        assert seen[p] == front[p];
      }
      if exists p :: 0 <= p < |seen| && RootOfRec(byId, seen[p]) == r {
        var p :| 0 <= p < |seen| && RootOfRec(byId, seen[p]) == r;
        assert p < n ==> front[p] == seen[p];
      }
    }
  }

  lemma KeysStep(byId: map<int, Rec>, seen: seq<Rec>, g: Grouping, c: Rec)
    requires Holds(byId, seen, g.groups) && KeysInOrder(byId, seen, g.keys)
    requires forall r :: r in g.keys <==> r in g.groups
    ensures KeysInOrder(byId, seen + [c], Added(g, RootOfRec(byId, c), c).keys)
  {
    hide RootOfRec, Group;
    var root, more := RootOfRec(byId, c), seen + [c];
    var keys := Added(g, root, c).keys;
    forall i, j | 0 <= i < j < |keys| ensures MetBefore(byId, more, keys[i], keys[j]) {
      if j < |g.keys| {
        assert MetBefore(byId, seen, g.keys[i], g.keys[j]);
        var p :| 0 <= p < |seen| && RootOfRec(byId, seen[p]) == keys[i]
                 && forall q :: 0 <= q <= p ==> RootOfRec(byId, seen[q]) != keys[j];
        assert forall q :: 0 <= q <= p ==> more[q] == seen[q];
      } else {
        assert g.keys[i] in g.keys && root !in g.groups;
        GroupMembers(byId, seen, keys[i]);
        GroupMembers(byId, seen, root);
        var p :| 0 <= p < |seen| && RootOfRec(byId, seen[p]) == keys[i];
        assert forall q :: 0 <= q <= p ==> more[q] == seen[q];
      }
    }
  }

  /** The grouping loop of `pr_list_threads` and of `_format_existing_comments`,
      on any comments: one group per root that occurs, in order of first occurrence,
      each the comments with that root in list order, and the group sizes sum to
      the comment count. */
  method GroupByRoot(comments: seq<Rec>) returns (g: Grouping)
    ensures DistinctKeys(g.keys) && forall r :: r in g.keys <==> r in g.groups
    ensures forall r :: r in g.groups <==> Group(ById(comments), comments, r) != []
    ensures forall r :: r in g.groups ==> g.groups[r] == Group(ById(comments), comments, r)
    ensures TotalSize(g, g.keys) == |comments|
    ensures KeysInOrder(ById(comments), comments, g.keys)
  {
    hide ById, Climb, KeysInOrder, Holds, Grouped, TotalSize, Group;
    var byId := ById(comments);
    g := Grouping([], map[]);
    NothingGrouped(byId, comments, g);
    for i := 0 to |comments|
      invariant Grouped(byId, comments, i, g) && KeysInOrder(byId, comments[..i], g.keys)
    {
      var root := RootOf(comments[i], byId);
      GroupStep(byId, comments, i, g);
      GroupedKeys(byId, comments, i, g);
      KeysStep(byId, comments[..i], g, comments[i]);
      assert comments[..i + 1] == comments[..i] + [comments[i]];
      if root in g.groups {
        g := Grouping(g.keys, g.groups[root := g.groups[root] + [comments[i]]]);
      } else {
        g := Grouping(g.keys + [root], g.groups[root := [comments[i]]]);
      }
    }
    assert comments[..|comments|] == comments;
    GroupedSays(byId, comments, g);
  }

  lemma GroupedSays(byId: map<int, Rec>, comments: seq<Rec>, g: Grouping)
    requires Grouped(byId, comments, |comments|, g)
    ensures DistinctKeys(g.keys) && forall r :: r in g.keys <==> r in g.groups
    ensures forall r :: r in g.groups <==> Group(byId, comments, r) != []
    ensures forall r :: r in g.groups ==> g.groups[r] == Group(byId, comments, r)
    ensures TotalSize(g, g.keys) == |comments|
  {
    assert comments[..|comments|] == comments;
  }

  lemma GroupedKeys(byId: map<int, Rec>, comments: seq<Rec>, i: nat, g: Grouping)
    requires Grouped(byId, comments, i, g)
    ensures i <= |comments| && Holds(byId, comments[..i], g.groups) && forall r :: r in g.keys <==> r in g.groups
  {
  }

  lemma NothingGrouped(byId: map<int, Rec>, comments: seq<Rec>, g: Grouping)
    requires g == Grouping([], map[])
    ensures Grouped(byId, comments, 0, g) && KeysInOrder(byId, comments[..0], g.keys)
  {
    assert comments[..0] == [];
  }

  /** On well-formed comments the roots that occur are the comments without parent. */
  lemma RootsOccur(comments: seq<Rec>, r: int)
    requires WellFormed(comments)
    ensures Group(ById(comments), comments, r) != [] <==> r in ById(comments) && !HasParent(ById(comments)[r])
  {
    hide RootOfRec;
    WellFormedIndex(comments);
    var byId, g := ById(comments), Group(ById(comments), comments, r);
    if g != [] {
      GroupCount(byId, comments, r, g[0]);
      assert multiset(g)[g[0]] > 0;
      RootOfWellFormed(comments, g[0]);
      RootIsRoot(byId, g[0].id);
    }
    if r in byId && !HasParent(byId[r]) {
      RootOfWellFormed(comments, byId[r]);
      GroupCount(byId, comments, r, byId[r]);
      assert multiset(comments)[byId[r]] > 0;
    }
  }

  // ---------------------------------------------------- reading one thread

  /** Every comment of a walk but the first comes after the comment it answers. */
  ghost predicate ParentsFirst(w: seq<(Rec, nat)>) {
    forall j :: 0 < j < |w| ==> AnswersEarlier(w, j)
  }

  ghost predicate AnswersEarlier(w: seq<(Rec, nat)>, j: nat)
    requires j < |w|
  {
    exists i :: 0 <= i < j && w[j].0.parentId == Some(w[i].0.id) && w[j].1 == w[i].1 + 1
  }

  lemma {:induction false} WalkParentsFirst(comments: seq<Rec>, id: int, depth: nat, n: nat)
    requires UniqueIds(comments) && Shallow(comments, id, n) && id in ById(comments)
    ensures var w := Walk(comments, id, depth, n);
            w != [] && w[0] == (ById(comments)[id], depth) && ParentsFirst(w)
    decreases n, 0
  {
    ByIdUnique(comments);
    ChildrenMembers(comments, id);
    var kids := Children(comments, id);
    var head, tail := (ById(comments)[id], depth), WalkAll(comments, kids, depth + 1, n - 1);
    WalkAllParentsFirst(comments, kids, head, depth + 1, n - 1);
    assert Walk(comments, id, depth, n) == [head] + tail;
  }

  lemma {:induction false} WalkAllParentsFirst(comments: seq<Rec>, kids: seq<Rec>, head: (Rec, nat), depth: nat, n: nat)
    requires UniqueIds(comments) && depth == head.1 + 1
    requires forall k :: k in kids ==> k in comments && k.parentId == Some(head.0.id) && Shallow(comments, k.id, n)
    ensures ParentsFirst([head] + WalkAll(comments, kids, depth, n))
    decreases n, 1, |kids|
  {
    if kids != [] {
      var last, first := kids[|kids| - 1], kids[..|kids| - 1];
      assert last in kids;
      ByIdUnique(comments);
      WalkAllParentsFirst(comments, first, head, depth, n);
      WalkParentsFirst(comments, last.id, depth, n);
      var a, b := [head] + WalkAll(comments, first, depth, n), Walk(comments, last.id, depth, n);
      Regroup([head], WalkAll(comments, first, depth, n), b);
      JoinParentsFirst(a, b, head);
    }
  }

  lemma JoinParentsFirst(a: seq<(Rec, nat)>, b: seq<(Rec, nat)>, head: (Rec, nat))
    requires a != [] && a[0] == head && ParentsFirst(a)
    requires b != [] && b[0].0.parentId == Some(head.0.id) && b[0].1 == head.1 + 1 && ParentsFirst(b)
    ensures ParentsFirst(a + b)
  {
    var w := a + b;
    forall j | 0 < j < |w| ensures AnswersEarlier(w, j) {
      if j < |a| {
        assert AnswersEarlier(a, j);
        var i :| 0 <= i < j && a[j].0.parentId == Some(a[i].0.id) && a[j].1 == a[i].1 + 1;
        assert w[i] == a[i] && w[j] == a[j];
      } else if j == |a| {
        assert w[0] == head && w[j] == b[0];
      } else {
        var k := j - |a|;
        assert AnswersEarlier(b, k);
        var i :| 0 <= i < k && b[k].0.parentId == Some(b[i].0.id) && b[k].1 == b[i].1 + 1;
        assert w[|a| + i] == b[i] && w[j] == b[k];
      }
    }
  }

  /** The whole thread of one comment: everything with its root, each once, parents first. */
  ghost predicate IsThread(snapshot: seq<Rec>, commentId: int, w: seq<(Rec, nat)>) {
    && WellFormed(snapshot) && Descending(ById(snapshot)) && commentId in ById(snapshot)
    && var r := RootId(ById(snapshot), commentId);
    && r in ById(snapshot) && ParentsFirst(w) && w != [] && w[0] == (ById(snapshot)[r], 0)
    && multiset(Recs(w)) == multiset(Group(ById(snapshot), snapshot, r))
  }

  lemma WalkIsThread(snapshot: seq<Rec>, commentId: int, n: nat)
    requires WellFormed(snapshot) && Descending(ById(snapshot)) && commentId in ById(snapshot)
    requires Shallow(snapshot, RootId(ById(snapshot), commentId), n)
    ensures IsThread(snapshot, commentId, Walk(snapshot, RootId(ById(snapshot), commentId), 0, n))
  {
    hide ById, WellFormed, RootId, Complete, Walk, Shallow, Group, FilterSnapshot;
    WellFormedIndex(snapshot);
    var root := RootId(ById(snapshot), commentId);
    RootIsRoot(ById(snapshot), commentId);
    assert UniqueIds(snapshot) by { WellFormedUnique(snapshot); }
    ThreadIsGroup(snapshot, root, n);
    WalkParentsFirst(snapshot, root, 0, n);
  }

  lemma WellFormedUnique(comments: seq<Rec>)
    requires WellFormed(comments)
    ensures UniqueIds(comments)
  {
  }

  /** Where `pr_read_thread` starts to walk. */
  function StartOf(snapshot: seq<Rec>, commentId: int): int
    requires commentId in ById(snapshot)
  {
    Climb(ById(snapshot), ById(snapshot)[commentId], {}).id
  }

  /** What `pr_read_thread` gives back: the recursion ends, or it exceeds the interpreter's limit. */
  datatype ReadResult = NotFound | TooDeep | Thread(walk: seq<(Rec, nat)>)

  /** `pr_read_thread`, on any comments. `limit` is how deep the interpreter lets
      the recursion go; it is exceeded exactly when a reply chain below the start
      is longer, and on looping data by every limit (`CommentRender.WalkEndsIff`). */
  method PrReadThread(comments: seq<Rec>, commentId: int, maxId: int, limit: nat) returns (result: ReadResult)
    ensures result.NotFound? <==> commentId !in ById(FilterSnapshot(comments, maxId))
    ensures var snapshot := FilterSnapshot(comments, maxId);
            commentId in ById(snapshot) ==>
              (result.Thread? <==> Shallow(snapshot, StartOf(snapshot, commentId), limit))
    ensures var snapshot := FilterSnapshot(comments, maxId);
            result.Thread? ==>
              && Shallow(snapshot, StartOf(snapshot, commentId), limit)
              && result.walk == Walk(snapshot, StartOf(snapshot, commentId), 0, limit)
    ensures result.Thread? && WellFormed(comments) ==> IsThread(FilterSnapshot(comments, maxId), commentId, result.walk)
  {
    hide WellFormed, IsThread, ById, FilterSnapshot, RepliesTo, Shallow, Climb, Walk;
    var snapshot := FilterSnapshot(comments, maxId);
    var byId := ById(snapshot);
    if commentId !in byId {
      return NotFound;
    }
    var root := RootOf(byId[commentId], byId);
    var childrenOf := BuildChildrenMap(snapshot);
    var walked := WalkInto(byId, childrenOf, root, 0, [], limit, snapshot);
    if walked.None? {
      return TooDeep;
    }
    assert walked.value == Walk(snapshot, root, 0, limit);
    result := Thread(walked.value);
    if WellFormed(comments) {
      SnapshotWellFormed(comments, maxId);
      WellFormedIndex(snapshot);
      WalkIsThread(snapshot, commentId, limit);
    }
  }

  /** On well-formed comments the walk ends. */
  lemma ThreadsEnd(comments: seq<Rec>, commentId: int, maxId: int)
    requires WellFormed(comments)
    ensures var snapshot := FilterSnapshot(comments, maxId);
            commentId in ById(snapshot) ==> exists n: nat :: Shallow(snapshot, StartOf(snapshot, commentId), n)
  {
    hide Shallow;
    SnapshotWellFormed(comments, maxId);
    var snapshot := FilterSnapshot(comments, maxId);
    if commentId in ById(snapshot) {
      var gap := MaxId(snapshot) - StartOf(snapshot, commentId);
      WalkEnds(snapshot, StartOf(snapshot, commentId), MaxId(snapshot), if gap < 0 then 0 else gap + 1);
    }
  }

  ghost function MaxId(comments: seq<Rec>): (m: int)
    ensures forall c :: c in comments ==> c.id <= m
  {
    if comments == [] then 0
    else
      var m := MaxId(comments[1..]);
      assert comments == [comments[0]] + comments[1..];
      if comments[0].id > m then comments[0].id else m
  }
}
