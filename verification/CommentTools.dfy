/** Rebuilding reply threads from flat records (diffgraph/comment_tools.py). */
module CommentTools {
  import opened Seqs
  import opened Wrappers
  import opened CommentTree
  import SortedSets

  /** `if parent_id:` - neither missing nor zero. */
  predicate HasParent(c: Rec) { c.parentId.Some? && c.parentId.value != 0 }

  /** `{c["id"]: c for c in comments if c.get("id")}`: a later record overwrites an earlier one. */
  function ById(comments: seq<Rec>): map<int, Rec> {
    if comments == [] then map[]
    else
      var c := comments[|comments| - 1];
      var before := ById(comments[..|comments| - 1]);
      if c.id == 0 then before else before[c.id := c]
  }

  function FilterSnapshot(comments: seq<Rec>, maxId: int): seq<Rec> {
    if maxId == 0 || comments == [] then comments
    else
      var c := comments[0];
      (if c.id != 0 && c.id <= maxId then [c] else []) + FilterSnapshot(comments[1..], maxId)
  }

  function RepliesTo(comments: seq<Rec>, p: int): seq<Rec> {
    if comments == [] then []
    else
      var c := comments[|comments| - 1];
      RepliesTo(comments[..|comments| - 1], p) + if HasParent(c) && c.parentId.value == p then [c] else []
  }

  /** Python's stable `list.sort` by id. */
  function SortById(s: seq<Rec>): seq<Rec> {
    if s == [] then [] else Insert(SortById(s[..|s| - 1]), s[|s| - 1])
  }

  function Insert(s: seq<Rec>, c: Rec): seq<Rec> {
    if s != [] && c.id < s[|s| - 1].id then Insert(s[..|s| - 1], c) + [s[|s| - 1]] else s + [c]
  }

  function Children(comments: seq<Rec>, p: int): seq<Rec> {
    SortById(RepliesTo(comments, p))
  }

  method BuildChildrenMap(comments: seq<Rec>) returns (childrenOf: map<int, seq<Rec>>)
    ensures forall p :: p in childrenOf <==> RepliesTo(comments, p) != []
    ensures forall p :: p in childrenOf ==> childrenOf[p] == Children(comments, p)
  {
    hide RepliesTo, SortById;
    NoRepliesYet(comments);
    childrenOf := map[];
    for i := 0 to |comments|
      invariant forall p :: p in childrenOf <==> RepliesTo(comments[..i], p) != []
      invariant forall p :: p in childrenOf ==> childrenOf[p] == RepliesTo(comments[..i], p)
    {
      var c := comments[i];
      RepliesStep(comments, i);
      if HasParent(c) {
        var pid := c.parentId.value;
        childrenOf := childrenOf[pid := (if pid in childrenOf then childrenOf[pid] else []) + [c]];
      }
    }
    assert comments[..|comments|] == comments;
    var rest := childrenOf.Keys;
    while rest != {}
      invariant rest <= childrenOf.Keys
      invariant forall p :: p in childrenOf <==> RepliesTo(comments, p) != []
      invariant forall p :: p in childrenOf ==>
        childrenOf[p] == if p in rest then RepliesTo(comments, p) else Children(comments, p)
      decreases rest
    {
      SortedSets.NonEmpty(rest);
      var p :| p in rest;
      childrenOf := childrenOf[p := SortById(childrenOf[p])];
      rest := rest - {p};
    }
  }

  lemma NoRepliesYet(comments: seq<Rec>)
    ensures forall p :: RepliesTo(comments[..0], p) == []
  {
  }

  lemma RepliesStep(comments: seq<Rec>, i: nat)
    requires i < |comments|
    ensures forall p :: RepliesTo(comments[..i + 1], p)
              == RepliesTo(comments[..i], p)
                 + if HasParent(comments[i]) && comments[i].parentId.value == p then [comments[i]] else []
  {
    assert comments[..i + 1][..i] == comments[..i];
  }

  // ---------------------------------------------------------------- the walk

  /** Reply chains below `id` are shorter than `n`: the recursion ends. */
  ghost predicate Shallow(comments: seq<Rec>, id: int, n: nat)
    decreases n
  {
    id !in ById(comments) || (n > 0 && forall c :: c in Children(comments, id) ==> Shallow(comments, c.id, n - 1))
  }

  ghost function Walk(comments: seq<Rec>, id: int, depth: nat, n: nat): seq<(Rec, nat)>
    requires Shallow(comments, id, n)
    decreases n, 0
  {
    if id !in ById(comments) then []
    else [(ById(comments)[id], depth)] + WalkAll(comments, Children(comments, id), depth + 1, n - 1)
  }

  ghost function WalkAll(comments: seq<Rec>, cs: seq<Rec>, depth: nat, n: nat): seq<(Rec, nat)>
    requires forall c :: c in cs ==> Shallow(comments, c.id, n)
    decreases n, 1, |cs|
  {
    if cs == [] then []
    else WalkAll(comments, cs[..|cs| - 1], depth, n) + Walk(comments, cs[|cs| - 1].id, depth, n)
  }

  lemma WalkStep(comments: seq<Rec>, id: int, depth: nat, n: nat)
    requires Shallow(comments, id, n) && id in ById(comments)
    ensures n > 0 && forall k :: k in Children(comments, id) ==> Shallow(comments, k.id, n - 1)
    ensures Walk(comments, id, depth, n)
            == [(ById(comments)[id], depth)] + WalkAll(comments, Children(comments, id), depth + 1, n - 1)
  {
  }

  ghost predicate AllShallow(comments: seq<Rec>, cs: seq<Rec>, n: nat) {
    forall c :: c in cs ==> Shallow(comments, c.id, n)
  }

  lemma ShallowStep(comments: seq<Rec>, id: int, n: nat)
    requires id in ById(comments)
    ensures Shallow(comments, id, n) <==> n > 0 && AllShallow(comments, Children(comments, id), n - 1)
  {
  }

  lemma WalkAllStep(comments: seq<Rec>, cs: seq<Rec>, i: nat, depth: nat, n: nat)
    requires i < |cs| && AllShallow(comments, cs[..i], n) && Shallow(comments, cs[i].id, n)
    ensures AllShallow(comments, cs[..i + 1], n)
    ensures WalkAll(comments, cs[..i + 1], depth, n)
            == WalkAll(comments, cs[..i], depth, n) + Walk(comments, cs[i].id, depth, n)
  {
    hide Walk, Shallow;
    assert cs[..i + 1] == cs[..i] + [cs[i]];
    assert cs[..i + 1][..i] == cs[..i];
  }

  lemma WalkUnknown(comments: seq<Rec>, id: int, depth: nat, n: nat)
    requires id !in ById(comments)
    ensures Shallow(comments, id, n) && Walk(comments, id, depth, n) == []
  {
  }

  lemma WalkNone(comments: seq<Rec>, depth: nat, n: nat)
    ensures WalkAll(comments, [], depth, n) == []
  {
  }

  lemma ChildrenAt(childrenOf: map<int, seq<Rec>>, comments: seq<Rec>, id: int)
    requires forall p :: p in childrenOf <==> RepliesTo(comments, p) != []
    requires forall p :: p in childrenOf ==> childrenOf[p] == Children(comments, p)
    ensures (if id in childrenOf then childrenOf[id] else []) == Children(comments, id)
  {
  }

  /** The closure `walk` of `pr_read_thread`, appending to its accumulator.
      `limit` is how deep the recursion may still go; None when it is exceeded. */
  method WalkInto(byId: map<int, Rec>, childrenOf: map<int, seq<Rec>>, id: int, depth: nat, acc: seq<(Rec, nat)>,
                  limit: nat, ghost comments: seq<Rec>)
    returns (out: Option<seq<(Rec, nat)>>)
    requires byId == ById(comments)
    requires forall p :: p in childrenOf <==> RepliesTo(comments, p) != []
    requires forall p :: p in childrenOf ==> childrenOf[p] == Children(comments, p)
    ensures out.Some? <==> Shallow(comments, id, limit)
    ensures out.Some? ==> out.value == acc + Walk(comments, id, depth, limit)
    decreases limit
  {
    hide ById, RepliesTo, Children, Shallow, Walk, WalkAll;
    if id !in byId {
      WalkUnknown(comments, id, depth, limit);
      return Some(acc);
    }
    ShallowStep(comments, id, limit);
    if limit == 0 {
      return None;
    }
    var walked := acc + [(byId[id], depth)];
    var replies: seq<Rec> := if id in childrenOf then childrenOf[id] else [];
    ChildrenAt(childrenOf, comments, id);
    WalkNone(comments, depth + 1, limit - 1);
    assert replies[..0] == [];
    ghost var start := walked;
    for i := 0 to |replies|
      invariant AllShallow(comments, replies[..i], limit - 1)
      invariant walked == start + WalkAll(comments, replies[..i], depth + 1, limit - 1)
    {
      var reply := replies[i];
      assert reply in replies;
      var further := WalkInto(byId, childrenOf, reply.id, depth + 1, walked, limit - 1, comments);
      if further.None? {
        return None;
      }
      WalkAllStep(comments, replies, i, depth + 1, limit - 1);
      Regroup(start, WalkAll(comments, replies[..i], depth + 1, limit - 1),
              Walk(comments, reply.id, depth + 1, limit - 1));
      walked := further.value;
    }
    assert replies[..|replies|] == replies;
    WalkStep(comments, id, depth, limit);
    Regroup(acc, [(byId[id], depth)], WalkAll(comments, replies, depth + 1, limit - 1));
    return Some(walked);
  }

  // ------------------------------------------------------ flatten then rebuild

  ghost predicate UniqueIds(comments: seq<Rec>) {
    && (forall i :: 0 <= i < |comments| ==> comments[i].id != 0)
    && (forall i, j :: 0 <= i < j < |comments| ==> comments[i].id != comments[j].id)
  }

  lemma {:induction false} ByIdUnique(comments: seq<Rec>)
    requires UniqueIds(comments)
    ensures forall c :: c in comments ==> c.id in ById(comments) && ById(comments)[c.id] == c
    ensures forall x :: x in ById(comments) ==> ById(comments)[x] in comments && ById(comments)[x].id == x
  {
    if comments != [] {
      var before := comments[..|comments| - 1];
      ByIdUnique(before);
      assert comments == before + [comments[|comments| - 1]];
    }
  }

  ghost predicate LastOf(comments: seq<Rec>, x: int, k: nat) {
    k < |comments| && comments[k].id == x && forall j :: k < j < |comments| ==> comments[j].id != x
  }

  lemma LastOfNext(comments: seq<Rec>, x: int)
    requires comments != []
    ensures var front, n := comments[..|comments| - 1], |comments| - 1;
            if comments[n].id == x then forall k: nat :: LastOf(comments, x, k) ==> k == n
            else forall k: nat :: LastOf(comments, x, k) ==> LastOf(front, x, k) && front[k] == comments[k]
  {
  }

  lemma HasIdNext(comments: seq<Rec>, x: int)
    requires comments != []
    ensures HasId(comments, x) <==>
            HasId(comments[..|comments| - 1], x) || comments[|comments| - 1].id == x
  {
    var last := comments[|comments| - 1];
    assert comments == comments[..|comments| - 1] + [last] && last in comments;
    HasIdWithin(comments[..|comments| - 1], comments);
  }

  /** On any comments the index has exactly their ids but 0, each with the last comment that carries it. */
  lemma {:induction false} ByIdOfAny(comments: seq<Rec>, x: int)
    ensures x in ById(comments) <==> x != 0 && HasId(comments, x)
    ensures x != 0 ==>
              forall k: nat :: LastOf(comments, x, k) ==> x in ById(comments) && ById(comments)[x] == comments[k]
  {
    if comments != [] {
      hide LastOf, HasId;
      ByIdOfAny(comments[..|comments| - 1], x);
      LastOfNext(comments, x);
      HasIdNext(comments, x);
      ByIdNext(comments, x);
      LastOfKnown(comments, x);
    } else {
      LastOfKnown(comments, x);
    }
  }

  lemma LastOfKnown(comments: seq<Rec>, x: int)
    ensures forall k: nat :: LastOf(comments, x, k) ==> k < |comments| && HasId(comments, x)
  {
    forall k: nat | LastOf(comments, x, k) ensures HasId(comments, x) {
      assert comments[k] in comments;
    }
  }

  lemma ByIdNext(comments: seq<Rec>, x: int)
    requires comments != []
    ensures var last, before := comments[|comments| - 1], ById(comments[..|comments| - 1]);
            if last.id == x != 0 then x in ById(comments) && ById(comments)[x] == last
            else (x in ById(comments) <==> x in before) && (x in before ==> ById(comments)[x] == before[x])
  {
  }

  /** What a snapshot of a positive maximum id keeps. */
  function UpTo(maxId: int): Rec -> bool { (c: Rec) => c.id != 0 && c.id <= maxId }

  /** On any comments: without a maximum id everything; otherwise, in list order,
      exactly the comments with an id up to the maximum. */
  lemma SnapshotOfAny(comments: seq<Rec>, maxId: int)
    ensures maxId == 0 ==> FilterSnapshot(comments, maxId) == comments
    ensures maxId != 0 ==> Picked(FilterSnapshot(comments, maxId), comments, UpTo(maxId))
  {
    if maxId != 0 {
      SnapshotPicks([], [], comments, maxId);
      assert [] + comments == comments && [] + FilterSnapshot(comments, maxId) == FilterSnapshot(comments, maxId);
    }
  }

  lemma {:induction false} SnapshotPicks(out: seq<Rec>, done: seq<Rec>, rest: seq<Rec>, maxId: int)
    requires maxId != 0 && (Picked(out, done, UpTo(maxId)) || (out == [] && done == []))
    ensures Picked(out + FilterSnapshot(rest, maxId), done + rest, UpTo(maxId))
    decreases |rest|
  {
    hide Picked;
    if out == [] && done == [] {
      PickedNone(UpTo(maxId));
    }
    if rest == [] {
      assert out + FilterSnapshot(rest, maxId) == out && done + rest == done;
    } else {
      var c := rest[0];
      var more := if UpTo(maxId)(c) then out + [c] else out;
      PickedNext(out, done, UpTo(maxId), c);
      SnapshotPicks(more, done + [c], rest[1..], maxId);
      assert done + rest == done + [c] + rest[1..];
      assert out + FilterSnapshot(rest, maxId) == more + FilterSnapshot(rest[1..], maxId);
    }
  }

  function WithId(s: seq<Rec>, x: int): seq<Rec> {
    if s == [] then [] else WithId(s[..|s| - 1], x) + if s[|s| - 1].id == x then [s[|s| - 1]] else []
  }

  ghost predicate Sorted(s: seq<Rec>) { forall i, j :: 0 <= i < j < |s| ==> s[i].id <= s[j].id }

  /** Sorting by id: ascending, nothing lost or added, and comments with the same id stay in their order. */
  lemma {:induction false} SortIsStable(s: seq<Rec>)
    ensures Sorted(SortById(s))
    ensures forall x :: WithId(SortById(s), x) == WithId(s, x)
    ensures forall c :: c in SortById(s) <==> c in s
  {
    if s != [] {
      var front, last := s[..|s| - 1], s[|s| - 1];
      SortIsStable(front);
      InsertIsStable(SortById(front), last);
      assert s == front + [last];
    }
  }

  lemma WithIdNext(s: seq<Rec>, c: Rec, x: int)
    ensures WithId(s + [c], x) == WithId(s, x) + if c.id == x then [c] else []
  {
    assert (s + [c])[..|s|] == s;
  }

  lemma SortedNext(s: seq<Rec>, c: Rec)
    requires Sorted(s) && forall d :: d in s ==> d.id <= c.id
    ensures Sorted(s + [c])
  {
    forall i | 0 <= i < |s| ensures s[i].id <= c.id {
      assert s[i] in s;
    }
  }

  lemma SortedFront(s: seq<Rec>)
    requires Sorted(s) && s != []
    ensures Sorted(s[..|s| - 1]) && s == s[..|s| - 1] + [s[|s| - 1]]
    ensures forall d :: d in s ==> d.id <= s[|s| - 1].id
  {
  }

  lemma {:induction false} InsertIsStable(s: seq<Rec>, c: Rec)
    requires Sorted(s)
    ensures Sorted(Insert(s, c))
    ensures forall x :: WithId(Insert(s, c), x) == WithId(s, x) + if c.id == x then [c] else []
    ensures forall d :: d in Insert(s, c) <==> d in s || d == c
  {
    hide Sorted, WithId;
    if s != [] {
      SortedFront(s);
    }
    if s != [] && c.id < s[|s| - 1].id {
      var front, last := s[..|s| - 1], s[|s| - 1];
      InsertIsStable(front, c);
      SortedNext(Insert(front, c), last);
      forall x ensures WithId(Insert(s, c), x) == WithId(s, x) + if c.id == x then [c] else [] {
        WithIdNext(Insert(front, c), last, x);
        WithIdNext(front, last, x);
      }
    } else {
      SortedNext(s, c);
      forall x ensures WithId(s + [c], x) == WithId(s, x) + if c.id == x then [c] else [] {
        WithIdNext(s, c, x);
      }
    }
  }

  lemma {:induction false} RepliesAppend(a: seq<Rec>, b: seq<Rec>, p: int)
    ensures RepliesTo(a + b, p) == RepliesTo(a, p) + RepliesTo(b, p)
  {
    if b == [] {
      assert a + b == a;
    } else {
      var last := b[|b| - 1];
      RepliesAppend(a, b[..|b| - 1], p);
      FrontAndLast(a, b);
      Regroup(RepliesTo(a, p), RepliesTo(b[..|b| - 1], p),
              if HasParent(last) && last.parentId.value == p then [last] else []);
    }
  }

  lemma {:induction false} NoReplies(s: seq<Rec>, p: int)
    requires forall c :: c in s ==> c.parentId != Some(p)
    ensures RepliesTo(s, p) == []
  {
    if s != [] {
      assert s[|s| - 1] in s;
      NoReplies(s[..|s| - 1], p);
    }
  }

  ghost predicate Ascending(s: seq<Rec>) { forall i, j :: 0 <= i < j < |s| ==> s[i].id < s[j].id }

  lemma InsertLast(s: seq<Rec>, c: Rec)
    requires s == [] || s[|s| - 1].id <= c.id
    ensures Insert(s, c) == s + [c]
  {
  }

  lemma {:induction false} SortedAlready(s: seq<Rec>)
    requires Ascending(s)
    ensures SortById(s) == s
  {
    hide Insert;
    if s != [] {
      var front, last := s[..|s| - 1], s[|s| - 1];
      SortedAlready(front);
      InsertLast(front, last);
      assert s == front + [last];
    }
  }

  function ReplyRecs(ns: seq<Node>, p: int, depth: nat): seq<Rec> {
    seq(|ns|, i requires 0 <= i < |ns| => Rec(ns[i].id, Some(p), depth, ns[i].text))
  }

  lemma HasIdWithin(part: seq<Rec>, all: seq<Rec>)
    requires forall r :: r in part ==> r in all
    ensures forall x :: HasId(part, x) ==> HasId(all, x)
  {
  }

  lemma OneReply(c: Rec, p: int)
    requires HasParent(c) && c.parentId.value == p
    ensures RepliesTo([c], p) == [c]
  {
    assert [c][..0] == [];
  }

  /** In the block of a comment's replies exactly the direct replies name it as their parent. */
  lemma {:induction false} DirectReplies(ns: seq<Node>, p: int, depth: nat)
    requires p != 0 && !HasId(PreorderAll(ns, Some(p), depth), p)
    ensures RepliesTo(PreorderAll(ns, Some(p), depth), p) == ReplyRecs(ns, p, depth)
  {
    hide RepliesTo, Preorder;
    if ns == [] {
      NoReplies([], p);
    } else {
      var head := Rec(ns[0].id, Some(p), depth, ns[0].text);
      var below := PreorderAll(ns[0].replies, Some(ns[0].id), depth + 1);
      var rest := PreorderAll(ns[1..], Some(p), depth);
      var block := PreorderAll(ns, Some(p), depth);
      PreorderHead(ns, Some(p), depth);
      assert head in block;
      ParentsInside(ns[0].replies, Some(ns[0].id), depth + 1);
      HasIdWithin(below, block);
      HasIdWithin(rest, block);
      NoReplies(below, p);
      DirectReplies(ns[1..], p, depth);
      RepliesAppend([head] + below, rest, p);
      RepliesAppend([head], below, p);
      OneReply(head, p);
      assert ReplyRecs(ns, p, depth) == [head] + ReplyRecs(ns[1..], p, depth);
    }
  }
}
