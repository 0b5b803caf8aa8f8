/**
 Flattening a comment forest and rebuilding it from `parent_id` links gives the
 forest back with its replies in the order they were posted.
 */
module CommentRebuild {
  import opened Wrappers
  import opened CommentTree
  import opened CommentTools

  /** The records of a block as the walk lists them. */
  function WithDepth(recs: seq<Rec>): seq<(Rec, nat)> {
    seq(|recs|, i requires 0 <= i < |recs| => (recs[i], recs[i].depth))
  }

  lemma WithDepthAppend(a: seq<Rec>, b: seq<Rec>)
    ensures WithDepth(a + b) == WithDepth(a) + WithDepth(b)
  {
  }

  // ---------------------------------------------- replies in posting order

  /** The tree with the replies of every comment in ascending id order. */
  function Posted(t: Node): Node
    decreases t, 1
  {
    Node(t.id, t.text, PostedAll(t.replies))
  }

  function PostedAll(ns: seq<Node>): seq<Node>
    decreases ns, 0
  {
    if ns == [] then [] else InsertNode(PostedAll(ns[..|ns| - 1]), Posted(ns[|ns| - 1]))
  }

  function InsertNode(s: seq<Node>, t: Node): seq<Node> {
    if s != [] && t.id < s[|s| - 1].id then InsertNode(s[..|s| - 1], t) + [s[|s| - 1]] else s + [t]
  }

  lemma {:induction false} InsertRecs(s: seq<Node>, t: Node, p: int, depth: nat)
    ensures ReplyRecs(InsertNode(s, t), p, depth) == Insert(ReplyRecs(s, p, depth), Rec(t.id, Some(p), depth, t.text))
  {
    if s != [] {
      var front := s[..|s| - 1];
      InsertRecs(front, t, p, depth);
      assert ReplyRecs(s, p, depth)[..|s| - 1] == ReplyRecs(front, p, depth);
    }
  }

  lemma {:induction false} PostedRecs(ns: seq<Node>, p: int, depth: nat)
    ensures ReplyRecs(PostedAll(ns), p, depth) == SortById(ReplyRecs(ns, p, depth))
  {
    if ns != [] {
      var front := ns[..|ns| - 1];
      PostedRecs(front, p, depth);
      InsertRecs(PostedAll(front), Posted(ns[|ns| - 1]), p, depth);
      assert ReplyRecs(ns, p, depth)[..|ns| - 1] == ReplyRecs(front, p, depth);
    }
  }

  lemma {:induction false} InsertMembers(s: seq<Node>, t: Node)
    ensures forall x :: x in InsertNode(s, t) <==> x in s || x == t
  {
    if s != [] && t.id < s[|s| - 1].id {
      InsertMembers(s[..|s| - 1], t);
      assert s == s[..|s| - 1] + [s[|s| - 1]];
    }
  }

  ghost predicate FromReplies(c: Node, ns: seq<Node>) { exists j :: 0 <= j < |ns| && c == Posted(ns[j]) }

  lemma {:induction false} PostedMembers(ns: seq<Node>)
    ensures forall c :: c in PostedAll(ns) ==> FromReplies(c, ns)
  {
    if ns != [] {
      var front, last := ns[..|ns| - 1], ns[|ns| - 1];
      PostedMembers(front);
      InsertMembers(PostedAll(front), Posted(last));
      forall c | c in PostedAll(ns) ensures FromReplies(c, ns) {
        if c in PostedAll(front) {
          var j :| 0 <= j < |front| && c == Posted(front[j]);
          assert front[j] == ns[j];
        }
      }
    }
  }

  // --------------------------------------------------- one block among others

  /** `block` sits inside `comments` and nothing outside refers to it. */
  ghost predicate Isolated(comments: seq<Rec>, pre: seq<Rec>, block: seq<Rec>, post: seq<Rec>) {
    && comments == pre + block + post
    && UniqueIds(comments)
    && (forall r :: (r in pre || r in post) && r.parentId.Some? ==> !HasId(block, r.parentId.value))
  }

  lemma UniqueAcross(comments: seq<Rec>, a: seq<Rec>, b: seq<Rec>, x: int)
    requires UniqueIds(comments) && comments == a + b
    ensures !(HasId(a, x) && HasId(b, x))
  {
    forall i, j | 0 <= i < |a| && 0 <= j < |b| ensures a[i].id != b[j].id {
      assert comments[i] == a[i] && comments[|a| + j] == b[j];
    }
  }

  lemma SizeStep(t: Node)
    ensures Size(t) == 1 + SizeAll(t.replies)
  {
  }

  lemma HeadWithDepth(head: Rec, below: seq<Rec>)
    ensures WithDepth([head] + below) == [(head, head.depth)] + WithDepth(below)
  {
  }

  lemma HeadOfBlock(comments: seq<Rec>, t: Node, parent: Option<int>, depth: nat, pre: seq<Rec>, post: seq<Rec>)
    requires Isolated(comments, pre, Preorder(t, parent, depth), post)
    requires parent.Some? ==> !HasId(Preorder(t, parent, depth), parent.value)
    ensures var head := Rec(t.id, parent, depth, t.text);
            var below := PreorderAll(t.replies, Some(t.id), depth + 1);
            && t.id in ById(comments) && ById(comments)[t.id] == head
            && t.id != 0 && !HasId(below, t.id) && Isolated(comments, pre + [head], below, post)
  {
    hide PreorderAll, ById;
    var head := Rec(t.id, parent, depth, t.text);
    var below := PreorderAll(t.replies, Some(t.id), depth + 1);
    var block := Preorder(t, parent, depth);
    assert block == [head] + below;
    assert comments == (pre + [head]) + below + post && comments == (pre + [head]) + (below + post);
    assert head in comments && head in block && head in pre + [head];
    ByIdUnique(comments);
    HasIdWithin(below, block);
    UniqueAcross(comments, pre + [head], below + post, t.id);
    HasIdWithin(below, below + post);
  }

  /** Of all records exactly the direct replies of `t` name it as their parent. */
  lemma RepliesInBlock(comments: seq<Rec>, t: Node, parent: Option<int>, depth: nat, pre: seq<Rec>, post: seq<Rec>)
    requires Isolated(comments, pre, Preorder(t, parent, depth), post)
    requires parent.Some? ==> !HasId(Preorder(t, parent, depth), parent.value)
    requires t.id != 0 && !HasId(PreorderAll(t.replies, Some(t.id), depth + 1), t.id)
    ensures RepliesTo(comments, t.id) == ReplyRecs(t.replies, t.id, depth + 1)
  {
    hide PreorderAll, RepliesTo, UniqueIds;
    var head := Rec(t.id, parent, depth, t.text);
    var below := PreorderAll(t.replies, Some(t.id), depth + 1);
    var block := Preorder(t, parent, depth);
    assert block == [head] + below && head in block;
    assert comments == (pre + [head]) + (below + post);
    RepliesAppend(pre + [head], below + post, t.id);
    RepliesAppend(pre, [head], t.id);
    RepliesAppend(below, post, t.id);
    NoReplies(pre, t.id);
    NoReplies([head], t.id);
    NoReplies(post, t.id);
    DirectReplies(t.replies, t.id, depth + 1);
  }

  lemma WalkSnoc(comments: seq<Rec>, ns: seq<Node>, p: int, depth: nat, n: nat)
    requires ns != []
    requires forall c :: c in ReplyRecs(ns[..|ns| - 1], p, depth) ==> Shallow(comments, c.id, n)
    requires Shallow(comments, ns[|ns| - 1].id, n)
    ensures forall c :: c in ReplyRecs(ns, p, depth) ==> Shallow(comments, c.id, n)
    ensures WalkAll(comments, ReplyRecs(ns, p, depth), depth, n)
            == WalkAll(comments, ReplyRecs(ns[..|ns| - 1], p, depth), depth, n)
               + Walk(comments, ns[|ns| - 1].id, depth, n)
  {
    hide Shallow, Walk;
    var k := |ns| - 1;
    var recs := ReplyRecs(ns, p, depth);
    assert recs[..k] == ReplyRecs(ns[..k], p, depth);
    assert recs == recs[..k] + [recs[k]] && recs[k].id == ns[k].id;
  }

  lemma SplitLast(ns: seq<Node>, parent: Option<int>, depth: nat)
    requires ns != []
    ensures PreorderAll(ns, parent, depth)
            == PreorderAll(ns[..|ns| - 1], parent, depth) + Preorder(ns[|ns| - 1], parent, depth)
  {
    var last := ns[|ns| - 1];
    assert ns == ns[..|ns| - 1] + [last];
    PreorderSplit(ns[..|ns| - 1], [last], parent, depth);
    PreorderCons([last], parent, depth);
    assert [last][1..] == [];
  }

  lemma {:induction false} SizeOne(ns: seq<Node>, i: nat)
    requires i < |ns|
    ensures Size(ns[i]) <= SizeAll(ns)
  {
    if i > 0 {
      SizeOne(ns[1..], i - 1);
    }
  }

  lemma SiblingBlocks(ns: seq<Node>, i: nat, parent: Option<int>, depth: nat)
    requires i < |ns|
    ensures PreorderAll(ns, parent, depth)
            == PreorderAll(ns[..i], parent, depth) + Preorder(ns[i], parent, depth)
               + PreorderAll(ns[i + 1..], parent, depth)
  {
    hide PreorderAll, Preorder;
    assert ns == ns[..i] + ns[i..];
    PreorderSplit(ns[..i], ns[i..], parent, depth);
    PreorderCons(ns[i..], parent, depth);
    assert ns[i..][1..] == ns[i + 1..];
  }

  /** Sibling blocks do not refer to each other. */
  lemma BlockIsolated(comments: seq<Rec>, pre: seq<Rec>, ns: seq<Node>, parent: Option<int>, depth: nat,
                      post: seq<Rec>, i: nat)
    requires i < |ns| && Isolated(comments, pre, PreorderAll(ns, parent, depth), post)
    requires parent.Some? ==> !HasId(PreorderAll(ns, parent, depth), parent.value)
    ensures Isolated(comments, pre + PreorderAll(ns[..i], parent, depth), Preorder(ns[i], parent, depth),
                     PreorderAll(ns[i + 1..], parent, depth) + post)
    ensures parent.Some? ==> !HasId(Preorder(ns[i], parent, depth), parent.value)
  {
    hide PreorderAll, Preorder;
    SiblingBlocks(ns, i, parent, depth);
    ParentsInside(ns[..i], parent, depth);
    ParentsInside(ns[i + 1..], parent, depth);
    MiddleIsolated(comments, pre, PreorderAll(ns[..i], parent, depth), Preorder(ns[i], parent, depth),
                   PreorderAll(ns[i + 1..], parent, depth), post, parent);
  }

  /** Records whose parents are their own group's, or the common parent, do not refer to another group. */
  lemma MiddleIsolated(comments: seq<Rec>, pre: seq<Rec>, a: seq<Rec>, b: seq<Rec>, c: seq<Rec>, post: seq<Rec>,
                       parent: Option<int>)
    requires Isolated(comments, pre, a + b + c, post)
    requires parent.Some? ==> !HasId(a + b + c, parent.value)
    requires forall r :: r in a && r.parentId != parent ==> r.parentId.Some? && HasId(a, r.parentId.value)
    requires forall r :: r in c && r.parentId != parent ==> r.parentId.Some? && HasId(c, r.parentId.value)
    ensures Isolated(comments, pre + a, b, c + post)
    ensures parent.Some? ==> !HasId(b, parent.value)
  {
    hide HasId, UniqueIds;
    HasIdWithin(b, a + b + c);
    assert comments == (pre + a) + b + (c + post);
    forall x ensures !(HasId(a, x) && HasId(b, x)) && !(HasId(c, x) && HasId(b, x)) {
      GroupsApart(comments, pre, a, b, c, post, x);
    }
  }

  lemma GroupsApart(comments: seq<Rec>, pre: seq<Rec>, a: seq<Rec>, b: seq<Rec>, c: seq<Rec>, post: seq<Rec>, x: int)
    requires UniqueIds(comments) && comments == pre + (a + b + c) + post
    ensures !(HasId(a, x) && HasId(b, x)) && !(HasId(c, x) && HasId(b, x))
  {
    hide HasId, UniqueIds;
    assert comments == (pre + a) + (b + c + post) && comments == (pre + a + b) + (c + post);
    UniqueAcross(comments, pre + a, b + c + post, x);
    UniqueAcross(comments, pre + a + b, c + post, x);
    HasIdWithin(a, pre + a);
    HasIdWithin(b, b + c + post);
    HasIdWithin(b, pre + a + b);
    HasIdWithin(c, c + post);
  }

  // ------------------------------------------------------------- the two walks

  /** Walking the root of an isolated block lists the block with its replies in posting order. */
  lemma {:induction false} WalkTree(comments: seq<Rec>, t: Node, parent: Option<int>, depth: nat,
                                    pre: seq<Rec>, post: seq<Rec>, n: nat)
    requires Isolated(comments, pre, Preorder(t, parent, depth), post)
    requires parent.Some? ==> !HasId(Preorder(t, parent, depth), parent.value)
    requires Size(t) <= n
    ensures Shallow(comments, t.id, n)
    ensures Walk(comments, t.id, depth, n) == WithDepth(Preorder(Posted(t), parent, depth))
    decreases t, 1, 0
  {
    hide ById, RepliesTo, SortById, Preorder, PreorderAll, PostedAll, Isolated, HasId, Walk, WalkAll, Shallow, Size,
      SizeAll, WithDepth, ReplyRecs;
    var head := Rec(t.id, parent, depth, t.text);
    var below := PreorderAll(t.replies, Some(t.id), depth + 1);
    HeadOfBlock(comments, t, parent, depth, pre, post);
    RepliesInBlock(comments, t, parent, depth, pre, post);
    PostedRecs(t.replies, t.id, depth + 1);
    SizeStep(t);
    PostedMembers(t.replies);
    WalkReplies(comments, t.replies, PostedAll(t.replies), t.id, depth + 1, pre + [head], post, n - 1);
    ShallowStep(comments, t.id, n);
    WalkStep(comments, t.id, depth, n);
    PreorderOne(Posted(t), parent, depth);
    HeadWithDepth(head, PreorderAll(PostedAll(t.replies), Some(t.id), depth + 1));
  }

  /** The replies of one comment, walked in any order. */
  lemma {:induction false} WalkReplies(comments: seq<Rec>, ns: seq<Node>, cs: seq<Node>, p: int, depth: nat,
                                       pre: seq<Rec>, post: seq<Rec>, n: nat)
    requires Isolated(comments, pre, PreorderAll(ns, Some(p), depth), post)
    requires !HasId(PreorderAll(ns, Some(p), depth), p)
    requires (forall c :: c in cs ==> FromReplies(c, ns)) && SizeAll(ns) <= n
    ensures AllShallow(comments, ReplyRecs(cs, p, depth), n)
    ensures WalkAll(comments, ReplyRecs(cs, p, depth), depth, n) == WithDepth(PreorderAll(cs, Some(p), depth))
    decreases ns, 0, |cs|
  {
    hide Isolated, HasId, Preorder, Walk, Shallow, Size, SizeAll, PostedAll;
    if cs != [] {
      var front, last := cs[..|cs| - 1], cs[|cs| - 1];
      WalkReplies(comments, ns, front, p, depth, pre, post, n);
      assert last in cs;
      var j :| 0 <= j < |ns| && last == Posted(ns[j]);
      BlockIsolated(comments, pre, ns, Some(p), depth, post, j);
      SizeOne(ns, j);
      WalkTree(comments, ns[j], Some(p), depth, pre + PreorderAll(ns[..j], Some(p), depth),
               PreorderAll(ns[j + 1..], Some(p), depth) + post, n);
      SplitLast(cs, Some(p), depth);
      WalkSnoc(comments, cs, p, depth, n);
      WithDepthAppend(PreorderAll(front, Some(p), depth), Preorder(last, Some(p), depth));
    } else {
      assert PreorderAll(cs, Some(p), depth) == [];
    }
  }

  // ------------------------------------------- when the order is the tree's own

  ghost predicate Rising(ns: seq<Node>) { forall i, j :: 0 <= i < j < |ns| ==> ns[i].id < ns[j].id }

  /** Sibling ids increase everywhere in the forest, and no id is zero. */
  ghost predicate Chronological(ns: seq<Node>)
    decreases ns
  {
    Rising(ns) && forall i :: 0 <= i < |ns| ==> ns[i].id != 0 && Chronological(ns[i].replies)
  }

  lemma {:induction false} InsertRising(s: seq<Node>, t: Node)
    requires Rising(s) && forall x :: x in s ==> x.id != t.id
    ensures Rising(InsertNode(s, t))
  {
    if s != [] && t.id < s[|s| - 1].id {
      var front := s[..|s| - 1];
      InsertRising(front, t);
      InsertMembers(front, t);
      forall x | x in InsertNode(front, t) ensures x.id < s[|s| - 1].id {
      }
    }
  }

  lemma UniquePart(a: seq<Rec>, b: seq<Rec>)
    requires UniqueIds(a + b)
    ensures UniqueIds(a) && UniqueIds(b)
  {
    forall i | 0 <= i < |b| ensures b[i] == (a + b)[|a| + i] {
    }
    forall i | 0 <= i < |a| ensures a[i] == (a + b)[i] {
    }
  }

  lemma HeadInBlock(t: Node, parent: Option<int>, depth: nat)
    ensures HasId(Preorder(t, parent, depth), t.id)
  {
    assert Preorder(t, parent, depth)[0] in Preorder(t, parent, depth);
  }

  /** The replies of every comment of the posted tree ascend. */
  lemma {:induction false} PostedAscends(ns: seq<Node>, parent: Option<int>, depth: nat)
    requires UniqueIds(PreorderAll(ns, parent, depth))
    ensures Chronological(PostedAll(ns))
    decreases ns
  {
    hide UniqueIds, HasId, Preorder, PreorderAll;
    if ns != [] {
      var front, last := ns[..|ns| - 1], ns[|ns| - 1];
      var a, b := PreorderAll(front, parent, depth), Preorder(last, parent, depth);
      SplitLast(ns, parent, depth);
      UniquePart(a, b);
      PostedAscends(front, parent, depth);
      PreorderOne(last, parent, depth);
      UniquePart([Rec(last.id, parent, depth, last.text)], PreorderAll(last.replies, Some(last.id), depth + 1));
      PostedAscends(last.replies, Some(last.id), depth + 1);
      PostedMembers(front);
      forall x | x in PostedAll(front) ensures x.id != last.id {
        var j :| 0 <= j < |front| && x == Posted(front[j]);
        SiblingBlocks(front, j, parent, depth);
        HeadInBlock(front[j], parent, depth);
        HeadInBlock(last, parent, depth);
        HasIdWithin(Preorder(front[j], parent, depth), a);
        UniqueAcross(a + b, a, b, last.id);
      }
      InsertRising(PostedAll(front), Posted(last));
      InsertMembers(PostedAll(front), Posted(last));
      HeadNotZero(last, parent, depth);
      ChronologicalByMembers(PostedAll(front), Posted(last));
    }
  }

  lemma HeadNotZero(t: Node, parent: Option<int>, depth: nat)
    requires UniqueIds(Preorder(t, parent, depth))
    ensures t.id != 0
  {
    assert Preorder(t, parent, depth)[0].id == t.id;
  }

  lemma ChronologicalByMembers(s: seq<Node>, t: Node)
    requires Chronological(s) && t.id != 0 && Chronological(t.replies) && Rising(InsertNode(s, t))
    ensures Chronological(InsertNode(s, t))
  {
    InsertMembers(s, t);
    var all := InsertNode(s, t);
    forall i | 0 <= i < |all| ensures all[i].id != 0 && Chronological(all[i].replies) {
      assert all[i] in all;
    }
  }

  /** The posted tree holds the same records. */
  lemma {:induction false} PostedKeeps(ns: seq<Node>, parent: Option<int>, depth: nat)
    ensures multiset(PreorderAll(PostedAll(ns), parent, depth)) == multiset(PreorderAll(ns, parent, depth))
    decreases ns
  {
    hide PreorderAll, Preorder;
    if ns != [] {
      var front, last := ns[..|ns| - 1], ns[|ns| - 1];
      SplitLast(ns, parent, depth);
      PostedKeeps(front, parent, depth);
      PostedKeeps(last.replies, Some(last.id), depth + 1);
      PreorderOne(last, parent, depth);
      PreorderOne(Posted(last), parent, depth);
      InsertKeeps(PostedAll(front), Posted(last), parent, depth);
    }
  }

  lemma {:induction false} InsertKeeps(s: seq<Node>, t: Node, parent: Option<int>, depth: nat)
    ensures multiset(PreorderAll(InsertNode(s, t), parent, depth))
            == multiset(PreorderAll(s, parent, depth)) + multiset(Preorder(t, parent, depth))
  {
    hide PreorderAll, Preorder;
    var all := InsertNode(s, t);
    SplitLast(all, parent, depth);
    if s != [] && t.id < s[|s| - 1].id {
      InsertKeeps(s[..|s| - 1], t, parent, depth);
      SplitLast(s, parent, depth);
      assert all[..|all| - 1] == InsertNode(s[..|s| - 1], t);
    } else {
      assert all[..|all| - 1] == s;
    }
  }

  lemma ChronologicalLast(ns: seq<Node>)
    requires ns != [] && Chronological(ns)
    ensures var front, last := ns[..|ns| - 1], ns[|ns| - 1];
            && Chronological(front) && Chronological(last.replies) && InsertNode(front, last) == front + [last] == ns
  {
  }

  lemma {:induction false} PostedIsSame(ns: seq<Node>)
    requires Chronological(ns)
    ensures PostedAll(ns) == ns
    decreases ns
  {
    hide Chronological, InsertNode;
    if ns != [] {
      ChronologicalLast(ns);
      PostedIsSame(ns[..|ns| - 1]);
      PostedIsSame(ns[|ns| - 1].replies);
    }
  }

  /** How many records at the front are deeper than `depth`. */
  function DeepPrefix(recs: seq<Rec>, depth: nat): nat {
    if recs == [] || recs[0].depth <= depth then 0 else 1 + DeepPrefix(recs[1..], depth)
  }

  /** Where the block of a comment's replies ends can be read off the depths. */
  lemma {:induction false} CutByDepth(a: seq<Rec>, b: seq<Rec>, depth: nat)
    requires forall r :: r in a ==> r.depth > depth
    requires b == [] || b[0].depth == depth
    ensures DeepPrefix(a + b, depth) == |a|
    ensures (a + b)[..|a|] == a && (a + b)[|a|..] == b
  {
    if a == [] {
      assert a + b == b;
    } else {
      assert (a + b)[1..] == a[1..] + b;
      CutByDepth(a[1..], b, depth);
    }
  }

  lemma {:induction false} DepthsBelow(ns: seq<Node>, parent: Option<int>, depth: nat)
    ensures forall r :: r in PreorderAll(ns, parent, depth) ==> r.depth >= depth
    decreases ns
  {
    if ns != [] {
      PreorderHead(ns, parent, depth);
      DepthsBelow(ns[0].replies, Some(ns[0].id), depth + 1);
      DepthsBelow(ns[1..], parent, depth);
    }
  }

  /** A flat list with depths determines the forest. */
  lemma {:induction false} PreorderInjective(a: seq<Node>, b: seq<Node>, parent: Option<int>, depth: nat)
    requires PreorderAll(a, parent, depth) == PreorderAll(b, parent, depth)
    ensures a == b
    decreases a
  {
    hide PreorderAll, Preorder;
    NoneBelow(a, parent, depth);
    NoneBelow(b, parent, depth);
    if a != [] {
      PreorderHead(a, parent, depth);
    }
    if b != [] {
      PreorderHead(b, parent, depth);
    }
    if a != [] && b != [] {
      var all := PreorderAll(a, parent, depth);
      var below, rest := PreorderAll(a[0].replies, Some(a[0].id), depth + 1), PreorderAll(a[1..], parent, depth);
      var below', rest' := PreorderAll(b[0].replies, Some(b[0].id), depth + 1), PreorderAll(b[1..], parent, depth);
      assert all[0] == Rec(a[0].id, parent, depth, a[0].text) == Rec(b[0].id, parent, depth, b[0].text);
      assert all[1..] == below + rest && all[1..] == below' + rest';
      DepthsBelow(a[0].replies, Some(a[0].id), depth + 1);
      DepthsBelow(b[0].replies, Some(b[0].id), depth + 1);
      FirstDepth(a[1..], parent, depth);
      FirstDepth(b[1..], parent, depth);
      CutByDepth(below, rest, depth);
      CutByDepth(below', rest', depth);
      PreorderInjective(a[0].replies, b[0].replies, Some(a[0].id), depth + 1);
      PreorderInjective(a[1..], b[1..], parent, depth);
      assert a == [a[0]] + a[1..] && b == [b[0]] + b[1..];
    }
  }

  lemma FirstDepth(ns: seq<Node>, parent: Option<int>, depth: nat)
    ensures PreorderAll(ns, parent, depth) == [] || PreorderAll(ns, parent, depth)[0].depth == depth
  {
  }

  /** The posted tree has the same records, its replies ascend, and it is listed
      like the tree itself exactly when the tree's own replies do. */
  lemma PostedMeans(t: Node, parent: Option<int>, depth: nat)
    requires UniqueIds(Preorder(t, parent, depth))
    ensures multiset(Preorder(Posted(t), parent, depth)) == multiset(Preorder(t, parent, depth))
    ensures Chronological(Posted(t).replies)
    ensures Preorder(Posted(t), parent, depth) == Preorder(t, parent, depth) <==> Chronological(t.replies)
  {
    hide PreorderAll, Preorder, Chronological, UniqueIds;
    var head := [Rec(t.id, parent, depth, t.text)];
    var below := PreorderAll(t.replies, Some(t.id), depth + 1);
    var posted := PreorderAll(PostedAll(t.replies), Some(t.id), depth + 1);
    PreorderOne(t, parent, depth);
    PreorderOne(Posted(t), parent, depth);
    UniquePart(head, below);
    PostedAscends(t.replies, Some(t.id), depth + 1);
    PostedKeeps(t.replies, Some(t.id), depth + 1);
    assert (head + posted)[1..] == posted && (head + below)[1..] == below;
    if posted == below {
      PreorderInjective(PostedAll(t.replies), t.replies, Some(t.id), depth + 1);
    }
    if Chronological(t.replies) {
      PostedIsSame(t.replies);
    }
  }

  lemma WithDepthInjective(a: seq<Rec>, b: seq<Rec>)
    requires WithDepth(a) == WithDepth(b)
    ensures a == b
  {
    assert |a| == |WithDepth(a)| == |b|;
    forall i | 0 <= i < |a| ensures a[i] == b[i] {
      assert WithDepth(a)[i] == WithDepth(b)[i];
    }
  }

  // ------------------------------------------------------ flatten then rebuild

  /** Flatten then rebuild: walking a root of the flattened forest over the
      children map rebuilt from `parent_id` lists the block the flattening emitted
      for that root, with the replies in the order they were posted - so exactly
      that block, same records, same order, same depths, if and only if the feed
      has the replies below this root in that order. Nothing is asked of the order
      of the roots. The blocks, root by root, are the whole flat list. */
  lemma FlattenThenRebuild(roots: seq<Node>, i: nat, n: nat)
    requires UniqueIds(PreorderAll(roots, None, 0))
    requires i < |roots| && SizeAll(roots) <= n
    ensures var comments := PreorderAll(roots, None, 0);
            && Shallow(comments, roots[i].id, n)
            && Walk(comments, roots[i].id, 0, n) == WithDepth(Preorder(Posted(roots[i]), None, 0))
            && (Walk(comments, roots[i].id, 0, n) == WithDepth(Preorder(roots[i], None, 0))
                <==> Chronological(roots[i].replies))
            && comments
               == PreorderAll(roots[..i], None, 0) + Preorder(roots[i], None, 0) + PreorderAll(roots[i + 1..], None, 0)
  {
    hide PreorderAll, Preorder, Posted, Chronological, UniqueIds, Shallow, Walk, WithDepth, Size, SizeAll, HasId;
    var comments := PreorderAll(roots, None, 0);
    var pre, post := PreorderAll(roots[..i], None, 0), PreorderAll(roots[i + 1..], None, 0);
    var block := Preorder(roots[i], None, 0);
    assert comments == [] + comments + [];
    BlockIsolated(comments, [], roots, None, 0, [], i);
    SiblingBlocks(roots, i, None, 0);
    SizeOne(roots, i);
    WalkTree(comments, roots[i], None, 0, [] + pre, post + [], n);
    assert comments == pre + block + post && comments == pre + (block + post);
    UniquePart(pre, block + post);
    UniquePart(block, post);
    PostedMeans(roots[i], None, 0);
    if WithDepth(Preorder(Posted(roots[i]), None, 0)) == WithDepth(block) {
      WithDepthInjective(Preorder(Posted(roots[i]), None, 0), block);
    }
  }
}
