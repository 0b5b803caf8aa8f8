/**
 The independently written loops that climb `parent_id` links
 (diffgraph/comment_tools.py, diffgraph/orchestrator.py,
 diffgraph/bitbucket_fake.py, diffgraph/bitbucket.py).
 */
module RootFinders {
  import opened Wrappers
  import opened CommentTree
  import opened CommentTools

  /** Records filed under their own positive id, replies newer than the comment they answer. */
  ghost predicate Descending(byId: map<int, Rec>) {
    forall x :: x in byId ==>
      && byId[x].id == x && 0 < x
      && (HasParent(byId[x]) && byId[x].parentId.value in byId ==> byId[x].parentId.value < x)
  }

  /** The topmost comment reachable through known parents. */
  function RootId(byId: map<int, Rec>, x: int): int
    requires Descending(byId) && x in byId
    decreases x
  {
    var c := byId[x];
    if HasParent(c) && c.parentId.value in byId then RootId(byId, c.parentId.value) else x
  }

  /** No link on the way up leads to an unknown comment. */
  predicate Complete(byId: map<int, Rec>, x: int)
    requires Descending(byId)
    decreases x
  {
    x in byId && (HasParent(byId[x]) ==>
      byId[x].parentId.value in byId && Complete(byId, byId[x].parentId.value))
  }

  function RecIds(byId: map<int, Rec>): set<int> { set x | x in byId :: byId[x].id }

  /** Where the climb from `cur` stops on any data: at a comment without a known parent, or met before. */
  function Climb(byId: map<int, Rec>, cur: Rec, seen: set<int>): Rec
    decreases {cur.id} + RecIds(byId) - seen
  {
    if HasParent(cur) && cur.parentId.value in byId && cur.id !in seen then
      var next := byId[cur.parentId.value];
      assert cur.id in {cur.id} + RecIds(byId) - seen && next.id in RecIds(byId);
      Climb(byId, next, seen + {cur.id})
    else cur
  }

  /** Ids fall on the way up, so the `seen` set only matters on cyclic data. */
  lemma {:induction false} ClimbFinds(byId: map<int, Rec>, cur: Rec, seen: set<int>)
    requires Descending(byId) && cur.id in byId && byId[cur.id] == cur && forall x :: x in seen ==> cur.id < x
    ensures Climb(byId, cur, seen).id == RootId(byId, cur.id)
    decreases cur.id
  {
    if HasParent(cur) && cur.parentId.value in byId {
      ClimbFinds(byId, byId[cur.parentId.value], seen + {cur.id});
    }
  }

  /** `_root_of` in comment_tools.py and in orchestrator.py. */
  method RootOf(node: Rec, byId: map<int, Rec>) returns (root: int)
    ensures root == Climb(byId, node, {}).id
    ensures Descending(byId) && node.id in byId && byId[node.id] == node ==> root == RootId(byId, node.id)
  {
    if Descending(byId) && node.id in byId && byId[node.id] == node {
      ClimbFinds(byId, node, {});
    }
    var cur := node;
    var seen: set<int> := {};
    while HasParent(cur) && cur.parentId.value in byId
      invariant Climb(byId, cur, seen) == Climb(byId, node, {})
      decreases {cur.id} + RecIds(byId) - seen
    {
      assert cur.id !in seen ==> cur.id in {cur.id} + RecIds(byId) - seen;
      assert byId[cur.parentId.value].id in RecIds(byId);
      if cur.id in seen {
        break;
      }
      seen := seen + {cur.id};
      cur := byId[cur.parentId.value];
    }
    return cur.id;
  }

  /** Every record is filed under its own id, as the indexes are built. */
  predicate Filed(byId: map<int, Rec>) { forall x :: x in byId ==> byId[x].id == x }

  /** The answer of `_walk_chain_up` in terms of `_root_of`: 0, for "not found",
      when the climb starts nowhere or stops below a missing comment. */
  function TopOrZero(idx: map<int, Rec>, cid: int): int {
    if cid == 0 || cid !in idx then 0
    else
      var top := Climb(idx, idx[cid], {});
      if HasParent(top) && top.parentId.value !in idx then 0 else top.id
  }

  function ParentIds(idx: map<int, Rec>): set<int> {
    set x | x in idx && idx[x].parentId.Some? :: idx[x].parentId.value
  }

  /** The loop of `_walk_chain_up` from `cur`, after it has passed `seen`. */
  function ChainTop(idx: map<int, Rec>, cur: int, seen: set<int>): int
    decreases {cur} + ParentIds(idx) - seen
  {
    if cur == 0 || cur in seen then cur
    else if cur !in idx then 0
    else if !HasParent(idx[cur]) then cur
    else
      var p := idx[cur].parentId.value;
      assert cur in {cur} + ParentIds(idx) - seen && p in ParentIds(idx);
      ChainTop(idx, p, seen + {cur})
  }

  /** Both climbs take the same way; they part only where an ancestor is missing. */
  lemma {:induction false} ChainTopClimbs(idx: map<int, Rec>, cur: int, seen: set<int>)
    requires Filed(idx) && cur in idx && cur != 0
    requires forall x :: x in seen ==> x in idx && HasParent(idx[x]) && idx[x].parentId.value in idx
    ensures var top := Climb(idx, idx[cur], seen);
            ChainTop(idx, cur, seen) == if HasParent(top) && top.parentId.value !in idx then 0 else top.id
    decreases {cur} + ParentIds(idx) - seen
  {
    var c := idx[cur];
    if HasParent(c) && cur !in seen && c.parentId.value in idx {
      assert cur in {cur} + ParentIds(idx) - seen && c.parentId.value in ParentIds(idx);
      ChainTopClimbs(idx, c.parentId.value, seen + {cur});
    }
  }

  lemma {:induction false} ChainTopFinds(idx: map<int, Rec>, cid: int)
    requires Descending(idx)
    ensures TopOrZero(idx, cid) == if Complete(idx, cid) then RootId(idx, cid) else 0
  {
    if cid in idx {
      ClimbFinds(idx, idx[cid], {});
      ClimbCompletes(idx, idx[cid], {});
    }
  }

  lemma {:induction false} ClimbCompletes(idx: map<int, Rec>, cur: Rec, seen: set<int>)
    requires Descending(idx) && cur.id in idx && idx[cur.id] == cur && forall x :: x in seen ==> cur.id < x
    ensures var top := Climb(idx, cur, seen);
            Complete(idx, cur.id) <==> !(HasParent(top) && top.parentId.value !in idx)
    decreases cur.id
  {
    if HasParent(cur) && cur.parentId.value in idx {
      ClimbCompletes(idx, idx[cur.parentId.value], seen + {cur.id});
    }
  }

  /** `_walk_chain_up` finds what `_root_of` finds - on any data, cyclic or not -
      except that it answers 0 when an ancestor is missing. */
  method WalkChainUp(idx: map<int, Rec>, cid: int) returns (root: int)
    ensures Filed(idx) ==> root == TopOrZero(idx, cid)
    ensures Descending(idx) ==> root == if Complete(idx, cid) then RootId(idx, cid) else 0
  {
    if Filed(idx) && cid in idx && cid != 0 {
      ChainTopClimbs(idx, cid, {});
    }
    if Descending(idx) {
      ChainTopFinds(idx, cid);
    }
    var seen: set<int> := {};
    var cur := cid;
    while cur != 0 && cur !in seen
      invariant ChainTop(idx, cur, seen) == ChainTop(idx, cid, {})
      decreases {cur} + ParentIds(idx) - seen
    {
      ghost var passed := cur;
      if cur !in idx {
        return 0;
      }
      seen := seen + {cur};
      var c := idx[cur];
      if !HasParent(c) {
        return cur;
      }
      cur := c.parentId.value;
      assert cur in ParentIds(idx) && passed in seen;
    }
    return cur;
  }

  /** A path of reply links from a root down to `x`. */
  ghost predicate IsChain(byId: map<int, Rec>, chain: seq<int>, x: int) {
    && chain != [] && chain[|chain| - 1] == x
    && (forall i :: 0 <= i < |chain| ==> chain[i] in byId)
    && (forall i, j :: 0 <= i && j == i + 1 && j < |chain| ==> byId[chain[j]].parentId == Some(chain[i]))
    && byId[chain[0]].parentId.None?
  }

  function Reverse(s: seq<int>): (r: seq<int>)
    ensures |r| == |s| && forall i :: 0 <= i < |s| ==> r[i] == s[|s| - 1 - i]
  {
    seq(|s|, i requires 0 <= i < |s| => s[|s| - 1 - i])
  }

  /** The way up from `x`: parent after parent, none twice, until there is no
      parent link, the comment is unknown, or a link leads back. */
  ghost predicate IsWayUp(byId: map<int, Rec>, x: int, up: seq<int>) {
    && Links(byId, x, up)
    && var last := up[|up| - 1];
       last !in byId || byId[last].parentId.None? || byId[last].parentId.value in up
  }

  ghost predicate Links(byId: map<int, Rec>, x: int, up: seq<int>) {
    && up != [] && up[0] == x
    && (forall i, j :: 0 <= i < j < |up| ==> up[i] != up[j])
    && (forall i :: 0 <= i < |up| - 1 ==> Linked(byId, up, i))
  }

  predicate Linked(byId: map<int, Rec>, up: seq<int>, i: nat)
    requires i + 1 < |up|
  {
    up[i] in byId && byId[up[i]].parentId == Some(up[i + 1])
  }

  /** The parent chain of `get_comment_thread`: on any data the way up,
      reversed. The lookup of a chain member fails (None) exactly when the way
      leaves the known comments. The loop tests for a missing parent link only,
      so a link to 0 is followed like any other. */
  method ThreadChain(byId: map<int, Rec>, commentId: int) returns (chain: Option<seq<int>>, ghost up: seq<int>)
    requires commentId in byId
    ensures IsWayUp(byId, commentId, up)
    ensures chain == if up[|up| - 1] in byId then Some(Reverse(up)) else None
    ensures Descending(byId) && (forall x :: x in byId ==> byId[x].parentId != Some(0)) ==>
      && (chain.Some? <==> Complete(byId, commentId))
      && (chain.Some? ==> IsChain(byId, chain.value, commentId) && chain.value[0] == RootId(byId, commentId))
  {
    hide Complete, RootId, IsChain, Descending;
    var ids: seq<int> := [];
    var cur := Some(commentId);
    var seen: set<int> := {};
    while cur.Some?
      invariant forall x :: x in seen <==> x in ids
      invariant ids == [] ==> cur == Some(commentId)
      invariant ids != [] ==> Links(byId, commentId, ids) && cur == ParentOf(byId, ids[|ids| - 1])
      invariant cur.Some? ==> cur.value in {commentId} + ParentIds(byId)
      decreases cur.Some?, {commentId} + ParentIds(byId) - seen
    {
      var x := cur.value;
      if x in seen {
        break;
      }
      seen := seen + {x};
      LinksGrow(byId, commentId, ids, x);
      ids := ids + [x];
      cur := if x in byId then byId[x].parentId else None;
    }
    up := ids;
    AllKnown(byId, commentId, up);
    ids := Reverse(ids);
    if forall i :: 0 <= i < |ids| ==> ids[i] in byId {
      chain := Some(ids);
    } else {
      chain := None;
    }
    if Descending(byId) && forall x :: x in byId ==> byId[x].parentId != Some(0) {
      WayUpFinds(byId, commentId, up);
    }
  }

  lemma LinksGrow(byId: map<int, Rec>, x: int, up: seq<int>, y: int)
    requires y !in up
    requires if up == [] then y == x else Links(byId, x, up) && ParentOf(byId, up[|up| - 1]) == Some(y)
    ensures Links(byId, x, up + [y])
  {
    var more := up + [y];
    forall i | 0 <= i < |more| - 1 ensures Linked(byId, more, i) {
      if i < |up| - 1 {
        assert Linked(byId, up, i);
      }
    }
  }

  function ParentOf(byId: map<int, Rec>, x: int): Option<int> { if x in byId then byId[x].parentId else None }

  lemma AllKnown(byId: map<int, Rec>, x: int, up: seq<int>)
    requires Links(byId, x, up)
    ensures (forall i :: 0 <= i < |Reverse(up)| ==> Reverse(up)[i] in byId) <==> up[|up| - 1] in byId
  {
    assert Reverse(up)[0] == up[|up| - 1];
    forall i | 0 <= i < |up| - 1 ensures up[i] in byId {
      assert Linked(byId, up, i);
    }
  }

  /** On data whose parents are older the way up ends at the root or leaves the known comments. */
  lemma WayUpFinds(byId: map<int, Rec>, x: int, up: seq<int>)
    requires Descending(byId) && (forall y :: y in byId ==> byId[y].parentId != Some(0))
    requires x in byId && IsWayUp(byId, x, up)
    ensures up[|up| - 1] in byId <==> Complete(byId, x)
    ensures up[|up| - 1] in byId ==> IsChain(byId, Reverse(up), x) && Reverse(up)[0] == RootId(byId, x)
  {
    var last := up[|up| - 1];
    AlongTheWay(byId, x, up, |up| - 1);
    if last in byId && byId[last].parentId.Some? {
      var i :| 0 <= i < |up| && up[i] == byId[last].parentId.value;
      assert i < |up| - 1 ==> Linked(byId, up, i);
      WayFalls(byId, x, up, i, |up| - 1);
    }
    if last in byId {
      AllKnown(byId, x, up);
      ReverseChains(byId, x, up);
    }
  }

  lemma ReverseChains(byId: map<int, Rec>, x: int, up: seq<int>)
    requires Links(byId, x, up) && up[|up| - 1] in byId && byId[up[|up| - 1]].parentId.None?
    ensures IsChain(byId, Reverse(up), x)
  {
    AllKnown(byId, x, up);
    var chain := Reverse(up);
    forall i, j | 0 <= i && j == i + 1 && j < |chain| ensures byId[chain[j]].parentId == Some(chain[i]) {
      assert Linked(byId, up, |up| - 1 - j);
    }
  }

  /** Root and completeness are the same all along the way. */
  lemma {:induction false} AlongTheWay(byId: map<int, Rec>, x: int, up: seq<int>, i: nat)
    requires Descending(byId) && (forall y :: y in byId ==> byId[y].parentId != Some(0))
    requires x in byId && Links(byId, x, up) && i < |up|
    ensures Complete(byId, up[i]) <==> Complete(byId, x)
    ensures up[i] in byId ==> RootId(byId, up[i]) == RootId(byId, x)
  {
    if i > 0 {
      AlongTheWay(byId, x, up, i - 1);
      assert Linked(byId, up, i - 1);
    }
  }

  lemma {:induction false} WayFalls(byId: map<int, Rec>, x: int, up: seq<int>, i: nat, j: nat)
    requires Descending(byId) && (forall y :: y in byId ==> byId[y].parentId != Some(0))
    requires Links(byId, x, up) && i <= j < |up| && up[j] in byId
    ensures up[j] <= up[i]
    decreases j - i
  {
    if i < j {
      assert Linked(byId, up, j - 1);
      WayFalls(byId, x, up, i, j - 1);
    }
  }
}
