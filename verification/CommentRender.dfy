/**
 When the walk of `pr_read_thread` ends (diffgraph/comment_tools.py), and the
 walk with a cycle guard of `_render_thread` (diffgraph/bitbucket_fake.py).
 */
module CommentRender {
  import opened Seqs
  import opened CommentTree
  import opened CommentTools

  // ----------------------------------------------------------- when a walk ends

  ghost predicate Answers(comments: seq<Rec>, x: int, y: int) {
    x in ById(comments) && exists c :: c in Children(comments, x) && c.id == y
  }

  /** Known comments, each answering the one before. */
  ghost predicate IsPath(comments: seq<Rec>, p: seq<int>) {
    && (forall x :: x in p ==> x in ById(comments))
    && (forall i, j :: 0 <= i && j == i + 1 && j < |p| ==> Answers(comments, p[i], p[j]))
  }

  /** A way down from `id` that comes back to a comment it has passed. */
  ghost predicate Loops(comments: seq<Rec>, id: int) {
    exists p, i, j :: 0 <= i < j < |p| && p[0] == id && p[i] == p[j] && IsPath(comments, p)
  }

  lemma PathTail(comments: seq<Rec>, p: seq<int>, i: nat)
    requires IsPath(comments, p) && i <= |p|
    ensures IsPath(comments, p[i..]) && IsPath(comments, p[..i])
  {
  }

  lemma ShallowNext(comments: seq<Rec>, x: int, y: int, n: nat)
    requires Answers(comments, x, y) && Shallow(comments, x, n)
    ensures n > 0 && Shallow(comments, y, n - 1)
  {
  }

  lemma {:induction false} ShallowAlong(comments: seq<Rec>, p: seq<int>, i: nat, n: nat)
    requires IsPath(comments, p) && i < |p| && Shallow(comments, p[0], n)
    ensures i <= n && Shallow(comments, p[i], n - i)
    decreases i
  {
    hide Shallow, Answers;
    if i > 0 {
      ShallowAlong(comments, p, i - 1, n);
      ShallowNext(comments, p[i - 1], p[i], n - (i - 1));
    }
  }

  lemma {:induction false} NoLoopIsShallow(comments: seq<Rec>, p: seq<int>, n: nat)
    requires IsPath(comments, p) && |p| > 1 && p[0] == p[|p| - 1]
    ensures !Shallow(comments, p[0], n)
    decreases n
  {
    if Shallow(comments, p[0], n) {
      ShallowAlong(comments, p, |p| - 1, n);
      NoLoopIsShallow(comments, p, n - (|p| - 1));
    }
  }

  /** A comment that is not shallow has a long way down. */
  lemma {:induction false} DeepPath(comments: seq<Rec>, id: int, n: nat) returns (p: seq<int>)
    requires !Shallow(comments, id, n)
    ensures IsPath(comments, p) && |p| == n + 1 && p[0] == id
    decreases n
  {
    if n == 0 {
      p := [id];
    } else {
      var c :| c in Children(comments, id) && !Shallow(comments, c.id, n - 1);
      var q := DeepPath(comments, c.id, n - 1);
      p := [id] + q;
      assert Answers(comments, id, c.id);
    }
  }

  lemma {:induction false} DistinctFit(p: seq<int>, s: set<int>)
    requires forall i, j :: 0 <= i < j < |p| ==> p[i] != p[j]
    requires forall x :: x in p ==> x in s
    ensures |p| <= |s|
  {
    if p != [] {
      var first := p[0];
      assert first in p;
      assert first in s;
      forall x | x in p[1..] ensures x in s - {first} {
        var i :| 0 <= i < |p[1..]| && p[1..][i] == x;
        assert p[i + 1] == x;
      }
      DistinctFit(p[1..], s - {first});
    }
  }

  lemma LoopNeverEnds(comments: seq<Rec>, p: seq<int>, i: nat, j: nat, n: nat)
    requires IsPath(comments, p) && i < j < |p| && p[i] == p[j]
    ensures !Shallow(comments, p[0], n)
  {
    hide Shallow, IsPath;
    if Shallow(comments, p[0], n) {
      ShallowAlong(comments, p, i, n);
      PathTail(comments, p, j + 1);
      PathTail(comments, p[..j + 1], i);
      NoLoopIsShallow(comments, p[..j + 1][i..], n - i);
    }
  }

  lemma DeepLoops(comments: seq<Rec>, id: int)
    requires !Shallow(comments, id, |ById(comments).Keys|)
    ensures Loops(comments, id)
  {
    hide Shallow;
    var p := DeepPath(comments, id, |ById(comments).Keys|);
    if forall i, j :: 0 <= i < j < |p| ==> p[i] != p[j] {
      DistinctFit(p, ById(comments).Keys);
    }
  }

  /** The unguarded recursion from `id` ends exactly when no way down comes back to itself. */
  lemma WalkEndsIff(comments: seq<Rec>, id: int)
    ensures (exists n: nat :: Shallow(comments, id, n)) <==> !Loops(comments, id)
  {
    hide Shallow, IsPath;
    if Loops(comments, id) {
      var p, i, j :| 0 <= i < j < |p| && p[0] == id && p[i] == p[j] && IsPath(comments, p);
      forall n: nat ensures !Shallow(comments, id, n) {
        LoopNeverEnds(comments, p, i, j, n);
      }
    } else {
      var n := |ById(comments).Keys|;
      if !Shallow(comments, id, n) {
        DeepLoops(comments, id);
      }
      assert Shallow(comments, id, n);
    }
  }

  // ------------------------------------------------------------- guarded walk

  /** `_comment_index`, for records that carry an id. */
  function Index(comments: seq<Rec>): map<int, Rec> {
    if comments == [] then map[]
    else Index(comments[..|comments| - 1])[comments[|comments| - 1].id := comments[|comments| - 1]]
  }

  /** `int(c.get("parent_id", 0) or 0)`. */
  function ParentOrZero(c: Rec): int { if c.parentId.Some? then c.parentId.value else 0 }

  /** `children_of`: ids in list order. */
  function Listed(comments: seq<Rec>, p: int): seq<int> {
    if comments == [] then []
    else
      var c := comments[|comments| - 1];
      Listed(comments[..|comments| - 1], p) + if ParentOrZero(c) == p then [c.id] else []
  }

  /** A printed line: the comment and its indentation. */
  datatype Row = Row(id: int, depth: nat)

  function Ids(comments: seq<Rec>): set<int> { set c | c in comments :: c.id }

  lemma {:induction false} ListedKnown(comments: seq<Rec>, p: int)
    ensures forall x :: x in Listed(comments, p) ==> x in Ids(comments)
  {
    if comments != [] {
      ListedKnown(comments[..|comments| - 1], p);
    }
  }

  /** Each comment at most once, none that was visited before. */
  ghost predicate OnceEach(rows: seq<Row>, visited: set<int>) {
    && (forall i :: 0 <= i < |rows| ==> rows[i].id in visited)
    && (forall i, j :: 0 <= i < j < |rows| ==> rows[i].id != rows[j].id)
  }

  /** The comments listed so far and the ids met so far. */
  datatype Progress = Progress(rows: seq<Row>, visited: set<int>)

  /** `_render` on any data, cyclic or not. */
  function Rendered(comments: seq<Rec>, id: int, depth: nat, s: Progress): (r: Progress)
    requires OnceEach(s.rows, s.visited)
    ensures s.rows <= r.rows && s.visited <= r.visited && OnceEach(r.rows, r.visited)
    ensures r.visited <= s.visited + Ids(comments) + {id}
    decreases Ids(comments) + {id} - s.visited, 0
  {
    if id in s.visited then s
    else
      var now := s.(visited := s.visited + {id});
      if id !in Index(comments) then now
      else
        IndexKnown(comments);
        ListedKnown(comments, id);
        var shown := now.(rows := now.rows + [Row(id, depth)]);
        assert Ids(comments) - shown.visited < Ids(comments) + {id} - s.visited by {
          assert id in Ids(comments) + {id} - s.visited;
        }
        RenderedAll(comments, Listed(comments, id), depth + 1, shown)
  }

  function RenderedAll(comments: seq<Rec>, ids: seq<int>, depth: nat, s: Progress): (r: Progress)
    requires OnceEach(s.rows, s.visited) && forall x :: x in ids ==> x in Ids(comments)
    ensures s.rows <= r.rows && s.visited <= r.visited && OnceEach(r.rows, r.visited)
    ensures r.visited <= s.visited + Ids(comments)
    decreases Ids(comments) - s.visited, 1, |ids|
  {
    if ids == [] then s
    else
      var id := ids[0];
      assert id in ids && Ids(comments) + {id} == Ids(comments);
      RenderedAll(comments, ids[1..], depth, Rendered(comments, id, depth, s))
  }

  lemma {:induction false} IndexKnown(comments: seq<Rec>)
    ensures Index(comments).Keys == Ids(comments)
  {
    if comments != [] {
      var before, last := comments[..|comments| - 1], comments[|comments| - 1];
      IndexKnown(before);
      assert comments == before + [last];
      assert Ids(comments) == Ids(before) + {last.id};
    }
  }

  /** On any comments the index has exactly their ids, each with the last comment that carries it. */
  lemma {:induction false} IndexOfAny(comments: seq<Rec>, x: int)
    ensures x in Index(comments) <==> HasId(comments, x)
    ensures forall k: nat :: LastOf(comments, x, k) ==> x in Index(comments) && Index(comments)[x] == comments[k]
  {
    if comments != [] {
      hide LastOf, HasId;
      IndexOfAny(comments[..|comments| - 1], x);
      LastOfNext(comments, x);
      HasIdNext(comments, x);
      IndexNext(comments, x);
      LastOfKnown(comments, x);
    } else {
      LastOfKnown(comments, x);
    }
  }

  lemma IndexNext(comments: seq<Rec>, x: int)
    requires comments != []
    ensures var last, before := comments[|comments| - 1], Index(comments[..|comments| - 1]);
            if last.id == x then x in Index(comments) && Index(comments)[x] == last
            else (x in Index(comments) <==> x in before) && (x in before ==> Index(comments)[x] == before[x])
  {
  }

  function Answering(p: int): Rec -> bool { (c: Rec) => if c.parentId.Some? then c.parentId.value == p else p == 0 }

  /** The ids listed under a parent are those of the comments that name it, in list order. */
  lemma {:induction false} ListedPicks(comments: seq<Rec>, p: int) returns (kids: seq<Rec>)
    ensures Picked(kids, comments, Answering(p))
    ensures |Listed(comments, p)| == |kids| && forall i :: 0 <= i < |kids| ==> Listed(comments, p)[i] == kids[i].id
  {
    hide Picked;
    if comments == [] {
      kids := [];
      PickedNone(Answering(p));
    } else {
      var front, last := comments[..|comments| - 1], comments[|comments| - 1];
      kids := ListedPicks(front, p);
      PickedNext(kids, front, Answering(p), last);
      assert comments == front + [last];
      if Answering(p)(last) {
        kids := kids + [last];
      }
    }
  }

  /** The loop that files every id under its parent. */
  method FileChildren(comments: seq<Rec>) returns (childrenOf: map<int, seq<int>>)
    ensures forall p :: p in childrenOf <==> Listed(comments, p) != []
    ensures forall p :: p in childrenOf ==> childrenOf[p] == Listed(comments, p)
  {
    hide Listed;
    NothingListed(comments);
    childrenOf := map[];
    for i := 0 to |comments|
      invariant forall p :: p in childrenOf <==> Listed(comments[..i], p) != []
      invariant forall p :: p in childrenOf ==> childrenOf[p] == Listed(comments[..i], p)
    {
      ListedStep(comments, i);
      var pid := ParentOrZero(comments[i]);
      childrenOf := childrenOf[pid := (if pid in childrenOf then childrenOf[pid] else []) + [comments[i].id]];
    }
    assert comments[..|comments|] == comments;
  }

  lemma NothingListed(comments: seq<Rec>)
    ensures forall p :: Listed(comments[..0], p) == []
  {
  }

  lemma ListedStep(comments: seq<Rec>, i: nat)
    requires i < |comments|
    ensures forall p :: Listed(comments[..i + 1], p)
              == Listed(comments[..i], p) + if ParentOrZero(comments[i]) == p then [comments[i].id] else []
  {
    assert comments[..i + 1][..i] == comments[..i];
  }

  const NOTHING := Progress([], {})

  /** `_render_thread`: ends on any data. */
  method RenderThread(comments: seq<Rec>, rootId: int) returns (rows: seq<Row>)
    ensures rows == Rendered(comments, rootId, 0, NOTHING).rows
  {
    var childrenOf := FileChildren(comments);
    var s := Render(comments, Index(comments), childrenOf, rootId, 0, NOTHING);
    return s.rows;
  }

  /** The closure `_render`, growing its lines and its visited set. */
  method Render(ghost comments: seq<Rec>, idx: map<int, Rec>, childrenOf: map<int, seq<int>>, id: int, depth: nat,
                s: Progress)
    returns (r: Progress)
    requires idx == Index(comments) && OnceEach(s.rows, s.visited)
    requires forall p :: p in childrenOf <==> Listed(comments, p) != []
    requires forall p :: p in childrenOf ==> childrenOf[p] == Listed(comments, p)
    ensures r == Rendered(comments, id, depth, s)
    decreases Ids(comments) + {id} - s.visited, 0
  {
    hide Index, Listed;
    if id in s.visited {
      return s;
    }
    r := s.(visited := s.visited + {id});
    if id !in idx {
      return;
    }
    r := r.(rows := r.rows + [Row(id, depth)]);
    IndexKnown(comments);
    ListedKnown(comments, id);
    ghost var shown := r;
    var ids: seq<int> := if id in childrenOf then childrenOf[id] else [];
    assert id in Ids(comments) + {id} - s.visited;
    for i := 0 to |ids|
      invariant OnceEach(r.rows, r.visited) && shown.visited <= r.visited
      invariant RenderedAll(comments, ids[i..], depth + 1, r) == RenderedAll(comments, ids, depth + 1, shown)
    {
      assert ids[i..][0] == ids[i] && ids[i..][1..] == ids[i + 1..] && ids[i] in ids;
      assert Ids(comments) + {ids[i]} == Ids(comments);
      assert Ids(comments) - r.visited < Ids(comments) + {id} - s.visited;
      r := Render(comments, idx, childrenOf, ids[i], depth + 1, r);
    }
  }
}
