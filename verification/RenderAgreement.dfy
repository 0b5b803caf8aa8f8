/**
 When the two renderers of a thread agree: `_render_thread`, which takes replies
 in list order (diffgraph/bitbucket_fake.py), and `pr_read_thread`, which sorts
 them by id (diffgraph/comment_tools.py).
 */
module RenderAgreement {
  import opened Wrappers
  import opened Seqs
  import opened CommentTree
  import opened CommentTools
  import opened RootFinders
  import opened CommentThreads
  import opened CommentRender

  // ------------------------------------------------------- a walk in either order

  /** The replies of one comment, sorted by id or as listed. */
  function KidsOf(comments: seq<Rec>, sorted: bool, p: int): seq<Rec> {
    if sorted then Children(comments, p) else RepliesTo(comments, p)
  }

  lemma SameMembers(comments: seq<Rec>, p: int)
    ensures forall c :: c in RepliesTo(comments, p) <==> c in Children(comments, p)
  {
    SortKeeps(RepliesTo(comments, p));
    forall c ensures c in RepliesTo(comments, p) <==> c in Children(comments, p) {
      assert c in multiset(RepliesTo(comments, p)) <==> c in multiset(Children(comments, p));
    }
  }

  ghost function Visit(comments: seq<Rec>, sorted: bool, id: int, depth: nat, n: nat): seq<(Rec, nat)>
    requires Shallow(comments, id, n)
    decreases n, 0
  {
    if id !in ById(comments) then []
    else
      SameMembers(comments, id);
      [(ById(comments)[id], depth)] + VisitAll(comments, sorted, KidsOf(comments, sorted, id), depth + 1, n - 1)
  }

  ghost function VisitAll(comments: seq<Rec>, sorted: bool, cs: seq<Rec>, depth: nat, n: nat): seq<(Rec, nat)>
    requires AllShallow(comments, cs, n)
    decreases n, 1, |cs|
  {
    if cs == [] then []
    else
      VisitAll(comments, sorted, cs[..|cs| - 1], depth, n) + Visit(comments, sorted, cs[|cs| - 1].id, depth, n)
  }

  lemma VisitStep(comments: seq<Rec>, sorted: bool, id: int, depth: nat, n: nat)
    requires Shallow(comments, id, n) && id in ById(comments)
    ensures n > 0 && AllShallow(comments, KidsOf(comments, sorted, id), n - 1)
    ensures Visit(comments, sorted, id, depth, n)
            == [(ById(comments)[id], depth)]
               + VisitAll(comments, sorted, KidsOf(comments, sorted, id), depth + 1, n - 1)
  {
    SameMembers(comments, id);
  }

  /** The walk of `pr_read_thread` is the one that sorts. */
  lemma {:induction false} VisitIsWalk(comments: seq<Rec>, id: int, depth: nat, n: nat)
    requires Shallow(comments, id, n)
    ensures Visit(comments, true, id, depth, n) == Walk(comments, id, depth, n)
    decreases n, 0
  {
    if id in ById(comments) {
      VisitAllIsWalk(comments, Children(comments, id), depth + 1, n - 1);
    }
  }

  lemma {:induction false} VisitAllIsWalk(comments: seq<Rec>, cs: seq<Rec>, depth: nat, n: nat)
    requires AllShallow(comments, cs, n)
    ensures VisitAll(comments, true, cs, depth, n) == WalkAll(comments, cs, depth, n)
    decreases n, 1, |cs|
  {
    if cs != [] {
      assert cs[|cs| - 1] in cs;
      VisitAllIsWalk(comments, cs[..|cs| - 1], depth, n);
      VisitIsWalk(comments, cs[|cs| - 1].id, depth, n);
    }
  }

  // -------------------------------------------------- the guarded walk, in list order

  function RowsOf(w: seq<(Rec, nat)>): seq<Row> {
    seq(|w|, i requires 0 <= i < |w| => Row(w[i].0.id, w[i].1))
  }

  lemma RowsAppend(a: seq<(Rec, nat)>, b: seq<(Rec, nat)>)
    ensures RowsOf(a + b) == RowsOf(a) + RowsOf(b)
  {
  }

  function IdsOf(s: seq<Rec>): seq<int> { seq(|s|, i requires 0 <= i < |s| => s[i].id) }

  lemma {:induction false} ListedReplies(comments: seq<Rec>, p: int)
    requires p != 0
    ensures Listed(comments, p) == IdsOf(RepliesTo(comments, p))
  {
    if comments != [] {
      ListedReplies(comments[..|comments| - 1], p);
    }
  }

  lemma {:induction false} SameIndex(comments: seq<Rec>)
    requires forall c :: c in comments ==> c.id != 0
    ensures Index(comments) == ById(comments)
  {
    if comments != [] {
      SameIndex(comments[..|comments| - 1]);
      assert comments[|comments| - 1] in comments;
    }
  }

  /** The known comments at or below `id`. */
  ghost function Below(byId: map<int, Rec>, id: int): set<int>
    requires Descending(byId)
  {
    set x | x in byId && Under(byId, x, id)
  }

  ghost function BelowAny(byId: map<int, Rec>, kids: seq<Rec>): set<int>
    requires Descending(byId)
  {
    set x | x in byId && exists k :: k in kids && Under(byId, x, k.id)
  }

  /** Direct replies of `top`, each once. */
  ghost predicate Kids(comments: seq<Rec>, kids: seq<Rec>, top: int) {
    && (forall i, j :: 0 <= i < j < |kids| ==> kids[i].id != kids[j].id)
    && forall k :: k in kids ==> k in comments && HasParent(k) && k.parentId == Some(top)
  }

  lemma RepliesAreKids(comments: seq<Rec>, top: int)
    requires WellFormed(comments)
    ensures Kids(comments, RepliesTo(comments, top), top)
  {
    ChildrenMembers(comments, top);
    SameMembers(comments, top);
    RepliesDistinct(comments, top);
  }

  lemma {:induction false} RepliesDistinct(comments: seq<Rec>, p: int)
    requires UniqueIds(comments)
    ensures forall c :: c in RepliesTo(comments, p) ==> c in comments
    ensures forall i, j :: 0 <= i < j < |RepliesTo(comments, p)| ==>
              RepliesTo(comments, p)[i].id != RepliesTo(comments, p)[j].id
  {
    if comments != [] {
      var before, last := comments[..|comments| - 1], comments[|comments| - 1];
      RepliesDistinct(before, p);
      forall c | c in before ensures c.id != last.id {
        var i :| 0 <= i < |before| && before[i] == c;
        assert comments[i] == c;
      }
      forall i | 0 <= i < |RepliesTo(before, p)| ensures RepliesTo(before, p)[i].id != last.id {
        assert RepliesTo(before, p)[i] in before;
      }
      assert comments == before + [last];
    }
  }

  /** Below a comment stand itself and what stands below its replies. */
  lemma BelowSplits(comments: seq<Rec>, id: int)
    requires WellFormed(comments) && Descending(ById(comments)) && id in ById(comments)
    ensures var byId := ById(comments);
            && Below(byId, id) == {id} + BelowAny(byId, RepliesTo(comments, id))
            && id !in BelowAny(byId, RepliesTo(comments, id))
  {
    hide Children, RepliesTo, WellFormed, ById;
    WellFormedIndex(comments);
    WellFormedUnique(comments);
    ChildrenMembers(comments, id);
    SameMembers(comments, id);
    var byId, kids := ById(comments), RepliesTo(comments, id);
    forall x | x in byId ensures x in Below(byId, id) <==> x == id || x in BelowAny(byId, kids) {
      if Under(byId, x, id) && x != id {
        assert byId[Hop(byId, x, id)] in kids;
      }
      if x in BelowAny(byId, kids) {
        var k :| k in kids && Under(byId, x, k.id);
        OneHop(byId, x, id, k.id);
      }
    }
    if id in BelowAny(byId, kids) {
      var k :| k in kids && Under(byId, id, k.id);
      OneHop(byId, id, id, k.id);
    }
  }

  lemma BelowFirst(byId: map<int, Rec>, kids: seq<Rec>)
    requires Descending(byId) && kids != []
    ensures BelowAny(byId, kids) == Below(byId, kids[0].id) + BelowAny(byId, kids[1..])
  {
    hide Under;
    assert kids == [kids[0]] + kids[1..];
  }

  lemma TwoApart(byId: map<int, Rec>, a: int, b: int, top: int)
    requires Descending(byId) && top in byId && a in byId && b in byId && a != b
    requires HasParent(byId[a]) && byId[a].parentId == Some(top) && HasParent(byId[b]) && byId[b].parentId == Some(top)
    ensures Below(byId, a) !! Below(byId, b)
  {
    forall x | x in Below(byId, a) ensures x !in Below(byId, b) {
      OneHop(byId, x, top, a);
      if x in Below(byId, b) {
        OneHop(byId, x, top, b);
      }
    }
  }

  lemma KidsSplit(comments: seq<Rec>, kids: seq<Rec>, top: int)
    requires WellFormed(comments) && Kids(comments, kids, top) && kids != []
    ensures kids[0] in kids && Kids(comments, kids[1..], top)
    ensures forall k :: k in kids[1..] ==> k in kids && k.id != kids[0].id
    ensures forall k :: k in kids ==>
              k.id in ById(comments) && ById(comments)[k.id] == k && HasParent(k) && k.parentId == Some(top)
  {
    WellFormedIndex(comments);
    hide WellFormed, ById;
    forall k | k in kids[1..] ensures k in kids && k.id != kids[0].id {
      var i :| 0 <= i < |kids[1..]| && kids[1..][i] == k;
      assert kids[i + 1] == k;
    }
  }

  /** What stands below different replies to one comment is different. */
  lemma SiblingsApart(comments: seq<Rec>, kids: seq<Rec>, top: int)
    requires WellFormed(comments) && Descending(ById(comments)) && Kids(comments, kids, top) && kids != []
    requires top in ById(comments)
    ensures var byId := ById(comments);
            && kids[0] in kids && Kids(comments, kids[1..], top)
            && (forall k :: k in kids[1..] ==> Below(byId, kids[0].id) !! Below(byId, k.id))
            && BelowAny(byId, kids) == Below(byId, kids[0].id) + BelowAny(byId, kids[1..])
  {
    KidsSplit(comments, kids, top);
    hide WellFormed, ById, Under, BelowAny, Below, Kids, Descending;
    var byId, first, rest := ById(comments), kids[0], kids[1..];
    BelowFirst(byId, kids);
    forall k | k in rest ensures Below(byId, first.id) !! Below(byId, k.id) {
      TwoApart(byId, first.id, k.id, top);
    }
  }

  lemma {:induction false} VisitAllHead(comments: seq<Rec>, kids: seq<Rec>, depth: nat, n: nat)
    requires kids != [] && AllShallow(comments, kids, n)
    ensures kids[0] in kids
    ensures VisitAll(comments, false, kids, depth, n)
            == Visit(comments, false, kids[0].id, depth, n) + VisitAll(comments, false, kids[1..], depth, n)
  {
    hide Visit;
    var last, front := kids[|kids| - 1], kids[..|kids| - 1];
    assert last in kids;
    if front != [] {
      VisitAllHead(comments, front, depth, n);
      assert kids[1..][..|kids[1..]| - 1] == front[1..];
      Regroup(Visit(comments, false, kids[0].id, depth, n), VisitAll(comments, false, front[1..], depth, n),
              Visit(comments, false, last.id, depth, n));
    }
  }

  lemma BelowItself(byId: map<int, Rec>, id: int)
    requires Descending(byId) && id in byId
    ensures id in Below(byId, id)
  {
  }

  lemma RenderedStep(comments: seq<Rec>, id: int, depth: nat, s: Progress)
    requires OnceEach(s.rows, s.visited) && id !in s.visited && id in Index(comments)
    ensures OnceEach(s.rows + [Row(id, depth)], s.visited + {id})
    ensures forall x :: x in Listed(comments, id) ==> x in Ids(comments)
    ensures Rendered(comments, id, depth, s)
            == RenderedAll(comments, Listed(comments, id), depth + 1,
                           Progress(s.rows + [Row(id, depth)], s.visited + {id}))
  {
    IndexKnown(comments);
    ListedKnown(comments, id);
  }

  lemma RenderedAllStep(comments: seq<Rec>, ids: seq<int>, depth: nat, s: Progress)
    requires OnceEach(s.rows, s.visited) && (forall x :: x in ids ==> x in Ids(comments)) && ids != []
    ensures RenderedAll(comments, ids, depth, s)
            == RenderedAll(comments, ids[1..], depth, Rendered(comments, ids[0], depth, s))
  {
  }

  /** From `s` to `r` the comments of `w` were printed, and `below` marked as visited. */
  ghost predicate Printed(s: Progress, r: Progress, w: seq<(Rec, nat)>, below: set<int>) {
    r.rows == s.rows + RowsOf(w) && r.visited == s.visited + below
  }

  lemma PrintedTwice(s: Progress, mid: Progress, r: Progress, a: seq<(Rec, nat)>, b: seq<(Rec, nat)>, A: set<int>,
                     B: set<int>)
    requires Printed(s, mid, a, A) && Printed(mid, r, b, B)
    ensures Printed(s, r, a + b, A + B)
  {
    RowsAppend(a, b);
    Regroup(s.rows, RowsOf(a), RowsOf(b));
  }

  /** The walk below each of `kids` ends and has met nothing in `visited` yet. */
  ghost predicate Unseen(comments: seq<Rec>, kids: seq<Rec>, n: nat, visited: set<int>)
    requires Descending(ById(comments))
  {
    forall k :: k in kids ==> Shallow(comments, k.id, n) && visited !! Below(ById(comments), k.id)
  }

  lemma UnseenShallow(comments: seq<Rec>, kids: seq<Rec>, n: nat, visited: set<int>)
    requires Descending(ById(comments)) && Unseen(comments, kids, n, visited)
    ensures AllShallow(comments, kids, n)
  {
  }

  lemma KidsUnseen(comments: seq<Rec>, id: int, n: nat, visited: set<int>)
    requires WellFormed(comments) && Descending(ById(comments)) && id in ById(comments)
    requires visited !! Below(ById(comments), id)
    requires forall k :: k in RepliesTo(comments, id) ==> Shallow(comments, k.id, n)
    ensures Unseen(comments, RepliesTo(comments, id), n, visited + {id})
  {
    var byId, kids := ById(comments), RepliesTo(comments, id);
    BelowSplits(comments, id);
    forall k | k in kids ensures Below(byId, k.id) <= BelowAny(byId, kids) {
    }
  }

  lemma RestUnseen(comments: seq<Rec>, kids: seq<Rec>, n: nat, visited: set<int>)
    requires Descending(ById(comments)) && Unseen(comments, kids, n, visited) && kids != []
    requires forall k :: k in kids[1..] ==> Below(ById(comments), kids[0].id) !! Below(ById(comments), k.id)
    ensures Shallow(comments, kids[0].id, n) && visited !! Below(ById(comments), kids[0].id)
    ensures Unseen(comments, kids[1..], n, visited + Below(ById(comments), kids[0].id))
  {
    assert kids[0] in kids;
  }

  /** On well-formed data the guard never triggers: the guarded walk prints
      exactly what the walk in list order visits. */
  lemma {:induction false} RenderedAgrees(comments: seq<Rec>, id: int, depth: nat, n: nat, s: Progress)
    requires WellFormed(comments) && Descending(ById(comments))
    requires Shallow(comments, id, n) && id in ById(comments)
    requires OnceEach(s.rows, s.visited) && s.visited !! Below(ById(comments), id)
    ensures Printed(s, Rendered(comments, id, depth, s), Visit(comments, false, id, depth, n),
                    Below(ById(comments), id))
    decreases n, 0
  {
    BelowItself(ById(comments), id);
    KnownIndexed(comments, id);
    RenderedStep(comments, id, depth, s);
    VisitStep(comments, false, id, depth, n);
    KidsListed(comments, id);
    BelowSplits(comments, id);
    hide WellFormed, ById, Index, Listed, Below, BelowAny, Kids, Rendered, RenderedAll, Visit, VisitAll, Shallow,
      RepliesTo, Printed, Unseen, OnceEach, Ids, IdsOf;
    var kids := RepliesTo(comments, id);
    var shown := Progress(s.rows + [Row(id, depth)], s.visited + {id});
    KidsUnseen(comments, id, n - 1, s.visited);
    KidsAgree(comments, kids, id, depth + 1, n - 1, shown);
    PrintedOne(s, (ById(comments)[id], depth));
    PrintedTwice(s, shown, Rendered(comments, id, depth, s), [(ById(comments)[id], depth)],
                 VisitAll(comments, false, kids, depth + 1, n - 1), {id}, BelowAny(ById(comments), kids));
  }

  lemma PrintedOne(s: Progress, v: (Rec, nat))
    ensures Printed(s, Progress(s.rows + [Row(v.0.id, v.1)], s.visited + {v.0.id}), [v], {v.0.id})
  {
  }

  lemma KnownIndexed(comments: seq<Rec>, id: int)
    requires WellFormed(comments) && id in ById(comments)
    ensures id in Index(comments) && ById(comments)[id].id == id
  {
    WellFormedIndex(comments);
    SameIndex(comments);
  }

  lemma KidsListed(comments: seq<Rec>, id: int)
    requires WellFormed(comments) && id in ById(comments)
    ensures Kids(comments, RepliesTo(comments, id), id) && IdsOf(RepliesTo(comments, id)) == Listed(comments, id)
  {
    WellFormedIndex(comments);
    RepliesAreKids(comments, id);
    ListedReplies(comments, id);
  }

  lemma {:induction false} KidsAgree(comments: seq<Rec>, kids: seq<Rec>, top: int, depth: nat, n: nat, s: Progress)
    requires WellFormed(comments) && Descending(ById(comments))
    requires top in ById(comments) && Kids(comments, kids, top) && Unseen(comments, kids, n, s.visited)
    requires OnceEach(s.rows, s.visited) && forall x :: x in IdsOf(kids) ==> x in Ids(comments)
    ensures AllShallow(comments, kids, n)
    ensures Printed(s, RenderedAll(comments, IdsOf(kids), depth, s), VisitAll(comments, false, kids, depth, n),
                    BelowAny(ById(comments), kids))
    decreases n, 1, |kids|
  {
    UnseenShallow(comments, kids, n, s.visited);
    if kids == [] {
      NoKids(comments, depth, n, s);
    } else {
      hide WellFormed, ById, Below, BelowAny, Kids, Rendered, RenderedAll, Shallow, Visit, VisitAll, Printed, Unseen,
        OnceEach, Ids, IdsOf, Descending;
      FirstKnown(comments, kids, top);
      SiblingsApart(comments, kids, top);
      RestUnseen(comments, kids, n, s.visited);
      var first, rest := kids[0], kids[1..];
      RenderedAgrees(comments, first.id, depth, n, s);
      var mid := Rendered(comments, first.id, depth, s);
      PrintedVisited(s, mid, Visit(comments, false, first.id, depth, n), Below(ById(comments), first.id));
      RestKnown(comments, kids);
      RenderedAllStep(comments, IdsOf(kids), depth, s);
      KidsAgree(comments, rest, top, depth, n, mid);
      VisitAllHead(comments, kids, depth, n);
      PrintedTwice(s, mid, RenderedAll(comments, IdsOf(rest), depth, mid), Visit(comments, false, first.id, depth, n),
                   VisitAll(comments, false, rest, depth, n), Below(ById(comments), first.id),
                   BelowAny(ById(comments), rest));
    }
  }

  lemma PrintedVisited(s: Progress, r: Progress, w: seq<(Rec, nat)>, below: set<int>)
    requires Printed(s, r, w, below)
    ensures r.visited == s.visited + below
  {
  }

  lemma FirstKnown(comments: seq<Rec>, kids: seq<Rec>, top: int)
    requires WellFormed(comments) && Kids(comments, kids, top) && kids != []
    ensures kids[0].id in ById(comments)
  {
    WellFormedIndex(comments);
    assert kids[0] in kids;
  }

  lemma NoKids(comments: seq<Rec>, depth: nat, n: nat, s: Progress)
    requires Descending(ById(comments)) && OnceEach(s.rows, s.visited)
    ensures Printed(s, RenderedAll(comments, IdsOf([]), depth, s), VisitAll(comments, false, [], depth, n),
                    BelowAny(ById(comments), []))
  {
  }

  lemma RestKnown(comments: seq<Rec>, kids: seq<Rec>)
    requires kids != [] && forall x :: x in IdsOf(kids) ==> x in Ids(comments)
    ensures IdsOf(kids) != [] && IdsOf(kids)[0] == kids[0].id && IdsOf(kids)[1..] == IdsOf(kids[1..])
    ensures forall x :: x in IdsOf(kids[1..]) ==> x in Ids(comments)
  {
    assert IdsOf(kids) == [kids[0].id] + IdsOf(kids[1..]);
  }

  // --------------------------------------------------------- exactly when they agree

  /** The rows of the replies to `x`. */
  function AnswersTo(rows: seq<Row>, byId: map<int, Rec>, x: int): seq<int> {
    if rows == [] then []
    else
      var row := rows[|rows| - 1];
      AnswersTo(rows[..|rows| - 1], byId, x)
      + if row.id in byId && byId[row.id].parentId == Some(x) then [row.id] else []
  }

  lemma {:induction false} AnswersAppend(a: seq<Row>, b: seq<Row>, byId: map<int, Rec>, x: int)
    ensures AnswersTo(a + b, byId, x) == AnswersTo(a, byId, x) + AnswersTo(b, byId, x)
  {
    if b == [] {
      assert a + b == a;
    } else {
      var row := b[|b| - 1];
      AnswersAppend(a, b[..|b| - 1], byId, x);
      FrontAndLast(a, b);
      Regroup(AnswersTo(a, byId, x), AnswersTo(b[..|b| - 1], byId, x),
              if row.id in byId && byId[row.id].parentId == Some(x) then [row.id] else []);
    }
  }

  /** The ids of the replies to `x`, if `x` is one of the comments met. */
  function IdsIf(met: bool, comments: seq<Rec>, sorted: bool, x: int): seq<int> {
    if met then IdsOf(KidsOf(comments, sorted, x)) else []
  }

  /** A walk shows the replies of every comment it meets in the order it takes them. */
  lemma {:induction false} VisitAnswers(comments: seq<Rec>, sorted: bool, id: int, depth: nat, n: nat, x: int)
    requires WellFormed(comments) && Descending(ById(comments)) && Shallow(comments, id, n)
    requires id in ById(comments) && x in ById(comments)
    ensures var byId := ById(comments);
            AnswersTo(RowsOf(Visit(comments, sorted, id, depth, n)), byId, x)
            == (if byId[id].parentId == Some(x) then [id] else []) + IdsIf(Under(byId, x, id), comments, sorted, x)
    decreases n, 0
  {
    hide Visit, VisitAll, Shallow, KidsOf, AnswersTo, RowsOf, IdsOf, Under, Kids, WellFormed, ById, BelowAny,
      RepliesTo, Children, Descending;
    var byId, kids := ById(comments), KidsOf(comments, sorted, id);
    VisitStep(comments, sorted, id, depth, n);
    SortedKids(comments, sorted, id);
    VisitAllAnswers(comments, sorted, kids, id, depth + 1, n - 1, x);
    KnownIndexed(comments, id);
    OneAnswer(byId, id, depth, x);
    RowsAppend([(byId[id], depth)], VisitAll(comments, sorted, kids, depth + 1, n - 1));
    AnswersAppend(RowsOf([(byId[id], depth)]), RowsOf(VisitAll(comments, sorted, kids, depth + 1, n - 1)), byId, x);
    UnderSplits(comments, sorted, id, x);
  }

  lemma OneAnswer(byId: map<int, Rec>, id: int, depth: nat, x: int)
    requires id in byId && byId[id].id == id
    ensures AnswersTo(RowsOf([(byId[id], depth)]), byId, x) == if byId[id].parentId == Some(x) then [id] else []
  {
    assert RowsOf([(byId[id], depth)]) == [Row(id, depth)];
    assert [Row(id, depth)][..0] == [];
  }

  lemma SortedKids(comments: seq<Rec>, sorted: bool, top: int)
    requires WellFormed(comments)
    ensures Kids(comments, KidsOf(comments, sorted, top), top)
  {
    RepliesAreKids(comments, top);
    ChildrenMembers(comments, top);
    ChildrenDistinct(comments, top);
  }

  lemma ChildrenDistinct(comments: seq<Rec>, top: int)
    requires WellFormed(comments)
    ensures Ascending(Children(comments, top))
  {
    RepliesDistinct(comments, top);
    SortAscends(RepliesTo(comments, top));
  }

  lemma {:induction false} SortAscends(s: seq<Rec>)
    requires forall i, j :: 0 <= i < j < |s| ==> s[i].id != s[j].id
    ensures Ascending(SortById(s))
  {
    if s != [] {
      var front, last := s[..|s| - 1], s[|s| - 1];
      SortAscends(front);
      SortKeeps(front);
      forall c | c in SortById(front) ensures c.id != last.id {
        assert c in multiset(SortById(front)) && c in front;
      }
      InsertAscends(SortById(front), last);
    }
  }

  lemma {:induction false} InsertAscends(s: seq<Rec>, c: Rec)
    requires Ascending(s) && forall d :: d in s ==> d.id != c.id
    ensures Ascending(Insert(s, c))
  {
    if s != [] && c.id < s[|s| - 1].id {
      var front, last := s[..|s| - 1], s[|s| - 1];
      InsertAscends(front, c);
      InsertKeeps(front, c);
      var r := Insert(front, c);
      forall i | 0 <= i < |r| ensures r[i].id < last.id {
        assert r[i] in multiset(r);
        if r[i] != c {
          assert r[i] in front;
          var k :| 0 <= k < |front| && front[k] == r[i];
          assert s[k] == front[k];
        }
      }
    }
  }

  lemma UnderSplits(comments: seq<Rec>, sorted: bool, id: int, x: int)
    requires WellFormed(comments) && Descending(ById(comments)) && id in ById(comments) && x in ById(comments)
    ensures var byId := ById(comments);
            var below := BelowAny(byId, KidsOf(comments, sorted, id));
            (Under(byId, x, id) <==> x == id || x in below) && !(x == id && x in below)
  {
    BelowSplits(comments, id);
    SameMembers(comments, id);
    hide WellFormed, ById, RepliesTo, Children, Under;
    var byId := ById(comments);
    assert BelowAny(byId, KidsOf(comments, sorted, id)) == BelowAny(byId, RepliesTo(comments, id));
    assert x in Below(byId, id) <==> Under(byId, x, id);
  }

  lemma {:induction false} VisitAllAnswers(comments: seq<Rec>, sorted: bool, kids: seq<Rec>, top: int, depth: nat,
                                           n: nat, x: int)
    requires WellFormed(comments) && Descending(ById(comments)) && Kids(comments, kids, top)
    requires top in ById(comments) && x in ById(comments)
    requires AllShallow(comments, kids, n)
    ensures AnswersTo(RowsOf(VisitAll(comments, sorted, kids, depth, n)), ById(comments), x)
            == (if x == top then IdsOf(kids) else []) + IdsIf(x in BelowAny(ById(comments), kids), comments, sorted, x)
    decreases n, 1, |kids|
  {
    if kids == [] {
      NoAnswers(comments, sorted, depth, n, x);
    } else {
      hide Visit, VisitAll, AnswersTo, Shallow, Under, WellFormed, ById, KidsOf, Descending, IdsIf, IdsOf, RowsOf,
        BelowAny, Kids;
      var byId, last, front := ById(comments), kids[|kids| - 1], kids[..|kids| - 1];
      assert kids == front + [last] && last in kids;
      LastApart(comments, kids, top, x);
      VisitAllAnswers(comments, sorted, front, top, depth, n, x);
      VisitAnswers(comments, sorted, last.id, depth, n, x);
      VisitAllLast(comments, sorted, kids, depth, n);
      var a, b := VisitAll(comments, sorted, front, depth, n), Visit(comments, sorted, last.id, depth, n);
      RowsAppend(a, b);
      AnswersAppend(RowsOf(a), RowsOf(b), byId, x);
      IdsLast(kids);
      var met, now := x in BelowAny(byId, front), Under(byId, x, last.id);
      IdsSplit(comments, sorted, met, now, x);
      Shuffle(if x == top then IdsOf(front) else [], IdsIf(met, comments, sorted, x),
              if x == top then [last.id] else [], IdsIf(now, comments, sorted, x));
    }
  }

  lemma Shuffle(a: seq<int>, b: seq<int>, c: seq<int>, d: seq<int>)
    requires b == [] == d || a == [] == c
    ensures (a + b) + (c + d) == (a + c) + (b + d)
  {
    assert b == [] ==> a + b == a;
  }

  lemma NoAnswers(comments: seq<Rec>, sorted: bool, depth: nat, n: nat, x: int)
    requires Descending(ById(comments))
    ensures AnswersTo(RowsOf(VisitAll(comments, sorted, [], depth, n)), ById(comments), x) == [] == IdsOf([])
    ensures BelowAny(ById(comments), []) == {} && IdsIf(false, comments, sorted, x) == []
  {
  }

  lemma VisitAllLast(comments: seq<Rec>, sorted: bool, kids: seq<Rec>, depth: nat, n: nat)
    requires kids != [] && AllShallow(comments, kids, n)
    ensures kids[|kids| - 1] in kids
    ensures VisitAll(comments, sorted, kids, depth, n)
            == VisitAll(comments, sorted, kids[..|kids| - 1], depth, n)
               + Visit(comments, sorted, kids[|kids| - 1].id, depth, n)
  {
  }

  lemma IdsLast(kids: seq<Rec>)
    requires kids != []
    ensures IdsOf(kids) == IdsOf(kids[..|kids| - 1]) + [kids[|kids| - 1].id]
  {
  }

  lemma IdsSplit(comments: seq<Rec>, sorted: bool, a: bool, b: bool, x: int)
    requires !(a && b)
    ensures IdsIf(a || b, comments, sorted, x) == IdsIf(a, comments, sorted, x) + IdsIf(b, comments, sorted, x)
    ensures !a ==> IdsIf(a, comments, sorted, x) == []
    ensures !b ==> IdsIf(b, comments, sorted, x) == []
  {
  }

  /** `x` is below at most one of the replies to `top`, and `top` is below none. */
  lemma LastApart(comments: seq<Rec>, kids: seq<Rec>, top: int, x: int)
    requires WellFormed(comments) && Descending(ById(comments)) && Kids(comments, kids, top) && kids != []
    requires top in ById(comments) && x in ById(comments)
    ensures var byId, last := ById(comments), kids[|kids| - 1];
            && last.id in byId && byId[last.id] == last && last.parentId == Some(top)
            && Kids(comments, kids[..|kids| - 1], top)
            && (x in BelowAny(byId, kids) <==> x in BelowAny(byId, kids[..|kids| - 1]) || Under(byId, x, last.id))
            && !(x in BelowAny(byId, kids[..|kids| - 1]) && Under(byId, x, last.id))
            && (x == top ==> x !in BelowAny(byId, kids))
  {
    KidsEnd(comments, kids, top);
    hide WellFormed, ById, Under, BelowAny, Kids;
    var byId, last, front := ById(comments), kids[|kids| - 1], kids[..|kids| - 1];
    BelowLast(byId, kids, x);
    if x in BelowAny(byId, front) && Under(byId, x, last.id) {
      FrontApart(byId, front, last, top, x);
    }
    if x in BelowAny(byId, kids) {
      TopNotBelow(byId, kids, top, x);
    }
  }

  lemma KidsEnd(comments: seq<Rec>, kids: seq<Rec>, top: int)
    requires WellFormed(comments) && Kids(comments, kids, top) && kids != []
    ensures Kids(comments, kids[..|kids| - 1], top)
    ensures forall k :: k in kids ==>
              k.id in ById(comments) && ById(comments)[k.id] == k && HasParent(k) && k.parentId == Some(top)
    ensures forall k :: k in kids[..|kids| - 1] ==> k in kids && k.id != kids[|kids| - 1].id
    ensures kids[|kids| - 1] in kids
  {
    WellFormedIndex(comments);
    hide WellFormed, ById;
    var front := kids[..|kids| - 1];
    forall k | k in front ensures k in kids && k.id != kids[|kids| - 1].id {
      var i :| 0 <= i < |front| && front[i] == k;
      assert kids[i] == k;
    }
  }

  lemma BelowLast(byId: map<int, Rec>, kids: seq<Rec>, x: int)
    requires Descending(byId) && kids != [] && x in byId
    ensures x in BelowAny(byId, kids) <==>
              x in BelowAny(byId, kids[..|kids| - 1]) || Under(byId, x, kids[|kids| - 1].id)
  {
    hide Under;
    assert kids == kids[..|kids| - 1] + [kids[|kids| - 1]];
  }

  lemma FrontApart(byId: map<int, Rec>, front: seq<Rec>, last: Rec, top: int, x: int)
    requires Descending(byId) && top in byId && x in byId
    requires last.id in byId && byId[last.id] == last && HasParent(last) && last.parentId == Some(top)
    requires forall k :: k in front ==>
               k.id in byId && byId[k.id] == k && HasParent(k) && k.parentId == Some(top) && k.id != last.id
    requires x in BelowAny(byId, front)
    ensures !Under(byId, x, last.id)
  {
    hide Under;
    var k :| k in front && Under(byId, x, k.id);
    OneHop(byId, x, top, k.id);
    if Under(byId, x, last.id) {
      OneHop(byId, x, top, last.id);
    }
  }

  lemma TopNotBelow(byId: map<int, Rec>, kids: seq<Rec>, top: int, x: int)
    requires Descending(byId) && top in byId && x in byId
    requires forall k :: k in kids ==> k.id in byId && byId[k.id] == k && HasParent(k) && k.parentId == Some(top)
    requires x in BelowAny(byId, kids)
    ensures x != top
  {
    hide Under;
    var k :| k in kids && Under(byId, x, k.id);
    OneHop(byId, x, top, k.id);
  }

  /** Below `root` the replies of every comment are listed in the order they were posted. */
  ghost predicate InOrderBelow(comments: seq<Rec>, root: int)
    requires Descending(ById(comments))
  {
    forall x :: x in Below(ById(comments), root) ==> Ascending(RepliesTo(comments, x))
  }

  /** In that case sorting changes nothing. */
  lemma {:induction false} OrderIrrelevant(comments: seq<Rec>, id: int, depth: nat, n: nat)
    requires WellFormed(comments) && Descending(ById(comments)) && Shallow(comments, id, n) && id in ById(comments)
    requires InOrderBelow(comments, id)
    ensures Visit(comments, false, id, depth, n) == Visit(comments, true, id, depth, n)
    decreases n, 0
  {
    hide Visit, VisitAll, Shallow, ById, WellFormed, Children, RepliesTo, Below, BelowAny, Kids, SortById, Ascending;
    VisitStep(comments, false, id, depth, n);
    VisitStep(comments, true, id, depth, n);
    BelowItself(ById(comments), id);
    SortedReplies(comments, id);
    BelowSplits(comments, id);
    RepliesAreKids(comments, id);
    forall k | k in RepliesTo(comments, id) ensures Below(ById(comments), k.id) <= Below(ById(comments), id) {
      BelowReply(ById(comments), RepliesTo(comments, id), k);
    }
    OrderIrrelevantBelow(comments, RepliesTo(comments, id), id, depth + 1, n - 1);
  }

  lemma SortedReplies(comments: seq<Rec>, p: int)
    requires Ascending(RepliesTo(comments, p))
    ensures KidsOf(comments, true, p) == RepliesTo(comments, p) == KidsOf(comments, false, p)
  {
    SortedAlready(RepliesTo(comments, p));
  }

  lemma BelowReply(byId: map<int, Rec>, kids: seq<Rec>, k: Rec)
    requires Descending(byId) && k in kids
    ensures Below(byId, k.id) <= BelowAny(byId, kids)
  {
  }

  lemma {:induction false} OrderIrrelevantBelow(comments: seq<Rec>, kids: seq<Rec>, top: int, depth: nat, n: nat)
    requires WellFormed(comments) && Descending(ById(comments)) && Kids(comments, kids, top)
    requires AllShallow(comments, kids, n) && forall k :: k in kids ==> InOrderBelow(comments, k.id)
    ensures VisitAll(comments, false, kids, depth, n) == VisitAll(comments, true, kids, depth, n)
    decreases n, 1, |kids|
  {
    if kids != [] {
      hide Visit, Shallow, WellFormed, ById, InOrderBelow, Descending;
      var last, front := kids[|kids| - 1], kids[..|kids| - 1];
      assert last in kids;
      KnownReply(comments, last);
      OrderIrrelevantBelow(comments, front, top, depth, n);
      OrderIrrelevant(comments, last.id, depth, n);
    }
  }

  lemma KnownReply(comments: seq<Rec>, c: Rec)
    requires WellFormed(comments) && c in comments
    ensures c.id in ById(comments)
  {
    WellFormedIndex(comments);
  }

  lemma SameIdsAscend(a: seq<Rec>, b: seq<Rec>)
    requires IdsOf(a) == IdsOf(b) && Ascending(b)
    ensures Ascending(a)
  {
    forall i | 0 <= i < |a| ensures a[i].id == b[i].id {
      assert IdsOf(a)[i] == IdsOf(b)[i];
    }
  }

  /** If the two walks show the same rows, no comment of the thread has its replies out of order. */
  lemma SameRowsInOrder(comments: seq<Rec>, root: int, n: nat, x: int)
    requires WellFormed(comments) && Descending(ById(comments)) && root in ById(comments) && Shallow(comments, root, n)
    requires RowsOf(Visit(comments, false, root, 0, n)) == RowsOf(Visit(comments, true, root, 0, n))
    requires x in Below(ById(comments), root)
    ensures Ascending(RepliesTo(comments, x))
  {
    hide WellFormed, ById, Shallow, Visit, VisitAll, RepliesTo, Children, Ascending, IdsOf, Under, Descending, Below,
      RowsOf, AnswersTo;
    BelowIsUnder(ById(comments), root, x);
    VisitAnswers(comments, false, root, 0, n, x);
    VisitAnswers(comments, true, root, 0, n, x);
    RootHasNoParent(ById(comments), root, x);
    ChildrenDistinct(comments, x);
    assert [] + IdsIf(true, comments, false, x) == IdsOf(RepliesTo(comments, x));
    assert [] + IdsIf(true, comments, true, x) == IdsOf(Children(comments, x));
    SameIdsAscend(RepliesTo(comments, x), Children(comments, x));
  }

  lemma BelowIsUnder(byId: map<int, Rec>, root: int, x: int)
    requires Descending(byId) && x in Below(byId, root)
    ensures x in byId && Under(byId, x, root)
  {
  }

  lemma RootHasNoParent(byId: map<int, Rec>, root: int, x: int)
    requires Descending(byId) && root in byId && x in Below(byId, root)
    ensures byId[root].parentId != Some(x)
  {
    UnderBelow(byId, x, root);
  }

  /** The two renderers list the same comments on well-formed data, in the same
      order and depth exactly if the replies of every comment of the thread are
      listed in the order they were posted. */
  lemma RenderersAgree(comments: seq<Rec>, root: int, n: nat)
    requires WellFormed(comments) && root in ById(comments) && Shallow(comments, root, n)
    ensures Descending(ById(comments))
    ensures Rendered(comments, root, 0, NOTHING).rows == RowsOf(Walk(comments, root, 0, n))
            <==> InOrderBelow(comments, root)
  {
    WellFormedIndex(comments);
    ListedRows(comments, root, n);
    VisitIsWalk(comments, root, 0, n);
    hide WellFormed, ById, Shallow, Walk, Visit, Rendered, RepliesTo, Ascending, RowsOf, Below, Descending;
    if InOrderBelow(comments, root) {
      OrderIrrelevant(comments, root, 0, n);
    } else if RowsOf(Visit(comments, false, root, 0, n)) == RowsOf(Visit(comments, true, root, 0, n)) {
      forall x | x in Below(ById(comments), root) ensures Ascending(RepliesTo(comments, x)) {
        SameRowsInOrder(comments, root, n, x);
      }
    }
  }

  lemma ListedRows(comments: seq<Rec>, root: int, n: nat)
    requires WellFormed(comments) && Descending(ById(comments)) && root in ById(comments) && Shallow(comments, root, n)
    ensures Rendered(comments, root, 0, NOTHING).rows == RowsOf(Visit(comments, false, root, 0, n))
  {
    hide WellFormed, ById, Shallow, Visit, Rendered, RowsOf, Below, Descending;
    RenderedAgrees(comments, root, 0, n, NOTHING);
    assert Printed(NOTHING, Rendered(comments, root, 0, NOTHING), Visit(comments, false, root, 0, n),
                   Below(ById(comments), root));
  }
}
