/**
 The nested comments of the Bitbucket API and their flattening
 (diffgraph/bitbucket.py).
 */
module CommentTree {
  import opened Seqs
  import opened Wrappers

  /** One API comment with its nested replies. */
  datatype Node = Node(id: int, text: string, replies: seq<Node>)

  /** One flat record. */
  datatype Rec = Rec(id: int, parentId: Option<int>, depth: nat, text: string)

  /** The records of a comment and of everything below it, parents first, replies in order. */
  function Preorder(n: Node, parent: Option<int>, depth: nat): seq<Rec>
    decreases n, 1
  {
    [Rec(n.id, parent, depth, n.text)] + PreorderAll(n.replies, Some(n.id), depth + 1)
  }

  function PreorderAll(ns: seq<Node>, parent: Option<int>, depth: nat): seq<Rec>
    decreases ns, 0
  {
    if ns == [] then [] else Preorder(ns[0], parent, depth) + PreorderAll(ns[1..], parent, depth)
  }

  function Size(n: Node): nat
    decreases n, 1
  {
    1 + SizeAll(n.replies)
  }

  function SizeAll(ns: seq<Node>): nat
    decreases ns, 0
  {
    if ns == [] then 0 else Size(ns[0]) + SizeAll(ns[1..])
  }

  /** An entry of the explicit stack; the top of the stack is its last element. */
  datatype Frame = Frame(node: Node, parent: Option<int>, depth: nat)

  function StackOrder(stack: seq<Frame>): seq<Rec> {
    if stack == [] then []
    else
      var top := stack[|stack| - 1];
      Preorder(top.node, top.parent, top.depth) + StackOrder(stack[..|stack| - 1])
  }

  function StackSize(stack: seq<Frame>): nat {
    if stack == [] then 0 else Size(stack[|stack| - 1].node) + StackSize(stack[..|stack| - 1])
  }

  /** The loop over the activity feed: one explicit-stack walk per root comment. */
  method Flatten(roots: seq<Node>) returns (comments: seq<Rec>)
    ensures comments == PreorderAll(roots, None, 0)
  {
    hide Preorder, StackOrder, StackSize;
    comments := [];
    for i := 0 to |roots|
      invariant comments + PreorderAll(roots[i..], None, 0) == PreorderAll(roots, None, 0)
    {
      ghost var rest := roots[i..];
      assert rest[0] == roots[i] && rest[1..] == roots[i + 1..];
      var stack := [Frame(roots[i], None, 0)];
      ghost var start := comments;
      OneFrame(roots[i]);
      EmptyStack();
      while stack != []
        invariant comments + StackOrder(stack) == start + Preorder(roots[i], None, 0)
        decreases StackSize(stack)
      {
        var top := stack[|stack| - 1];
        ghost var below := stack[..|stack| - 1];
        assert stack == below + [top];
        Popped(below, top);
        Pushed(below, top);
        stack := stack[..|stack| - 1];
        comments := comments + [Rec(top.node.id, top.parent, top.depth, top.node.text)];
        stack := PushReplies(stack, top.node, top.depth);
      }
      assert comments == start + Preorder(roots[i], None, 0);
      Regroup(start, Preorder(roots[i], None, 0), PreorderAll(roots[i + 1..], None, 0));
    }
    assert roots[|roots|..] == [];
  }

  lemma NoneBelow(ns: seq<Node>, parent: Option<int>, depth: nat)
    ensures ns == [] ==> PreorderAll(ns, parent, depth) == [] && SizeAll(ns) == 0
  {
  }

  lemma RepliesFrom(ns: seq<Node>, j: nat, parent: Option<int>, depth: nat)
    requires j < |ns|
    ensures PreorderAll(ns[j..], parent, depth)
            == Preorder(ns[j], parent, depth) + PreorderAll(ns[j + 1..], parent, depth)
    ensures SizeAll(ns[j..]) == 1 + SizeAll(ns[j].replies) + SizeAll(ns[j + 1..])
  {
    hide Preorder;
    assert ns[j..][0] == ns[j] && ns[j..][1..] == ns[j + 1..];
  }

  lemma Popped(below: seq<Frame>, top: Frame)
    ensures StackOrder(below + [top])
            == [Rec(top.node.id, top.parent, top.depth, top.node.text)]
               + (PreorderAll(top.node.replies, Some(top.node.id), top.depth + 1) + StackOrder(below))
  {
    hide Preorder, PreorderAll, StackOrder, StackSize;
    Pushed(below, top);
    PreorderOne(top.node, top.parent, top.depth);
    Regroup([Rec(top.node.id, top.parent, top.depth, top.node.text)],
            PreorderAll(top.node.replies, Some(top.node.id), top.depth + 1), StackOrder(below));
  }

  lemma Pushed(below: seq<Frame>, top: Frame)
    ensures StackOrder(below + [top]) == Preorder(top.node, top.parent, top.depth) + StackOrder(below)
    ensures StackSize(below + [top]) == 1 + SizeAll(top.node.replies) + StackSize(below)
  {
    hide Preorder, SizeAll;
    assert (below + [top])[..|below|] == below;
  }

  lemma PreorderOne(n: Node, parent: Option<int>, depth: nat)
    ensures Preorder(n, parent, depth)
            == [Rec(n.id, parent, depth, n.text)] + PreorderAll(n.replies, Some(n.id), depth + 1)
  {
  }

  lemma OneFrame(root: Node)
    ensures StackOrder([Frame(root, None, 0)]) == Preorder(root, None, 0)
  {
    assert [Frame(root, None, 0)][..0] == [];
  }

  lemma EmptyStack()
    ensures StackOrder([]) == []
  {
  }

  /** Pushes the replies in reverse, so that the first reply is popped first. */
  method PushReplies(below: seq<Frame>, node: Node, depth: nat) returns (stack: seq<Frame>)
    ensures StackOrder(stack) == PreorderAll(node.replies, Some(node.id), depth + 1) + StackOrder(below)
    ensures StackSize(stack) == SizeAll(node.replies) + StackSize(below)
  {
    hide StackOrder, StackSize, Preorder, PreorderAll, SizeAll, Size;
    stack := below;
    var j := |node.replies|;
    NoneBelow(node.replies[j..], Some(node.id), depth + 1);
    while j > 0
      invariant 0 <= j <= |node.replies|
      invariant StackOrder(stack) == PreorderAll(node.replies[j..], Some(node.id), depth + 1) + StackOrder(below)
      invariant StackSize(stack) == SizeAll(node.replies[j..]) + StackSize(below)
    {
      j := j - 1;
      ghost var was := stack;
      RepliesFrom(node.replies, j, Some(node.id), depth + 1);
      stack := stack + [Frame(node.replies[j], Some(node.id), depth + 1)];
      Pushed(was, stack[|stack| - 1]);
      Regroup(Preorder(node.replies[j], Some(node.id), depth + 1),
              PreorderAll(node.replies[j + 1..], Some(node.id), depth + 1),
              StackOrder(below));
    }
    assert node.replies[0..] == node.replies;
  }

  lemma PreorderCons(ns: seq<Node>, parent: Option<int>, depth: nat)
    requires ns != []
    ensures PreorderAll(ns, parent, depth) == Preorder(ns[0], parent, depth) + PreorderAll(ns[1..], parent, depth)
  {
  }

  lemma PreorderHead(ns: seq<Node>, parent: Option<int>, depth: nat)
    requires ns != []
    ensures PreorderAll(ns, parent, depth)
            == [Rec(ns[0].id, parent, depth, ns[0].text)]
               + PreorderAll(ns[0].replies, Some(ns[0].id), depth + 1) + PreorderAll(ns[1..], parent, depth)
  {
  }

  lemma {:induction false} PreorderSplit(a: seq<Node>, b: seq<Node>, parent: Option<int>, depth: nat)
    ensures PreorderAll(a + b, parent, depth) == PreorderAll(a, parent, depth) + PreorderAll(b, parent, depth)
  {
    hide Preorder;
    if a == [] {
      assert a + b == b;
    } else {
      PreorderSplit(a[1..], b, parent, depth);
      HeadAndTail(a, b);
      PreorderCons(a + b, parent, depth);
      PreorderCons(a, parent, depth);
      Regroup(Preorder(a[0], parent, depth), PreorderAll(a[1..], parent, depth), PreorderAll(b, parent, depth));
    }
  }

  ghost predicate HasId(recs: seq<Rec>, x: int) { exists r :: r in recs && r.id == x }

  /** Below the top level every record's parent is in the same block. */
  lemma {:induction false} ParentsInside(ns: seq<Node>, parent: Option<int>, depth: nat)
    ensures forall r :: r in PreorderAll(ns, parent, depth) && r.parentId != parent ==>
              r.parentId.Some? && HasId(PreorderAll(ns, parent, depth), r.parentId.value)
    decreases ns
  {
    if ns != [] {
      var n, block := ns[0], PreorderAll(ns, parent, depth);
      var below, rest := PreorderAll(n.replies, Some(n.id), depth + 1), PreorderAll(ns[1..], parent, depth);
      ParentsInside(n.replies, Some(n.id), depth + 1);
      ParentsInside(ns[1..], parent, depth);
      PreorderHead(ns, parent, depth);
      assert block[0] in block && block[0].id == n.id;
      forall r | r in block && r.parentId != parent ensures r.parentId.Some? && HasId(block, r.parentId.value) {
        if r in below && r.parentId != Some(n.id) {
          var q :| q in below && q.id == r.parentId.value;
          assert q in block;
        } else if r in rest {
          var q :| q in rest && q.id == r.parentId.value;
          assert q in block;
        }
      }
    }
  }
}
