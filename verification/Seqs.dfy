/** Facts about concatenation, kept apart so that the proofs using them stay cheap. */
module Seqs {
  lemma HeadAndTail<T>(a: seq<T>, b: seq<T>)
    requires a != []
    ensures (a + b)[0] == a[0] && (a + b)[1..] == a[1..] + b
  {
  }

  lemma FrontAndLast<T>(a: seq<T>, b: seq<T>)
    requires b != []
    ensures (a + b)[|a + b| - 1] == b[|b| - 1] && (a + b)[..|a + b| - 1] == a + b[..|b| - 1]
  {
  }

  lemma Regroup<T>(a: seq<T>, b: seq<T>, c: seq<T>)
    ensures a + (b + c) == (a + b) + c
  {
  }

  // --------------------------------------------------- picking out of a sequence

  /** `out` consists of the elements of `all` at the positions `at`, which are all positions of elements to keep. */
  ghost predicate PickedAt<T(!new)>(out: seq<T>, all: seq<T>, keep: T -> bool, at: seq<nat>) {
    && |at| == |out|
    && (forall i, j :: 0 <= i < j < |at| ==> at[i] < at[j])
    && (forall i :: 0 <= i < |at| ==> at[i] < |all| && out[i] == all[at[i]])
    && (forall k: nat :: k < |all| ==> (keep(all[k]) <==> k in at))
  }

  /** `out` is what is left of `all` when only the elements to keep are taken, in order,
      each as often as it stands there. */
  ghost predicate Picked<T(!new)>(out: seq<T>, all: seq<T>, keep: T -> bool) {
    exists at: seq<nat> :: PickedAt(out, all, keep, at)
  }

  lemma PickedNone<T(!new)>(keep: T -> bool)
    ensures Picked([], [], keep)
  {
    var at: seq<nat> := [];
    assert PickedAt([], [], keep, at);
  }

  lemma PickedNext<T(!new)>(out: seq<T>, all: seq<T>, keep: T -> bool, x: T)
    requires Picked(out, all, keep)
    ensures Picked(if keep(x) then out + [x] else out, all + [x], keep)
  {
    hide PickedAt;
    var at: seq<nat> :| PickedAt(out, all, keep, at);
    if keep(x) {
      PickedMore(out, all, keep, at, x);
      assert PickedAt(out + [x], all + [x], keep, at + [|all|]);
    } else {
      PickedSame(out, all, keep, at, x);
    }
  }

  lemma PickedMore<T(!new)>(out: seq<T>, all: seq<T>, keep: T -> bool, at: seq<nat>, x: T)
    requires PickedAt(out, all, keep, at) && keep(x)
    ensures PickedAt(out + [x], all + [x], keep, at + [|all|])
  {
    forall i | 0 <= i < |at| ensures at[i] in at {
    }
    forall k: nat | k < |all| ensures k in at + [|all|] <==> k in at {
    }
    assert (at + [|all|])[|at|] == |all|;
  }

  lemma PickedSame<T(!new)>(out: seq<T>, all: seq<T>, keep: T -> bool, at: seq<nat>, x: T)
    requires PickedAt(out, all, keep, at) && !keep(x)
    ensures PickedAt(out, all + [x], keep, at)
  {
    forall i | 0 <= i < |at| ensures at[i] in at && at[i] < |all| {
    }
  }

  /** What is picked has exactly the elements to keep, each as often as before. */
  lemma PickedMembers<T(!new)>(out: seq<T>, all: seq<T>, keep: T -> bool)
    requires Picked(out, all, keep)
    ensures forall x :: x in out <==> x in all && keep(x)
  {
    var at: seq<nat> :| PickedAt(out, all, keep, at);
    forall x | x in all && keep(x) ensures x in out {
      var k: nat :| k < |all| && all[k] == x;
      var i :| 0 <= i < |at| && at[i] == k;
      assert out[i] == x;
    }
    forall x | x in out ensures x in all && keep(x) {
      var i :| 0 <= i < |out| && out[i] == x;
      assert at[i] in at;
    }
  }
}
