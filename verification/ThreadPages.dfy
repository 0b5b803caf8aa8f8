/** The pages of `pr_list_threads` (diffgraph/comment_tools.py), over the sorted thread summaries. */
module ThreadPages {
  import opened Wrappers

  /** Python's slice bound: negative ones count from the end. */
  function Bound(i: int, length: nat): nat {
    if i < 0 then (if i + length < 0 then 0 else i + length) else if i > length then length else i
  }

  function Slice<T>(s: seq<T>, from: int, to: int): seq<T> {
    var (a, b) := (Bound(from, |s|), Bound(to, |s|));
    if a < b then s[a..b] else []
  }

  /** One call: the page, and the `start` its hint names if there is more. An
      empty page gives no hint. */
  function Page<T>(s: seq<T>, start: int, n: int): (r: (seq<T>, Option<int>)) {
    var page := Slice(s, start, start + n);
    (page, if page != [] && start + |page| < |s| then Some(start + |page|) else None)
  }

  /** A negative bound counts from the end. */
  function FromEnd(i: int, length: nat): int { if i < 0 then i + length else i }

  predicate Inside(k: int, from: int, to: int) { from <= k < to }

  /** A page is the stretch of exactly the positions between its two bounds. */
  lemma PageShows<T>(s: seq<T>, start: int, n: int) returns (lo: nat, hi: nat)
    ensures lo <= hi <= |s| && Page(s, start, n).0 == s[lo..hi]
    ensures forall k :: 0 <= k < |s| ==>
              (Inside(k, lo, hi) <==> Inside(k, FromEnd(start, |s|), FromEnd(start + n, |s|)))
  {
    lo, hi := Bound(start, |s|), Bound(start + n, |s|);
    if lo >= hi {
      lo, hi := 0, 0;
      assert s[0..0] == [];
    }
  }

  /** All pages read by following the hints. */
  function Followed<T>(s: seq<T>, start: int, n: int): seq<T>
    decreases |s| - start
  {
    var (page, next) := Page(s, start, n);
    if next.None? then page else page + Followed(s, next.value, n)
  }

  lemma {:induction false} FollowedIsRest<T>(s: seq<T>, start: int, n: int)
    requires 0 <= start <= |s| && n >= 1
    ensures Followed(s, start, n) == s[start..]
    decreases |s| - start
  {
    if start + n < |s| {
      FollowedIsRest(s, start + n, n);
      assert s[start..] == s[start..start + n] + s[start + n..];
    } else {
      assert s[start..] == s[start..|s|];
    }
  }

  lemma {:induction false} FollowedMisses<T>(s: seq<T>, start: int, n: int)
    requires 0 <= start < |s| && n < 1
    ensures start + |Followed(s, start, n)| < |s|
    decreases |s| - start
  {
    var (page, next) := Page(s, start, n);
    if next.Some? {
      FollowedMisses(s, next.value, n);
    }
  }

  /** Following the hints from the start reads every thread once, in order,
      exactly for a positive page size: any other misses the last thread. */
  lemma HintsCover<T>(s: seq<T>, n: int)
    requires s != []
    ensures Followed(s, 0, n) == s <==> n >= 1
  {
    if n >= 1 {
      FollowedIsRest(s, 0, n);
    } else {
      FollowedMisses(s, 0, n);
    }
  }
}
