/** The changes-only view of a virtual file: `_render_changes_only` (diffsearch/tools.py). */
module ChangesOnly {
  import opened Wrappers
  import opened SortedSets
  import opened VirtualFs

  /** One printed row: a `--` separator or the line at position L. */
  datatype Row = Separator | Line(L: int)

  predicate IsChanged(v: VirtualLine) { v.marker == '+' || v.marker == '-' }

  ghost predicate InWindow(meta: seq<VirtualLine>, before: int, after: int, c: int) {
    exists v :: v in meta && IsChanged(v) && v.L - before <= c <= v.L + after
  }

  /** The printed positions, top to bottom. */
  function Positions(rows: seq<Row>): seq<int> {
    if rows == [] then []
    else Positions(rows[..|rows| - 1]) + if rows[|rows| - 1].Line? then [rows[|rows| - 1].L] else []
  }

  /** A separator stands between two lines that are not adjacent, and nowhere else. */
  ghost predicate WellSeparated(rows: seq<Row>) {
    forall i :: 0 <= i < |rows| ==> Fits(rows, i)
  }

  ghost predicate Fits(rows: seq<Row>, i: nat)
    requires i < |rows|
  {
    if rows[i].Separator? then
      0 < i < |rows| - 1 && rows[i - 1].Line? && rows[i + 1].Line? && rows[i - 1].L + 1 < rows[i + 1].L
    else
      i > 0 && rows[i - 1].Line? ==> rows[i].L == rows[i - 1].L + 1
  }

  /** `before` and `after` come from the caller and may be negative. None stands for the "(no changes)" answer. */
  method RenderChangesOnly(meta: seq<VirtualLine>, before: int, after: int) returns (out: Option<seq<Row>>)
    ensures out.None? <==> forall v :: v in meta ==> v.marker != '+' && v.marker != '-'
    ensures out.Some? ==>
      && Ascending(Positions(out.value)) && WellSeparated(out.value)
      && forall c :: c in Positions(out.value) <==> 1 <= c <= |meta| && InWindow(meta, before, after, c)
  {
    var changed: set<int> := {};
    for i := 0 to |meta|
      invariant forall x :: x in changed <==> exists v :: v in meta[..i] && IsChanged(v) && v.L == x
    {
      assert meta[..i + 1] == meta[..i] + [meta[i]];
      if meta[i].marker == '+' || meta[i].marker == '-' {
        changed := changed + {meta[i].L};
      }
    }
    assert meta[..|meta|] == meta;
    if changed == {} {
      assert forall v :: v in meta && IsChanged(v) ==> v.L in changed;
      return None;
    }
    NonEmpty(changed);
    var show := Expand(changed, |meta|, before, after);
    forall c ensures c in show <==> 1 <= c <= |meta| && InWindow(meta, before, after, c) {
      if c in show {
        var x :| x in changed && x - before <= c <= x + after;
        var v :| v in meta && IsChanged(v) && v.L == x;
      }
      if 1 <= c <= |meta| && InWindow(meta, before, after, c) {
        var v :| v in meta && IsChanged(v) && v.L - before <= c <= v.L + after;
        assert v.L in changed;
      }
    }
    var order := Sorted(show);
    assert forall i :: 0 <= i < |order| ==> order[i] in order;
    var rows := Layout(order);
    out := Some(rows);
  }

  /** The positions within `before` lines above and `after` lines below a changed one. */
  method Expand(changed: set<int>, count: nat, before: int, after: int) returns (show: set<int>)
    ensures forall c :: c in show <==> 1 <= c <= count && exists x :: x in changed && x - before <= c <= x + after
  {
    show := {};
    var rest := changed;
    while rest != {}
      invariant rest <= changed
      invariant forall c :: c in show <==>
        1 <= c <= count && exists x :: x in changed && x !in rest && x - before <= c <= x + after
      decreases rest
    {
      NonEmpty(rest);
      var L :| L in rest;
      ghost var was := show;
      var offset := -before;
      while offset <= after
        invariant -before <= offset
        invariant forall c :: c in show <==>
          c in was || (1 <= c <= count && -before <= c - L < offset && c - L <= after)
        decreases after - offset
      {
        if 1 <= L + offset <= count {
          show := show + {L + offset};
        }
        offset := offset + 1;
      }
      forall c ensures c in show <==>
        1 <= c <= count && exists x :: x in changed && x !in rest - {L} && x - before <= c <= x + after
      {
        if c in was {
          var x :| x in changed && x !in rest && x - before <= c <= x + after;
          assert x !in rest - {L};
        }
      }
      rest := rest - {L};
    }
  }

  /** The printing loop over the sorted positions; `prev` is 0 before the first line. */
  method Layout(show: seq<int>) returns (rows: seq<Row>)
    requires Ascending(show) && forall i :: 0 <= i < |show| ==> 1 <= show[i]
    ensures Positions(rows) == show && WellSeparated(rows)
  {
    rows := [];
    var prev := 0;
    assert Positions(rows) == [] && WellSeparated(rows);
    hide Positions, WellSeparated;
    for i := 0 to |show|
      invariant Positions(rows) == show[..i] && WellSeparated(rows)
      invariant if i == 0 then prev == 0 && rows == []
                else prev == show[i - 1] && 1 <= prev && rows != [] && rows[|rows| - 1] == Line(prev)
    {
      var L := show[i];
      assert i > 0 ==> show[i - 1] < show[i];
      Extend(rows, prev, L);
      if prev != 0 && L > prev + 1 {
        rows := rows + [Separator];
      }
      rows := rows + [Line(L)];
      assert show[..i + 1] == show[..i] + [L];
      prev := L;
    }
    assert show[..|show|] == show;
  }

  lemma Extend(rows: seq<Row>, prev: int, L: int)
    requires WellSeparated(rows)
    requires if rows == [] then prev == 0 else prev != 0 && rows[|rows| - 1] == Line(prev) && prev < L
    ensures var mid := if prev != 0 && L > prev + 1 then rows + [Separator] else rows;
            WellSeparated(mid + [Line(L)]) && Positions(mid + [Line(L)]) == Positions(rows) + [L]
  {
    var mid := if prev != 0 && L > prev + 1 then rows + [Separator] else rows;
    var next := mid + [Line(L)];
    assert next[..|next| - 1] == mid;
    assert mid != rows ==> mid[..|mid| - 1] == rows;
    forall i | 0 <= i < |next| ensures Fits(next, i) {
      if i < |rows| {
        assert Fits(rows, i) && next[i] == rows[i];
        assert i + 1 < |rows| ==> next[i + 1] == rows[i + 1];
      }
    }
  }

  /** Every omitted line carries neither `+` nor `-` exactly when neither window bound
      is negative: a negative one hides the first or the last changed line. */
  lemma OmittedIsContext(meta: seq<VirtualLine>, before: int, after: int)
    requires forall i :: 0 <= i < |meta| ==> meta[i].L == i + 1
    requires exists v :: v in meta && (v.marker == '+' || v.marker == '-')
    ensures (forall c :: 1 <= c <= |meta| && !InWindow(meta, before, after, c) ==>
               meta[c - 1].marker != '+' && meta[c - 1].marker != '-')
            <==> 0 <= before && 0 <= after
  {
    assert exists v :: v in meta && IsChanged(v);
    if before < 0 {
      var v := First(meta);
      assert !InWindow(meta, before, after, v.L) && meta[v.L - 1] == v;
    } else if after < 0 {
      var v := Last(meta);
      assert !InWindow(meta, before, after, v.L) && meta[v.L - 1] == v;
    } else {
      forall c | 1 <= c <= |meta| && IsChanged(meta[c - 1]) ensures InWindow(meta, before, after, c) {
        assert meta[c - 1] in meta;
      }
    }
  }

  lemma {:induction false} First(meta: seq<VirtualLine>) returns (v: VirtualLine)
    requires exists v :: v in meta && IsChanged(v)
    ensures v in meta && IsChanged(v) && forall u :: u in meta && IsChanged(u) ==> v.L <= u.L
  {
    var w := meta[0];
    if exists u :: u in meta[1..] && IsChanged(u) {
      v := First(meta[1..]);
      if IsChanged(w) && w.L < v.L { v := w; }
    } else {
      v := w;
    }
    assert forall u :: u in meta ==> u == w || u in meta[1..];
  }

  lemma {:induction false} Last(meta: seq<VirtualLine>) returns (v: VirtualLine)
    requires exists v :: v in meta && IsChanged(v)
    ensures v in meta && IsChanged(v) && forall u :: u in meta && IsChanged(u) ==> u.L <= v.L
  {
    var w := meta[0];
    if exists u :: u in meta[1..] && IsChanged(u) {
      v := Last(meta[1..]);
      if IsChanged(w) && v.L < w.L { v := w; }
    } else {
      v := w;
    }
    assert forall u :: u in meta ==> u == w || u in meta[1..];
  }
}
