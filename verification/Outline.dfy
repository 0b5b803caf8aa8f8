/**
 The outline of a changed file (diffsearch/outline.py): two passes over the
 blanked lines, and the recursive merge of the two symbol trees. The symbol
 trees themselves come from tree-sitter and may be anything.
 */
module Outline {
  import opened Wrappers
  import opened Seqs
  import opened EditScript
  import opened VirtualFs
  import opened Coordinates
  import DiffRoundTrip

  datatype Symbol = Symbol(kind: string, name: string, start: int, end: int, children: seq<Symbol>)

  datatype Range = Range(start: int, end: int)

  /** `lOld` and `lNew` are L ranges; `old_` and `new_` their ends as line numbers of that side. */
  datatype MergedSymbol = MergedSymbol(
    kind: string, name: string, lOld: Option<Range>, lNew: Option<Range>,
    old_: (Option<int>, Option<int>), new_: (Option<int>, Option<int>), changed: bool, children: seq<MergedSymbol>)

  // ------------------------------------------------------------ the two passes

  function Hidden(w: Which): char { if w == Old then '+' else '-' }

  /** The lines parsed for one side: those of the other side are emptied. */
  function Blanked(meta: seq<VirtualLine>, lines: seq<string>, w: Which): (r: seq<string>)
    requires |lines| <= |meta|
    ensures |r| == |lines|
  {
    seq(|lines|, i requires 0 <= i < |lines| => if meta[i].marker == Hidden(w) then "" else lines[i])
  }

  /** What is left when the emptied positions are taken out. */
  function Remaining(meta: seq<VirtualLine>, lines: seq<string>, w: Which): seq<string>
    requires |lines| == |meta|
  {
    if meta == [] then []
    else (if meta[0].marker == Hidden(w) then [] else [lines[0]]) + Remaining(meta[1..], lines[1..], w)
  }

  function Contents(meta: seq<VirtualLine>): (r: seq<string>)
    ensures |r| == |meta|
  {
    seq(|meta|, i requires 0 <= i < |meta| => meta[i].content)
  }

  function LTo(meta: seq<VirtualLine>, L: int, w: Which): Option<int> {
    if 1 <= L <= |meta| then NumberOn(meta[L - 1], w) else None
  }

  lemma NumberedCons(s: Script, L: int, o: int, n: int)
    requires s != []
    ensures Numbered(s, L, o, n)
            == [LineOf(s[0].op, s[0].text, L, o, n)]
               + Numbered(s[1..], L + 1, Bump(s[0].op, Add, o), Bump(s[0].op, Delete, n))
  {
  }

  lemma SideCons(s: Script, other: Op)
    requires s != []
    ensures Side(s, other) == (if s[0].op == other then [] else [s[0].text]) + Side(s[1..], other)
  {
  }

  lemma {:induction false} BlankedRemains(s: Script, L: int, o: int, n: int, w: Which)
    ensures var meta := Numbered(s, L, o, n);
            Remaining(meta, Blanked(meta, Contents(meta), w), w) == Side(s, SideWithout(w))
  {
    hide Numbered, Side;
    var meta := Numbered(s, L, o, n);
    if s == [] {
      NothingLeft(L, o, n, w);
    } else {
      var o', n' := Bump(s[0].op, Add, o), Bump(s[0].op, Delete, n);
      var rest := Numbered(s[1..], L + 1, o', n');
      BlankedRemains(s[1..], L + 1, o', n', w);
      NumberedCons(s, L, o, n);
      SideCons(s, SideWithout(w));
      assert meta[0] == LineOf(s[0].op, s[0].text, L, o, n) && meta[1..] == rest;
      assert Blanked(meta, Contents(meta), w)[1..] == Blanked(rest, Contents(rest), w);
    }
  }

  lemma NothingLeft(L: int, o: int, n: int, w: Which)
    ensures var meta := Numbered([], L, o, n);
            Remaining(meta, Blanked(meta, Contents(meta), w), w) == Side([], SideWithout(w)) == []
  {
  }

  /** Each pass sees every line of its side at its L, and the real line number
      given for an L is the number of that line in the side's own file. */
  lemma PassSeesSide(s: Script, w: Which, L: int)
    requires 1 <= L <= |s|
    ensures var meta := Numbered(s, 0, Start(Base(s)) - 1, Start(Source(s)) - 1);
            |meta| == |s| && (LTo(meta, L, w).Some? <==> meta[L - 1].marker != Hidden(w))
    ensures var meta := Numbered(s, 0, Start(Base(s)) - 1, Start(Source(s)) - 1);
            var (side, lines) := (Side(s, SideWithout(w)), Blanked(meta, Contents(meta), w));
            match LTo(meta, L, w)
            case None => lines[L - 1] == ""
            case Some(k) => 1 <= k <= |side| && side[k - 1] == lines[L - 1]
  {
    var i := L - 1;
    LineAt(s, 0, Start(Base(s)) - 1, Start(Source(s)) - 1, i);
    if s[i].op != SideWithout(w) {
      SideAt(s, i, SideWithout(w));
    }
  }

  /** A line of a side stands after the lines of that side above it. */
  lemma SideAt(s: Script, i: nat, other: Op)
    requires i < |s| && s[i].op != other
    ensures var k := |Side(s[..i], other)|;
            k < |Side(s, other)| && Side(s, other)[k] == s[i].text
  {
    assert s == s[..i] + s[i..];
    SideAppend(s[..i], s[i..], other);
    assert s[i..][0] == s[i];
  }

  // ------------------------------------------------------------------ the merge

  /** `{s.name: s for s in syms}.get(name)`: the last symbol of that name. */
  function ByName(syms: seq<Symbol>, name: string): Option<Symbol> {
    if syms == [] then None
    else if syms[|syms| - 1].name == name then Some(syms[|syms| - 1])
    else ByName(syms[..|syms| - 1], name)
  }

  function Names(syms: seq<Symbol>): (r: seq<string>)
    ensures |r| == |syms|
  {
    seq(|syms|, i requires 0 <= i < |syms| => syms[i].name)
  }

  /** `list(dict.fromkeys(names))`. */
  function Distinct(names: seq<string>): seq<string> {
    if names == [] then []
    else
      var before := Distinct(names[..|names| - 1]);
      if names[|names| - 1] in before then before else before + [names[|names| - 1]]
  }

  function AllNames(olds: seq<Symbol>, news: seq<Symbol>): seq<string> { Distinct(Names(olds) + Names(news)) }

  function RangeOf(s: Option<Symbol>): Option<Range> {
    match s case None => None case Some(x) => Some(Range(x.start, x.end))
  }

  function Ends(meta: seq<VirtualLine>, s: Option<Symbol>, w: Which): (Option<int>, Option<int>) {
    match s case None => (None, None) case Some(x) => (LTo(meta, x.start, w), LTo(meta, x.end, w))
  }

  function ChildrenOf(s: Option<Symbol>): seq<Symbol> {
    match s case None => [] case Some(x) => x.children
  }

  /** `L` lies between the first and the last line of either range. */
  predicate InHull(m: MergedSymbol, L: int) {
    match (m.lOld, m.lNew)
    case (None, None) => false
    case (Some(r), None) => r.start <= L <= r.end
    case (None, Some(r)) => r.start <= L <= r.end
    case (Some(r), Some(q)) => (r.start <= L || q.start <= L) && (L <= r.end || L <= q.end)
  }

  ghost predicate MergesOne(m: MergedSymbol, name: string, o: Option<Symbol>, n: Option<Symbol>,
                            meta: seq<VirtualLine>, changedLs: set<int>)
    decreases m, 0
  {
    && m.name == name && (o.Some? || n.Some?)
    && m.kind == (if n.Some? then n.value.kind else o.value.kind)
    && m.lOld == RangeOf(o) && m.lNew == RangeOf(n)
    && m.old_ == Ends(meta, o, Old) && m.new_ == Ends(meta, n, New)
    && (m.changed <==> exists L :: L in changedLs && InHull(m, L))
    && Merges(m.children, ChildrenOf(o), ChildrenOf(n), meta, changedLs)
  }

  /** One entry per name, in order of first appearance, each with the last
      symbol of that name on either side; and so on for the children. */
  ghost predicate Merges(merged: seq<MergedSymbol>, olds: seq<Symbol>, news: seq<Symbol>,
                         meta: seq<VirtualLine>, changedLs: set<int>)
    decreases merged, 1
  {
    var names := AllNames(olds, news);
    && |merged| == |names|
    && forall i :: 0 <= i < |merged| ==>
         MergesOne(merged[i], names[i], ByName(olds, names[i]), ByName(news, names[i]), meta, changedLs)
  }

  function Weight(syms: seq<Symbol>): nat
    decreases syms
  {
    if syms == [] then 0
    else
      var last := syms[|syms| - 1];
      Weight(syms[..|syms| - 1]) + 1 + Weight(last.children)
  }

  lemma {:induction false} ByNameLighter(syms: seq<Symbol>, name: string)
    ensures var s := ByName(syms, name);
            && Weight(ChildrenOf(s)) <= Weight(syms)
            && (s.Some? ==> s.value.name == name && Weight(ChildrenOf(s)) < Weight(syms))
    ensures name in Names(syms) ==> ByName(syms, name).Some?
  {
    if syms != [] {
      var front, last := syms[..|syms| - 1], syms[|syms| - 1];
      ByNameLighter(front, name);
      assert Names(syms) == Names(front) + [last.name];
    }
  }

  method MergeSymbols(olds: seq<Symbol>, news: seq<Symbol>, meta: seq<VirtualLine>, changedLs: set<int>)
    returns (merged: seq<MergedSymbol>)
    ensures Merges(merged, olds, news, meta, changedLs)
    decreases Weight(olds) + Weight(news)
  {
    hide ByName, Distinct, Weight;
    var names := AllNames(olds, news);
    DistinctNames(Names(olds) + Names(news));
    merged := [];
    for i := 0 to |names|
      invariant |merged| == i
      invariant forall j :: 0 <= j < i ==>
        MergesOne(merged[j], names[j], ByName(olds, names[j]), ByName(news, names[j]), meta, changedLs)
    {
      var name := names[i];
      assert name in names;
      ByNameLighter(olds, name);
      ByNameLighter(news, name);
      var o, n := ByName(olds, name), ByName(news, name);
      var ms := MergedSymbol(if n.Some? then n.value.kind else o.value.kind, name, None, None, (None, None),
                             (None, None),
                             false, []);
      if o.Some? {
        ms := ms.(lOld := Some(Range(o.value.start, o.value.end)),
                  old_ := (LTo(meta, o.value.start, Old), LTo(meta, o.value.end, Old)));
      }
      if n.Some? {
        ms := ms.(lNew := Some(Range(n.value.start, n.value.end)),
                  new_ := (LTo(meta, n.value.start, New), LTo(meta, n.value.end, New)));
      }
      var (start, end) := FullRange(ms);
      ms := ms.(changed := exists L | start <= L <= end :: L in changedLs);
      var children := [];
      if (o.Some? && o.value.children != []) || (n.Some? && n.value.children != []) {
        children := MergeSymbols(if o.Some? then o.value.children else [], if n.Some? then n.value.children else [],
                                 meta, changedLs);
      } else {
        NothingToMerge(meta, changedLs);
      }
      ms := ms.(children := children);
      merged := merged + [ms];
    }
  }

  /** `min` of the starts and `max` of the ends present. */
  function FullRange(m: MergedSymbol): (r: (int, int))
    requires m.lOld.Some? || m.lNew.Some?
    ensures forall L :: InHull(m, L) <==> r.0 <= L <= r.1
  {
    match (m.lOld, m.lNew)
    case (Some(r), None) => (r.start, r.end)
    case (None, Some(r)) => (r.start, r.end)
    case (Some(r), Some(q)) =>
      (if r.start <= q.start then r.start else q.start, if r.end >= q.end then r.end else q.end)
  }

  lemma NothingToMerge(meta: seq<VirtualLine>, changedLs: set<int>)
    ensures Merges([], [], [], meta, changedLs)
  {
    assert Names([]) + Names([]) == [];
  }

  // ---------------------------------------------------------- what a merge says

  function FirstIndex(names: seq<string>, name: string): (i: nat)
    requires name in names
    ensures i < |names| && names[i] == name && name !in names[..i]
  {
    if names[0] == name then 0
    else
      var i := 1 + FirstIndex(names[1..], name);
      assert names[..i] == [names[0]] + names[1..][..i - 1];
      i
  }

  lemma {:induction false} FirstIndexStays(names: seq<string>, more: seq<string>, name: string)
    requires name in names && names <= more
    ensures FirstIndex(more, name) == FirstIndex(names, name)
  {
    if names[0] != name {
      FirstIndexStays(names[1..], more[1..], name);
    }
  }

  lemma {:induction false} FirstIndexNew(names: seq<string>, name: string)
    requires name !in names
    ensures FirstIndex(names + [name], name) == |names|
  {
    if names != [] {
      HeadAndTail(names, [name]);
      FirstIndexNew(names[1..], name);
    }
  }

  /** Every name once, in order of first appearance. */
  lemma {:induction false} DistinctNames(names: seq<string>)
    ensures forall x :: x in Distinct(names) <==> x in names
    ensures forall i, j :: 0 <= i < j < |Distinct(names)| ==>
              FirstIndex(names, Distinct(names)[i]) < FirstIndex(names, Distinct(names)[j])
  {
    if names != [] {
      var before, last := names[..|names| - 1], names[|names| - 1];
      var was, now := Distinct(before), Distinct(names);
      DistinctNames(before);
      assert names == before + [last];
      forall i, j | 0 <= i < j < |now| ensures FirstIndex(names, now[i]) < FirstIndex(names, now[j]) {
        FirstIndexStays(before, names, now[i]);
        if j < |was| {
          FirstIndexStays(before, names, now[j]);
        } else {
          FirstIndexNew(before, last);
        }
      }
    }
  }

  /** `k` is the last symbol of that name. */
  ghost predicate LastNamed(syms: seq<Symbol>, name: string, k: nat) {
    k < |syms| && syms[k].name == name && forall j :: k < j < |syms| ==> syms[j].name != name
  }

  ghost predicate HasName(syms: seq<Symbol>, name: string) { exists k: nat :: k < |syms| && syms[k].name == name }

  lemma {:induction false} ByNameIsLast(syms: seq<Symbol>, name: string)
    ensures ByName(syms, name).Some? <==> HasName(syms, name)
    ensures forall k: nat :: LastNamed(syms, name, k) ==> ByName(syms, name) == Some(syms[k])
    ensures HasName(syms, name) ==> exists k: nat :: LastNamed(syms, name, k)
  {
    if syms != [] {
      var front, n := syms[..|syms| - 1], |syms| - 1;
      ByNameIsLast(front, name);
      if syms[n].name == name {
        assert LastNamed(syms, name, n);
      } else {
        forall k: nat ensures LastNamed(syms, name, k) <==> LastNamed(front, name, k) {
        }
        assert HasName(syms, name) ==> HasName(front, name);
      }
    }
  }

  /** The part of an entry that comes from one side: nothing if no symbol of that
      side has the name, otherwise the range of the last one that has it. */
  ghost predicate SideEntry(m: MergedSymbol, syms: seq<Symbol>, meta: seq<VirtualLine>, w: Which) {
    var range, ends := if w == Old then m.lOld else m.lNew, if w == Old then m.old_ else m.new_;
    && (range.Some? <==> HasName(syms, m.name))
    && (range.None? ==> ends == (None, None))
    && forall k: nat :: LastNamed(syms, m.name, k) ==>
         range == Some(Range(syms[k].start, syms[k].end))
         && ends == (LTo(meta, syms[k].start, w), LTo(meta, syms[k].end, w))
  }

  /** The children to merge: those of the last symbol of that name, none if there is no such symbol. */
  ghost predicate LastChildren(cs: seq<Symbol>, syms: seq<Symbol>, name: string) {
    && (!HasName(syms, name) ==> cs == [])
    && forall k: nat :: LastNamed(syms, name, k) ==> cs == syms[k].children
  }

  /** One of the entry's ranges starts at or before `L`, and one ends at or after it. */
  predicate Spans(m: MergedSymbol, L: int) {
    && ((m.lOld.Some? && m.lOld.value.start <= L) || (m.lNew.Some? && m.lNew.value.start <= L))
    && ((m.lOld.Some? && L <= m.lOld.value.end) || (m.lNew.Some? && L <= m.lNew.value.end))
  }

  /** What an entry of the merge says, for each side the last symbol of its name:
      range, ends as line numbers, kind (of the new symbol if there is one),
      children, and whether a changed L lies between the first start and the last end. */
  lemma EntrySays(merged: seq<MergedSymbol>, olds: seq<Symbol>, news: seq<Symbol>,
                  meta: seq<VirtualLine>, changedLs: set<int>, i: nat)
    requires Merges(merged, olds, news, meta, changedLs) && i < |merged|
    ensures var m := merged[i];
            && SideEntry(m, olds, meta, Old) && SideEntry(m, news, meta, New)
            && (forall k: nat :: LastNamed(news, m.name, k) ==> m.kind == news[k].kind)
            && (!HasName(news, m.name) ==> forall k: nat :: LastNamed(olds, m.name, k) ==> m.kind == olds[k].kind)
            && (m.changed <==> exists L :: L in changedLs && Spans(m, L))
            && exists os, ns :: LastChildren(os, olds, m.name) && LastChildren(ns, news, m.name)
                                && Merges(m.children, os, ns, meta, changedLs)
  {
    hide ByName, AllNames;
    var name := AllNames(olds, news)[i];
    var m, o, n := merged[i], ByName(olds, name), ByName(news, name);
    assert MergesOne(m, name, o, n, meta, changedLs);
    ByNameIsLast(olds, name);
    ByNameIsLast(news, name);
    assert forall L :: InHull(m, L) <==> Spans(m, L);
    assert LastChildren(ChildrenOf(o), olds, name) && LastChildren(ChildrenOf(n), news, name);
  }

  /** Children lie within their parent's range, at every depth. */
  ghost predicate Nested(syms: seq<Symbol>)
    decreases syms
  {
    forall s :: s in syms ==>
      && (forall c :: c in s.children ==> s.start <= c.start && c.end <= s.end)
      && Nested(s.children)
  }

  ghost predicate ChangeReachesUp(merged: seq<MergedSymbol>)
    decreases merged
  {
    forall m :: m in merged ==> (forall c :: c in m.children && c.changed ==> m.changed) && ChangeReachesUp(m.children)
  }

  lemma {:induction false} ByNameIn(syms: seq<Symbol>, name: string)
    ensures ByName(syms, name).Some? ==> ByName(syms, name).value in syms
  {
    if syms != [] {
      ByNameIn(syms[..|syms| - 1], name);
    }
  }

  /** When symbols nest, a changed symbol makes everything around it changed. */
  lemma {:induction false} ChangesReachUp(merged: seq<MergedSymbol>, olds: seq<Symbol>, news: seq<Symbol>,
                                         meta: seq<VirtualLine>, changedLs: set<int>)
    requires Merges(merged, olds, news, meta, changedLs) && Nested(olds) && Nested(news)
    ensures ChangeReachesUp(merged)
    decreases merged
  {
    hide ByName, AllNames;
    var names := AllNames(olds, news);
    forall m | m in merged
      ensures (forall c :: c in m.children && c.changed ==> m.changed) && ChangeReachesUp(m.children)
    {
      var i :| 0 <= i < |merged| && merged[i] == m;
      var o, n := ByName(olds, names[i]), ByName(news, names[i]);
      assert MergesOne(m, names[i], o, n, meta, changedLs);
      ByNameIn(olds, names[i]);
      ByNameIn(news, names[i]);
      ChangesReachUp(m.children, ChildrenOf(o), ChildrenOf(n), meta, changedLs);
      forall c | c in m.children && c.changed ensures m.changed {
        ChildWithin(m, c, o, n, meta, changedLs);
      }
    }
  }

  lemma ChildWithin(m: MergedSymbol, c: MergedSymbol, o: Option<Symbol>, n: Option<Symbol>,
                    meta: seq<VirtualLine>, changedLs: set<int>)
    requires m.lOld == RangeOf(o) && m.lNew == RangeOf(n) && c in m.children
    requires Merges(m.children, ChildrenOf(o), ChildrenOf(n), meta, changedLs)
    requires forall x :: x in ChildrenOf(o) ==> o.value.start <= x.start && x.end <= o.value.end
    requires forall x :: x in ChildrenOf(n) ==> n.value.start <= x.start && x.end <= n.value.end
    ensures forall L :: InHull(c, L) ==> InHull(m, L)
    ensures c.changed <==> exists L :: L in changedLs && InHull(c, L)
  {
    hide ByName, AllNames;
    var names := AllNames(ChildrenOf(o), ChildrenOf(n));
    var i :| 0 <= i < |m.children| && m.children[i] == c;
    assert MergesOne(c, names[i], ByName(ChildrenOf(o), names[i]), ByName(ChildrenOf(n), names[i]), meta, changedLs);
    ByNameIn(ChildrenOf(o), names[i]);
    ByNameIn(ChildrenOf(n), names[i]);
  }

  function ChangedLs(meta: seq<VirtualLine>): set<int> { set v | v in meta && v.marker != ' ' :: v.L }

  /** `L` exists on both sides, with the same text in both passes. */
  predicate SharedLine(meta: seq<VirtualLine>, L: int)
    requires 1 <= L <= |meta|
  {
    && LTo(meta, L, Old).Some? && LTo(meta, L, New).Some?
    && Blanked(meta, Contents(meta), Old)[L - 1] == Blanked(meta, Contents(meta), New)[L - 1]
  }

  /** A merged symbol is unmarked exactly when every line of its hull is on both
      sides: its text is the same in the base and in the source file. */
  lemma UnchangedIsShared(s: Script, m: MergedSymbol, o: Option<Symbol>, n: Option<Symbol>, name: string)
    requires var meta := Numbered(s, 0, Start(Base(s)) - 1, Start(Source(s)) - 1);
             MergesOne(m, name, o, n, meta, ChangedLs(meta))
    ensures var meta := Numbered(s, 0, Start(Base(s)) - 1, Start(Source(s)) - 1);
            !m.changed <==> forall L :: 1 <= L <= |meta| && InHull(m, L) ==> SharedLine(meta, L)
  {
    var meta := Numbered(s, 0, Start(Base(s)) - 1, Start(Source(s)) - 1);
    hide Merges, Numbered, Blanked;
    forall L | 1 <= L <= |meta| ensures L in ChangedLs(meta) <==> !SharedLine(meta, L) {
      Shared(s, L);
    }
    forall L | L in ChangedLs(meta) ensures 1 <= L <= |meta| {
      ChangedWithin(s, L);
    }
  }

  lemma ChangedWithin(s: Script, L: int)
    requires L in ChangedLs(Numbered(s, 0, Start(Base(s)) - 1, Start(Source(s)) - 1))
    ensures 1 <= L <= |s| == |Numbered(s, 0, Start(Base(s)) - 1, Start(Source(s)) - 1)|
  {
    var meta := Numbered(s, 0, Start(Base(s)) - 1, Start(Source(s)) - 1);
    DiffRoundTrip.NumberedSpells(s, 0, Start(Base(s)) - 1, Start(Source(s)) - 1);
    var i :| 0 <= i < |meta| && meta[i].L == L;
    LineAt(s, 0, Start(Base(s)) - 1, Start(Source(s)) - 1, i);
  }

  lemma LineFacts(s: Script, i: nat)
    requires i < |s|
    ensures var meta := Numbered(s, 0, Start(Base(s)) - 1, Start(Source(s)) - 1);
            && |meta| == |s| && meta[i].L == i + 1
            && (meta[i].old_.Some? <==> meta[i].marker != '+') && (meta[i].new_.Some? <==> meta[i].marker != '-')
  {
    hide Numbered, Base, Source;
    LineAt(s, 0, Start(Base(s)) - 1, Start(Source(s)) - 1, i);
  }

  lemma Shared(s: Script, L: int)
    requires 1 <= L <= |Numbered(s, 0, Start(Base(s)) - 1, Start(Source(s)) - 1)|
    ensures var meta := Numbered(s, 0, Start(Base(s)) - 1, Start(Source(s)) - 1);
            && (L in ChangedLs(meta) <==> meta[L - 1].marker != ' ')
            && (SharedLine(meta, L) <==> meta[L - 1].marker == ' ')
  {
    hide Numbered, Base, Source, Start;
    var meta := Numbered(s, 0, Start(Base(s)) - 1, Start(Source(s)) - 1);
    DiffRoundTrip.NumberedSpells(s, 0, Start(Base(s)) - 1, Start(Source(s)) - 1);
    forall i | 0 <= i < |meta| ensures meta[i].L == i + 1 {
      LineFacts(s, i);
    }
    LineFacts(s, L - 1);
    assert meta[L - 1] in meta;
    assert meta[L - 1].marker in {' ', '-', '+'};
  }
}
