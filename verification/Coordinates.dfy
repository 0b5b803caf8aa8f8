/**
 The coordinates of a virtual file and the four dictionaries built from them
 (diffsearch/virtual_fs.py).
 */
module Coordinates {
  import opened Seqs
  import opened Wrappers
  import opened EditScript
  import opened VirtualFs
  import DiffRoundTrip

  datatype Which = Old | New

  function NumberOn(v: VirtualLine, w: Which): Option<int> {
    if w == Old then v.old_ else v.new_
  }

  /** (L, line number) of the lines that exist on one side, in file order. */
  function Pairs(lines: seq<VirtualLine>, w: Which): seq<(int, int)> {
    if lines == [] then []
    else Pairs(lines[..|lines| - 1], w)
         + match NumberOn(lines[|lines| - 1], w) case Some(k) => [(lines[|lines| - 1].L, k)] case None => []
  }

  function Swapped(pairs: seq<(int, int)>): seq<(int, int)> {
    seq(|pairs|, i requires 0 <= i < |pairs| => (pairs[i].1, pairs[i].0))
  }

  /** Python's dict assignment in order: a later entry overwrites an earlier one. */
  function Dict(pairs: seq<(int, int)>): map<int, int> {
    if pairs == [] then map[]
    else Dict(pairs[..|pairs| - 1])[pairs[|pairs| - 1].0 := pairs[|pairs| - 1].1]
  }

  class VirtualFile {
    const path: string
    const lines: seq<VirtualLine>
    var lToNew: map<int, int>
    var newToL: map<int, int>
    var lToOld: map<int, int>
    var oldToL: map<int, int>

    constructor (path: string, lines: seq<VirtualLine>)
      ensures this.path == path && this.lines == lines
      ensures lToNew == newToL == lToOld == oldToL == map[]
    {
      this.path := path;
      this.lines := lines;
      lToNew, newToL, lToOld, oldToL := map[], map[], map[], map[];
    }

    ghost predicate Indexed()
      reads this
    {
      && lToNew == Dict(Pairs(lines, New)) && newToL == Dict(Swapped(Pairs(lines, New)))
      && lToOld == Dict(Pairs(lines, Old)) && oldToL == Dict(Swapped(Pairs(lines, Old)))
    }

    method BuildMappings()
      modifies this
      ensures Indexed()
    {
      lToNew, newToL, lToOld, oldToL := map[], map[], map[], map[];
      for i := 0 to |lines|
        invariant lToNew == Dict(Pairs(lines[..i], New)) && newToL == Dict(Swapped(Pairs(lines[..i], New)))
        invariant lToOld == Dict(Pairs(lines[..i], Old)) && oldToL == Dict(Swapped(Pairs(lines[..i], Old)))
      {
        var line := lines[i];
        PairsStep(lines, i, New);
        PairsStep(lines, i, Old);
        if line.new_.Some? {
          lToNew := lToNew[line.L := line.new_.value];
          newToL := newToL[line.new_.value := line.L];
        }
        if line.old_.Some? {
          lToOld := lToOld[line.L := line.old_.value];
          oldToL := oldToL[line.old_.value := line.L];
        }
      }
      assert lines[..|lines|] == lines;
    }
  }

  lemma PairsStep(lines: seq<VirtualLine>, i: nat, w: Which)
    requires i < |lines|
    ensures var before, after := Pairs(lines[..i], w), Pairs(lines[..i + 1], w);
            var k := NumberOn(lines[i], w);
            && (k.None? ==> after == before)
            && (k.Some? ==> Dict(after) == Dict(before)[lines[i].L := k.value]
                            && Dict(Swapped(after)) == Dict(Swapped(before))[k.value := lines[i].L])
  {
    var before, after := Pairs(lines[..i], w), Pairs(lines[..i + 1], w);
    assert lines[..i + 1][..i] == lines[..i];
    if NumberOn(lines[i], w).Some? {
      assert after[..|after| - 1] == before;
      assert Swapped(after)[..|after| - 1] == Swapped(before);
    }
  }

  /** `git diff` printed nothing but white space. */
  predicate IsBlank(diff: seq<string>) {
    forall line :: line in diff ==> forall c :: c in line ==> c in {' ', '\t', '\r'}
  }

  /** The script of an unchanged file. */
  function Unchanged(text: seq<string>): (s: Script)
    ensures |s| == |text|
  {
    seq(|text|, i requires 0 <= i < |text| => Edit(Keep, text[i], false))
  }

  /** `content` is None when git cannot show the file or it is not text. */
  method BuildPlainFile(path: string, content: Option<seq<string>>) returns (vf: VirtualFile)
    ensures fresh(vf) && vf.path == path && vf.Indexed()
    ensures vf.lines == match content case None => [] case Some(text) => Numbered(Unchanged(text), 0, 0, 0)
    ensures content.Some? ==> PlainLines(vf.lines, content.value)
  {
    if content.None? {
      vf := new VirtualFile(path, []);
      return;
    }
    var text := content.value;
    var lines: seq<VirtualLine> := [];
    for i := 0 to |text|
      invariant lines == Numbered(Unchanged(text)[..i], 0, 0, 0)
    {
      lines := lines + [VirtualLine(text[i], ' ', i + 1, Some(i + 1), Some(i + 1))];
      UnchangedStep(text, i);
    }
    assert Unchanged(text)[..|text|] == Unchanged(text);
    PlainNumbered(text);
    vf := new VirtualFile(path, lines);
    vf.BuildMappings();
  }

  /** Every line of the text is there, without marker, with L = old = new counting from 1. */
  ghost predicate PlainLines(lines: seq<VirtualLine>, text: seq<string>) {
    |lines| == |text|
    && forall i :: 0 <= i < |text| ==> lines[i] == VirtualLine(text[i], ' ', i + 1, Some(i + 1), Some(i + 1))
  }

  lemma PlainNumbered(text: seq<string>)
    ensures PlainLines(Numbered(Unchanged(text), 0, 0, 0), text)
  {
    var s := Unchanged(text);
    DiffRoundTrip.NumberedSpells(s, 0, 0, 0);
    forall i | 0 <= i < |text|
      ensures Numbered(s, 0, 0, 0)[i] == VirtualLine(text[i], ' ', i + 1, Some(i + 1), Some(i + 1))
    {
      LineAt(s, 0, 0, 0, i);
      AllKept(s[..i]);
    }
  }

  lemma UnchangedStep(text: seq<string>, i: nat)
    requires i < |text|
    ensures var s := Unchanged(text);
            Numbered(s[..i + 1], 0, 0, 0)
            == Numbered(s[..i], 0, 0, 0) + [VirtualLine(text[i], ' ', i + 1, Some(i + 1), Some(i + 1))]
  {
    var s := Unchanged(text);
    assert s[..i + 1] == s[..i] + [s[i]];
    NumberedAppend(s[..i], [s[i]], 0, 0, 0);
    AllKept(s[..i]);
  }

  lemma {:induction false} AllKept(s: Script)
    requires forall e :: e in s ==> e.op == Keep
    ensures |Base(s)| == |s| == |Source(s)|
  {
    if s != [] {
      AllKept(s[1..]);
    }
  }

  lemma {:induction false} NumberedAppend(s: Script, t: Script, L: int, o: int, n: int)
    ensures Numbered(s + t, L, o, n) == Numbered(s, L, o, n) + Numbered(t, L + |s|, o + |Base(s)|, n + |Source(s)|)
  {
    if s == [] {
      assert s + t == t;
    } else {
      var o', n' := Bump(s[0].op, Add, o), Bump(s[0].op, Delete, n);
      var rest := Numbered(t, L + |s|, o + |Base(s)|, n + |Source(s)|);
      NumberedAppend(s[1..], t, L + 1, o', n');
      HeadAndTail(s, t);
      Regroup([LineOf(s[0].op, s[0].text, L, o, n)], Numbered(s[1..], L + 1, o', n'), rest);
    }
  }

  method BuildVirtualFile(path: string, diff: seq<string>, content: Option<seq<string>>) returns (vf: VirtualFile)
    ensures fresh(vf) && vf.path == path && vf.Indexed()
    ensures !IsBlank(diff) ==> vf.lines == Parsed(diff)
    ensures IsBlank(diff) && content.Some? ==> vf.lines == Numbered(Unchanged(content.value), 0, 0, 0)
    ensures (forall line :: line in diff ==> forall c :: c in line ==> c == ' ' || c == '\t' || c == '\r') ==>
              if content.None? then vf.lines == [] else PlainLines(vf.lines, content.value)
    ensures (exists line, c :: line in diff && c in line && c != ' ' && c != '\t' && c != '\r') ==>
              vf.lines == Parsed(diff)
    ensures IsBlank(diff) && content.None? ==> vf.lines == []
  {
    if IsBlank(diff) {
      vf := BuildPlainFile(path, content);
    } else {
      var lines := ParseLines(diff);
      vf := new VirtualFile(path, lines);
      vf.BuildMappings();
    }
  }

  // ------------------------------------------------------------- any diff text

  /** L runs without gaps from above `L`, every line has one of the three
      markers, and the marker says which line numbers exist. */
  ghost predicate WellShaped(lines: seq<VirtualLine>, L: int) {
    forall i :: 0 <= i < |lines| ==>
      && lines[i].L == L + i + 1
      && lines[i].marker in {' ', '-', '+'}
      && (lines[i].old_.None? <==> lines[i].marker == '+')
      && (lines[i].new_.None? <==> lines[i].marker == '-')
  }

  /** Whatever text is parsed, as a diff or not. */
  lemma {:induction false} AnyDiff(diff: seq<string>, inHunk: bool, L: int, o: int, n: int)
    ensures WellShaped(Lines(diff, inHunk, L, o, n), L)
  {
    hide Read;
    if diff != [] {
      var r := Read(diff[0]);
      if r.Header? {
        AnyDiff(diff[1..], true, L, r.oldStart - 1, r.newStart - 1);
      } else if r.Body? && inHunk {
        AnyDiff(diff[1..], inHunk, L + 1, Bump(r.op, Add, o), Bump(r.op, Delete, n));
      } else {
        AnyDiff(diff[1..], inHunk, L, o, n);
      }
    }
  }

  // ----------------------------------------------------------- full-file diffs

  /** Where each line of a numbered script stands. */
  lemma LineAt(s: Script, L: int, o: int, n: int, i: nat)
    requires i < |s|
    ensures |Numbered(s, L, o, n)| == |s|
    ensures Numbered(s, L, o, n)[i] == LineOf(s[i].op, s[i].text, L + i, o + |Base(s[..i])|, n + |Source(s[..i])|)
  {
    DiffRoundTrip.NumberedSpells(s, L, o, n);
    DiffRoundTrip.NumberedSpells(s[..i], L, o, n);
    assert s == s[..i] + s[i..];
    NumberedAppend(s[..i], s[i..], L, o, n);
  }

  /** L of a line is its old number plus the added lines above it, and its new
      number plus the deleted lines above it. */
  lemma Offsets(s: Script, i: nat)
    requires i < |s|
    ensures var o, n := Start(Base(s)) - 1, Start(Source(s)) - 1;
            |Numbered(s, 0, o, n)| == |s|
    ensures var v := Numbered(s, 0, Start(Base(s)) - 1, Start(Source(s)) - 1)[i];
            && v.L == i + 1
            && (v.old_.Some? ==> v.L == v.old_.value + Count(s[..i], Add))
            && (v.new_.Some? ==> v.L == v.new_.value + Count(s[..i], Delete))
  {
    LineAt(s, 0, Start(Base(s)) - 1, Start(Source(s)) - 1, i);
    SidesCount(s[..i]);
    assert s == s[..i] + s[i..];
    SideAppend(s[..i], s[i..], Add);
    SideAppend(s[..i], s[i..], Delete);
    assert s[i..][0] == s[i];
  }

  function SideWithout(w: Which): Op { if w == Old then Add else Delete }

  function From(w: Which, o: int, n: int): int { if w == Old then o else n }

  lemma {:induction false} PairsAppend(a: seq<VirtualLine>, b: seq<VirtualLine>, w: Which)
    ensures Pairs(a + b, w) == Pairs(a, w) + Pairs(b, w)
  {
    if b == [] {
      assert a + b == a;
    } else {
      PairsAppend(a, b[..|b| - 1], w);
      assert (a + b)[..|a + b| - 1] == a + b[..|b| - 1];
    }
  }

  lemma PairsOfOne(line: VirtualLine, w: Which)
    ensures Pairs([line], w) == match NumberOn(line, w) case None => [] case Some(k) => [(line.L, k)]
  {
    assert [line][..0] == [];
  }

  /** Numbers count up from `from` without gap while L grows from above `L`. */
  ghost predicate CountsUp(p: seq<(int, int)>, L: int, from: int) {
    && (forall k :: 0 <= k < |p| ==> p[k].1 == from + k + 1 && L < p[k].0)
    && (forall j, k :: 0 <= j < k < |p| ==> p[j].0 < p[k].0)
  }

  /** One entry per line of that side's file, in order, without gap or repetition. */
  lemma {:induction false} PairsOfNumbered(s: Script, L: int, o: int, n: int, w: Which)
    ensures var p := Pairs(Numbered(s, L, o, n), w);
            |p| == |Side(s, SideWithout(w))| && CountsUp(p, L, From(w, o, n))
  {
    if s != [] {
      var e := s[0];
      var o', n' := Bump(e.op, Add, o), Bump(e.op, Delete, n);
      var first := LineOf(e.op, e.text, L, o, n);
      var rest := Numbered(s[1..], L + 1, o', n');
      PairsOfNumbered(s[1..], L + 1, o', n', w);
      PairsAppend([first], rest, w);
      PairsOfOne(first, w);
      if e.op != SideWithout(w) {
        assert From(w, o', n') == From(w, o, n) + 1;
        CountsUpCons((L + 1, From(w, o, n) + 1), Pairs(rest, w), L, From(w, o, n));
      }
    }
  }

  lemma CountsUpCons(first: (int, int), p: seq<(int, int)>, L: int, from: int)
    requires first == (L + 1, from + 1) && CountsUp(p, L + 1, from + 1)
    ensures CountsUp([first] + p, L, from)
  {
  }

  ghost predicate Increasing(m: map<int, int>) {
    forall a, b :: a in m && b in m && a < b ==> m[a] < m[b]
  }

  ghost predicate Inverse(m: map<int, int>, r: map<int, int>) {
    (forall a :: a in m ==> m[a] in r && r[m[a]] == a) && (forall b :: b in r ==> r[b] in m && m[r[b]] == b)
  }

  ghost predicate Tabulates(m: map<int, int>, p: seq<(int, int)>) {
    && |m| == |p|
    && (forall k :: 0 <= k < |p| ==> p[k].0 in m && m[p[k].0] == p[k].1)
    && (forall a :: a in m ==> exists k :: 0 <= k < |p| && p[k].0 == a)
  }

  ghost predicate LastWith(p: seq<(int, int)>, a: int, k: nat) {
    k < |p| && p[k].0 == a && forall j :: k < j < |p| ==> p[j].0 != a
  }

  ghost predicate HasKey(p: seq<(int, int)>, a: int) { exists k: nat :: k < |p| && p[k].0 == a }

  lemma LastWithNext(p: seq<(int, int)>, a: int)
    requires p != []
    ensures var q, n := p[..|p| - 1], |p| - 1;
            if p[n].0 == a then forall k: nat :: LastWith(p, a, k) ==> k == n
            else forall k: nat :: LastWith(p, a, k) ==> LastWith(q, a, k) && q[k] == p[k]
  {
  }

  lemma HasKeyNext(p: seq<(int, int)>, a: int)
    requires p != []
    ensures HasKey(p, a) <==> HasKey(p[..|p| - 1], a) || p[|p| - 1].0 == a
  {
    if HasKey(p[..|p| - 1], a) {
      var k: nat :| k < |p| - 1 && p[..|p| - 1][k].0 == a;
      assert p[k].0 == a;
    }
  }

  lemma LastWithKnown(p: seq<(int, int)>, a: int)
    ensures forall k: nat :: LastWith(p, a, k) ==> k < |p| && HasKey(p, a)
  {
  }

  /** On any pairs a dictionary has exactly their keys, each with the value of the last pair that has it. */
  lemma {:induction false} DictOfAny(p: seq<(int, int)>, a: int)
    ensures a in Dict(p) <==> HasKey(p, a)
    ensures forall k: nat :: LastWith(p, a, k) ==> a in Dict(p) && Dict(p)[a] == p[k].1
  {
    hide LastWith, HasKey;
    LastWithKnown(p, a);
    if p != [] {
      DictOfAny(p[..|p| - 1], a);
      LastWithNext(p, a);
      HasKeyNext(p, a);
      DictNext(p, a);
    } else {
      NoKeys(a);
    }
  }

  lemma NoKeys(a: int)
    ensures !HasKey([], a)
  {
  }

  lemma DictNext(p: seq<(int, int)>, a: int)
    requires p != []
    ensures var last, before := p[|p| - 1], Dict(p[..|p| - 1]);
            if last.0 == a then a in Dict(p) && Dict(p)[a] == last.1
            else (a in Dict(p) <==> a in before) && (a in before ==> Dict(p)[a] == before[a])
  {
  }

  /** No entry is overwritten when the keys grow. */
  lemma {:induction false} DictOfIncreasing(p: seq<(int, int)>)
    requires forall j, k :: 0 <= j < k < |p| ==> p[j].0 < p[k].0
    ensures Tabulates(Dict(p), p)
  {
    if p != [] {
      var q := p[..|p| - 1];
      DictOfIncreasing(q);
      DictExtends(Dict(q), q, p[|p| - 1]);
      assert p == q + [p[|p| - 1]];
    }
  }

  lemma NewKey(m: map<int, int>, key: int, value: int)
    requires key !in m
    ensures |m[key := value]| == |m| + 1
  {
    var r := m[key := value];
    assert r.Keys == m.Keys + {key};
    assert |r| == |r.Keys|;
    assert |m| == |m.Keys|;
  }

  lemma DictExtends(m: map<int, int>, q: seq<(int, int)>, last: (int, int))
    requires Tabulates(m, q)
    requires forall k :: 0 <= k < |q| ==> q[k].0 < last.0
    ensures Tabulates(m[last.0 := last.1], q + [last])
  {
    var p, r := q + [last], m[last.0 := last.1];
    NewKey(m, last.0, last.1);
    forall k | 0 <= k < |p| ensures p[k].0 in r && r[p[k].0] == p[k].1 {
      if k < |q| {
        assert p[k] == q[k] && q[k].0 < last.0;
      }
    }
    forall a | a in r ensures exists k :: 0 <= k < |p| && p[k].0 == a {
      if a in m {
        var k :| 0 <= k < |q| && q[k].0 == a;
        assert p[k].0 == a;
      } else {
        assert p[|q|].0 == a;
      }
    }
  }

  /** The four dictionaries of a full-file diff: on each side one entry per
      line of that file, the numbers being 1 to its length, both directions
      strictly increasing and inverse to each other. */
  lemma Dictionaries(s: Script, w: Which)
    ensures var lines := Numbered(s, 0, Start(Base(s)) - 1, Start(Source(s)) - 1);
            var side := Side(s, SideWithout(w));
            var to, back := Dict(Pairs(lines, w)), Dict(Swapped(Pairs(lines, w)));
            && |to| == |side| == |back|
            && (forall k :: k in back <==> 1 <= k <= |side|)
            && Inverse(to, back) && Increasing(to) && Increasing(back)
  {
    hide Numbered, Pairs, Dict, Swapped, CountsUp, Tabulates, Inverse, Increasing;
    var o, n := Start(Base(s)) - 1, Start(Source(s)) - 1;
    var p := Pairs(Numbered(s, 0, o, n), w);
    PairsOfNumbered(s, 0, o, n, w);
    StartsAtZero(s, w);
    CountsTabulate(p, From(w, o, n));
    DictsOfCount(p, Dict(p), Dict(Swapped(p)));
  }

  lemma StartsAtZero(s: Script, w: Which)
    ensures From(w, Start(Base(s)) - 1, Start(Source(s)) - 1) == 0 || Side(s, SideWithout(w)) == []
  {
  }

  lemma CountsTabulate(p: seq<(int, int)>, from: int)
    requires CountsUp(p, 0, from) && (from == 0 || p == [])
    ensures CountsUp(p, 0, 0) && |Swapped(p)| == |p|
    ensures Tabulates(Dict(p), p) && |Dict(p)| == |p|
    ensures Tabulates(Dict(Swapped(p)), Swapped(p)) && |Dict(Swapped(p))| == |p|
  {
    hide Dict;
    DictOfIncreasing(p);
    DictOfIncreasing(Swapped(p));
  }

  lemma DictsOfCount(p: seq<(int, int)>, to: map<int, int>, back: map<int, int>)
    requires CountsUp(p, 0, 0) && Tabulates(to, p) && Tabulates(back, Swapped(p))
    ensures forall k :: k in back <==> 1 <= k <= |p|
    ensures Inverse(to, back) && Increasing(to) && Increasing(back)
  {
    hide CountsUp, Tabulates, Inverse, Increasing;
    BackOfCount(p, back);
    forall a | a in to ensures 1 <= to[a] <= |p| && p[to[a] - 1].0 == a {
      ToAt(p, to, a);
    }
    CountFacts(p, to);
    InverseFacts(p, to, back);
  }

  lemma CountFacts(p: seq<(int, int)>, to: map<int, int>)
    requires CountsUp(p, 0, 0) && Tabulates(to, p)
    ensures forall j, k :: 0 <= j < k < |p| ==> p[j].0 < p[k].0
    ensures forall k :: 0 <= k < |p| ==> p[k].0 in to && to[p[k].0] == k + 1
  {
  }

  lemma InverseFacts(p: seq<(int, int)>, to: map<int, int>, back: map<int, int>)
    requires forall j, k :: 0 <= j < k < |p| ==> p[j].0 < p[k].0
    requires forall k :: k in back <==> 1 <= k <= |p|
    requires forall k :: k in back ==> back[k] == p[k - 1].0
    requires forall a :: a in to ==> 1 <= to[a] <= |p| && p[to[a] - 1].0 == a
    requires forall k :: 0 <= k < |p| ==> p[k].0 in to && to[p[k].0] == k + 1
    ensures Inverse(to, back) && Increasing(to) && Increasing(back)
  {
  }

  lemma SwappedAt(p: seq<(int, int)>, k: int)
    requires CountsUp(p, 0, 0) && 1 <= k <= |p|
    ensures |Swapped(p)| == |p| && Swapped(p)[k - 1] == (k, p[k - 1].0)
  {
  }

  lemma BackAt(p: seq<(int, int)>, back: map<int, int>, k: int)
    requires CountsUp(p, 0, 0) && Tabulates(back, Swapped(p)) && 1 <= k <= |p|
    ensures k in back && back[k] == p[k - 1].0
  {
    hide CountsUp, Swapped;
    SwappedAt(p, k);
    var q := Swapped(p);
    assert q[k - 1].0 == k;
  }

  lemma BackIn(p: seq<(int, int)>, back: map<int, int>, b: int)
    requires CountsUp(p, 0, 0) && Tabulates(back, Swapped(p)) && b in back
    ensures 1 <= b <= |p|
  {
    hide CountsUp;
    var k :| 0 <= k < |Swapped(p)| && Swapped(p)[k].0 == b;
    SwappedAt(p, k + 1);
  }

  lemma BackOfCount(p: seq<(int, int)>, back: map<int, int>)
    requires CountsUp(p, 0, 0) && Tabulates(back, Swapped(p))
    ensures forall k :: k in back <==> 1 <= k <= |p|
    ensures forall k :: k in back ==> back[k] == p[k - 1].0
  {
    hide CountsUp, Swapped, Tabulates;
    forall k | 1 <= k <= |p| ensures k in back && back[k] == p[k - 1].0 {
      BackAt(p, back, k);
    }
    forall b | b in back ensures 1 <= b <= |p| {
      BackIn(p, back, b);
    }
  }

  lemma ToAt(p: seq<(int, int)>, to: map<int, int>, a: int)
    requires CountsUp(p, 0, 0) && Tabulates(to, p) && a in to
    ensures 1 <= to[a] <= |p| && p[to[a] - 1].0 == a
  {
    var k :| 0 <= k < |p| && p[k].0 == a;
  }
}
