/**
 What `_parse_file_section` recovers from printed hunks, and where it agrees
 with the virtual file built from the same diff.
 */
module ParserAgreement {
  import opened Seqs
  import opened EditScript
  import opened DiffParser
  import HunkHeader
  import VirtualFs
  import DiffRoundTrip

  // ------------------------------------------- the second parser's round trip

  /** For each deleted line the number of the new file's next line, unless the new file is absent. */
  function DeletionPositions(s: Script, next: int): seq<int> {
    if s == [] then []
    else (if s[0].op == Delete && next > 0 then [next] else [])
         + DeletionPositions(s[1..], VirtualFs.Bump(s[0].op, Delete, next))
  }

  /** The number of the new file's next line when the parser reaches edit `i`. */
  function Current(s: Script, next: int, i: nat): int
    requires i <= |s|
  {
    next + |Source(s[..i])|
  }

  /** An added line, or a deleted line of a file that still exists. */
  predicate Counts(s: Script, next: int, i: nat)
    requires i < |s|
  {
    s[i].op == Add || (s[i].op == Delete && Current(s, next, i) > 0)
  }

  /** The numbers of the added lines and, for a file that still exists, the
      number that is current at each deleted line. */
  function ChangedNumbers(s: Script, next: int): set<int> {
    set i | 0 <= i < |s| && Counts(s, next, i) :: Current(s, next, i)
  }

  lemma CurrentCons(s: Script, next: int, i: nat)
    requires 0 < i <= |s|
    ensures Current(s, next, i) == Current(s[1..], VirtualFs.Bump(s[0].op, Delete, next), i - 1)
  {
    assert s[..i][1..] == s[1..][..i - 1];
  }

  lemma ChangedNumbersCons(s: Script, next: int)
    requires s != []
    ensures ChangedNumbers(s, next)
            == (if s[0].op != Keep && (s[0].op == Delete ==> next > 0) then {next} else {})
               + ChangedNumbers(s[1..], VirtualFs.Bump(s[0].op, Delete, next))
  {
    hide Current;
    var next', t := VirtualFs.Bump(s[0].op, Delete, next), s[1..];
    var all, rest := ChangedNumbers(s, next), ChangedNumbers(t, next');
    var head: set<int> := if s[0].op != Keep && (s[0].op == Delete ==> next > 0) then {next} else {};
    CurrentAtStart(s, next);
    forall x | x in all ensures x in head + rest {
      var i :| 0 <= i < |s| && Counts(s, next, i) && x == Current(s, next, i);
      if i > 0 {
        CurrentCons(s, next, i);
        assert Counts(t, next', i - 1);
      }
    }
    forall x | x in rest ensures x in all {
      var i :| 0 <= i < |t| && Counts(t, next', i) && x == Current(t, next', i);
      CurrentCons(s, next, i + 1);
      assert Counts(s, next, i + 1);
    }
    assert head != {} ==> Counts(s, next, 0);
  }

  lemma CurrentAtStart(s: Script, next: int)
    ensures Current(s, next, 0) == next
  {
  }

  lemma PrintedLine(e: Edit, bare: bool)
    ensures var raw := PrintEdit(e, bare);
            && |raw| == (if e.noEol then 2 else 1)
            && (Starts(raw[0], '-') <==> e.op == Delete) && (Starts(raw[0], '+') <==> e.op == Add)
            && !Starts(raw[0], '\\') && !EndsHunk(raw[0])
            && (e.op != Keep ==> raw[0][1..] == e.text)
            && (e.noEol ==> raw[1] == NO_EOL)
  {
    var raw := PrintEdit(e, bare)[0];
    NotHeader(raw);
  }

  lemma NotHeader(raw: string)
    requires raw == "" || raw[0] in {' ', '-', '+', '\\'}
    ensures !EndsHunk(raw)
  {
    assert raw != "" ==> raw[0] != "@@ -"[0] && raw[0] != "diff --git"[0];
  }

  lemma PrintedMarker()
    ensures Starts(NO_EOL, '\\') && !Starts(NO_EOL, '-') && !Starts(NO_EOL, '+') && !EndsHunk(NO_EOL)
  {
    assert NO_EOL[0] == '\\';
    NotHeader(NO_EOL);
  }

  /** The inner loop reads a printed body back: nothing is skipped, markers are passed over. */
  lemma {:induction false} GatheredFromPrinted(s: Script, bare: bool, next: int)
    ensures GatheredFrom(PrintBody(s, bare), next)
            == Gathered(Texts(s, Delete), Texts(s, Add), DeletionPositions(s, next), ChangedNumbers(s, next))
    ensures forall line :: line in PrintBody(s, bare) ==> !EndsHunk(line)
  {
    hide EndsHunk, ChangedNumbers;
    if s == [] {
      assert ChangedNumbers(s, next) == {} by { NoChanges(next); }
    } else {
      var raw, rest := PrintEdit(s[0], bare), PrintBody(s[1..], bare);
      var next' := VirtualFs.Bump(s[0].op, Delete, next);
      GatheredFromPrinted(s[1..], bare, next');
      PrintedLine(s[0], bare);
      ChangedNumbersCons(s, next);
      var all := raw + rest;
      assert all[0] == raw[0];
      if s[0].noEol {
        PrintedMarker();
        assert all[1..] == [NO_EOL] + rest;
        assert ([NO_EOL] + rest)[0] == NO_EOL && ([NO_EOL] + rest)[1..] == rest;
        assert GatheredFrom([NO_EOL] + rest, next') == GatheredFrom(rest, next');
      } else {
        assert all[1..] == rest;
      }
      assert NextAfter(raw[0], next) == next';
    }
  }

  lemma NoChanges(next: int)
    ensures ChangedNumbers([], next) == {}
  {
  }

  function SnippetOf(h: Hunk): HunkSnippet {
    HunkSnippet(Texts(h.script, Delete), Texts(h.script, Add), h.oldStart, h.newStart,
                DeletionPositions(h.script, h.newStart))
  }

  function Snippets(hs: seq<Hunk>): seq<HunkSnippet> {
    if hs == [] then [] else [SnippetOf(hs[0])] + Snippets(hs[1..])
  }

  function ChangedInHunks(hs: seq<Hunk>): set<int> {
    if hs == [] then {} else ChangedNumbers(hs[0].script, hs[0].newStart) + ChangedInHunks(hs[1..])
  }

  lemma {:induction false} BodyLengthOf(body: seq<string>, rest: seq<string>)
    requires forall line :: line in body ==> !EndsHunk(line)
    requires rest == [] || EndsHunk(rest[0])
    ensures BodyLength(body + rest) == |body|
  {
    hide EndsHunk;
    if body == [] {
      assert body + rest == rest;
    } else {
      assert (body + rest)[0] == body[0] && (body + rest)[1..] == body[1..] + rest;
      BodyLengthOf(body[1..], rest);
    }
  }

  lemma {:induction false} HunksSkipHeader(header: seq<string>, rest: seq<string>)
    requires IsFileHeader(header)
    ensures Hunks(header + rest) == Hunks(rest) && AllChanged(header + rest) == AllChanged(rest)
  {
    hide HunkHeader.Match;
    if header == [] {
      assert header + rest == rest;
    } else {
      assert (header + rest)[0] == header[0] && (header + rest)[1..] == header[1..] + rest;
      assert HunkHeader.Match(header[0]).None?;
      HunksSkipHeader(header[1..], rest);
    }
  }

  /** What follows a printed section: nothing, the next hunk header, or the next file. */
  predicate StartsAnew(rest: seq<string>) {
    rest == [] || HunkHeader.Match(rest[0]).Some? || "diff --git" <= rest[0]
  }

  /** Every printed hunk comes back with its deleted and added lines, its start
      numbers and its deletion positions - whatever the lines contain, and whatever
      follows: another hunk or another file ends the last hunk. */
  lemma {:induction false} SectionThenRest(hs: seq<Hunk>, bare: bool, rest: seq<string>)
    requires StartsAnew(rest)
    ensures Hunks(PrintHunks(hs, bare) + rest) == Snippets(hs) + Hunks(rest)
    ensures AllChanged(PrintHunks(hs, bare) + rest) == ChangedInHunks(hs) + AllChanged(rest)
    ensures StartsAnew(PrintHunks(hs, bare) + rest)
  {
    hide HunkHeader.Match, ChangedNumbers, SnippetOf, PrintHunk, Hunks, AllChanged;
    if hs == [] {
      assert PrintHunks(hs, bare) + rest == rest;
    } else {
      var h, more := hs[0], PrintHunks(hs[1..], bare) + rest;
      SectionThenRest(hs[1..], bare, rest);
      Regroup(PrintHunk(h, bare), PrintHunks(hs[1..], bare), rest);
      HunkThenRest(h, bare, more);
      Regroup([SnippetOf(h)], Snippets(hs[1..]), Hunks(rest));
    }
  }

  lemma HunkThenRest(h: Hunk, bare: bool, more: seq<string>)
    requires StartsAnew(more)
    ensures Hunks(PrintHunk(h, bare) + more) == [SnippetOf(h)] + Hunks(more)
    ensures AllChanged(PrintHunk(h, bare) + more) == ChangedNumbers(h.script, h.newStart) + AllChanged(more)
    ensures StartsAnew(PrintHunk(h, bare) + more)
  {
    hide HunkHeader.Match, HunkHeader.Print, ChangedNumbers, SnippetOf, Removed, Added, Positions, Changed, BodyLength,
      PrintBody;
    var at := HunkHeader.Print(h.oldStart, |Base(h.script)|, h.newStart, |Source(h.script)|, h.heading);
    HunkHeader.MatchOfPrint(h.oldStart, |Base(h.script)|, h.newStart, |Source(h.script)|, h.heading);
    FirstHunk(h, bare, more);
    var all := PrintHunk(h, bare) + more;
    assert all[0] == at && all[1..] == PrintBody(h.script, bare) + more;
  }

  /** What the inner loop makes of one printed body, whatever starts anew behind it. */
  lemma FirstHunk(h: Hunk, bare: bool, more: seq<string>)
    requires StartsAnew(more)
    ensures var lines := PrintBody(h.script, bare) + more;
            var len := BodyLength(lines);
            var body := lines[..len];
            && lines[len..] == more
            && SnippetOf(h)
               == HunkSnippet(Removed(body), Added(body), h.oldStart, h.newStart, Positions(body, h.newStart))
            && Changed(body, h.newStart) == ChangedNumbers(h.script, h.newStart)
  {
    hide HunkHeader.Match, ChangedNumbers, Removed, Added, Positions, Changed, PrintBody;
    var body := PrintBody(h.script, bare);
    GatheredFromPrinted(h.script, bare, h.newStart);
    BodyLengthOf(body, more);
    assert (body + more)[..|body|] == body && (body + more)[|body|..] == more;
  }

  lemma SectionRoundTrip(hs: seq<Hunk>, bare: bool)
    ensures Hunks(PrintHunks(hs, bare)) == Snippets(hs)
    ensures AllChanged(PrintHunks(hs, bare)) == ChangedInHunks(hs)
  {
    SectionThenRest(hs, bare, []);
    assert PrintHunks(hs, bare) + [] == PrintHunks(hs, bare);
    assert Snippets(hs) + [] == Snippets(hs);
  }

  // ------------------------------------------------------ agreement on one file

  /** The same numbers read off a virtual file: the new number of every `+`
      line and, for every `-` line, the new number the next line would get. */
  function ChangedInVirtual(lines: seq<VirtualFs.VirtualLine>, next: int): set<int> {
    if lines == [] then {}
    else match lines[0].new_
      case Some(k) => (if lines[0].marker == '+' then {k} else {}) + ChangedInVirtual(lines[1..], k + 1)
      case None => (if next > 0 then {next} else {}) + ChangedInVirtual(lines[1..], next)
  }

  lemma {:induction false} ChangedOfNumbered(s: Script, L: int, o: int, n: int)
    ensures ChangedInVirtual(VirtualFs.Numbered(s, L, o, n), n + 1) == ChangedNumbers(s, n + 1)
  {
    hide ChangedNumbers;
    if s == [] {
      NoChanges(n + 1);
    } else {
      ChangedNumbersCons(s, n + 1);
      var o', n' := VirtualFs.Bump(s[0].op, Add, o), VirtualFs.Bump(s[0].op, Delete, n);
      ChangedOfNumbered(s[1..], L + 1, o', n');
      var lines := VirtualFs.Numbered(s, L, o, n);
      assert lines[1..] == VirtualFs.Numbered(s[1..], L + 1, o', n');
    }
  }

  predicate HasChange(s: Script) {
    exists e :: e in s && e.op != Keep
  }

  /** No line changes after a no-newline marker. */
  predicate QuietAfterMarker(s: Script) {
    s == [] || ((s[0].noEol ==> !HasChange(s[1..])) && QuietAfterMarker(s[1..]))
  }

  predicate NoneSkipped(s: Script) {
    forall e :: e in s ==> !VirtualFs.Skipped(e)
  }

  lemma {:induction false} SeenTexts(s: Script, op: Op)
    requires op != Keep
    ensures |Texts(VirtualFs.Seen(s), op)| + DiffRoundTrip.Skips(s, op) == |Texts(s, op)|
    ensures DiffRoundTrip.Skips(s, op) == 0 ==> Texts(VirtualFs.Seen(s), op) == Texts(s, op)
  {
    if s != [] {
      SeenTexts(s[1..], op);
      var e := s[0];
      TextsAppend(VirtualFs.SeenEdit(e), VirtualFs.Seen(s[1..]), op);
      var first: Script := if VirtualFs.Skipped(e) then [] else [Edit(e.op, e.text, false)];
      var second: Script := if e.noEol then [Edit(Keep, NO_EOL, false)] else [];
      assert VirtualFs.SeenEdit(e) == first + second;
      TextsAppend(first, second, op);
      assert first != [] ==> first[1..] == [];
      assert second != [] ==> second[1..] == [];
    }
  }

  lemma {:induction false} NoneSkippedByCounts(s: Script)
    ensures NoneSkipped(s) <==> DiffRoundTrip.Skips(s, Delete) == 0 && DiffRoundTrip.Skips(s, Add) == 0
  {
    if s != [] {
      NoneSkippedByCounts(s[1..]);
      assert forall e :: e in s <==> e == s[0] || e in s[1..];
    }
  }

  /** Both parsers find the same deleted and the same added lines, in one hunk. */
  ghost predicate SameLines(diff: seq<string>) {
    var virtual := DiffRoundTrip.ScriptOf(VirtualFs.Parsed(diff));
    && |Hunks(diff)| == 1
    && Hunks(diff)[0].beforeLines == Texts(virtual, Delete) && Hunks(diff)[0].afterLines == Texts(virtual, Add)
  }

  /** The two parsers agree on the deleted and on the added lines exactly when no
      changed line is one the virtual file skips. */
  lemma LinesAgree(header: seq<string>, heading: string, s: Script, bare: bool)
    requires IsFileHeader(header)
    ensures SameLines(PrintDiff(header, heading, s, bare)) <==> NoneSkipped(s)
  {
    OneHunk(header, heading, s, bare);
    DiffRoundTrip.ParsedDiff(header, heading, s, bare);
    SeenHasNoMarkers(s);
    DiffRoundTrip.NumberedScript(VirtualFs.Seen(s), 0, Start(Base(s)) - 1, Start(Source(s)) - 1);
    SeenTexts(s, Delete);
    SeenTexts(s, Add);
    NoneSkippedByCounts(s);
  }

  lemma {:induction false} SeenHasNoMarkers(s: Script)
    ensures forall e :: e in VirtualFs.Seen(s) ==> !e.noEol
  {
    if s != [] {
      SeenHasNoMarkers(s[1..]);
    }
  }

  lemma OneHunk(header: seq<string>, heading: string, s: Script, bare: bool)
    requires IsFileHeader(header)
    ensures var diff := PrintDiff(header, heading, s, bare);
            && Hunks(diff) == [SnippetOf(Hunk(Start(Base(s)), Start(Source(s)), heading, s))]
            && AllChanged(diff) == ChangedNumbers(s, Start(Source(s)))
  {
    hide HunkHeader.Print, ChangedNumbers;
    var h := Hunk(Start(Base(s)), Start(Source(s)), heading, s);
    var hs := [h];
    assert hs[1..] == [];
    assert PrintHunks(hs, bare) == PrintHunk(h, bare);
    assert PrintDiff(header, heading, s, bare) == header + PrintHunks(hs, bare);
    HunksSkipHeader(header, PrintHunks(hs, bare));
    SectionRoundTrip(hs, bare);
    assert Snippets(hs) == [SnippetOf(h)];
  }

  /** Counters of a script as the virtual file numbers it, one edit at a time. */
  lemma SeenCons(s: Script, next: int)
    requires s != []
    ensures var next' := if VirtualFs.Skipped(s[0]) then next else VirtualFs.Bump(s[0].op, Delete, next);
            ChangedNumbers(VirtualFs.Seen(s), next)
            == (if IsShown(s[0]) && (s[0].op == Delete ==> next > 0) then {next} else {})
               + ChangedNumbers(VirtualFs.Seen(s[1..]), if s[0].noEol then next' + 1 else next')
  {
    hide ChangedNumbers, VirtualFs.Seen, Marker, VirtualFs.Skipped;
    var e, rest := s[0], VirtualFs.Seen(s[1..]);
    MarkerCons(e, rest, if VirtualFs.Skipped(e) then next else VirtualFs.Bump(e.op, Delete, next));
    SeenSplits(s);
    if !VirtualFs.Skipped(e) {
      FirstCons(e, Marker(e) + rest, next);
    }
  }

  lemma SeenSplits(s: Script)
    requires s != []
    ensures var rest := Marker(s[0]) + VirtualFs.Seen(s[1..]);
            VirtualFs.Seen(s)
            == if VirtualFs.Skipped(s[0]) then rest else [Edit(s[0].op, s[0].text, false)] + rest
  {
    hide VirtualFs.Skipped;
    var e, rest := s[0], VirtualFs.Seen(s[1..]);
    if VirtualFs.Skipped(e) {
      assert VirtualFs.SeenEdit(e) == Marker(e);
    } else {
      Regroup([Edit(e.op, e.text, false)], Marker(e), rest);
    }
  }

  function Marker(e: Edit): Script { if e.noEol then [Edit(Keep, NO_EOL, false)] else [] }

  lemma MarkerCons(e: Edit, rest: Script, next: int)
    ensures ChangedNumbers(Marker(e) + rest, next) == ChangedNumbers(rest, if e.noEol then next + 1 else next)
  {
    hide ChangedNumbers;
    if e.noEol {
      ChangedNumbersCons(Marker(e) + rest, next);
      HeadAndTail(Marker(e), rest);
      assert Marker(e)[1..] + rest == rest;
    } else {
      assert Marker(e) + rest == rest;
    }
  }

  lemma FirstCons(e: Edit, rest: Script, next: int)
    ensures ChangedNumbers([Edit(e.op, e.text, false)] + rest, next)
            == (if e.op != Keep && (e.op == Delete ==> next > 0) then {next} else {})
               + ChangedNumbers(rest, VirtualFs.Bump(e.op, Delete, next))
  {
    hide ChangedNumbers;
    var all := [Edit(e.op, e.text, false)] + rest;
    ChangedNumbersCons(all, next);
    assert all[1..] == rest;
  }

  /** A changed line the virtual file does not skip. */
  predicate IsShown(e: Edit) { e.op != Keep && !VirtualFs.Skipped(e) }

  lemma {:induction false} QuietAgree(s: Script, next: int)
    requires NoneSkipped(s) && QuietAfterMarker(s)
    ensures ChangedNumbers(VirtualFs.Seen(s), next) == ChangedNumbers(s, next)
  {
    hide ChangedNumbers;
    if s != [] {
      SeenCons(s, next);
      ChangedNumbersCons(s, next);
      var next' := VirtualFs.Bump(s[0].op, Delete, next);
      if s[0].noEol {
        UnchangedHasNone(s[1..], next', next' + 1);
      } else {
        QuietAgree(s[1..], next');
      }
    }
  }

  lemma {:induction false} UnchangedHasNone(s: Script, a: int, b: int)
    requires !HasChange(s)
    ensures ChangedNumbers(s, a) == {} == ChangedNumbers(VirtualFs.Seen(s), b)
  {
    hide ChangedNumbers;
    if s == [] {
      NoChanges(a);
      NoChanges(b);
    } else {
      assert s[0] in s;
      ChangedNumbersCons(s, a);
      SeenCons(s, b);
      UnchangedHasNone(s[1..], a + 1, if s[0].noEol then b + 2 else b + 1);
    }
  }

  /** Once the virtual file's counter has run ahead, its last changed number is above every other one. */
  lemma {:induction false} AheadStaysAhead(s: Script, d: int, v: int) returns (x: int)
    requires NoneSkipped(s) && HasChange(s) && 0 <= d < v
    ensures x in ChangedNumbers(VirtualFs.Seen(s), v) && d < x
    ensures forall y :: y in ChangedNumbers(s, d) ==> y < x
  {
    hide ChangedNumbers;
    SeenCons(s, v);
    ChangedNumbersCons(s, d);
    var d', v' := VirtualFs.Bump(s[0].op, Delete, d), VirtualFs.Bump(s[0].op, Delete, v);
    if HasChange(s[1..]) {
      x := AheadStaysAhead(s[1..], d', if s[0].noEol then v' + 1 else v');
    } else {
      UnchangedHasNone(s[1..], d', v');
      x := v;
    }
  }

  lemma {:induction false} QuietIfUnchanged(s: Script)
    ensures QuietAfterMarker(s) || HasChange(s)
  {
    if s != [] {
      QuietIfUnchanged(s[1..]);
    }
  }

  lemma {:induction false} LoudDiffer(s: Script, next: int)
    requires NoneSkipped(s) && !QuietAfterMarker(s) && 0 <= next
    ensures exists x :: x in ChangedNumbers(VirtualFs.Seen(s), next) && next < x
                        && forall y :: y in ChangedNumbers(s, next) ==> y < x
    ensures ChangedNumbers(VirtualFs.Seen(s), next) != ChangedNumbers(s, next)
  {
    hide ChangedNumbers;
    SeenCons(s, next);
    ChangedNumbersCons(s, next);
    var next' := VirtualFs.Bump(s[0].op, Delete, next);
    var x: int;
    if s[0].noEol {
      QuietIfUnchanged(s[1..]);
      x := AheadStaysAhead(s[1..], next', next' + 1);
    } else {
      LoudDiffer(s[1..], next');
      x :| x in ChangedNumbers(VirtualFs.Seen(s[1..]), next') && next' < x
           && forall y :: y in ChangedNumbers(s[1..], next') ==> y < x;
    }
  }

  // ------------------------------------------------- numbers when lines are skipped

  /** No line changes after an added line that is skipped. */
  predicate QuietAfterSkippedAdd(s: Script) {
    s == []
    || ((VirtualFs.Skipped(s[0]) && s[0].op == Add ==> !HasChange(s[1..])) && QuietAfterSkippedAdd(s[1..]))
  }

  /** The numbers of the changed lines that are not skipped. */
  function ShownNumbers(s: Script, next: int): set<int> {
    set i | 0 <= i < |s| && Counts(s, next, i) && !VirtualFs.Skipped(s[i]) :: Current(s, next, i)
  }

  /** Every skipped change shares its number with one that is not skipped. */
  ghost predicate Covered(s: Script, next: int) {
    forall i :: 0 <= i < |s| && Counts(s, next, i) && VirtualFs.Skipped(s[i]) ==>
      Current(s, next, i) in ShownNumbers(s, next)
  }

  lemma ShownCons(s: Script, next: int)
    requires s != []
    ensures ShownNumbers(s, next)
            == (if IsShown(s[0]) && (s[0].op == Delete ==> next > 0) then {next} else {})
               + ShownNumbers(s[1..], VirtualFs.Bump(s[0].op, Delete, next))
  {
    hide Current;
    var next', t := VirtualFs.Bump(s[0].op, Delete, next), s[1..];
    var all, rest := ShownNumbers(s, next), ShownNumbers(t, next');
    var head: set<int> := if IsShown(s[0]) && (s[0].op == Delete ==> next > 0) then {next} else {};
    CurrentAtStart(s, next);
    forall x | x in all ensures x in head + rest {
      var i :| 0 <= i < |s| && Counts(s, next, i) && !VirtualFs.Skipped(s[i]) && x == Current(s, next, i);
      if i > 0 {
        CurrentCons(s, next, i);
        assert Counts(t, next', i - 1) && x == Current(t, next', i - 1) && t[i - 1] == s[i];
      }
    }
    forall x | x in rest ensures x in all {
      var i :| 0 <= i < |t| && Counts(t, next', i) && !VirtualFs.Skipped(t[i]) && x == Current(t, next', i);
      CurrentCons(s, next, i + 1);
      assert Counts(s, next, i + 1) && s[i + 1] == t[i];
    }
    if head != {} {
      assert Counts(s, next, 0);
    }
  }

  lemma CoveredIff(s: Script, next: int)
    ensures ChangedNumbers(s, next) == ShownNumbers(s, next) <==> Covered(s, next)
  {
    hide Current;
    if Covered(s, next) {
      forall x | x in ChangedNumbers(s, next) ensures x in ShownNumbers(s, next) {
        var i :| 0 <= i < |s| && Counts(s, next, i) && x == Current(s, next, i);
      }
    }
    forall i | 0 <= i < |s| && Counts(s, next, i) ensures Current(s, next, i) in ChangedNumbers(s, next) {
    }
  }

  lemma {:induction false} SeenIsShown(s: Script, next: int)
    requires QuietAfterMarker(s) && QuietAfterSkippedAdd(s)
    ensures ChangedNumbers(VirtualFs.Seen(s), next) == ShownNumbers(s, next)
  {
    hide ChangedNumbers, ShownNumbers;
    if s == [] {
      NothingShown(s, next, next);
    } else {
      SeenCons(s, next);
      ShownCons(s, next);
      var next' := VirtualFs.Bump(s[0].op, Delete, next);
      if s[0].noEol || (VirtualFs.Skipped(s[0]) && s[0].op == Add) {
        var at := if VirtualFs.Skipped(s[0]) then next else next';
        NothingShown(s[1..], next', if s[0].noEol then at + 1 else at);
      } else {
        SeenIsShown(s[1..], next');
      }
    }
  }

  lemma {:induction false} NothingShown(s: Script, a: int, b: int)
    requires !HasChange(s)
    ensures ShownNumbers(s, a) == {} == ChangedNumbers(VirtualFs.Seen(s), b)
  {
    hide ChangedNumbers;
    if s == [] {
      NoChanges(b);
    } else {
      forall i | 0 <= i < |s| ensures s[i].op == Keep {
        assert s[i] in s;
      }
      SeenCons(s, b);
      NothingShown(s[1..], a, if s[0].noEol then b + 2 else b + 1);
    }
  }

  /** Once the virtual file's counter has fallen behind, the last changed number is above all of its own. */
  lemma {:induction false} BehindStaysBehind(s: Script, d: int, v: int) returns (x: int)
    requires QuietAfterMarker(s) && HasChange(s) && v < d && 0 < d
    ensures x in ChangedNumbers(s, d) && d <= x
    ensures forall y :: y in ChangedNumbers(VirtualFs.Seen(s), v) ==> y < x
  {
    hide ChangedNumbers;
    SeenCons(s, v);
    ChangedNumbersCons(s, d);
    var d' := VirtualFs.Bump(s[0].op, Delete, d);
    var v' := if VirtualFs.Skipped(s[0]) then v else VirtualFs.Bump(s[0].op, Delete, v);
    if HasChange(s[1..]) {
      x := BehindStaysBehind(s[1..], d', v');
    } else {
      NothingShown(s[1..], d', if s[0].noEol then v' + 1 else v');
      x := d;
    }
  }

  lemma {:induction false} QuietIfNoChange(s: Script)
    ensures QuietAfterSkippedAdd(s) || HasChange(s)
  {
    if s != [] {
      QuietIfNoChange(s[1..]);
    }
  }

  lemma {:induction false} LateDiffer(s: Script, next: int) returns (x: int)
    requires QuietAfterMarker(s) && !QuietAfterSkippedAdd(s) && 0 <= next
    ensures x in ChangedNumbers(s, next) && next < x
    ensures forall y :: y in ChangedNumbers(VirtualFs.Seen(s), next) ==> y < x
  {
    hide ChangedNumbers;
    SeenCons(s, next);
    ChangedNumbersCons(s, next);
    QuietIfNoChange(s[1..]);
    if VirtualFs.Skipped(s[0]) && s[0].op == Add && HasChange(s[1..]) {
      x := BehindStaysBehind(s[1..], next + 1, next);
    } else {
      x := LateDiffer(s[1..], VirtualFs.Bump(s[0].op, Delete, next));
    }
  }

  // ------------------------------------------------------------ every script

  /** The number the virtual file has reached at edit `i`: ahead by the markers
      read as lines, behind by the skipped added lines. */
  function Shifted(s: Script, next: int, i: nat): int
    requires i <= |s|
  {
    Current(s, next, i) + DiffRoundTrip.Markers(s[..i]) - DiffRoundTrip.Skips(s[..i], Add)
  }

  /** A changed line that the virtual file shows and gives a number. */
  predicate ShownAt(s: Script, next: int, i: nat)
    requires i < |s|
  {
    IsShown(s[i]) && (s[i].op == Delete ==> Shifted(s, next, i) > 0)
  }

  function ShiftedNumbers(s: Script, next: int): set<int> {
    set i | 0 <= i < |s| && ShownAt(s, next, i) :: Shifted(s, next, i)
  }

  /** The virtual file's number after the first edit and its marker. */
  function AfterFirst(s: Script, next: int): int
    requires s != []
  {
    (if VirtualFs.Skipped(s[0]) then next else VirtualFs.Bump(s[0].op, Delete, next)) + if s[0].noEol then 1 else 0
  }

  lemma ShiftedCons(s: Script, next: int, i: nat)
    requires 0 < i <= |s|
    ensures Shifted(s, next, i) == Shifted(s[1..], AfterFirst(s, next), i - 1)
  {
    hide Current;
    CurrentCons(s, next, i);
    CurrentMoves(s[1..], VirtualFs.Bump(s[0].op, Delete, next), AfterFirst(s, next), i - 1);
    assert s[..i][0] == s[0] && s[..i][1..] == s[1..][..i - 1];
  }

  lemma CurrentMoves(s: Script, a: int, b: int, i: nat)
    requires i <= |s|
    ensures Current(s, a, i) - a == Current(s, b, i) - b
  {
  }

  lemma ShiftedNumbersCons(s: Script, next: int)
    requires s != []
    ensures ShiftedNumbers(s, next)
            == (if IsShown(s[0]) && (s[0].op == Delete ==> next > 0) then {next} else {})
               + ShiftedNumbers(s[1..], AfterFirst(s, next))
  {
    hide Shifted, AfterFirst, VirtualFs.Skipped;
    var next', t := AfterFirst(s, next), s[1..];
    var all, rest := ShiftedNumbers(s, next), ShiftedNumbers(t, next');
    var head: set<int> := if IsShown(s[0]) && (s[0].op == Delete ==> next > 0) then {next} else {};
    ShiftedAtStart(s, next);
    forall x | x in all ensures x in head + rest {
      var i :| 0 <= i < |s| && ShownAt(s, next, i) && x == Shifted(s, next, i);
      if i > 0 {
        ShiftedCons(s, next, i);
        assert ShownAt(t, next', i - 1) && x == Shifted(t, next', i - 1);
      }
    }
    forall x | x in rest ensures x in all {
      var i :| 0 <= i < |t| && ShownAt(t, next', i) && x == Shifted(t, next', i);
      ShiftedCons(s, next, i + 1);
      assert ShownAt(s, next, i + 1) && x == Shifted(s, next, i + 1);
    }
    assert head != {} ==> ShownAt(s, next, 0);
  }

  lemma ShiftedAtStart(s: Script, next: int)
    ensures Shifted(s, next, 0) == next
  {
  }

  /** The numbers the virtual file gives to the changed lines of any script. */
  lemma {:induction false} SeenIsShifted(s: Script, next: int)
    ensures ChangedNumbers(VirtualFs.Seen(s), next) == ShiftedNumbers(s, next)
  {
    hide ChangedNumbers, ShiftedNumbers, VirtualFs.Skipped;
    if s == [] {
      NoChanges(next);
      assert VirtualFs.Seen(s) == [];
      NoneShifted(next);
    } else {
      SeenCons(s, next);
      ShiftedNumbersCons(s, next);
      SeenIsShifted(s[1..], AfterFirst(s, next));
    }
  }

  lemma NoneShifted(next: int)
    ensures ShiftedNumbers([], next) == {}
  {
  }

  /** Both parsers find the same changed line numbers. */
  ghost predicate SameNumbers(diff: seq<string>, next: int) {
    AllChanged(diff) == ChangedInVirtual(VirtualFs.Parsed(diff), next)
  }

  lemma NumbersOfDiff(header: seq<string>, heading: string, s: Script, bare: bool)
    requires IsFileHeader(header)
    ensures var next := Start(Source(s));
            SameNumbers(PrintDiff(header, heading, s, bare), next)
            <==> ChangedNumbers(VirtualFs.Seen(s), next) == ChangedNumbers(s, next)
  {
    hide ChangedNumbers, ChangedInVirtual, AllChanged, PrintDiff, IsFileHeader;
    OneHunk(header, heading, s, bare);
    DiffRoundTrip.ParsedDiff(header, heading, s, bare);
    ChangedOfNumbered(VirtualFs.Seen(s), 0, Start(Base(s)) - 1, Start(Source(s)) - 1);
  }

  lemma UnskippedAgree(s: Script, next: nat)
    requires NoneSkipped(s)
    ensures ChangedNumbers(VirtualFs.Seen(s), next) == ChangedNumbers(s, next) <==> QuietAfterMarker(s)
  {
    hide ChangedNumbers;
    if QuietAfterMarker(s) {
      QuietAgree(s, next);
    } else {
      LoudDiffer(s, next);
    }
  }

  lemma SkippedAgree(s: Script, next: nat)
    requires QuietAfterMarker(s)
    ensures ChangedNumbers(VirtualFs.Seen(s), next) == ChangedNumbers(s, next)
            <==> QuietAfterSkippedAdd(s) && Covered(s, next)
  {
    hide ChangedNumbers, ShownNumbers, Covered;
    if QuietAfterSkippedAdd(s) {
      SeenIsShown(s, next);
      CoveredIff(s, next);
    } else {
      var x := LateDiffer(s, next);
    }
  }

  /** For every script the two parsers agree on the changed line numbers exactly
      when shifting the shown changes by the markers and by the skipped added
      lines above them gives the same set. Without skipped lines that is: no line
      changes after a no-newline marker. Without a change after a marker it is:
      no line changes after a skipped added line, and every skipped change shares
      its number with one that is not skipped. */
  lemma NumbersAgree(header: seq<string>, heading: string, s: Script, bare: bool)
    requires IsFileHeader(header)
    ensures var same, next := SameNumbers(PrintDiff(header, heading, s, bare), Start(Source(s))), Start(Source(s));
            && (same <==> ChangedNumbers(s, next) == ShiftedNumbers(s, next))
            && (NoneSkipped(s) ==> (same <==> QuietAfterMarker(s)))
            && (QuietAfterMarker(s) ==> (same <==> QuietAfterSkippedAdd(s) && Covered(s, next)))
  {
    hide ChangedNumbers, ShiftedNumbers, ShownNumbers, Covered, NoneSkipped, QuietAfterMarker, QuietAfterSkippedAdd,
      SameNumbers, PrintDiff, IsFileHeader, VirtualFs.Seen, Start, Source;
    var next := Start(Source(s));
    NumbersOfDiff(header, heading, s, bare);
    SeenIsShifted(s, next);
    if NoneSkipped(s) {
      UnskippedAgree(s, next);
    }
    if QuietAfterMarker(s) {
      SkippedAgree(s, next);
    }
  }

  /** With both a skipped added line and a change after a marker the two shifts can cancel out. */
  lemma ShiftsCancel()
    ensures var s := [Edit(Delete, "x", true), Edit(Add, "++y", false), Edit(Add, "z", false)];
            && !QuietAfterMarker(s) && !NoneSkipped(s)
            && ChangedNumbers(VirtualFs.Seen(s), 1) == ChangedNumbers(s, 1)
  {
    hide ChangedNumbers;
    var third := [Edit(Add, "z", false)];
    var second := [Edit(Add, "++y", false)] + third;
    var s := [Edit(Delete, "x", true)] + second;
    assert s[1] in s && VirtualFs.Skipped(s[1]);
    assert third[0] in second;
    assert third[1..] == [] && second[1..] == third && s[1..] == second;
    ChangedNumbersCons(s, 1);
    ChangedNumbersCons(second, 1);
    ChangedNumbersCons(third, 2);
    NoChanges(3);
    SeenCons(s, 1);
    SeenCons(second, 2);
    SeenCons(third, 2);
    assert !VirtualFs.Skipped(s[0]) && !VirtualFs.Skipped(third[0]);
    assert VirtualFs.Seen([]) == [];
    assert ChangedNumbers(VirtualFs.Seen(third), 2) == {2} == ChangedNumbers(third, 2);
    assert ChangedNumbers(s, 1) == {1, 2} == ChangedNumbers(VirtualFs.Seen(s), 1);
    assert s == [Edit(Delete, "x", true), Edit(Add, "++y", false), Edit(Add, "z", false)];
  }
}
