/** The hunk loop of `_parse_file_section` (diffgraph/diff_parser.py). */
module DiffParser {
  import opened SortedSets
  import HunkHeader

  datatype HunkSnippet = HunkSnippet(
    beforeLines: seq<string>, afterLines: seq<string>, beforeStart: int, afterStart: int,
    deletionPositions: seq<int>)

  /** A hunk ends at the next hunk header, the next file, or the end of the section. */
  predicate EndsHunk(line: string) {
    HunkHeader.Match(line).Some? || "diff --git" <= line
  }

  predicate Starts(line: string, c: char) { line != "" && line[0] == c }

  function BodyLength(lines: seq<string>): (n: nat)
    ensures n <= |lines|
  {
    if lines == [] || EndsHunk(lines[0]) then 0 else 1 + BodyLength(lines[1..])
  }

  function Removed(body: seq<string>): seq<string> {
    if body == [] then [] else (if Starts(body[0], '-') then [body[0][1..]] else []) + Removed(body[1..])
  }

  function Added(body: seq<string>): seq<string> {
    if body == [] then []
    else (if !Starts(body[0], '-') && Starts(body[0], '+') then [body[0][1..]] else []) + Added(body[1..])
  }

  /** The number of the next line of the new file after `line`. */
  function NextAfter(line: string, after: int): int {
    if Starts(line, '-') || (!Starts(line, '+') && Starts(line, '\\')) then after else after + 1
  }

  function Positions(body: seq<string>, after: int): seq<int> {
    if body == [] then []
    else (if Starts(body[0], '-') && after > 0 then [after] else []) + Positions(body[1..], NextAfter(body[0], after))
  }

  function Changed(body: seq<string>, after: int): set<int> {
    if body == [] then {}
    else (if (Starts(body[0], '-') && after > 0) || (!Starts(body[0], '-') && Starts(body[0], '+'))
          then {after} else {})
         + Changed(body[1..], NextAfter(body[0], after))
  }

  function Hunks(lines: seq<string>): seq<HunkSnippet>
    decreases |lines|
  {
    if lines == [] then []
    else match HunkHeader.Match(lines[0])
      case None => Hunks(lines[1..])
      case Some((o, n)) =>
        var len := BodyLength(lines[1..]);
        var body := lines[1..][..len];
        [HunkSnippet(Removed(body), Added(body), o, n, Positions(body, n))] + Hunks(lines[1..][len..])
  }

  function AllChanged(lines: seq<string>): set<int>
    decreases |lines|
  {
    if lines == [] then {}
    else match HunkHeader.Match(lines[0])
      case None => AllChanged(lines[1..])
      case Some((o, n)) =>
        var len := BodyLength(lines[1..]);
        Changed(lines[1..][..len], n) + AllChanged(lines[1..][len..])
  }

  method ParseFileSection(lines: seq<string>) returns (hunks: seq<HunkSnippet>, afterChangedLines: seq<int>)
    ensures hunks == Hunks(lines)
    ensures Ascending(afterChangedLines) && forall x :: x in afterChangedLines <==> x in AllChanged(lines)
  {
    hide HunkHeader.Match;
    hunks := [];
    var changed: set<int> := {};
    var i := 0;
    while i < |lines|
      invariant 0 <= i <= |lines|
      invariant hunks + Hunks(lines[i..]) == Hunks(lines)
      invariant changed + AllChanged(lines[i..]) == AllChanged(lines)
    {
      ghost var rest := lines[i..];
      assert rest[0] == lines[i] && rest[1..] == lines[i + 1..];
      var m := HunkHeader.Match(lines[i]);
      if m.Some? {
        var snippet, marks;
        snippet, marks, i := ParseHunk(lines, i, m.value.0, m.value.1);
        ghost var len := BodyLength(rest[1..]);
        assert rest[1..][len..] == lines[i..];
        assert hunks + ([snippet] + Hunks(lines[i..])) == (hunks + [snippet]) + Hunks(lines[i..]);
        hunks := hunks + [snippet];
        changed := changed + marks;
      } else {
        i := i + 1;
      }
    }
    assert lines[|lines|..] == [];
    afterChangedLines := Sorted(changed);
  }

  /** What the inner loop has gathered from a hunk body, and the running number of the new file. */
  datatype Gathered = Gathered(removed: seq<string>, added: seq<string>, positions: seq<int>, marks: set<int>)

  ghost function GatheredFrom(body: seq<string>, after: int): Gathered {
    Gathered(Removed(body), Added(body), Positions(body, after), Changed(body, after))
  }

  ghost function Joined(a: Gathered, b: Gathered): Gathered {
    Gathered(a.removed + b.removed, a.added + b.added, a.positions + b.positions, a.marks + b.marks)
  }

  lemma GatherStep(sofar: Gathered, body: seq<string>, after: int, one: Gathered)
    requires body != []
    requires one == Gathered(if Starts(body[0], '-') then [body[0][1..]] else [],
                             if !Starts(body[0], '-') && Starts(body[0], '+') then [body[0][1..]] else [],
                             if Starts(body[0], '-') && after > 0 then [after] else [],
                             if (Starts(body[0], '-') && after > 0) || (!Starts(body[0], '-') && Starts(body[0], '+'))
                             then {after} else {})
    ensures Joined(sofar, GatheredFrom(body, after))
            == Joined(Joined(sofar, one), GatheredFrom(body[1..], NextAfter(body[0], after)))
  {
  }

  /** The inner loop: from the hunk header at `at` to the line that ends the hunk. */
  method ParseHunk(lines: seq<string>, at: nat, beforeStart: nat, afterStart: nat)
    returns (snippet: HunkSnippet, marks: set<int>, i: nat)
    requires at < |lines|
    ensures i == at + 1 + BodyLength(lines[at + 1..])
    ensures var body := lines[at + 1..][..BodyLength(lines[at + 1..])];
            && snippet == HunkSnippet(Removed(body), Added(body), beforeStart, afterStart, Positions(body, afterStart))
            && marks == Changed(body, afterStart)
  {
    hide EndsHunk, Removed, Added, Positions, Changed;
    ghost var rest := lines[at + 1..];
    ghost var len := BodyLength(rest);
    ghost var body := rest[..len];
    var beforeLines, afterLines: seq<string> := [], [];
    var positions: seq<int> := [];
    marks := {};
    var beforeNo: int, afterNo: int := beforeStart, afterStart;
    i := at + 1;
    while i < |lines|
      invariant at + 1 <= i <= at + 1 + len
      invariant i - (at + 1) + BodyLength(lines[i..]) == len
      invariant Joined(Gathered(beforeLines, afterLines, positions, marks), GatheredFrom(body[i - at - 1..], afterNo))
             == GatheredFrom(body, afterStart)
    {
      var line := lines[i];
      if EndsHunk(line) {
        break;
      }
      ghost var k := i - at - 1;
      assert lines[i..][1..] == lines[i + 1..];
      assert body[k..][0] == line && body[k..][1..] == body[k + 1..];
      ghost var sofar := Gathered(beforeLines, afterLines, positions, marks);
      ghost var one;
      ghost var after := afterNo;
      if Starts(line, '-') {
        beforeLines := beforeLines + [line[1..]];
        if afterNo > 0 {
          positions := positions + [afterNo];
          marks := marks + {afterNo};
          one := Gathered([line[1..]], [], [afterNo], {afterNo});
        } else {
          one := Gathered([line[1..]], [], [], {});
        }
        beforeNo := beforeNo + 1;
      } else if Starts(line, '+') {
        afterLines := afterLines + [line[1..]];
        marks := marks + {afterNo};
        one := Gathered([], [line[1..]], [], {afterNo});
        afterNo := afterNo + 1;
      } else if Starts(line, '\\') {
        one := Gathered([], [], [], {});
      } else {
        beforeNo := beforeNo + 1;
        afterNo := afterNo + 1;
        one := Gathered([], [], [], {});
      }
      GatherStep(sofar, body[k..], after, one);
      assert Joined(sofar, one) == Gathered(beforeLines, afterLines, positions, marks);
      i := i + 1;
    }
    assert body[len..] == [];
    assert GatheredFrom([], afterNo) == Gathered([], [], [], {}) by { EmptyGathered(afterNo); }
    snippet := HunkSnippet(beforeLines, afterLines, beforeStart, afterStart, positions);
  }

  lemma EmptyGathered(after: int)
    ensures GatheredFrom([], after) == Gathered([], [], [], {})
  {
  }
}
