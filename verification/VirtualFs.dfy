/**
 Parsing a full-context diff into lines with three coordinates
 (diffsearch/virtual_fs.py): L, the old line number and the new one.
 */
module VirtualFs {
  import opened Wrappers
  import opened EditScript
  import opened Seqs
  import HunkHeader

  datatype VirtualLine = VirtualLine(content: string, marker: char, L: int, old_: Option<int>, new_: Option<int>)

  // ---------------------------------------------------------------- parsing

  /** How one raw line of the diff is read once a hunk is open. */
  datatype Reading = Ignored | Header(oldStart: nat, newStart: nat) | Body(op: Op, text: string)

  predicate IsFileMarker(raw: string) { "---" <= raw || "+++" <= raw }

  predicate IsMeta(raw: string) {
    "diff --git" <= raw || "index " <= raw || "Binary " <= raw || "new file" <= raw
    || "deleted file" <= raw || "old mode" <= raw || "new mode" <= raw
  }

  function Read(raw: string): Reading {
    if IsMeta(raw) || IsFileMarker(raw) then Ignored
    else if HunkHeader.Match(raw).Some? then
      var (o, n) := HunkHeader.Match(raw).value;
      Header(o, n)
    else if "-" <= raw then Body(Delete, raw[1..])
    else if "+" <= raw then Body(Add, raw[1..])
    else Body(Keep, if " " <= raw then raw[1..] else raw)
  }

  /** One line of the virtual file, given the numbers used up so far. */
  function LineOf(op: Op, text: string, L: int, old_: int, new_: int): VirtualLine {
    VirtualLine(text, Prefix(op), L + 1,
                if op == Add then None else Some(old_ + 1),
                if op == Delete then None else Some(new_ + 1))
  }

  function Bump(op: Op, other: Op, n: int): int { if op == other then n else n + 1 }

  /** The lines read from `raw`, with L, old and new numbers continuing from the given ones. */
  function Lines(raw: seq<string>, inHunk: bool, L: int, old_: int, new_: int): seq<VirtualLine> {
    if raw == [] then []
    else match Read(raw[0])
      case Ignored => Lines(raw[1..], inHunk, L, old_, new_)
      case Header(o, n) => Lines(raw[1..], true, L, o - 1, n - 1)
      case Body(op, text) =>
        if !inHunk then Lines(raw[1..], inHunk, L, old_, new_)
        else [LineOf(op, text, L, old_, new_)]
             + Lines(raw[1..], inHunk, L + 1, Bump(op, Add, old_), Bump(op, Delete, new_))
  }

  /** The lines of a whole diff text. */
  function Parsed(diff: seq<string>): seq<VirtualLine> { Lines(diff, false, 0, 0, 0) }

  method ParseLines(diff: seq<string>) returns (lines: seq<VirtualLine>)
    ensures lines == Parsed(diff)
  {
    hide HunkHeader.Match, IsMeta, IsFileMarker, Lines;
    lines := [];
    var L: int, oldN: int, newN: int := 0, 0, 0;
    var inHunk := false;
    for i := 0 to |diff|
      invariant lines + Lines(diff[i..], inHunk, L, oldN, newN) == Parsed(diff)
    {
      var raw := diff[i];
      LinesStep(diff, i, inHunk, L, oldN, newN);
      if IsMeta(raw) || IsFileMarker(raw) { continue; }
      var m := HunkHeader.Match(raw);
      if m.Some? {
        oldN := (m.value.0 as int) - 1;
        newN := (m.value.1 as int) - 1;
        inHunk := true;
        continue;
      }
      if !inHunk { continue; }
      ghost var before := lines;
      if "-" <= raw {
        oldN := oldN + 1;
        L := L + 1;
        lines := lines + [VirtualLine(raw[1..], '-', L, Some(oldN), None)];
      } else if "+" <= raw {
        newN := newN + 1;
        L := L + 1;
        lines := lines + [VirtualLine(raw[1..], '+', L, None, Some(newN))];
      } else {
        oldN := oldN + 1;
        newN := newN + 1;
        L := L + 1;
        lines := lines + [VirtualLine(if " " <= raw then raw[1..] else raw, ' ', L, Some(oldN), Some(newN))];
      }
      Regroup(before, [lines[|before|]], Lines(diff[i + 1..], inHunk, L, oldN, newN));
    }
    NoLines(diff[|diff|..], inHunk, L, oldN, newN);
  }

  lemma LinesStep(diff: seq<string>, i: nat, inHunk: bool, L: int, o: int, n: int)
    requires i < |diff|
    ensures var rest := diff[i + 1..];
            Lines(diff[i..], inHunk, L, o, n) ==
            match Read(diff[i])
            case Ignored => Lines(rest, inHunk, L, o, n)
            case Header(o', n') => Lines(rest, true, L, o' - 1, n' - 1)
            case Body(op, text) =>
              if !inHunk then Lines(rest, inHunk, L, o, n)
              else [LineOf(op, text, L, o, n)] + Lines(rest, inHunk, L + 1, Bump(op, Add, o), Bump(op, Delete, n))
  {
    hide Read;
    assert diff[i..][0] == diff[i] && diff[i..][1..] == diff[i + 1..];
  }

  lemma NoLines(raw: seq<string>, inHunk: bool, L: int, o: int, n: int)
    requires raw == []
    ensures Lines(raw, inHunk, L, o, n) == []
  {
  }

  // ------------------------------------------------- what the parser recovers

  /** What a script looks like to the parser: raw lines `---...` and `+++...`
      are skipped, no-newline markers become context lines. */
  function Seen(s: Script): Script {
    if s == [] then [] else SeenEdit(s[0]) + Seen(s[1..])
  }

  function SeenEdit(e: Edit): Script {
    (if Skipped(e) then [] else [Edit(e.op, e.text, false)])
    + if e.noEol then [Edit(Keep, NO_EOL, false)] else []
  }

  predicate Skipped(e: Edit) {
    (e.op == Delete && "--" <= e.text) || (e.op == Add && "++" <= e.text)
  }

  predicate Clean(s: Script) {
    forall e :: e in s ==> !Skipped(e) && !e.noEol
  }

  /** The lines of a script numbered from the given counters. */
  function Numbered(s: Script, L: int, old_: int, new_: int): seq<VirtualLine> {
    if s == [] then []
    else [LineOf(s[0].op, s[0].text, L, old_, new_)]
         + Numbered(s[1..], L + 1, Bump(s[0].op, Add, old_), Bump(s[0].op, Delete, new_))
  }

  lemma NotMeta(raw: string)
    requires raw == "" || raw[0] in {' ', '-', '+', '\\'}
    ensures !IsMeta(raw) && HunkHeader.Match(raw).None?
  {
    if raw != "" {
      var c := raw[0];
      assert c != "diff --git"[0] && c != "index "[0] && c != "Binary "[0] && c != "new file"[0]
          && c != "deleted file"[0] && c != "old mode"[0] && c != "new mode"[0] && c != "@@ -"[0];
    }
  }

  lemma ReadOfPrinted(e: Edit, bare: bool)
    ensures Read(PrintEdit(e, bare)[0]) == if Skipped(e) then Ignored else Body(e.op, e.text)
  {
    hide HunkHeader.Match, IsMeta;
    var raw := PrintEdit(e, bare)[0];
    NotMeta(raw);
    if raw != "" {
      assert raw[0] == Prefix(e.op) && raw[1..] == e.text;
      assert "---" <= raw <==> raw[0] == '-' && "--" <= raw[1..];
      assert "+++" <= raw <==> raw[0] == '+' && "++" <= raw[1..];
    }
  }

  lemma ReadOfMarker()
    ensures Read(NO_EOL) == Body(Keep, NO_EOL)
  {
    hide HunkHeader.Match, IsMeta;
    assert NO_EOL[0] == '\\';
    NotMeta(NO_EOL);
  }
}
