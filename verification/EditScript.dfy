/**
 The abstract meaning of a full-context unified diff of one file: an edit
 script. Its printer is the reference both parsers of the repository are
 measured against (IEEE Std 1003.1-2017, `diff` utility, "Diff -u or -U Output
 Format", with git's marker for a missing final newline).
 */
module EditScript {
  import opened Seqs
  import HunkHeader

  datatype Op = Keep | Delete | Add

  /** `noEol`: git prints its no-newline marker after this line. */
  datatype Edit = Edit(op: Op, text: string, noEol: bool)

  type Script = seq<Edit>

  const NO_EOL := "\\ No newline at end of file"

  function Side(s: Script, other: Op): seq<string> {
    if s == [] then []
    else (if s[0].op == other then [] else [s[0].text]) + Side(s[1..], other)
  }

  /** The file before the change. */
  function Base(s: Script): seq<string> { Side(s, Add) }

  /** The file after the change. */
  function Source(s: Script): seq<string> { Side(s, Delete) }

  function Texts(s: Script, op: Op): seq<string> {
    if s == [] then [] else (if s[0].op == op then [s[0].text] else []) + Texts(s[1..], op)
  }

  function Count(s: Script, op: Op): nat { |Texts(s, op)| }

  function Prefix(op: Op): char {
    match op case Keep => ' ' case Delete => '-' case Add => '+'
  }

  /** `bare`: an empty context line is printed without its leading space. */
  function PrintEdit(e: Edit, bare: bool): seq<string> {
    [if bare && e.op == Keep && e.text == "" then "" else [Prefix(e.op)] + e.text]
    + if e.noEol then [NO_EOL] else []
  }

  function PrintBody(s: Script, bare: bool): seq<string> {
    if s == [] then [] else PrintEdit(s[0], bare) + PrintBody(s[1..], bare)
  }

  /** POSIX numbers an empty range from the line before it, so a side without lines starts at 0. */
  function Start(side: seq<string>): nat { if side == [] then 0 else 1 }

  /** A one-hunk full-context diff: file header, hunk header, every line of the file. */
  function PrintDiff(header: seq<string>, heading: string, s: Script, bare: bool): seq<string> {
    header
    + [HunkHeader.Print(Start(Base(s)), |Base(s)|, Start(Source(s)), |Source(s)|, heading)]
    + PrintBody(s, bare)
  }

  /** One printed hunk of a diff with any amount of context. */
  datatype Hunk = Hunk(oldStart: nat, newStart: nat, heading: string, script: Script)

  function PrintHunk(h: Hunk, bare: bool): seq<string> {
    [HunkHeader.Print(h.oldStart, |Base(h.script)|, h.newStart, |Source(h.script)|, h.heading)]
    + PrintBody(h.script, bare)
  }

  function PrintHunks(hs: seq<Hunk>, bare: bool): seq<string> {
    if hs == [] then [] else PrintHunk(hs[0], bare) + PrintHunks(hs[1..], bare)
  }

  /** The part of a diff that belongs to one file. */
  datatype Section = Section(header: seq<string>, hunks: seq<Hunk>)

  function PrintSections(ss: seq<Section>, bare: bool): seq<string> {
    if ss == [] then [] else ss[0].header + PrintHunks(ss[0].hunks, bare) + PrintSections(ss[1..], bare)
  }

  /** The lines git prints above the hunks of a file whose name and mode it kept, changed, added or deleted. */
  predicate IsGitHeader(header: seq<string>) { forall line :: line in header ==> IsGitLine(line) }

  predicate IsGitLine(line: string) {
    "diff --git" <= line || "index " <= line || "--- " <= line || "+++ " <= line || "new file" <= line
    || "deleted file" <= line || "old mode" <= line || "new mode" <= line || "Binary " <= line
  }

  /** A file header holds no line that reads as a hunk header. */
  predicate IsFileHeader(header: seq<string>) {
    forall line :: line in header ==> HunkHeader.Match(line).None?
  }

  lemma {:induction false} SideAppend(s: Script, t: Script, other: Op)
    ensures Side(s + t, other) == Side(s, other) + Side(t, other)
  {
    if s == [] {
      assert s + t == t;
    } else {
      var first := if s[0].op == other then [] else [s[0].text];
      SideAppend(s[1..], t, other);
      HeadAndTail(s, t);
      Regroup(first, Side(s[1..], other), Side(t, other));
    }
  }

  lemma {:induction false} TextsAppend(s: Script, t: Script, op: Op)
    ensures Texts(s + t, op) == Texts(s, op) + Texts(t, op)
  {
    if s == [] {
      assert s + t == t;
    } else {
      var first := if s[0].op == op then [s[0].text] else [];
      TextsAppend(s[1..], t, op);
      HeadAndTail(s, t);
      Regroup(first, Texts(s[1..], op), Texts(t, op));
    }
  }

  /** The three kinds of lines make up the script. */
  lemma {:induction false} SidesCount(s: Script)
    ensures |Base(s)| + Count(s, Add) == |s| == |Source(s)| + Count(s, Delete)
  {
    if s != [] {
      SidesCount(s[1..]);
    }
  }
}
