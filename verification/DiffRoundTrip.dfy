/** What `build_virtual_file` recovers from a printed edit script, and when that is the script itself. */
module DiffRoundTrip {
  import opened Seqs
  import opened EditScript
  import opened VirtualFs
  import HunkHeader

  // ------------------------------------------------------- reading the result

  /** The contents of the lines that do not carry the marker `skip`. */
  function SideOf(lines: seq<VirtualLine>, skip: char): seq<string> {
    if lines == [] then []
    else (if lines[0].marker == skip then [] else [lines[0].content]) + SideOf(lines[1..], skip)
  }

  function OpOf(marker: char): Op {
    if marker == '-' then Delete else if marker == '+' then Add else Keep
  }

  function ScriptOf(lines: seq<VirtualLine>): Script {
    if lines == [] then [] else [Edit(OpOf(lines[0].marker), lines[0].content, false)] + ScriptOf(lines[1..])
  }

  // ------------------------------------------------------------ parsing steps

  lemma {:induction false} LinesSkipHeader(header: seq<string>, rest: seq<string>, L: int, o: int, n: int)
    requires IsFileHeader(header)
    ensures Lines(header + rest, false, L, o, n) == Lines(rest, false, L, o, n)
  {
    hide HunkHeader.Match, IsMeta, IsFileMarker;
    if header == [] {
      assert header + rest == rest;
    } else {
      assert HunkHeader.Match(header[0]).None?;
      LinesSkipHeader(header[1..], rest, L, o, n);
      assert (header + rest)[0] == header[0] && (header + rest)[1..] == header[1..] + rest;
    }
  }

  /** The script spelled by raw hunk lines. */
  function BodyOf(raw: seq<string>): Script {
    if raw == [] then []
    else (match Read(raw[0]) case Body(op, text) => [Edit(op, text, false)] case _ => []) + BodyOf(raw[1..])
  }

  lemma {:induction false} LinesAreNumbered(raw: seq<string>, L: int, o: int, n: int)
    requires forall line :: line in raw ==> !Read(line).Header?
    ensures Lines(raw, true, L, o, n) == Numbered(BodyOf(raw), L, o, n)
  {
    hide Read;
    if raw != [] {
      var r := Read(raw[0]);
      if r.Body? {
        LinesAreNumbered(raw[1..], L + 1, Bump(r.op, Add, o), Bump(r.op, Delete, n));
        assert BodyOf(raw)[1..] == BodyOf(raw[1..]);
      } else {
        LinesAreNumbered(raw[1..], L, o, n);
        assert BodyOf(raw) == BodyOf(raw[1..]);
      }
    }
  }

  lemma {:induction false} BodyAppend(a: seq<string>, b: seq<string>)
    ensures BodyOf(a + b) == BodyOf(a) + BodyOf(b)
  {
    hide Read;
    if a == [] {
      assert a + b == b;
    } else {
      BodyAppend(a[1..], b);
      HeadAndTail(a, b);
      if Read(a[0]).Body? {
        Regroup([Edit(Read(a[0]).op, Read(a[0]).text, false)], BodyOf(a[1..]), BodyOf(b));
      }
    }
  }

  lemma {:induction false} BodyOfPrinted(s: Script, bare: bool)
    ensures BodyOf(PrintBody(s, bare)) == Seen(s)
    ensures forall line :: line in PrintBody(s, bare) ==> !Read(line).Header?
  {
    hide Read;
    if s != [] {
      var raw := PrintEdit(s[0], bare);
      ReadOfPrinted(s[0], bare);
      ReadOfMarker();
      BodyOfPrinted(s[1..], bare);
      BodyAppend(raw, PrintBody(s[1..], bare));
      assert raw[1..] == if s[0].noEol then [NO_EOL] else [];
      assert [NO_EOL][1..] == [];
      assert BodyOf([NO_EOL]) == [Edit(Keep, NO_EOL, false)];
      assert BodyOf(raw) == SeenEdit(s[0]);
    }
  }

  /** The parser's whole result on a printed script, with no side condition. */
  lemma ParsedDiff(header: seq<string>, heading: string, s: Script, bare: bool)
    requires IsFileHeader(header)
    ensures Parsed(PrintDiff(header, heading, s, bare))
            == Numbered(Seen(s), 0, Start(Base(s)) - 1, Start(Source(s)) - 1)
  {
    hide HunkHeader.Match, HunkHeader.Print, IsFileMarker, IsMeta, IsFileHeader, PrintBody;
    hide Numbered, Seen, Base, Source;
    var at := HunkHeader.Print(Start(Base(s)), |Base(s)|, Start(Source(s)), |Source(s)|, heading);
    var body := PrintBody(s, bare);
    assert PrintDiff(header, heading, s, bare) == header + ([at] + body);
    LinesSkipHeader(header, [at] + body, 0, 0, 0);
    HunkHeader.MatchOfPrint(Start(Base(s)), |Base(s)|, Start(Source(s)), |Source(s)|, heading);
    PrintedHeaderIsRead(Start(Base(s)), |Base(s)|, Start(Source(s)), |Source(s)|, heading);
    assert ([at] + body)[0] == at && ([at] + body)[1..] == body;
    BodyOfPrinted(s, bare);
    LinesAreNumbered(body, 0, Start(Base(s)) - 1, Start(Source(s)) - 1);
  }

  lemma PrintedHeaderIsRead(a: nat, b: nat, c: nat, d: nat, heading: string)
    ensures var at := HunkHeader.Print(a, b, c, d, heading); !IsMeta(at) && !IsFileMarker(at)
  {
    hide HunkHeader.Range;
    var at := HunkHeader.Print(a, b, c, d, heading);
    assert at[0] == '@';
    assert '@' != "diff --git"[0] && '@' != "index "[0] && '@' != "Binary "[0] && '@' != "new file"[0]
        && '@' != "deleted file"[0] && '@' != "old mode"[0] && '@' != "new mode"[0];
  }

  // ------------------------------------------------- several hunks, several files

  lemma LinesCons(raw: seq<string>, L: int, o: int, n: int)
    requires raw != [] && !Read(raw[0]).Header?
    ensures var r := Read(raw[0]);
            Lines(raw, true, L, o, n)
            == if r.Body? then [LineOf(r.op, r.text, L, o, n)]
                               + Lines(raw[1..], true, L + 1, Bump(r.op, Add, o), Bump(r.op, Delete, n))
               else Lines(raw[1..], true, L, o, n)
  {
    hide Read;
  }

  lemma BodyCons(raw: seq<string>, L: int, o: int, n: int)
    requires raw != []
    ensures var r, s := Read(raw[0]), BodyOf(raw[1..]);
            && BodyOf(raw) == (if r.Body? then [Edit(r.op, r.text, false)] + s else s)
            && (r.Body? ==>
                 var (o', n') := (Bump(r.op, Add, o), Bump(r.op, Delete, n));
                 && Numbered(BodyOf(raw), L, o, n) == [LineOf(r.op, r.text, L, o, n)] + Numbered(s, L + 1, o', n')
                 && |Base(BodyOf(raw))| == |Base(s)| + (o' - o) && |Source(BodyOf(raw))| == |Source(s)| + (n' - n))
  {
    hide Read;
    assert BodyOf(raw) != [] && Read(raw[0]).Body? ==> BodyOf(raw)[1..] == BodyOf(raw[1..]);
  }

  lemma {:induction false} LinesThen(raw: seq<string>, rest: seq<string>, L: int, o: int, n: int)
    requires forall line :: line in raw ==> !Read(line).Header?
    ensures var s := BodyOf(raw);
            Lines(raw + rest, true, L, o, n)
            == Numbered(s, L, o, n) + Lines(rest, true, L + |s|, o + |Base(s)|, n + |Source(s)|)
  {
    hide Read, Lines, Numbered, BodyOf, Base, Source;
    if raw == [] {
      assert raw + rest == rest;
      NothingRead(L, o, n);
    } else {
      var r, s := Read(raw[0]), BodyOf(raw[1..]);
      HeadAndTail(raw, rest);
      LinesCons(raw + rest, L, o, n);
      BodyCons(raw, L, o, n);
      if r.Body? {
        var o', n' := Bump(r.op, Add, o), Bump(r.op, Delete, n);
        LinesThen(raw[1..], rest, L + 1, o', n');
        Assembled(Lines(raw + rest, true, L, o, n), [LineOf(r.op, r.text, L, o, n)], Numbered(s, L + 1, o', n'),
                  Lines(rest, true, L + 1 + |s|, o' + |Base(s)|, n' + |Source(s)|),
                  Numbered(BodyOf(raw), L, o, n));
        assert L + |BodyOf(raw)| == L + 1 + |s|;
      } else {
        LinesThen(raw[1..], rest, L, o, n);
      }
    }
  }

  lemma Assembled(all: seq<VirtualLine>, first: seq<VirtualLine>, a: seq<VirtualLine>, b: seq<VirtualLine>,
                  body: seq<VirtualLine>)
    requires all == first + (a + b) && body == first + a
    ensures all == body + b
  {
  }

  lemma NothingRead(L: int, o: int, n: int)
    ensures BodyOf([]) == [] && Numbered([], L, o, n) == [] && Base([]) == [] == Source([])
  {
  }

  /** Every hunk numbered from its own header, L running on. */
  function NumberedHunks(hs: seq<Hunk>, L: int): seq<VirtualLine> {
    if hs == [] then []
    else
      var s := Seen(hs[0].script);
      Numbered(s, L, hs[0].oldStart - 1, hs[0].newStart - 1) + NumberedHunks(hs[1..], L + |s|)
  }

  function SeenLines(hs: seq<Hunk>): nat {
    if hs == [] then 0 else |Seen(hs[0].script)| + SeenLines(hs[1..])
  }

  /** Printed hunks are read one after the other, whatever was read before; what
      follows starts from the numbers the last one has reached. */
  lemma {:induction false} HunksThen(hs: seq<Hunk>, bare: bool, rest: seq<string>, inHunk: bool, L: int, o: int, n: int)
    returns (o': int, n': int)
    ensures Lines(PrintHunks(hs, bare) + rest, inHunk, L, o, n)
            == NumberedHunks(hs, L) + Lines(rest, inHunk || hs != [], L + SeenLines(hs), o', n')
  {
    hide PrintHunk, Seen, Numbered, PrintBody, Lines, Read, BodyOf;
    if hs == [] {
      assert PrintHunks(hs, bare) + rest == rest;
      assert [] + Lines(rest, inHunk, L, o, n) == Lines(rest, inHunk, L, o, n);
      o', n' := o, n;
    } else {
      var h, s := hs[0], Seen(hs[0].script);
      var body, more := PrintBody(h.script, bare), PrintHunks(hs[1..], bare) + rest;
      HunkStart(h, bare, body + more, inHunk, L, o, n);
      HunksCons(hs, bare, rest);
      BodyOfPrinted(h.script, bare);
      LinesThen(body, more, L, h.oldStart - 1, h.newStart - 1);
      o', n' := HunksThen(hs[1..], bare, rest, true, L + |s|, h.oldStart - 1 + |Base(s)|, h.newStart - 1 + |Source(s)|);
      Regroup(Numbered(s, L, h.oldStart - 1, h.newStart - 1), NumberedHunks(hs[1..], L + |s|),
              Lines(rest, true, L + SeenLines(hs), o', n'));
    }
  }

  lemma HunksCons(hs: seq<Hunk>, bare: bool, rest: seq<string>)
    requires hs != []
    ensures |PrintHunk(hs[0], bare)| > 0
    ensures PrintHunks(hs, bare) + rest
            == PrintHunk(hs[0], bare)[..1] + (PrintBody(hs[0].script, bare) + (PrintHunks(hs[1..], bare) + rest))
  {
    hide PrintBody;
    var first, body, more := PrintHunk(hs[0], bare), PrintBody(hs[0].script, bare), PrintHunks(hs[1..], bare);
    assert first == first[..1] + body;
    Regroup(first[..1], body, more + rest);
    Regroup(first, more, rest);
  }

  lemma HunkStart(h: Hunk, bare: bool, more: seq<string>, inHunk: bool, L: int, o: int, n: int)
    ensures |PrintHunk(h, bare)| > 0
    ensures Lines(PrintHunk(h, bare)[..1] + more, inHunk, L, o, n)
            == Lines(more, true, L, h.oldStart - 1, h.newStart - 1)
  {
    hide HunkHeader.Match, HunkHeader.Print, IsMeta, IsFileMarker;
    var at := PrintHunk(h, bare)[0];
    PrintedHeaderIsRead(h.oldStart, |Base(h.script)|, h.newStart, |Source(h.script)|, h.heading);
    HunkHeader.MatchOfPrint(h.oldStart, |Base(h.script)|, h.newStart, |Source(h.script)|, h.heading);
    assert PrintHunk(h, bare)[..1] + more == [at] + more;
    assert ([at] + more)[1..] == more;
  }

  lemma {:induction false} GitHeaderIgnored(header: seq<string>, rest: seq<string>, inHunk: bool, L: int, o: int,
                                            n: int)
    requires IsGitHeader(header)
    ensures Lines(header + rest, inHunk, L, o, n) == Lines(rest, inHunk, L, o, n)
  {
    hide Read, IsGitLine;
    if header == [] {
      assert header + rest == rest;
    } else {
      assert header[0] in header;
      GitLineIgnored(header[0]);
      HeadAndTail(header, rest);
      GitHeaderIgnored(header[1..], rest, inHunk, L, o, n);
    }
  }

  lemma GitLineIgnored(line: string)
    requires IsGitLine(line)
    ensures Read(line).Ignored?
  {
    hide HunkHeader.Match;
    if "--- " <= line {
      assert line[..3] == "---";
    } else if "+++ " <= line {
      assert line[..3] == "+++";
    }
  }

  function AllHunks(ss: seq<Section>): seq<Hunk> {
    if ss == [] then [] else ss[0].hunks + AllHunks(ss[1..])
  }

  lemma {:induction false} NumberedHunksAppend(a: seq<Hunk>, b: seq<Hunk>, L: int)
    ensures NumberedHunks(a + b, L) == NumberedHunks(a, L) + NumberedHunks(b, L + SeenLines(a))
  {
    hide Numbered, Seen;
    if a == [] {
      assert a + b == b;
    } else {
      HeadAndTail(a, b);
      NumberedHunksAppend(a[1..], b, L + |Seen(a[0].script)|);
    }
  }

  /** A whole diff text, of any number of files with any number of hunks: exactly
      the lines of the hunks, numbered by their headers, with L running through. */
  lemma {:induction false} SectionsParsed(ss: seq<Section>, bare: bool, inHunk: bool, L: int, o: int, n: int)
    requires forall x :: x in ss ==> IsGitHeader(x.header)
    ensures Lines(PrintSections(ss, bare), inHunk, L, o, n) == NumberedHunks(AllHunks(ss), L)
  {
    hide Lines, NumberedHunks, IsGitHeader, PrintHunks;
    if ss == [] {
      NoLines([], inHunk, L, o, n);
      NothingNumbered(L);
    } else {
      var x, more := ss[0], PrintSections(ss[1..], bare);
      assert x in ss;
      Regroup(x.header, PrintHunks(x.hunks, bare), more);
      GitHeaderIgnored(x.header, PrintHunks(x.hunks, bare) + more, inHunk, L, o, n);
      var o', n' := HunksThen(x.hunks, bare, more, inHunk, L, o, n);
      SectionsParsed(ss[1..], bare, inHunk || x.hunks != [], L + SeenLines(x.hunks), o', n');
      NumberedHunksAppend(x.hunks, AllHunks(ss[1..]), L);
    }
  }

  lemma NothingNumbered(L: int)
    ensures NumberedHunks([], L) == []
  {
  }

  // ------------------------------------------------ when the round trip holds

  lemma {:induction false} NumberedSpells(s: Script, L: int, o: int, n: int)
    ensures var lines := Numbered(s, L, o, n);
            && |lines| == |s| && SideOf(lines, '+') == Base(s) && SideOf(lines, '-') == Source(s)
            && forall v :: v in lines ==> v.marker in {' ', '-', '+'}
  {
    if s != [] {
      NumberedSpells(s[1..], L + 1, Bump(s[0].op, Add, o), Bump(s[0].op, Delete, n));
    }
  }

  lemma {:induction false} NumberedScript(s: Script, L: int, o: int, n: int)
    requires forall e :: e in s ==> !e.noEol
    ensures ScriptOf(Numbered(s, L, o, n)) == s
  {
    if s != [] {
      NumberedScript(s[1..], L + 1, Bump(s[0].op, Add, o), Bump(s[0].op, Delete, n));
      assert Numbered(s, L, o, n)[1..] == Numbered(s[1..], L + 1, Bump(s[0].op, Add, o), Bump(s[0].op, Delete, n));
    }
  }

  lemma {:induction false} SeenOfClean(s: Script)
    requires Clean(s)
    ensures Seen(s) == s
  {
    if s != [] {
      SeenOfClean(s[1..]);
    }
  }

  /** How often the no-newline marker appears, and how many lines are skipped. */
  function Markers(s: Script): nat {
    if s == [] then 0 else (if s[0].noEol then 1 else 0) + Markers(s[1..])
  }

  function Skips(s: Script, op: Op): nat {
    if s == [] then 0 else (if s[0].op == op && Skipped(s[0]) then 1 else 0) + Skips(s[1..], op)
  }

  /** A marker adds one line to both sides, a skipped line removes one from its own side and is never a marker. */
  lemma {:induction false} SeenSide(s: Script, other: Op)
    requires other != Keep
    ensures var mine := if other == Add then Delete else Add;
            |Side(Seen(s), other)| + Skips(s, mine) == |Side(s, other)| + Markers(s)
    ensures multiset(Side(Seen(s), other))[NO_EOL] == multiset(Side(s, other))[NO_EOL] + Markers(s)
  {
    hide SeenEdit, Skipped;
    if s != [] {
      var e := s[0];
      var rest := Seen(s[1..]);
      SeenSide(s[1..], other);
      SideAppend(SeenEdit(e), rest, other);
      SeenEditCounts(e, other);
      var own: seq<string> := if e.op == other then [] else [e.text];
      assert Side(s, other) == own + Side(s[1..], other);
      var a, b := Side(SeenEdit(e), other), Side(rest, other);
      assert multiset(a + b)[NO_EOL] == multiset(a)[NO_EOL] + multiset(b)[NO_EOL];
    }
  }

  lemma SeenEditCounts(e: Edit, other: Op)
    requires other != Keep
    ensures var mine := if other == Add then Delete else Add;
            var own: seq<string> := if e.op == other then [] else [e.text];
            && |Side(SeenEdit(e), other)| + (if e.op == mine && Skipped(e) then 1 else 0)
               == |own| + (if e.noEol then 1 else 0)
            && multiset(Side(SeenEdit(e), other))[NO_EOL] == multiset(own)[NO_EOL] + if e.noEol then 1 else 0
  {
    SeenEditSide(e, other);
    assert Skipped(e) ==> e.text != NO_EOL by {
      assert NO_EOL[0] == '\\';
    }
  }

  lemma SeenEditSide(e: Edit, other: Op)
    requires other != Keep
    ensures Side(SeenEdit(e), other)
            == (if Skipped(e) || e.op == other then [] else [e.text]) + if e.noEol then [NO_EOL] else []
  {
    var first: Script := if Skipped(e) then [] else [Edit(e.op, e.text, false)];
    var second: Script := if e.noEol then [Edit(Keep, NO_EOL, false)] else [];
    assert SeenEdit(e) == first + second;
    SideAppend(first, second, other);
    assert first != [] ==> first[1..] == [];
    assert second != [] ==> second[1..] == [];
  }

  lemma {:induction false} CleanByCounts(s: Script)
    ensures Clean(s) <==> Markers(s) == 0 && Skips(s, Delete) == 0 && Skips(s, Add) == 0
  {
    if s != [] {
      CleanByCounts(s[1..]);
      assert forall e :: e in s <==> e == s[0] || e in s[1..];
    }
  }

  /** The round trip: the lines marked ` ` or `-` spell the base file and those
      marked ` ` or `+` the source file exactly when no deleted line starts with
      `--`, no added line with `++` and no final newline is missing. In that
      case the whole script comes back, numbered from the top of the file. */
  lemma RoundTrip(header: seq<string>, heading: string, s: Script, bare: bool)
    requires IsFileHeader(header)
    ensures var lines := Parsed(PrintDiff(header, heading, s, bare));
            && (Clean(s) <==> SideOf(lines, '+') == Base(s) && SideOf(lines, '-') == Source(s))
            && (Clean(s) <==> ScriptOf(lines) == s)
            && (Clean(s) ==> lines == Numbered(s, 0, Start(Base(s)) - 1, Start(Source(s)) - 1))
  {
    ParsedDiff(header, heading, s, bare);
    SeenIsScriptIffClean(s, 0, Start(Base(s)) - 1, Start(Source(s)) - 1);
  }

  lemma SeenIsScriptIffClean(s: Script, L: int, o: int, n: int)
    ensures var lines := Numbered(Seen(s), L, o, n);
            && (Clean(s) <==> SideOf(lines, '+') == Base(s) && SideOf(lines, '-') == Source(s))
            && (Clean(s) <==> ScriptOf(lines) == s)
            && (Clean(s) ==> lines == Numbered(s, L, o, n))
  {
    var lines := Numbered(Seen(s), L, o, n);
    NumberedSpells(Seen(s), L, o, n);
    CleanByCounts(s);
    SeenSide(s, Add);
    SeenSide(s, Delete);
    ScriptSpells(lines);
    if Clean(s) {
      SeenOfClean(s);
      NumberedScript(s, L, o, n);
    }
  }

  lemma {:induction false} ScriptSpells(lines: seq<VirtualLine>)
    requires forall v :: v in lines ==> v.marker in {' ', '-', '+'}
    ensures SideOf(lines, '+') == Base(ScriptOf(lines)) && SideOf(lines, '-') == Source(ScriptOf(lines))
  {
    if lines != [] {
      ScriptSpells(lines[1..]);
    }
  }
}
