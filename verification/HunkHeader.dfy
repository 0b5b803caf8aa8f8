/**
 The `@@ -l,s +l,s @@` line of a unified diff: the printer follows POSIX
 (IEEE Std 1003.1-2017, `diff` utility, "Diff -u or -U Output Format"), the
 reader follows the regular expression shared by both parsers.
 */
module HunkHeader {
  import opened Seqs
  import opened Wrappers

  predicate IsDigit(c: char) { '0' <= c <= '9' }

  function DigitOf(n: nat): char
    requires n < 10
  {
    "0123456789"[n]
  }

  function ValueOf(c: char): nat
    requires IsDigit(c)
  {
    (c - '0') as nat
  }

  /** Decimal notation without leading zeros. */
  function Decimal(n: nat): (s: string)
    ensures s != [] && forall c :: c in s ==> IsDigit(c)
  {
    if n < 10 then [DigitOf(n)] else Decimal(n / 10) + [DigitOf(n % 10)]
  }

  /** Python's `int()` on a run of digits. */
  function Number(s: string): nat
    requires forall c :: c in s ==> IsDigit(c)
  {
    if s == [] then 0 else 10 * Number(s[..|s| - 1]) + ValueOf(s[|s| - 1])
  }

  /** The longest prefix made of digits: what `\d+` consumes. */
  function DigitRun(s: string): (n: nat)
    ensures n <= |s| && (forall c :: c in s[..n] ==> IsDigit(c)) && (n < |s| ==> !IsDigit(s[n]))
  {
    if s == [] || !IsDigit(s[0]) then 0
    else
      var n := 1 + DigitRun(s[1..]);
      assert s[..n] == [s[0]] + s[1..][..n - 1];
      n
  }

  /** What follows an optional `,\d+`. */
  function AfterCount(s: string): string {
    if s != [] && s[0] == ',' && DigitRun(s[1..]) > 0 then s[1 + DigitRun(s[1..])..] else s
  }

  /** `^@@ -(\d+)(?:,\d+)? \+(\d+)(?:,\d+)? @@` and the two captured numbers. */
  function Match(line: string): Option<(nat, nat)> {
    if !("@@ -" <= line) then None
    else
      var a := line[4..];
      var n := DigitRun(a);
      var b := AfterCount(a[n..]);
      if n == 0 || !(" +" <= b) then None
      else
        var c := b[2..];
        var m := DigitRun(c);
        if m == 0 || !(" @@" <= AfterCount(c[m..])) then None
        else Some((Number(a[..n]), Number(c[..m])))
  }

  /** POSIX: the count is omitted when it is one. */
  function Range(start: nat, count: nat): string {
    Decimal(start) + if count == 1 then "" else "," + Decimal(count)
  }

  /** `heading` is the section heading git appends after the second `@@`. */
  function Print(oldStart: nat, oldCount: nat, newStart: nat, newCount: nat, heading: string): string {
    "@@ -" + Range(oldStart, oldCount) + " +" + Range(newStart, newCount) + " @@" + heading
  }

  lemma {:induction false} NumberOfDecimal(n: nat)
    ensures Number(Decimal(n)) == n
  {
    if n >= 10 {
      NumberOfDecimal(n / 10);
      assert Decimal(n)[..|Decimal(n)| - 1] == Decimal(n / 10);
    }
  }

  lemma {:induction false} DigitRunStops(digits: string, rest: string)
    requires forall c :: c in digits ==> IsDigit(c)
    requires rest == [] || !IsDigit(rest[0])
    ensures DigitRun(digits + rest) == |digits|
  {
    if digits == [] {
      assert digits + rest == rest;
    } else {
      DigitRunStops(digits[1..], rest);
      assert (digits + rest)[1..] == digits[1..] + rest;
    }
  }

  lemma RangeRead(start: nat, count: nat, rest: string)
    requires rest != [] && !IsDigit(rest[0]) && rest[0] != ','
    ensures var s := Range(start, count) + rest;
            var n := DigitRun(s);
            n > 0 && Number(s[..n]) == start && AfterCount(s[n..]) == rest
  {
    hide Number, DigitRun;
    var digits, tail := Decimal(start), (if count == 1 then "" else "," + Decimal(count)) + rest;
    Regroup(digits, if count == 1 then "" else "," + Decimal(count), rest);
    DigitRunStops(digits, tail);
    NumberOfDecimal(start);
    Split(digits, tail);
    if count != 1 {
      CountRead(Decimal(count), rest);
      assert tail == "," + Decimal(count) + rest;
    } else {
      assert tail == rest;
    }
  }

  lemma Split<T>(a: seq<T>, b: seq<T>)
    ensures (a + b)[..|a|] == a && (a + b)[|a|..] == b
  {
  }

  lemma CountRead(digits: string, rest: string)
    requires digits != "" && forall c :: c in digits ==> IsDigit(c)
    requires rest != [] && !IsDigit(rest[0])
    ensures AfterCount("," + digits + rest) == rest
  {
    hide DigitRun;
    var s := "," + digits + rest;
    DigitRunStops(digits, rest);
    assert s[1..] == digits + rest;
    Split("," + digits, rest);
  }

  lemma MatchOfParts(oldStart: nat, newStart: nat, first: string, second: string, rest: string, end: string)
    requires DigitRun(first) > 0 && Number(first[..DigitRun(first)]) == oldStart
    requires AfterCount(first[DigitRun(first)..]) == rest
    requires rest == " +" + second
    requires DigitRun(second) > 0 && Number(second[..DigitRun(second)]) == newStart
    requires AfterCount(second[DigitRun(second)..]) == end && " @@" <= end
    ensures Match("@@ -" + first) == Some((oldStart, newStart))
  {
    var line := "@@ -" + first;
    assert line[4..] == first;
    assert rest[2..] == second;
    assert " +" <= rest;
  }

  lemma RegroupSix(a: string, b: string, c: string, d: string, e: string, f: string)
    ensures a + b + c + d + e + f == a + (b + (c + (d + (e + f))))
  {
  }

  /** Reading a printed hunk header gives back the two start numbers, whatever the counts and heading. */
  lemma MatchOfPrint(oldStart: nat, oldCount: nat, newStart: nat, newCount: nat, heading: string)
    ensures Match(Print(oldStart, oldCount, newStart, newCount, heading)) == Some((oldStart, newStart))
  {
    var end := " @@" + heading;
    assert end[0] == ' ' && " @@" <= end;
    var second := Range(newStart, newCount) + end;
    var rest := " +" + second;
    assert rest[0] == ' ';
    var first := Range(oldStart, oldCount) + rest;
    RangeRead(oldStart, oldCount, rest);
    RangeRead(newStart, newCount, end);
    MatchOfParts(oldStart, newStart, first, second, rest, end);
    RegroupSix("@@ -", Range(oldStart, oldCount), " +", Range(newStart, newCount), " @@", heading);
  }

  // ------------------------------------------------- exactly what is a hunk header

  predicate Digits(s: string) { s != "" && forall c :: c in s ==> IsDigit(c) }

  /** `(?:,\d+)?` */
  predicate CountPart(s: string) { s == "" || (s[0] == ',' && Digits(s[1..])) }

  /** One text the regular expression matches from its start, with what its groups capture. */
  ghost predicate Reads(line: string, a: string, ac: string, b: string, bc: string, rest: string) {
    && Digits(a) && CountPart(ac) && Digits(b) && CountPart(bc)
    && line == "@@ -" + (a + (ac + (" +" + (b + (bc + (" @@" + rest))))))
  }

  lemma PartRead(digits: string, count: string, rest: string)
    requires Digits(digits) && CountPart(count) && rest != "" && !IsDigit(rest[0]) && rest[0] != ','
    ensures var s := digits + (count + rest);
            var n := DigitRun(s);
            n == |digits| && s[..n] == digits && s[n..] == count + rest && AfterCount(s[n..]) == rest
  {
    hide DigitRun;
    DigitRunStops(digits, count + rest);
    Split(digits, count + rest);
    if count != "" {
      assert count == "," + count[1..];
      CountRead(count[1..], rest);
      assert count + rest == "," + count[1..] + rest;
    } else {
      assert count + rest == rest;
    }
  }

  /** Whatever split of the text the expression may choose, the greedy reading finds its numbers. */
  lemma ReadsMatch(line: string, a: string, ac: string, b: string, bc: string, rest: string)
    requires Reads(line, a, ac, b, bc, rest)
    ensures Match(line) == Some((Number(a), Number(b)))
  {
    hide Number, DigitRun, AfterCount, Digits, CountPart;
    var end := " @@" + rest;
    var second := b + (bc + end);
    var middle := " +" + second;
    var first := a + (ac + middle);
    assert end[0] == ' ' && middle[0] == ' ' && " @@" <= end;
    PartRead(a, ac, middle);
    PartRead(b, bc, end);
    assert |a| > 0 && |b| > 0 by { SomeDigits(a); SomeDigits(b); }
    assert line == "@@ -" + first;
    MatchOfParts(Number(a), Number(b), first, second, middle, end);
  }

  lemma SomeDigits(s: string)
    requires Digits(s)
    ensures |s| > 0
  {
  }

  lemma CountTaken(s: string) returns (count: string)
    ensures CountPart(count) && s == count + AfterCount(s)
  {
    if s != "" && s[0] == ',' && DigitRun(s[1..]) > 0 {
      var n := DigitRun(s[1..]);
      count := s[..1 + n];
      assert count[1..] == s[1..][..n];
      assert s == s[..1 + n] + s[1 + n..];
    } else {
      count := "";
      assert s == count + s;
    }
  }

  lemma CutText(s: string, n: nat)
    requires n <= |s|
    ensures s == s[..n] + s[n..]
  {
  }

  lemma MatchReads(line: string) returns (a: string, ac: string, b: string, bc: string, rest: string)
    requires Match(line).Some?
    ensures Reads(line, a, ac, b, bc, rest)
  {
    hide Number, DigitRun, AfterCount, CountPart;
    var first := line[4..];
    var n := DigitRun(first);
    a := first[..n];
    ac := CountTaken(first[n..]);
    var middle := AfterCount(first[n..]);
    var second := middle[2..];
    var m := DigitRun(second);
    b := second[..m];
    bc := CountTaken(second[m..]);
    var end := AfterCount(second[m..]);
    rest := end[3..];
    CutText(line, 4);
    CutText(first, n);
    CutText(middle, 2);
    CutText(second, m);
    CutText(end, 3);
    assert Digits(a) && Digits(b);
    assert line[..4] == "@@ -" && middle[..2] == " +" && end[..3] == " @@";
  }

  ghost predicate IsHeader(line: string, o: nat, n: nat) {
    exists a, ac, b, bc, rest :: Reads(line, a, ac, b, bc, rest) && Number(a) == o && Number(b) == n
  }

  /** A line is read as a hunk header exactly if it has the form of one, however it
      may be split, and the numbers are the first digits on either side. */
  lemma MatchIff(line: string, o: nat, n: nat)
    ensures Match(line) == Some((o, n)) <==> IsHeader(line, o, n)
  {
    hide Match;
    if Match(line) == Some((o, n)) {
      var a, ac, b, bc, rest := MatchReads(line);
      ReadsMatch(line, a, ac, b, bc, rest);
    }
    if IsHeader(line, o, n) {
      var a, ac, b, bc, rest :| Reads(line, a, ac, b, bc, rest) && Number(a) == o && Number(b) == n;
      ReadsMatch(line, a, ac, b, bc, rest);
    }
  }
}
