/** Repository addresses `bitbucket://<handle>[/<project>[/<repo>]]` (diffgraph/repo_uri.py). */
module RepoUri {
  import opened Wrappers
  import opened Seqs

  datatype Uri = Uri(handle: string, project: Option<string>, repo: Option<string>)

  datatype ParseError = WrongScheme | NoHandle | TooManySegments | EmptySegment

  datatype Parsed = Ok(uri: Uri) | Err(error: ParseError)

  const SCHEME := "bitbucket://"

  // ------------------------------------------------------------- string helpers

  function RStrip(s: string): (r: string)
    ensures r <= s && (r == "" || r[|r| - 1] != '/')
  {
    if s != "" && s[|s| - 1] == '/' then RStrip(s[..|s| - 1]) else s
  }

  /** `s.split("/")`. */
  function Split(s: string): (parts: seq<string>)
    ensures parts != []
  {
    if s == "" then [""]
    else
      var rest := Split(s[1..]);
      if s[0] == '/' then [""] + rest else [[s[0]] + rest[0]] + rest[1..]
  }

  /** `"/".join(parts)`. */
  function Join(parts: seq<string>): string {
    if parts == [] then "" else if |parts| == 1 then parts[0] else parts[0] + "/" + Join(parts[1..])
  }

  // ---------------------------------------------------------- printer and parser

  function Given(part: Option<string>): seq<string> {
    match part case None => [] case Some(x) => [x]
  }

  function Segments(u: Uri): seq<string> { [u.handle] + Given(u.project) + Given(u.repo) }

  function Print(u: Uri): string { SCHEME + Join(Segments(u)) }

  function Parse(s: string): Parsed {
    if !(SCHEME <= s) then Err(WrongScheme)
    else
      var rest := RStrip(s[|SCHEME|..]);
      if rest == "" then Err(NoHandle)
      else
        var parts := Split(rest);
        if |parts| > 3 then Err(TooManySegments)
        else if "" in parts then Err(EmptySegment)
        else Ok(Uri(parts[0], if |parts| >= 2 then Some(parts[1]) else None,
                    if |parts| >= 3 then Some(parts[2]) else None))
  }

  predicate IsSegment(s: string) { s != "" && '/' !in s }

  /** Segments without a slash, none empty, and no repository without its project. */
  predicate WellFormed(u: Uri) {
    && IsSegment(u.handle)
    && (u.project.Some? ==> IsSegment(u.project.value))
    && (u.repo.Some? ==> IsSegment(u.repo.value) && u.project.Some?)
  }

  // ----------------------------------------------------------------- split and join

  lemma {:induction false} JoinOfSplit(s: string)
    ensures Join(Split(s)) == s
    ensures forall p :: p in Split(s) ==> '/' !in p
  {
    if s != "" {
      var rest := Split(s[1..]);
      JoinOfSplit(s[1..]);
      if s[0] == '/' {
        assert Split(s)[1..] == rest;
      } else {
        JoinGrows(s[0], rest);
      }
    }
  }

  lemma JoinGrows(c: char, parts: seq<string>)
    requires parts != []
    ensures Join([[c] + parts[0]] + parts[1..]) == [c] + Join(parts)
  {
    var grown := [[c] + parts[0]] + parts[1..];
    if |parts| > 1 {
      assert grown[1..] == parts[1..];
      Regroup([c], parts[0], "/" + Join(parts[1..]));
      Regroup([c] + parts[0], "/", Join(parts[1..]));
      Regroup(parts[0], "/", Join(parts[1..]));
    }
  }

  lemma {:induction false} SplitOne(a: string)
    requires '/' !in a
    ensures Split(a) == [a]
  {
    if a != "" {
      SplitOne(a[1..]);
      assert [a[0]] + a[1..] == a;
    }
  }

  lemma {:induction false} SplitFirst(a: string, b: string)
    requires '/' !in a
    ensures Split(a + "/" + b) == [a] + Split(b)
  {
    var s := a + "/" + b;
    if a == "" {
      assert s[1..] == b;
    } else {
      SplitFirst(a[1..], b);
      assert s[1..] == a[1..] + "/" + b;
      assert [a[0]] + a[1..] == a;
      assert s[0] == a[0];
    }
  }

  lemma {:induction false} SplitOfJoin(parts: seq<string>)
    requires parts != [] && forall p :: p in parts ==> '/' !in p
    ensures Split(Join(parts)) == parts
  {
    if |parts| == 1 {
      SplitOne(parts[0]);
    } else {
      SplitOfJoin(parts[1..]);
      SplitFirst(parts[0], Join(parts[1..]));
    }
  }

  lemma {:induction false} JoinEnd(parts: seq<string>)
    requires parts != [] && parts[|parts| - 1] != ""
    ensures Join(parts) != ""
    ensures var last := parts[|parts| - 1];
            Join(parts)[|Join(parts)| - 1] == last[|last| - 1]
  {
    if |parts| > 1 {
      JoinEnd(parts[1..]);
    }
  }

  lemma RStripDone(s: string)
    ensures s == "" || s[|s| - 1] != '/' ==> RStrip(s) == s
  {
  }

  lemma {:induction false} RStripAppend(a: string, b: string)
    requires RStrip(b) != ""
    ensures RStrip(a + b) == a + RStrip(b)
  {
    if b[|b| - 1] == '/' {
      RStripAppend(a, b[..|b| - 1]);
      FrontAndLast(a, b);
    } else {
      assert (a + b)[|a + b| - 1] == b[|b| - 1];
    }
  }

  lemma {:induction false} RStripTwice(s: string)
    ensures RStrip(RStrip(s)) == RStrip(s)
    ensures SCHEME <= RStrip(s) ==> SCHEME <= s && RStrip(s)[|SCHEME|..] == RStrip(RStrip(s)[|SCHEME|..])
  {
    if s != "" && s[|s| - 1] == '/' {
      RStripTwice(s[..|s| - 1]);
    } else if SCHEME <= s && |s| > |SCHEME| {
      assert s[|SCHEME|..][|s| - |SCHEME| - 1] == s[|s| - 1];
    }
  }

  // ----------------------------------------------------------------- complaints

  function Slashes(s: string): nat {
    if s == "" then 0 else Slashes(s[1..]) + if s[0] == '/' then 1 else 0
  }

  lemma {:induction false} SplitCounts(s: string)
    ensures |Split(s)| == Slashes(s) + 1
  {
    if s != "" {
      SplitCounts(s[1..]);
    }
  }

  /** Position `i` is where a segment should start, but a slash or the end stands there. */
  predicate GapAt(s: string, i: nat)
    requires i <= |s|
  {
    (i == 0 || s[i - 1] == '/') && (i == |s| || s[i] == '/')
  }

  lemma {:induction false} SplitGaps(s: string)
    ensures Split(s)[0] == "" <==> GapAt(s, 0)
    ensures "" in Split(s)[1..] <==> exists i: nat :: 0 < i <= |s| && GapAt(s, i)
  {
    if s != "" {
      var t, rest := s[1..], Split(s[1..]);
      SplitGaps(t);
      forall i: nat | 1 < i <= |s| ensures GapAt(s, i) <==> GapAt(t, i - 1) {
      }
      assert GapAt(s, 1) <==> s[0] == '/' && GapAt(t, 0);
      if exists i: nat :: 0 < i <= |t| && GapAt(t, i) {
        var i: nat :| 0 < i <= |t| && GapAt(t, i);
        assert GapAt(s, i + 1);
      }
      assert rest == [rest[0]] + rest[1..];
      assert Split(s)[1..] == if s[0] == '/' then rest else rest[1..];
    }
  }

  /** Which complaint the parser has: the wrong scheme; nothing but slashes behind
      it; more than two slashes in what is left without the trailing ones; a
      segment missing. */
  lemma ParseComplains(s: string)
    ensures Parse(s) == Err(WrongScheme) <==> !(SCHEME <= s)
    ensures SCHEME <= s ==>
              var rest := RStrip(s[|SCHEME|..]);
              && (Parse(s) == Err(NoHandle) <==> rest == "")
              && (Parse(s) == Err(TooManySegments) <==> Slashes(rest) > 2)
              && (Parse(s) == Err(EmptySegment) <==>
                   rest != "" && Slashes(rest) <= 2 && exists i: nat :: i <= |rest| && GapAt(rest, i))
  {
    if SCHEME <= s {
      var rest := RStrip(s[|SCHEME|..]);
      SplitCounts(rest);
      SplitGaps(rest);
      var parts := Split(rest);
      assert parts == [parts[0]] + parts[1..];
      assert "" in parts <==> parts[0] == "" || "" in parts[1..];
    }
  }

  // ------------------------------------------------------------------- round trips

  /** Parsing yields well-formed addresses only, and printing one gives back the
      text without its trailing slashes. */
  lemma PrintOfParse(s: string)
    requires Parse(s).Ok?
    ensures WellFormed(Parse(s).uri)
    ensures Print(Parse(s).uri) == RStrip(s)
  {
    var tail := s[|SCHEME|..];
    var parts := Split(RStrip(tail));
    JoinOfSplit(RStrip(tail));
    assert forall i :: 0 <= i < |parts| ==> parts[i] in parts;
    assert Segments(Parse(s).uri) == parts;
    RStripAppend(SCHEME, tail);
    assert s == SCHEME + tail;
  }

  /** Parsing a printed address gives it back exactly when it is well formed. */
  lemma ParseOfPrint(u: Uri)
    ensures Parse(Print(u)) == Ok(u) <==> WellFormed(u)
  {
    hide Join, Split, RStrip;
    if WellFormed(u) {
      var parts := Segments(u);
      JoinEnd(parts);
      SplitOfJoin(parts);
      RStripDone(Join(parts));
      assert Print(u)[|SCHEME|..] == Join(parts);
    } else if Parse(Print(u)) == Ok(u) {
      PrintOfParse(Print(u));
    }
  }

  lemma PrintInjective(u: Uri, v: Uri)
    requires WellFormed(u) && WellFormed(v)
    ensures Print(u) == Print(v) <==> u == v
  {
    ParseOfPrint(u);
    ParseOfPrint(v);
  }

  /** The parser accepts exactly the printed well-formed addresses, with any
      number of slashes behind them, and reads the address printed. */
  lemma ParseAccepts(s: string, u: Uri)
    ensures Parse(s) == Ok(u) <==> WellFormed(u) && RStrip(s) == Print(u)
  {
    if Parse(s) == Ok(u) {
      PrintOfParse(s);
    }
    if WellFormed(u) && RStrip(s) == Print(u) {
      ParseOfPrint(u);
      ParsedStripped(s);
    }
  }

  /** Trailing slashes make no difference when anything else follows the scheme. */
  lemma ParsedStripped(s: string)
    requires SCHEME <= RStrip(s)
    ensures Parse(s) == Parse(RStrip(s))
  {
    RStripTwice(s);
    var tail := s[|SCHEME|..];
    assert s == SCHEME + tail;
    StrippedTail(s, tail);
  }

  lemma {:induction false} StrippedTail(s: string, tail: string)
    requires s == SCHEME + tail && SCHEME <= RStrip(s)
    ensures RStrip(tail) == RStrip(s)[|SCHEME|..]
  {
    assert tail == "" ==> s == SCHEME;
    if tail != "" {
      assert s[|s| - 1] == tail[|tail| - 1];
      if tail[|tail| - 1] == '/' {
        assert s[..|s| - 1] == SCHEME + tail[..|tail| - 1];
        StrippedTail(s[..|s| - 1], tail[..|tail| - 1]);
      }
    }
  }

  // ------------------------------------------------------------ tool parameters

  const DEFAULT := "default"

  datatype Complaint = Invalid(error: ParseError) | OtherRepo

  predicate IsDefault(value: Option<string>) {
    match value case None => true case Some(x) => x == "" || x == DEFAULT
  }

  /** `resolve_repo_param`: compares the printed forms. */
  function ResolveRepo(value: Option<string>, ctx: Option<Uri>): (Option<Uri>, Option<Complaint>) {
    if IsDefault(value) then (ctx, None)
    else match Parse(value.value)
      case Err(e) => (None, Some(Invalid(e)))
      case Ok(u) =>
        if ctx.Some? && Print(u) == Print(ctx.value) then (Some(u), None) else (Some(u), Some(OtherRepo))
  }

  // -------------------------------------------- the context from a pull request URL

  /** The length of the longest slash-free prefix: what `[^/]+` consumes. */
  function SegmentLength(s: string): (n: nat)
    ensures n <= |s| && '/' !in s[..n] && (n < |s| ==> s[n] == '/')
  {
    if s == "" || s[0] == '/' then 0
    else
      var n := 1 + SegmentLength(s[1..]);
      assert s[..n] == [s[0]] + s[1..][..n - 1];
      n
  }

  /** `/projects/([^/]+)/repos/([^/]+)` at the start of `s`. */
  function MatchHere(s: string): Option<(string, string)> {
    if !("/projects/" <= s) then None
    else
      var a := s[|"/projects/"|..];
      var n := SegmentLength(a);
      if n == 0 || !("/repos/" <= a[n..]) then None
      else
        var b := a[n..][|"/repos/"|..];
        var m := SegmentLength(b);
        if m == 0 then None else Some((a[..n], b[..m]))
  }

  /** `re.search`: the leftmost match. */
  function Search(s: string): Option<(string, string)> {
    if MatchHere(s).Some? || s == "" then MatchHere(s) else Search(s[1..])
  }

  /** `ctx_repo_uri_from_pr_url`. */
  function CtxFromUrl(url: string, handle: string): Option<Uri> {
    match Search(url) case None => None case Some((p, r)) => Some(Uri(handle, Some(p), Some(r)))
  }

  lemma {:induction false} SegmentEnds(a: string, b: string)
    requires '/' !in a && (b == "" || b[0] == '/')
    ensures SegmentLength(a + b) == |a|
  {
    if a == "" {
      assert a + b == b;
    } else {
      assert (a + b)[1..] == a[1..] + b;
      SegmentEnds(a[1..], b);
    }
  }

  /** `s` starts with the path of repository `r` of project `p`. */
  ghost predicate IsRepoPath(s: string, p: string, r: string) {
    && IsSegment(p) && IsSegment(r)
    && exists rest :: s == "/projects/" + p + "/repos/" + r + rest && (rest == "" || rest[0] == '/')
  }

  lemma MatchHereReads(s: string, p: string, r: string)
    ensures MatchHere(s) == Some((p, r)) <==> IsRepoPath(s, p, r)
  {
    if MatchHere(s) == Some((p, r)) {
      PathOfMatch(s, p, r);
    }
    if IsRepoPath(s, p, r) {
      var rest :| s == "/projects/" + p + "/repos/" + r + rest && (rest == "" || rest[0] == '/');
      var b := r + rest;
      var tail := "/repos/" + b;
      Regroup("/projects/" + p + "/repos/", r, rest);
      Regroup("/projects/" + p, "/repos/", b);
      Regroup("/projects/", p, tail);
      assert s[|"/projects/"|..] == p + tail;
      SegmentEnds(p, tail);
      assert (p + tail)[|p|..] == tail && (p + tail)[..|p|] == p && tail[|"/repos/"|..] == b;
      SegmentEnds(r, rest);
      assert b[..|r|] == r;
    }
  }

  lemma PathOfMatch(s: string, p: string, r: string)
    requires MatchHere(s) == Some((p, r))
    ensures IsRepoPath(s, p, r)
  {
    hide SegmentLength, IsRepoPath, IsSegment;
    var a := s[|"/projects/"|..];
    var n := SegmentLength(a);
    var b := a[n..][|"/repos/"|..];
    var m := SegmentLength(b);
    Glued("/projects/", a, s);
    Glued("/repos/", b, a[n..]);
    CutAt(a, n);
    CutAt(b, m);
    PathParts(a[..n], b[..m], b[m..]);
    PathIsRepo(s, a[..n], b[..m], b[m..]);
  }

  lemma CutAt(s: string, n: nat)
    requires n <= |s| && '/' !in s[..n] && (n < |s| ==> s[n] == '/')
    ensures s == s[..n] + s[n..] && (n > 0 ==> IsSegment(s[..n])) && (s[n..] == "" || s[n..][0] == '/')
  {
  }

  lemma PathIsRepo(s: string, p: string, r: string, rest: string)
    requires IsSegment(p) && IsSegment(r) && (rest == "" || rest[0] == '/')
    requires s == "/projects/" + p + "/repos/" + r + rest
    ensures IsRepoPath(s, p, r)
  {
  }

  lemma Glued(pre: string, tail: string, all: string)
    requires pre <= all && tail == all[|pre|..]
    ensures all == pre + tail
  {
  }

  lemma PathParts(p: string, r: string, rest: string)
    ensures "/projects/" + (p + ("/repos/" + (r + rest))) == "/projects/" + p + "/repos/" + r + rest
  {
    Regroup("/projects/" + p + "/repos/", r, rest);
    Regroup("/projects/" + p, "/repos/", r + rest);
    Regroup("/projects/", p, "/repos/" + (r + rest));
  }

  /** The leftmost place where a repository path starts. */
  ghost predicate FoundAt(s: string, p: string, r: string, k: nat) {
    && k <= |s| && IsRepoPath(s[k..], p, r)
    && forall j: nat :: j < k ==> MatchHere(s[j..]).None?
  }

  /** The search gives project and repository, in this order, of the leftmost
      repository path in the URL, and nothing exactly when there is none. */
  lemma {:induction false} SearchReads(s: string, p: string, r: string)
    ensures Search(s) == Some((p, r)) <==> exists k: nat :: FoundAt(s, p, r, k)
  {
    hide MatchHere, IsRepoPath;
    MatchHereReads(s, p, r);
    assert s[0..] == s;
    if MatchHere(s).Some? || s == "" {
      FoundHere(s, p, r);
    } else {
      SearchReads(s[1..], p, r);
      if exists k: nat :: FoundAt(s[1..], p, r, k) {
        var k: nat :| FoundAt(s[1..], p, r, k);
        FoundLater(s, p, r, k);
        assert FoundAt(s, p, r, k + 1);
      }
      if exists k: nat :: FoundAt(s, p, r, k) {
        var k: nat :| FoundAt(s, p, r, k);
        if k > 0 {
          FoundLater(s, p, r, k - 1);
        }
      }
    }
  }

  lemma FoundHere(s: string, p: string, r: string)
    requires MatchHere(s).Some? || s == ""
    ensures (exists k: nat :: FoundAt(s, p, r, k)) <==> IsRepoPath(s, p, r)
  {
    hide MatchHere, IsRepoPath;
    assert s[0..] == s;
    if IsRepoPath(s, p, r) {
      assert FoundAt(s, p, r, 0);
    }
    assert forall k: nat :: FoundAt(s, p, r, k) ==> k == 0;
  }

  lemma FoundLater(s: string, p: string, r: string, k: nat)
    requires s != "" && MatchHere(s).None?
    ensures FoundAt(s[1..], p, r, k) <==> FoundAt(s, p, r, k + 1)
  {
    hide MatchHere, IsRepoPath;
    var t := s[1..];
    forall j: nat | j <= |t| ensures t[j..] == s[j + 1..] {
    }
    assert s[0..] == s;
    if FoundAt(t, p, r, k) {
      forall j: nat | j < k + 1 ensures MatchHere(s[j..]).None? {
        if j > 0 {
          assert t[j - 1..] == s[j..];
        }
      }
    }
    if FoundAt(s, p, r, k + 1) {
      forall j: nat | j < k ensures MatchHere(t[j..]).None? {
        assert t[j..] == s[j + 1..];
      }
    }
  }

  /** The context of a pull request is the repository its URL names. */
  lemma CtxOfUrl(url: string, handle: string, p: string, r: string, k: nat)
    requires FoundAt(url, p, r, k)
    ensures CtxFromUrl(url, handle) == Some(Uri(handle, Some(p), Some(r)))
  {
    SearchReads(url, p, r);
  }

  lemma {:induction false} SearchSegments(s: string)
    ensures Search(s).Some? ==> IsSegment(Search(s).value.0) && IsSegment(Search(s).value.1)
  {
    if MatchHere(s).None? && s != "" {
      SearchSegments(s[1..]);
    }
  }

  /** A value left out, empty or `default` stands for the context, whatever it
      is. Any other gives the address it prints, or the parser's complaint. */
  lemma ResolveAnswers(value: Option<string>, ctx: Option<Uri>)
    ensures value in {None, Some(""), Some("default")} ==> ResolveRepo(value, ctx) == (ctx, None)
    ensures value !in {None, Some(""), Some("default")} ==>
              var (uri, complaint) := ResolveRepo(value, ctx);
              && (uri.None? <==> complaint.Some? && complaint.value.Invalid?)
              && (uri.None? ==> Parse(value.value) == Err(complaint.value.error))
              && (uri.Some? ==> WellFormed(uri.value) && Print(uri.value) == RStrip(value.value))
  {
    hide Parse, Print, WellFormed, RStrip;
    if value.Some? && Parse(value.value).Ok? {
      PrintOfParse(value.value);
    }
  }

  /** An explicit value is tolerated exactly when it parses to the repository of
      the pull request: the comparison of printed forms is structural equality. */
  lemma ResolveIsStructural(value: string, url: string, handle: string)
    requires !IsDefault(Some(value)) && IsSegment(handle)
    ensures var ctx := CtxFromUrl(url, handle);
            ResolveRepo(Some(value), ctx).1.None? <==> ctx.Some? && Parse(value) == Ok(ctx.value)
  {
    SearchSegments(url);
    var ctx := CtxFromUrl(url, handle);
    if ctx.Some? && Parse(value).Ok? {
      PrintOfParse(value);
      PrintInjective(Parse(value).uri, ctx.value);
    }
  }

  lemma JoinTwo(a: string, b: string)
    ensures Join([a]) == a && Join([a, b]) == a + "/" + b
  {
    assert [a, b][1..] == [b];
  }

  predicate Tolerated(value: string, ctx: Uri) { ResolveRepo(Some(value), Some(ctx)).1.None? }

  /** The explicit values tolerated are exactly those that parse to the context. */
  ghost predicate Structural(ctx: Uri) {
    forall value :: !IsDefault(Some(value)) ==> (Tolerated(value, ctx) <==> Parse(value) == Ok(ctx))
  }

  /** An ill-formed address whose printed form is that of a well-formed one. */
  predicate Confusing(ctx: Uri) {
    !WellFormed(ctx) && Parse(Print(ctx)).Ok? && Print(ctx)[|Print(ctx)| - 1] != '/'
  }

  /** For an arbitrary context the comparison of printed forms is structural
      equality exactly when the context is not confusing. */
  lemma StructuralUnlessConfusing(ctx: Uri)
    ensures Structural(ctx) <==> !Confusing(ctx)
  {
    hide Parse, Print, WellFormed;
    ParseOfPrint(ctx);
    if Confusing(ctx) {
      ConfusedValue(ctx);
    } else {
      forall value | !IsDefault(Some(value)) ensures Tolerated(value, ctx) <==> Parse(value) == Ok(ctx) {
        ToleratedIsContext(ctx, value);
      }
    }
  }

  /** Its own printed form is a value that is tolerated and parses to another address. */
  lemma ConfusedValue(ctx: Uri)
    requires Confusing(ctx)
    ensures var value := Print(ctx);
            && !IsDefault(Some(value)) && Tolerated(value, ctx) && Parse(value) != Ok(ctx)
  {
    hide Parse, Join, WellFormed;
    PrintOfParse(Print(ctx));
    RStripDone(Print(ctx));
  }

  lemma ToleratedIsContext(ctx: Uri, value: string)
    requires !IsDefault(Some(value)) && !Confusing(ctx)
    ensures Tolerated(value, ctx) <==> Parse(value) == Ok(ctx)
  {
    hide Parse, Print, WellFormed;
    if Parse(value).Ok? {
      var u := Parse(value).uri;
      PrintOfParse(value);
      ParseOfPrint(u);
      PrintNotEmpty(u);
      if WellFormed(ctx) {
        PrintInjective(u, ctx);
      }
    }
  }

  lemma PrintNotEmpty(u: Uri)
    ensures Print(u) != ""
  {
  }

  /** The printed form of an ill-formed context can be that of another address,
      so for those the comparison is not structural. */
  lemma IllFormedContextConfuses()
    ensures var ctx := Uri("a/b", None, None);
            ResolveRepo(Some("bitbucket://a/b"), Some(ctx)) == (Some(Uri("a", Some("b"), None)), None)
  {
    hide Join, Parse;
    var u := Uri("a", Some("b"), None);
    ParseOfPrint(u);
    JoinTwo("a", "b");
    JoinTwo("a/b", "");
    assert Segments(u) == ["a", "b"] && Segments(Uri("a/b", None, None)) == ["a/b"];
    assert Print(u) == "bitbucket://a/b" == Print(Uri("a/b", None, None));
  }
}
