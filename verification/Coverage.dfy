/** The browser-coverage report: innermost ranges, covered lines and compressed runs of
    missing line numbers. */
module Coverage {
  import opened PyText
  import opened Naming

  // ---------------------------------------------------------------- innermost range

  datatype Range = Range(start: int, end: int, count: int) {
    function Size(): int {
      end - start
    }

    predicate Contains(offset: int) {
      start <= offset < end
    }
  }

  /** Range `k` is a smallest one around `offset`, and the latest declared of those. */
  ghost predicate IsInnermost(ranges: seq<Range>, offset: int, k: nat) {
    && k < |ranges| && ranges[k].Contains(offset)
    && forall j :: 0 <= j < |ranges| && ranges[j].Contains(offset) ==>
         ranges[k].Size() <= ranges[j].Size() && (k < j ==> ranges[k].Size() < ranges[j].Size())
  }

  /** The innermost range around `offset` has been executed. */
  ghost predicate Executed(ranges: seq<Range>, offset: int) {
    exists k: nat :: IsInnermost(ranges, offset, k) && ranges[k].count > 0
  }

  method InnermostCount(ranges: seq<Range>, offset: int) returns (count: int)
    ensures forall k: nat :: IsInnermost(ranges, offset, k) ==> count == ranges[k].count
    ensures (exists k: nat :: IsInnermost(ranges, offset, k)) || (count == 0 && forall r :: r in ranges ==> !r.Contains(offset))
    ensures count > 0 <==> Executed(ranges, offset)
  {
    var best := -1;
    for i := 0 to |ranges|
      invariant best == -1 ==> forall j :: 0 <= j < i ==> !ranges[j].Contains(offset)
      invariant best != -1 ==> 0 <= best < i && IsInnermost(ranges[..i], offset, best)
    {
      if ranges[i].Contains(offset) && (best == -1 || ranges[i].Size() <= ranges[best].Size()) {
        best := i;
      }
    }
    assert ranges[..|ranges|] == ranges;
    if best == -1 {
      return 0;
    }
    OneInnermost(ranges, offset, best);
    count := ranges[best].count;
  }

  lemma OneInnermost(ranges: seq<Range>, offset: int, k: nat)
    requires IsInnermost(ranges, offset, k)
    ensures forall j: nat :: IsInnermost(ranges, offset, j) ==> j == k
  {
  }

  /** Any two ranges are nested or disjoint, as V8 reports them. */
  ghost predicate Nested(ranges: seq<Range>) {
    forall j, k :: 0 <= j < |ranges| && 0 <= k < |ranges| ==>
      Within(ranges[j], ranges[k]) || Within(ranges[k], ranges[j]) ||
      ranges[j].end <= ranges[k].start || ranges[k].end <= ranges[j].start
  }

  predicate Within(inner: Range, outer: Range) {
    outer.start <= inner.start && inner.end <= outer.end
  }

  /** For nested ranges the innermost one lies inside every other range around the offset. */
  lemma InnermostIsDeepest(ranges: seq<Range>, offset: int, k: nat, j: nat)
    requires Nested(ranges) && IsInnermost(ranges, offset, k)
    requires j < |ranges| && ranges[j].Contains(offset)
    ensures Within(ranges[k], ranges[j])
  {
    assert Within(ranges[j], ranges[k]) || Within(ranges[k], ranges[j]);
  }

  // ---------------------------------------------------------------- covered lines

  function Newlines(s: string): nat {
    if s == "" then 0 else Newlines(s[..|s| - 1]) + (if s[|s| - 1] == '\n' then 1 else 0)
  }

  /** Some non-blank character of line `i` (counting from zero) has been executed. */
  ghost predicate LineExecuted(source: string, ranges: seq<Range>, i: nat) {
    exists p :: 0 <= p < |source| && !IsSpace(source[p]) && Newlines(source[..p]) == i && Executed(ranges, p)
  }

  /** Where line `i` starts if each line is followed by one newline. */
  function LineStart(lines: seq<string>, i: nat): nat
    requires i <= |lines|
  {
    if i == 0 then 0 else LineStart(lines, i - 1) + |lines[i - 1]| + 1
  }

  lemma {:induction false} LineStartAfterFirst(first: string, rest: seq<string>, i: nat)
    requires i <= |rest|
    ensures LineStart([first] + rest, i + 1) == |first| + 1 + LineStart(rest, i)
  {
    if i > 0 {
      LineStartAfterFirst(first, rest, i - 1);
    }
  }

  /** Line `i` is the text at `LineStart`, with `i` newlines before it and one, or the end,
      after it. */
  ghost predicate LineAt(s: string, lines: seq<string>, i: nat)
    requires i < |lines|
  {
    var start, line := LineStart(lines, i), lines[i];
    && start + |line| <= |s| && s[start..start + |line|] == line && '\n' !in line
    && Newlines(s[..start]) == i
    && (start + |line| == |s| || s[start + |line|] == '\n')
  }

  lemma {:induction false} NewlinesConcat(s: string, t: string)
    ensures Newlines(s + t) == Newlines(s) + Newlines(t)
  {
    if t == "" {
      assert s + t == s;
    } else {
      NewlinesConcat(s, t[..|t| - 1]);
      assert (s + t)[..|s + t| - 1] == s + t[..|t| - 1];
    }
  }

  lemma {:induction false} NewlinesBetween(s: string, p: nat, q: nat)
    requires p <= q <= |s|
    ensures Newlines(s[..p]) <= Newlines(s[..q])
    ensures Newlines(s[..p]) == Newlines(s[..q]) <==> '\n' !in s[p..q]
  {
    if p < q {
      NewlinesBetween(s, p, q - 1);
      assert s[..q][..q - 1] == s[..q - 1];
      assert s[p..q] == s[p..q - 1] + [s[q - 1]];
    }
  }

  lemma OneNewline(line: string)
    requires '\n' !in line
    ensures Newlines(line + "\n") == 1
  {
    assert (line + "\n")[..|line|] == line;
    assert line[..0] == "" && line[..|line|] == line && line[0..|line|] == line;
    NewlinesBetween(line, 0, |line|);
  }

  lemma SliceAfter(head: string, rest: string, i: nat, j: nat)
    requires i <= j <= |rest|
    ensures (head + rest)[..|head| + i] == head + rest[..i]
    ensures (head + rest)[|head| + i..|head| + j] == rest[i..j]
    ensures j < |rest| ==> (head + rest)[|head| + j] == rest[j]
  {
  }

  lemma ShiftedLine(first: string, rest: string, lines: seq<string>, i: nat)
    requires i < |lines| && LineAt(rest, lines, i) && '\n' !in first
    ensures LineAt(first + "\n" + rest, [first] + lines, i + 1)
  {
    var start := LineStart(lines, i);
    LineStartAfterFirst(first, lines, i);
    SliceAfter(first + "\n", rest, start, start + |lines[i]|);
    NewlinesConcat(first + "\n", rest[..start]);
    OneNewline(first);
  }

  lemma FirstLineLies(s: string)
    ensures LineAt(s, SplitOn(s, '\n'), 0)
  {
    var k := FirstOf(s, '\n');
    assert s[0..k] == s[..k] && s[..0] == "";
  }

  lemma {:induction false} LineLies(s: string, i: nat)
    requires i < |SplitOn(s, '\n')|
    ensures LineAt(s, SplitOn(s, '\n'), i)
    decreases |s|
  {
    if i == 0 {
      FirstLineLies(s);
    } else {
      var k := FirstOf(s, '\n');
      var lines := SplitOn(s[k + 1..], '\n');
      LineLies(s[k + 1..], i - 1);
      assert s == s[..k] + "\n" + s[k + 1..];
      ShiftedLine(s[..k], s[k + 1..], lines, i - 1);
    }
  }

  lemma {:induction false} LineCount(s: string)
    ensures |SplitOn(s, '\n')| == Newlines(s) + 1
    decreases |s|
  {
    var k := FirstOf(s, '\n');
    if k < |s| {
      LineCount(s[k + 1..]);
      assert s == s[..k] + "\n" + s[k + 1..];
      NewlinesConcat(s[..k] + "\n", s[k + 1..]);
      OneNewline(s[..k]);
    } else {
      assert s[0..|s|] == s[..|s|] == s && s[..0] == "";
      NewlinesBetween(s, 0, |s|);
    }
  }

  /** The lines follow each other in the source, one newline apart. */
  ghost predicate LinesOf(s: string, lines: seq<string>) {
    |lines| == Newlines(s) + 1 && forall i :: 0 <= i < |lines| ==> LineAt(s, lines, i)
  }

  lemma SplitsIntoLines(s: string)
    ensures LinesOf(s, SplitOn(s, '\n'))
  {
    LineCount(s);
    forall i | 0 <= i < |SplitOn(s, '\n')|
      ensures LineAt(s, SplitOn(s, '\n'), i)
    {
      LineLies(s, i);
    }
  }

  lemma OnLine(s: string, lines: seq<string>, i: nat, p: nat)
    requires i < |lines| && LineAt(s, lines, i) && LineStart(lines, i) <= p < LineStart(lines, i) + |lines[i]|
    ensures p < |s| && s[p] == lines[i][p - LineStart(lines, i)] && Newlines(s[..p]) == i
  {
    var line, start := lines[i], LineStart(lines, i);
    assert s[start..start + |line|][p - start] == s[p];
    assert s[start..p] == line[..p - start];
    NewlinesBetween(s, start, p);
  }

  lemma NotBeforeLine(s: string, lines: seq<string>, i: nat, p: nat)
    requires 0 < i < |lines| && LineAt(s, lines, i - 1) && LineAt(s, lines, i) && p < LineStart(lines, i)
    ensures p < |s| && Newlines(s[..p]) < i
  {
    var start := LineStart(lines, i);
    assert start == LineStart(lines, i - 1) + |lines[i - 1]| + 1 && s[start - 1] == '\n';
    assert s[p..start][start - 1 - p] == '\n';
    NewlinesBetween(s, p, start);
  }

  lemma NotAfterLine(s: string, lines: seq<string>, i: nat, p: nat)
    requires i < |lines| && LineAt(s, lines, i) && LineStart(lines, i) + |lines[i]| < p < |s|
    ensures i < Newlines(s[..p])
  {
    var start, end := LineStart(lines, i), LineStart(lines, i) + |lines[i]|;
    assert s[start..p][end - start] == '\n';
    NewlinesBetween(s, start, p);
  }

  /** A character other than a newline with `i` newlines before it is on line `i`. */
  lemma PositionOnLine(s: string, lines: seq<string>, i: nat, p: nat)
    requires LinesOf(s, lines) && i < |lines| && p < |s| && s[p] != '\n' && Newlines(s[..p]) == i
    ensures LineStart(lines, i) <= p < LineStart(lines, i) + |lines[i]|
  {
    assert LineAt(s, lines, i);
    var end := LineStart(lines, i) + |lines[i]|;
    if i > 0 && p < LineStart(lines, i) {
      assert LineAt(s, lines, i - 1);
      NotBeforeLine(s, lines, i, p);
    } else if end < p {
      NotAfterLine(s, lines, i, p);
    }
  }

  /** Scanning `line`, which starts at `offset`, some non-blank character is executed. */
  ghost predicate ScanFinds(line: string, ranges: seq<Range>, offset: nat) {
    exists j :: 0 <= j < |line| && !IsSpace(line[j]) && Executed(ranges, offset + j)
  }

  lemma ExecutedIsFound(source: string, lines: seq<string>, ranges: seq<Range>, i: nat, p: nat)
    requires LinesOf(source, lines) && i < |lines|
    requires p < |source| && !IsSpace(source[p]) && Newlines(source[..p]) == i && Executed(ranges, p)
    ensures ScanFinds(lines[i], ranges, LineStart(lines, i))
  {
    PositionOnLine(source, lines, i, p);
    assert LineAt(source, lines, i);
    OnLine(source, lines, i, p);
    var j := p - LineStart(lines, i);
    assert !IsSpace(lines[i][j]) && Executed(ranges, LineStart(lines, i) + j);
  }

  lemma FoundIsExecuted(source: string, lines: seq<string>, ranges: seq<Range>, i: nat, j: nat)
    requires i < |lines| && LineAt(source, lines, i)
    requires j < |lines[i]| && !IsSpace(lines[i][j]) && Executed(ranges, LineStart(lines, i) + j)
    ensures LineExecuted(source, ranges, i)
  {
    var p := LineStart(lines, i) + j;
    OnLine(source, lines, i, p);
  }

  lemma ExecutedThenFound(source: string, lines: seq<string>, ranges: seq<Range>, i: nat)
    requires LinesOf(source, lines) && i < |lines| && LineExecuted(source, ranges, i)
    ensures ScanFinds(lines[i], ranges, LineStart(lines, i))
  {
    var p :| 0 <= p < |source| && !IsSpace(source[p]) && Newlines(source[..p]) == i && Executed(ranges, p);
    ExecutedIsFound(source, lines, ranges, i, p);
  }

  lemma FoundThenExecuted(source: string, lines: seq<string>, ranges: seq<Range>, i: nat)
    requires LinesOf(source, lines) && i < |lines| && ScanFinds(lines[i], ranges, LineStart(lines, i))
    ensures LineExecuted(source, ranges, i)
  {
    var j :| 0 <= j < |lines[i]| && !IsSpace(lines[i][j]) && Executed(ranges, LineStart(lines, i) + j);
    assert LineAt(source, lines, i);
    FoundIsExecuted(source, lines, ranges, i, j);
  }

  /** What the scan of one line finds is what the source positions say. */
  lemma LineScanned(source: string, lines: seq<string>, ranges: seq<Range>, i: nat)
    requires LinesOf(source, lines) && i < |lines|
    ensures LineExecuted(source, ranges, i) <==> ScanFinds(lines[i], ranges, LineStart(lines, i))
  {
    if LineExecuted(source, ranges, i) {
      ExecutedThenFound(source, lines, ranges, i);
    } else if ScanFinds(lines[i], ranges, LineStart(lines, i)) {
      FoundThenExecuted(source, lines, ranges, i);
    }
  }

  /** The inner scan: stop at the first executed character. */
  method ScanLine(line: string, ranges: seq<Range>, offset: nat) returns (found: bool)
    ensures found <==> ScanFinds(line, ranges, offset)
  {
    for j := 0 to |line|
      invariant forall k :: 0 <= k < j ==> IsSpace(line[k]) || !Executed(ranges, offset + k)
    {
      if !IsSpace(line[j]) {
        var count := InnermostCount(ranges, offset + j);
        if count > 0 {
          return true;
        }
      }
    }
    found := false;
  }

  /** A line is covered exactly when one of its non-blank characters has been executed. */
  method LineCoverage(source: string, ranges: seq<Range>) returns (covered: seq<bool>)
    ensures |covered| == Newlines(source) + 1
    ensures forall i :: 0 <= i < |covered| ==> (covered[i] <==> LineExecuted(source, ranges, i))
  {
    var lines := SplitOn(source, '\n');
    SplitsIntoLines(source);
    covered := [];
    var offset := 0;
    for i := 0 to |lines|
      invariant |covered| == i && offset == LineStart(lines, i)
      invariant forall k :: 0 <= k < i ==> (covered[k] <==> LineExecuted(source, ranges, k))
    {
      LineScanned(source, lines, ranges, i);
      var found := ScanLine(lines[i], ranges, offset);
      covered := covered + [found];
      offset := offset + |lines[i]| + 1;
    }
  }

  // ---------------------------------------------------------------- lines that count

  predicate StartsWith(s: string, prefix: string) {
    prefix <= s
  }

  predicate IsCodeLine(line: string) {
    var stripped := Strip(line);
    && stripped != ""
    && !StartsWith(stripped, "//")
    && !StartsWith(stripped, "/*") && !StartsWith(stripped, "*") && !StartsWith(stripped, "*/")
  }

  /** `rest` is neither a `//` comment, the start of a block comment nor a `*` line. */
  predicate StartsCode(rest: string) {
    rest != "" && !IsSpace(rest[0]) && rest[0] != '*' && !(rest[0] == '/' && |rest| > 1 && (rest[1] == '/' || rest[1] == '*'))
  }

  /** Code starts at position `i` after nothing but white space. */
  ghost predicate CodeAt(line: string, i: nat) {
    i < |line| && (forall k :: 0 <= k < i ==> IsSpace(line[k])) && StartsCode(line[i..])
  }

  lemma FirstNonBlank(line: string, i: nat, n: nat)
    requires CodeAt(line, i)
    requires n <= |line| && (forall k :: 0 <= k < n ==> IsSpace(line[k])) && (n < |line| ==> !IsSpace(line[n]))
    ensures i == n
  {
    assert line[i..][0] == line[i];
  }

  lemma CodeOfCore(core: string, post: string)
    requires core != "" && Trimmed(core) && Blank(post)
    ensures StartsCode(core + post) <==>
      !StartsWith(core, "//") && !StartsWith(core, "/*") && !StartsWith(core, "*") && !StartsWith(core, "*/")
  {
    var rest := core + post;
    assert rest[0] == core[0];
    assert |core| > 1 ==> rest[1] == core[1];
    assert |core| == 1 && |rest| > 1 ==> rest[1] == post[0];
  }

  lemma NothingToStrip(line: string)
    requires Strip(line) == ""
    ensures Blank(line)
  {
    var pre, post := StripSplits(line);
    assert line == pre + post;
  }

  /** Where what `strip` leaves of a line starts. */
  lemma StripStarts(line: string) returns (n: nat, post: string)
    requires Strip(line) != ""
    ensures n < |line| && (forall k :: 0 <= k < n ==> IsSpace(line[k])) && !IsSpace(line[n])
    ensures Blank(post) && line[n..] == Strip(line) + post && Trimmed(Strip(line))
  {
    var pre;
    pre, post := StripSplits(line);
    n := |pre|;
    assert line == pre + (Strip(line) + post);
  }

  lemma CodeIfCounts(line: string) returns (i: nat)
    requires IsCodeLine(line)
    ensures CodeAt(line, i)
  {
    var post;
    i, post := StripStarts(line);
    CodeOfCore(Strip(line), post);
  }

  lemma CountsIfCode(line: string, i: nat)
    requires CodeAt(line, i)
    ensures IsCodeLine(line)
  {
    assert line[i..][0] == line[i];
    if Strip(line) == "" {
      NothingToStrip(line);
    } else {
      var n, post := StripStarts(line);
      FirstNonBlank(line, i, n);
      CodeOfCore(Strip(line), post);
    }
  }

  /** A line counts exactly when code starts after its leading white space. */
  lemma CodeLineExact(line: string)
    ensures IsCodeLine(line) <==> exists i: nat :: CodeAt(line, i)
  {
    if IsCodeLine(line) {
      var _ := CodeIfCounts(line);
    } else if i: nat :| CodeAt(line, i) {
      CountsIfCode(line, i);
    }
  }

  /** The numbers of the lines that count, from 1, split by whether they are covered. */
  ghost function Numbers(lines: seq<string>, covered: seq<bool>, which: bool): set<nat>
    requires |lines| <= |covered|
  {
    set i: nat | i < |lines| && IsCodeLine(lines[i]) && covered[i] == which :: i + 1
  }

  /** The numbers of all lines that count. */
  ghost function CodeNumbers(lines: seq<string>): set<nat> {
    set i: nat | i < |lines| && IsCodeLine(lines[i]) :: i + 1
  }

  lemma NumbersPartition(lines: seq<string>, covered: seq<bool>)
    requires |lines| <= |covered|
    ensures |Numbers(lines, covered, true)| + |Numbers(lines, covered, false)| == |CodeNumbers(lines)|
  {
    assert CodeNumbers(lines) == Numbers(lines, covered, true) + Numbers(lines, covered, false);
    assert Numbers(lines, covered, true) !! Numbers(lines, covered, false);
  }

  lemma {:induction false} AscendingSize(ns: seq<nat>, all: set<nat>)
    requires Ascending(ns) && forall n :: n in ns <==> n in all
    ensures |ns| == |all|
  {
    if ns == [] {
      assert all == {};
    } else {
      var front, n := ns[..|ns| - 1], ns[|ns| - 1];
      assert ns == front + [n] && n !in front;
      AscendingSize(front, all - {n});
    }
  }

  lemma Totals(lines: seq<string>, covered: seq<bool>, missing: seq<nat>)
    requires |lines| <= |covered| && Ascending(missing)
    requires forall n :: n in missing <==> n in Numbers(lines, covered, false)
    ensures |Numbers(lines, covered, true)| + |missing| == |CodeNumbers(lines)|
  {
    AscendingSize(missing, Numbers(lines, covered, false));
    NumbersPartition(lines, covered);
  }

  lemma NumbersGrow(lines: seq<string>, covered: seq<bool>, i: nat, which: bool)
    requires i < |lines| <= |covered|
    ensures Numbers(lines[..i + 1], covered, which) ==
      Numbers(lines[..i], covered, which) + (if IsCodeLine(lines[i]) && covered[i] == which then {i + 1} else {})
  {
  }

  ghost predicate Ascending(ns: seq<nat>) {
    forall j, k :: 0 <= j < k < |ns| ==> ns[j] < ns[k]
  }

  /** `hit` and `missing` account for `lines`. */
  ghost predicate Tally(lines: seq<string>, covered: seq<bool>, hit: nat, missing: seq<nat>) {
    && |lines| <= |covered| && hit == |Numbers(lines, covered, true)|
    && Ascending(missing) && (forall k :: 0 <= k < |missing| ==> missing[k] <= |lines|)
    && forall n :: n in missing <==> n in Numbers(lines, covered, false)
  }

  lemma HitNext(lines: seq<string>, covered: seq<bool>, i: nat)
    requires i < |lines| <= |covered|
    ensures |Numbers(lines[..i + 1], covered, true)| ==
      |Numbers(lines[..i], covered, true)| + if IsCodeLine(lines[i]) && covered[i] then 1 else 0
  {
    NumbersGrow(lines, covered, i, true);
  }

  lemma MissingNext(ns: seq<nat>, all: set<nat>, n: nat)
    requires Ascending(ns) && (forall k :: 0 <= k < |ns| ==> ns[k] < n) && forall m :: m in ns <==> m in all
    ensures Ascending(ns + [n]) && forall m :: m in ns + [n] <==> m in all + {n}
  {
  }

  lemma TallyNext(lines: seq<string>, covered: seq<bool>, i: nat, hit: nat, missing: seq<nat>)
    requires i < |lines| <= |covered| && Tally(lines[..i], covered, hit, missing)
    ensures Tally(lines[..i + 1], covered,
                  if IsCodeLine(lines[i]) && covered[i] then hit + 1 else hit,
                  if IsCodeLine(lines[i]) && !covered[i] then missing + [i + 1] else missing)
  {
    HitNext(lines, covered, i);
    NumbersGrow(lines, covered, i, false);
    MissingNext(missing, Numbers(lines[..i], covered, false), i + 1);
  }

  method Summarize(source: string, covered: seq<bool>) returns (hit: nat, total: nat, missing: seq<nat>)
    requires Newlines(source) < |covered|
    ensures var lines := SplitOn(source, '\n');
      && |lines| <= |covered|
      && hit == |Numbers(lines, covered, true)| && hit + |missing| == total == |CodeNumbers(lines)|
      && Ascending(missing) && forall n :: n in missing <==> n in Numbers(lines, covered, false)
  {
    var lines := SplitOn(source, '\n');
    LineCount(source);
    hit, total, missing := 0, 0, [];
    for i := 0 to |lines|
      invariant Tally(lines[..i], covered, hit, missing) && hit + |missing| == total
    {
      TallyNext(lines, covered, i, hit, missing);
      if IsCodeLine(lines[i]) {
        total := total + 1;
        if covered[i] {
          hit := hit + 1;
        } else {
          missing := missing + [i + 1];
        }
      }
    }
    assert lines[..|lines|] == lines;
    Totals(lines, covered, missing);
  }

  // ---------------------------------------------------------------- compressed runs

  /** A run of consecutive numbers, first and last. */
  type Run = (nat, nat)

  /** The runs after one more number, which extends the last run or starts one. */
  function Extended(rs: seq<Run>, n: nat): seq<Run> {
    if rs != [] && n == rs[|rs| - 1].1 + 1 then rs[..|rs| - 1] + [(rs[|rs| - 1].0, n)] else rs + [(n, n)]
  }

  /** The runs of a list. */
  function Runs(ns: seq<nat>): seq<Run> {
    if ns == [] then [] else Extended(Runs(ns[..|ns| - 1]), ns[|ns| - 1])
  }

  lemma RunsAppend(ns: seq<nat>, n: nat)
    ensures Runs(ns + [n]) == Extended(Runs(ns), n)
  {
    assert (ns + [n])[..|ns|] == ns;
  }

  function RunText(r: Run): string {
    if r.0 == r.1 then Decimal(r.0) else Decimal(r.0) + "-" + Decimal(r.1)
  }

  function RunTexts(rs: seq<Run>): seq<string> {
    seq(|rs|, i requires 0 <= i < |rs| => RunText(rs[i]))
  }

  /** One more number extends the last run or closes it. */
  lemma NextRun(ns: seq<nat>, i: nat, done: seq<Run>, start: nat, prev: nat)
    requires i < |ns| && Runs(ns[..i]) == done + [(start, prev)]
    ensures Runs(ns[..i + 1]) ==
      if ns[i] == prev + 1 then done + [(start, ns[i])] else done + [(start, prev)] + [(ns[i], ns[i])]
  {
    assert ns[..i + 1] == ns[..i] + [ns[i]];
    RunsAppend(ns[..i], ns[i]);
    assert (done + [(start, prev)])[..|done|] == done;
  }

  method FormatMissing(ns: seq<nat>) returns (text: string)
    ensures text == Join(RunTexts(Runs(ns)), ", ")
  {
    if ns == [] {
      return "";
    }
    var parts: seq<string> := [];
    var start, prev := ns[0], ns[0];
    ghost var done: seq<Run> := [];
    RunsAppend([], ns[0]);
    assert ns[..1] == [] + [ns[0]];
    for i := 1 to |ns|
      invariant Runs(ns[..i]) == done + [(start, prev)] && parts == RunTexts(done)
    {
      var n := ns[i];
      NextRun(ns, i, done, start, prev);
      if n == prev + 1 {
        prev := n;
      } else {
        TextsAppend(done, (start, prev));
        parts := parts + [RunText((start, prev))];
        done := done + [(start, prev)];
        start, prev := n, n;
      }
    }
    assert ns[..|ns|] == ns;
    TextsAppend(done, (start, prev));
    parts := parts + [RunText((start, prev))];
    text := Join(parts, ", ");
  }

  lemma TextsAppend(rs: seq<Run>, r: Run)
    ensures RunTexts(rs + [r]) == RunTexts(rs) + [RunText(r)]
  {
  }

  /** The numbers from `first` to `last`. */
  function Span(first: nat, last: nat): (ns: seq<nat>)
    requires first <= last
    ensures |ns| == last - first + 1 && ns[0] == first && ns[|ns| - 1] == last
  {
    seq(last - first + 1, i requires 0 <= i => first + i)
  }

  ghost predicate AllRuns(rs: seq<Run>) {
    forall k :: 0 <= k < |rs| ==> rs[k].0 <= rs[k].1
  }

  /** No run continues the one before it. */
  ghost predicate Maximal(rs: seq<Run>) {
    forall k :: 0 < k < |rs| ==> rs[k].0 != rs[k - 1].1 + 1
  }

  function Expand(rs: seq<Run>): seq<nat> {
    if rs == [] then []
    else Expand(rs[..|rs| - 1]) + (if rs[|rs| - 1].0 <= rs[|rs| - 1].1 then Span(rs[|rs| - 1].0, rs[|rs| - 1].1) else [])
  }

  lemma ExpandLast(front: seq<Run>, first: nat, last: nat)
    requires first <= last
    ensures Expand(front + [(first, last)]) == Expand(front) + Span(first, last)
  {
    assert (front + [(first, last)])[..|front|] == front;
  }

  lemma SpanGrows(first: nat, last: nat)
    requires first <= last
    ensures Span(first, last + 1) == Span(first, last) + [last + 1]
    ensures Span(first, first) == [first]
  {
  }

  lemma LongerRun(before: seq<Run>, first: nat, last: nat)
    requires first <= last
    ensures Expand(before + [(first, last + 1)]) == Expand(before + [(first, last)]) + [last + 1]
  {
    ExpandLast(before, first, last);
    ExpandLast(before, first, last + 1);
    SpanGrows(first, last);
    assert Expand(before) + (Span(first, last) + [last + 1]) == Expand(before) + Span(first, last) + [last + 1];
  }

  lemma ExtendedIsMaximal(rs: seq<Run>, n: nat)
    requires AllRuns(rs) && Maximal(rs)
    ensures AllRuns(Extended(rs, n)) && Maximal(Extended(rs, n))
  {
  }

  /** One more number makes one more number. */
  lemma ExtendedExpands(rs: seq<Run>, n: nat)
    requires AllRuns(rs)
    ensures Expand(Extended(rs, n)) == Expand(rs) + [n]
  {
    if rs != [] && n == rs[|rs| - 1].1 + 1 {
      var before, last := rs[..|rs| - 1], rs[|rs| - 1];
      assert rs == before + [(last.0, last.1)];
      LongerRun(before, last.0, last.1);
    } else {
      ExpandLast(rs, n, n);
      SpanGrows(n, n);
    }
  }

  lemma {:induction false} RunsAreMaximal(ns: seq<nat>)
    ensures AllRuns(Runs(ns)) && Maximal(Runs(ns))
  {
    if ns != [] {
      RunsAreMaximal(ns[..|ns| - 1]);
      ExtendedIsMaximal(Runs(ns[..|ns| - 1]), ns[|ns| - 1]);
    }
  }

  lemma GivesBack(rs: seq<Run>, front: seq<nat>, n: nat)
    requires Expand(rs) == front && AllRuns(rs)
    ensures Expand(Extended(rs, n)) == front + [n]
  {
    ExtendedExpands(rs, n);
  }

  lemma LastApart(ns: seq<nat>)
    requires ns != []
    ensures ns[..|ns| - 1] + [ns[|ns| - 1]] == ns
  {
  }

  lemma {:induction false} RunsGiveBack(ns: seq<nat>)
    ensures Expand(Runs(ns)) == ns
  {
    if ns != [] {
      RunsGiveBack(ns[..|ns| - 1]);
      RunsAreMaximal(ns[..|ns| - 1]);
      GivesBack(Runs(ns[..|ns| - 1]), ns[..|ns| - 1], ns[|ns| - 1]);
      LastApart(ns);
    }
  }

  /** The runs stand for the list, in order, and none can be joined to the next. */
  lemma RunsExpand(ns: seq<nat>)
    ensures Expand(Runs(ns)) == ns && AllRuns(Runs(ns)) && Maximal(Runs(ns))
  {
    RunsGiveBack(ns);
    RunsAreMaximal(ns);
  }

  /** The runs without their last number. */
  lemma LastRunApart(rs: seq<Run>)
    requires rs != []
    ensures rs == rs[..|rs| - 1] + [rs[|rs| - 1]]
  {
  }

  lemma ExtendsBack(before: seq<Run>, first: nat, last: nat)
    requires first < last
    ensures Extended(before + [(first, last - 1)], last) == before + [(first, last)]
  {
    assert (before + [(first, last - 1)])[..|before|] == before;
  }

  lemma Shortened(rs: seq<Run>) returns (shorter: seq<Run>)
    requires rs != [] && AllRuns(rs) && Maximal(rs)
    ensures AllRuns(shorter) && Maximal(shorter) && rs == Extended(shorter, rs[|rs| - 1].1)
  {
    var before, last := rs[..|rs| - 1], rs[|rs| - 1];
    LastRunApart(rs);
    if last.0 < last.1 {
      shorter := before + [(last.0, last.1 - 1)];
      ExtendsBack(before, last.0, last.1);
    } else {
      shorter := before;
    }
  }

  /** And they are the only such runs. */
  lemma {:induction false} RunsAreUnique(rs: seq<Run>)
    requires AllRuns(rs) && Maximal(rs)
    ensures rs == Runs(Expand(rs))
    decreases |Expand(rs)|
  {
    if rs != [] {
      var n := rs[|rs| - 1].1;
      var shorter := Shortened(rs);
      ExtendedExpands(shorter, n);
      RunsAreUnique(shorter);
      RunsAppend(Expand(shorter), n);
    }
  }

  /** For an ascending list the runs are disjoint, ordered and separated by a gap. */
  lemma {:induction false} RunsAreSeparate(rs: seq<Run>, k: nat)
    requires AllRuns(rs) && Maximal(rs) && Ascending(Expand(rs)) && 0 < k < |rs|
    ensures rs[k - 1].1 + 1 < rs[k].0
  {
    var before, last := rs[..|rs| - 1], rs[|rs| - 1];
    var front, span := Expand(before), Span(last.0, last.1);
    assert rs == before + [last];
    ExpandLast(before, last.0, last.1);
    assert Expand(rs) == front + span;
    if k < |rs| - 1 {
      assert forall i :: 0 <= i < |front| ==> Expand(rs)[i] == front[i];
      RunsAreSeparate(before, k);
    } else {
      assert Expand(rs)[|front|] == last.0;
      EndsWithLastRun(before);
      assert Expand(rs)[|front| - 1] == before[|before| - 1].1;
    }
  }

  lemma EndsWithLastRun(rs: seq<Run>)
    requires rs != [] && AllRuns(rs)
    ensures Expand(rs) != [] && Expand(rs)[|Expand(rs)| - 1] == rs[|rs| - 1].1
  {
  }

  // ---------------------------------------------------------------- reading the report back

  /** The numbers a printed run stands for. */
  function ReadRun(text: string): seq<nat> {
    var ends := SplitOn(text, '-');
    if |ends| == 1 && AllDigits(ends[0]) then [ReadDecimal(ends[0])]
    else if |ends| == 2 && AllDigits(ends[0]) && AllDigits(ends[1]) && ReadDecimal(ends[0]) <= ReadDecimal(ends[1]) then
      Span(ReadDecimal(ends[0]), ReadDecimal(ends[1]))
    else []
  }

  function ReadRuns(parts: seq<string>): seq<nat> {
    if parts == [] then [] else ReadRuns(parts[..|parts| - 1]) + ReadRun(Strip(parts[|parts| - 1]))
  }

  /** The numbers a printed list of runs stands for. */
  function ReadMissing(text: string): seq<nat> {
    if text == "" then [] else ReadRuns(SplitOn(text, ','))
  }

  lemma RunReadsBack(r: Run)
    requires r.0 <= r.1
    ensures ReadRun(RunText(r)) == Span(r.0, r.1)
  {
    ReadBack(r.0);
    ReadBack(r.1);
    var ends := if r.0 == r.1 then [Decimal(r.0)] else [Decimal(r.0), Decimal(r.1)];
    SplitJoin(ends, '-');
    if r.0 != r.1 {
      assert ends[1..] == [Decimal(r.1)];
      assert Join(ends, "-") == RunText(r);
    }
  }

  lemma RunTextShape(r: Run)
    ensures RunText(r) != "" && Trimmed(RunText(r)) && ',' !in RunText(r)
    ensures Strip(RunText(r)) == RunText(r) && Strip(" " + RunText(r)) == RunText(r)
  {
    var text := RunText(r);
    assert forall i :: 0 <= i < |text| ==> IsDigit(text[i]) || text[i] == '-';
    assert IsDigit(text[0]) && IsDigit(text[|text| - 1]);
    StripOfTrimmed(text);
    assert " " + text + "" == " " + text;
    StripIsCore(" ", text, "");
  }

  /** A run of one number is printed as the number, a longer one with both ends. */
  lemma RunTextExact(text: string, r: Run)
    requires r.0 <= r.1
    ensures text == RunText(r) <==>
      if r.0 < r.1 then SplitOn(text, '-') == [Decimal(r.0), Decimal(r.1)] else text == Decimal(r.1)
  {
    if r.0 < r.1 {
      var ends := [Decimal(r.0), Decimal(r.1)];
      assert ends[1..] == [Decimal(r.1)];
      assert Join(ends, "-") == RunText(r);
      SplitJoin(ends, '-');
      JoinSplit(text, '-');
    }
  }

  /** The documented example. */
  lemma ExampleMissing()
    ensures Join(RunTexts(Runs([1, 2, 3, 7])), ", ") == "1-3, 7"
  {
    ExampleRuns();
    ExampleTexts();
    assert ["1-3", "7"][1..] == ["7"];
  }

  lemma ExampleRuns()
    ensures Runs([1, 2, 3, 7]) == [(1, 3), (7, 7)]
  {
    var rs: seq<Run> := [(1, 3), (7, 7)];
    var one: seq<Run> := [(1, 3)];
    assert rs == one + [(7, 7)];
    SpanOfThree();
    ExpandLast([], 1, 3);
    ExpandLast(one, 7, 7);
    assert [] + [(1, 3)] == one;
    assert Expand(rs) == [1, 2, 3, 7];
    RunsAreUnique(rs);
  }

  lemma SpanOfThree()
    ensures Span(1, 3) == [1, 2, 3] && Span(7, 7) == [7]
  {
  }

  lemma ExampleTexts()
    ensures RunTexts([(1, 3), (7, 7)]) == ["1-3", "7"]
  {
    assert Decimal(1) == "1" && Decimal(3) == "3" && Decimal(7) == "7";
    assert RunText((1, 3)) == "1-3" && RunText((7, 7)) == "7";
  }

  lemma {:induction false} ReadRunsBack(rs: seq<Run>, texts: seq<string>)
    requires AllRuns(rs) && |texts| == |rs| && forall k :: 0 <= k < |rs| ==> Strip(texts[k]) == RunText(rs[k])
    ensures ReadRuns(texts) == Expand(rs)
  {
    if rs != [] {
      ReadRunsBack(rs[..|rs| - 1], texts[..|rs| - 1]);
      RunReadsBack(rs[|rs| - 1]);
    }
  }

  function Padded(texts: seq<string>): seq<string> {
    seq(|texts|, i requires 0 <= i < |texts| => " " + texts[i])
  }

  lemma {:induction false} JoinPadded(texts: seq<string>)
    requires texts != []
    ensures " " + Join(texts, ", ") == Join(Padded(texts), ",")
  {
    if |texts| > 1 {
      JoinPadded(texts[1..]);
      assert Padded(texts)[1..] == Padded(texts[1..]);
      var rest := Join(texts[1..], ", ");
      assert " " + (texts[0] + ", " + rest) == (" " + texts[0]) + "," + (" " + rest);
    }
  }

  /** Splitting the printed list at its commas gives the run texts, up to white space. */
  lemma MissingSplits(texts: seq<string>) returns (parts: seq<string>)
    requires texts != [] && forall k :: 0 <= k < |texts| ==> ',' !in texts[k]
    ensures SplitOn(Join(texts, ", "), ',') == parts && |parts| == |texts|
    ensures forall k :: 0 <= k < |texts| ==> parts[k] == texts[k] || parts[k] == " " + texts[k]
  {
    var rest := Padded(texts[1..]);
    parts := [texts[0]] + rest;
    assert parts[1..] == rest;
    if |texts| > 1 {
      JoinPadded(texts[1..]);
      var tail := Join(texts[1..], ", ");
      assert texts[0] + ", " + tail == texts[0] + "," + (" " + tail);
    }
    assert Join(texts, ", ") == Join(parts, ",");
    SplitJoin(parts, ',');
  }

  /** The printed list of runs reads back as the list of numbers it was made from. */
  lemma MissingReadsBack(ns: seq<nat>)
    ensures ReadMissing(Join(RunTexts(Runs(ns)), ", ")) == ns
  {
    var rs := Runs(ns);
    RunsExpand(ns);
    if rs != [] {
      forall r | r in rs
        ensures RunText(r) != "" && ',' !in RunText(r)
        ensures Strip(RunText(r)) == RunText(r) && Strip(" " + RunText(r)) == RunText(r)
      {
        RunTextShape(r);
      }
      var parts := MissingSplits(RunTexts(rs));
      ReadRunsBack(rs, parts);
      assert Join(RunTexts(rs), ", ") != "";
    }
  }

  lemma InNumbers(lines: seq<string>, covered: seq<bool>, n: nat)
    requires |lines| <= |covered|
    ensures n in Numbers(lines, covered, false) <==> 1 <= n <= |lines| && IsCodeLine(lines[n - 1]) && !covered[n - 1]
  {
    assert n >= 1 ==> n == (n - 1) + 1;
  }

  /** The report on one file: the printed text reads back as exactly the code lines on
      which nothing has been executed, and hits and missing lines are all code lines. */
  method Report(source: string, ranges: seq<Range>) returns (hit: nat, total: nat, text: string)
    ensures var lines := SplitOn(source, '\n'); var missing := ReadMissing(text);
      && Ascending(missing)
      && (forall n: nat :: n in missing <==>
            1 <= n <= |lines| && IsCodeLine(lines[n - 1]) && !LineExecuted(source, ranges, n - 1))
      && hit + |missing| == total == |CodeNumbers(lines)|
  {
    var covered := LineCoverage(source, ranges);
    var missing;
    hit, total, missing := Summarize(source, covered);
    text := FormatMissing(missing);
    MissingReadsBack(missing);
    LineCount(source);
    ghost var lines := SplitOn(source, '\n');
    forall n: nat
      ensures n in missing <==> 1 <= n <= |lines| && IsCodeLine(lines[n - 1]) && !LineExecuted(source, ranges, n - 1)
    {
      InNumbers(lines, covered, n);
    }
  }
}
