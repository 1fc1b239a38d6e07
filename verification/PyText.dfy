/** The Python string operations the board format rests on: `strip`, `splitlines`,
    `split` on one character and `join`. */
module PyText {
  /** The characters `str.splitlines` breaks at. */
  predicate IsLineBreak(c: char) {
    || c == '\n' || c == '\r' || c == '\U{B}' || c == '\U{C}'
    || c == '\U{1C}' || c == '\U{1D}' || c == '\U{1E}'
    || c == '\U{85}' || c == '\U{2028}' || c == '\U{2029}'
  }

  /** The characters `str.strip` removes. */
  predicate IsSpace(c: char) {
    || IsLineBreak(c) || c == '\t' || c == '\U{1F}' || c == ' ' || c == '\U{A0}' || c == '\U{1680}'
    || '\U{2000}' <= c <= '\U{200A}' || c == '\U{202F}' || c == '\U{205F}' || c == '\U{3000}'
  }

  ghost predicate Blank(s: string) {
    forall i :: 0 <= i < |s| ==> IsSpace(s[i])
  }

  function StripLeft(s: string): string {
    if s != "" && IsSpace(s[0]) then StripLeft(s[1..]) else s
  }

  function StripRight(s: string): string {
    if s != "" && IsSpace(s[|s| - 1]) then StripRight(s[..|s| - 1]) else s
  }

  function Strip(s: string): string {
    StripRight(StripLeft(s))
  }

  /** `core` neither starts nor ends with white space. */
  predicate Trimmed(core: string) {
    core == "" || (!IsSpace(core[0]) && !IsSpace(core[|core| - 1]))
  }

  lemma {:induction false} StripLeftSplits(s: string) returns (pre: string)
    ensures Blank(pre) && s == pre + StripLeft(s)
    ensures StripLeft(s) != "" ==> !IsSpace(StripLeft(s)[0])
  {
    if s != "" && IsSpace(s[0]) {
      var rest := StripLeftSplits(s[1..]);
      pre := [s[0]] + rest;
    } else {
      pre := "";
    }
  }

  lemma {:induction false} StripRightSplits(s: string) returns (post: string)
    ensures Blank(post) && s == StripRight(s) + post
    ensures StripRight(s) != "" ==> StripRight(s)[0] == s[0] && !IsSpace(StripRight(s)[|StripRight(s)| - 1])
  {
    if s != "" && IsSpace(s[|s| - 1]) {
      var rest := StripRightSplits(s[..|s| - 1]);
      post := rest + [s[|s| - 1]];
      assert s == s[..|s| - 1] + [s[|s| - 1]];
    } else {
      post := "";
    }
  }

  lemma StripSplits(s: string) returns (pre: string, post: string)
    ensures Blank(pre) && Blank(post) && s == pre + Strip(s) + post && Trimmed(Strip(s))
  {
    pre := StripLeftSplits(s);
    post := StripRightSplits(StripLeft(s));
    assert s == pre + (Strip(s) + post) == pre + Strip(s) + post;
  }

  lemma {:induction false} StripLeftBlank(pre: string, s: string)
    requires Blank(pre) && (s != "" ==> !IsSpace(s[0]))
    ensures StripLeft(pre + s) == s
  {
    if pre == "" {
      assert pre + s == s;
    } else {
      assert (pre + s)[1..] == pre[1..] + s;
      StripLeftBlank(pre[1..], s);
    }
  }

  lemma {:induction false} StripRightBlank(s: string, post: string)
    requires Blank(post) && (s != "" ==> !IsSpace(s[|s| - 1]))
    ensures StripRight(s + post) == s
  {
    if post == "" {
      assert s + post == s;
    } else {
      var t := s + post;
      assert t[..|t| - 1] == s + post[..|post| - 1];
      StripRightBlank(s, post[..|post| - 1]);
    }
  }

  /** `strip` removes exactly the surrounding white space, all of it if there is nothing else. */
  lemma StripIsCore(pre: string, core: string, post: string)
    requires Blank(pre) && Blank(post) && Trimmed(core)
    ensures Strip(pre + core + post) == core
  {
    if core == "" {
      assert pre + core + post == (pre + post) + "";
      StripLeftBlank(pre + post, "");
    } else {
      assert pre + core + post == pre + (core + post);
      StripLeftBlank(pre, core + post);
      StripRightBlank(core, post);
    }
  }

  lemma StripOfTrimmed(core: string)
    requires Trimmed(core)
    ensures Strip(core) == core
  {
  }

  // ---------------------------------------------------------------- lines

  /** The length of the line break at position `i`: `\r\n` counts as one break. */
  function BreakLength(s: string, i: nat): (n: nat)
    requires i < |s|
    ensures 1 <= n <= |s| - i
  {
    if s[i] == '\r' && i + 1 < |s| && s[i + 1] == '\n' then 2 else 1
  }

  function FirstBreak(s: string): (i: nat)
    ensures i <= |s| && (i < |s| ==> IsLineBreak(s[i]))
    ensures forall j :: 0 <= j < i ==> !IsLineBreak(s[j])
  {
    if s == "" || IsLineBreak(s[0]) then 0 else 1 + FirstBreak(s[1..])
  }

  /** `str.splitlines`: a final line break does not open another line. */
  function SplitLines(s: string): seq<string>
    decreases |s|
  {
    if s == "" then []
    else
      var i := FirstBreak(s);
      if i == |s| then [s] else [s[..i]] + SplitLines(s[i + BreakLength(s, i)..])
  }

  /** `brk` is one line break as `splitlines` sees it. */
  predicate IsBreak(brk: string) {
    brk == "\r\n" || (|brk| == 1 && IsLineBreak(brk[0]))
  }

  predicate OneLine(line: string) {
    forall i :: 0 <= i < |line| ==> !IsLineBreak(line[i])
  }

  lemma FirstBreakAfter(line: string, rest: string)
    requires OneLine(line) && (rest != "" ==> IsLineBreak(rest[0]))
    ensures FirstBreak(line + rest) == |line|
  {
    var s := line + rest;
    assert forall j :: 0 <= j < |line| ==> s[j] == line[j];
    assert rest != "" ==> s[|line|] == rest[0];
  }

  lemma SplitOneLine(line: string)
    requires OneLine(line) && line != ""
    ensures SplitLines(line) == [line]
  {
    FirstBreakAfter(line, "");
    assert line + "" == line;
  }

  /** The parts of a line, its break and what follows. */
  lemma LineParts(line: string, brk: string, rest: string)
    requires 1 <= |brk| <= 2
    ensures var s := line + brk + rest;
      && s[|line|] == brk[0] && s[..|line|] == line && s[|line| + |brk|..] == rest
      && (|line| + 1 < |s| ==> s[|line| + 1] == if |brk| == 2 then brk[1] else rest[0])
  {
  }

  /** A line ends at the first line break; only a carriage return before a newline is no
      break of its own. */
  lemma SplitFirstLine(line: string, brk: string, rest: string)
    requires OneLine(line) && IsBreak(brk) && !(brk == "\r" && rest != "" && rest[0] == '\n')
    ensures SplitLines(line + brk + rest) == [line] + SplitLines(rest)
  {
    var s := line + brk + rest;
    LineParts(line, brk, rest);
    assert s == line + (brk + rest);
    FirstBreakAfter(line, brk + rest);
    assert BreakLength(s, |line|) == |brk|;
  }

  lemma ThreeParts(s: string, i: nat, j: nat)
    requires i <= j <= |s|
    ensures s == s[..i] + s[i..j] + s[j..]
  {
  }

  /** The first of several lines, the break that ends it and what follows. */
  lemma TakeFirstLine(s: string) returns (line: string, brk: string, rest: string)
    requires s != ""
    ensures OneLine(line) && SplitLines(s)[0] == line && s == line + brk + rest
    ensures if brk == "" then rest == "" && SplitLines(s) == [line]
            else IsBreak(brk) && SplitLines(s) == [line] + SplitLines(rest)
  {
    var i := FirstBreak(s);
    var n := if i == |s| then 0 else BreakLength(s, i);
    line, brk, rest := s[..i], s[i..i + n], s[i + n..];
    ThreeParts(s, i, i + n);
    if n == 0 {
      assert line == s;
    }
  }

  // ---------------------------------------------------------------- split and join

  function FirstOf(s: string, sep: char): (i: nat)
    ensures i <= |s| && (i < |s| ==> s[i] == sep)
    ensures forall j :: 0 <= j < i ==> s[j] != sep
  {
    if s == "" || s[0] == sep then 0 else 1 + FirstOf(s[1..], sep)
  }

  /** `str.split` on one character: always at least one part. */
  function SplitOn(s: string, sep: char): (parts: seq<string>)
    ensures parts != []
    decreases |s|
  {
    var i := FirstOf(s, sep);
    if i == |s| then [s] else [s[..i]] + SplitOn(s[i + 1..], sep)
  }

  function Join(parts: seq<string>, sep: string): string {
    if parts == [] then ""
    else if |parts| == 1 then parts[0]
    else parts[0] + sep + Join(parts[1..], sep)
  }

  lemma JoinFirst(first: string, parts: seq<string>, sep: string)
    requires parts != []
    ensures Join([first] + parts, sep) == first + sep + Join(parts, sep)
  {
    assert ([first] + parts)[1..] == parts;
  }

  lemma AroundIndex(s: string, i: nat)
    requires i < |s|
    ensures s[..i] + [s[i]] + s[i + 1..] == s
  {
  }

  /** Splitting loses nothing. */
  lemma {:induction false} JoinSplit(s: string, sep: char)
    ensures Join(SplitOn(s, sep), [sep]) == s
    decreases |s|
  {
    var i := FirstOf(s, sep);
    if i < |s| {
      JoinSplit(s[i + 1..], sep);
      JoinFirst(s[..i], SplitOn(s[i + 1..], sep), [sep]);
      AroundIndex(s, i);
    }
  }

  /** And joining parts that do not hold the separator can be undone. */
  lemma {:induction false} SplitJoin(parts: seq<string>, sep: char)
    requires parts != [] && forall k :: 0 <= k < |parts| ==> sep !in parts[k]
    ensures SplitOn(Join(parts, [sep]), sep) == parts
  {
    var s := Join(parts, [sep]);
    if |parts| == 1 {
      assert FirstOf(s, sep) == |s|;
    } else {
      var rest := Join(parts[1..], [sep]);
      assert s == parts[0] + [sep] + rest;
      assert s[|parts[0]|] == sep;
      assert forall j :: 0 <= j < |parts[0]| ==> s[j] == parts[0][j];
      assert FirstOf(s, sep) == |parts[0]|;
      assert s[..|parts[0]|] == parts[0] && s[|parts[0]| + 1..] == rest;
      SplitJoin(parts[1..], sep);
    }
  }
}
