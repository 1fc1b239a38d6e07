/** The runtime a submitted bot asks for in its docstring. */
module Submission {
  import opened Boards
  import opened PyText

  const RUNTIMES: set<string> := {"python-3.10", "python-3.11", "python-3.12", "python-3.13", "python-3.14"}

  const DEFAULT_RUNTIME_KEY := "python-3.14"

  function LowerChar(c: char): char {
    if 'A' <= c <= 'Z' then (c as int - 'A' as int + 'a' as int) as char else c
  }

  /** `line` starts with `field`, whatever the case of its letters. */
  predicate IsField(line: string, field: string) {
    |field| <= |line| && forall i :: 0 <= i < |field| ==> LowerChar(line[i]) == field[i]
  }

  /** The value of the last of `lines` with `field`. */
  function LastField(lines: seq<string>, field: string): Option<string> {
    if lines == [] then None
    else
      var line := Strip(lines[|lines| - 1]);
      if IsField(line, field) then Some(Strip(line[|field|..]))
      else LastField(lines[..|lines| - 1], field)
  }

  /** The runtime key of a docstring: the last `language:` line decides, then the last
      `python:` line, then the default; a key outside the allowlist is refused. */
  function RuntimeKey(docstring: string): Option<string> {
    var lines := SplitLines(docstring);
    match (LastField(lines, "language:"), LastField(lines, "python:"))
    case (Some(key), _) => if key in RUNTIMES then Some(key) else None
    case (None, Some(version)) => if "python-" + version in RUNTIMES then Some("python-" + version) else None
    case (None, None) => Some(DEFAULT_RUNTIME_KEY)
  }

  method ExtractRuntimeKey(docstring: string) returns (r: Option<string>)
    ensures r == RuntimeKey(docstring)
    ensures r.Some? ==> r.value in RUNTIMES
  {
    var lines := SplitLines(docstring);
    var languageKey: Option<string> := None;
    var pythonVersion: Option<string> := None;
    for i := 0 to |lines|
      invariant languageKey == LastField(lines[..i], "language:")
      invariant pythonVersion == LastField(lines[..i], "python:")
    {
      assert lines[..i + 1][..i] == lines[..i];
      var stripped := Strip(lines[i]);
      assert IsField(stripped, "language:") ==> LowerChar(stripped[0]) == 'l';
      assert IsField(stripped, "python:") ==> LowerChar(stripped[0]) == 'p';
      if IsField(stripped, "language:") {
        languageKey := Some(Strip(stripped[|"language:"|..]));
      } else if IsField(stripped, "python:") {
        pythonVersion := Some(Strip(stripped[|"python:"|..]));
      }
    }
    assert lines[..|lines|] == lines;
    if languageKey.Some? {
      return if languageKey.value in RUNTIMES then languageKey else None;
    }
    if pythonVersion.Some? {
      var mapped := "python-" + pythonVersion.value;
      return if mapped in RUNTIMES then Some(mapped) else None;
    }
    r := Some(DEFAULT_RUNTIME_KEY);
  }

  /** The value comes from the last line with the field, wherever that line is. */
  lemma {:induction false} LastFieldExact(lines: seq<string>, field: string, value: string)
    ensures LastField(lines, field) == Some(value) <==>
      exists i :: 0 <= i < |lines| && IsField(Strip(lines[i]), field) && value == Strip(Strip(lines[i])[|field|..])
                  && forall j :: i < j < |lines| ==> !IsField(Strip(lines[j]), field)
  {
    if lines != [] {
      var last := |lines| - 1;
      LastFieldExact(lines[..last], field, value);
      if !IsField(Strip(lines[last]), field) {
        assert forall i :: 0 <= i < last ==> lines[..last][i] == lines[i];
      }
    }
  }

  // ---------------------------------------------------------------- the bot's name

  /** The value of the first of `lines` with `field`. */
  function FirstField(lines: seq<string>, field: string): Option<string> {
    if lines == [] then None
    else
      var line := Strip(lines[0]);
      if IsField(line, field) then Some(Strip(line[|field|..])) else FirstField(lines[1..], field)
  }

  /** The name a docstring gives: that of its first `name:` line, if it is not empty. */
  function BotName(docstring: string): Option<string> {
    var name := FirstField(SplitLines(docstring), "name:");
    if name == Some("") then None else name
  }

  method ExtractBotName(docstring: string) returns (r: Option<string>)
    ensures r == BotName(docstring)
  {
    var lines := SplitLines(docstring);
    for i := 0 to |lines|
      invariant FirstField(lines, "name:") == FirstField(lines[i..], "name:")
    {
      assert lines[i..][1..] == lines[i + 1..];
      var stripped := Strip(lines[i]);
      if IsField(stripped, "name:") {
        var name := Strip(stripped[|"name:"|..]);
        return if name != "" then Some(name) else None;
      }
    }
    r := None;
  }

  /** The value comes from the first line with the field, even if that value is empty. */
  lemma {:induction false} FirstFieldExact(lines: seq<string>, field: string, value: string)
    ensures FirstField(lines, field) == Some(value) <==>
      exists i :: 0 <= i < |lines| && IsField(Strip(lines[i]), field) && value == Strip(Strip(lines[i])[|field|..])
                  && forall j :: 0 <= j < i ==> !IsField(Strip(lines[j]), field)
  {
    if lines != [] && !IsField(Strip(lines[0]), field) {
      var rest := lines[1..];
      FirstFieldExact(rest, field, value);
      assert forall i :: 0 <= i < |rest| ==> rest[i] == lines[i + 1];
      if i :| 0 <= i < |rest| && IsField(Strip(rest[i]), field) && value == Strip(Strip(rest[i])[|field|..])
              && forall j :: 0 <= j < i ==> !IsField(Strip(rest[j]), field) {
        FieldShifts(lines, field, i);
      }
      if i :| 0 <= i < |lines| && IsField(Strip(lines[i]), field) && value == Strip(Strip(lines[i])[|field|..])
              && forall j :: 0 <= j < i ==> !IsField(Strip(lines[j]), field) {
        assert rest[i - 1] == lines[i];
      }
    }
  }

  lemma FieldShifts(lines: seq<string>, field: string, i: nat)
    requires i < |lines| - 1 && !IsField(Strip(lines[0]), field)
    requires forall j :: 0 <= j < i ==> !IsField(Strip(lines[1..][j]), field)
    ensures forall j :: 0 <= j < i + 1 ==> !IsField(Strip(lines[j]), field)
  {
    assert forall j :: 0 < j < i + 1 ==> lines[j] == lines[1..][j - 1];
  }

  // ---------------------------------------------------------------- what decides

  /** A field name is matched letter by letter, in either case. */
  lemma FieldExact(line: string, field: string)
    requires forall i :: 0 <= i < |field| ==> field[i] == ':' || 'a' <= field[i] <= 'z'
    ensures IsField(line, field) <==>
      && |field| <= |line|
      && forall i :: 0 <= i < |field| ==>
           line[i] == field[i] || ('a' <= field[i] && line[i] as int == field[i] as int - 'a' as int + 'A' as int)
  {
    if |field| <= |line| {
      forall i | 0 <= i < |field|
        ensures LowerChar(line[i]) == field[i] <==>
          line[i] == field[i] || ('a' <= field[i] && line[i] as int == field[i] as int - 'a' as int + 'A' as int)
      {
      }
    }
  }

  /** Line `i` is the last with the field. */
  predicate IsLastField(lines: seq<string>, field: string, i: nat) {
    i < |lines| && IsField(Strip(lines[i]), field) && forall j :: i < j < |lines| ==> !IsField(Strip(lines[j]), field)
  }

  function FieldValue(lines: seq<string>, field: string, i: nat): string
    requires IsLastField(lines, field, i)
  {
    Strip(Strip(lines[i])[|field|..])
  }

  ghost predicate NoField(lines: seq<string>, field: string) {
    forall i :: 0 <= i < |lines| ==> !IsField(Strip(lines[i]), field)
  }

  lemma {:induction false} LastFieldMissing(lines: seq<string>, field: string)
    ensures LastField(lines, field).None? <==> NoField(lines, field)
  {
    if lines != [] {
      var last := |lines| - 1;
      LastFieldMissing(lines[..last], field);
      assert forall i :: 0 <= i < last ==> lines[..last][i] == lines[i];
    }
  }

  lemma LastFieldValue(lines: seq<string>, field: string, value: string)
    ensures LastField(lines, field) == Some(value) <==>
      exists i: nat :: IsLastField(lines, field, i) && FieldValue(lines, field, i) == value
  {
    LastFieldExact(lines, field, value);
    if LastField(lines, field) == Some(value) {
      var i :| 0 <= i < |lines| && IsField(Strip(lines[i]), field) && value == Strip(Strip(lines[i])[|field|..])
               && forall j :: i < j < |lines| ==> !IsField(Strip(lines[j]), field);
      assert IsLastField(lines, field, i) && FieldValue(lines, field, i) == value;
    }
  }

  /** Which runtime a docstring asks for: that of its last `language:` line; without one that
      of its last `python:` line; without either the newest Python. */
  ghost predicate Decides(lines: seq<string>, key: string) {
    || (exists i: nat :: IsLastField(lines, "language:", i) && FieldValue(lines, "language:", i) == key)
    || (NoField(lines, "language:") &&
        exists i: nat :: IsLastField(lines, "python:", i) && key == "python-" + FieldValue(lines, "python:", i))
    || (NoField(lines, "language:") && NoField(lines, "python:") && key == "python-3.14")
  }

  lemma OneLastField(lines: seq<string>, field: string, i: nat)
    requires IsLastField(lines, field, i)
    ensures !NoField(lines, field) && forall j: nat :: IsLastField(lines, field, j) ==> j == i
  {
  }

  lemma DecidedByLanguage(lines: seq<string>, key: string)
    requires LastField(lines, "language:").Some?
    ensures Decides(lines, key) <==> LastField(lines, "language:") == Some(key)
  {
    LastFieldMissing(lines, "language:");
    LastFieldValue(lines, "language:", key);
  }

  lemma DecidedByPython(lines: seq<string>, key: string)
    requires LastField(lines, "language:").None? && LastField(lines, "python:").Some?
    ensures Decides(lines, key) <==> key == "python-" + LastField(lines, "python:").value
  {
    LastFieldMissing(lines, "language:");
    LastFieldValue(lines, "python:", LastField(lines, "python:").value);
    var i: nat :| IsLastField(lines, "python:", i) && FieldValue(lines, "python:", i) == LastField(lines, "python:").value;
    OneLastField(lines, "python:", i);
  }

  lemma DecidedByDefault(lines: seq<string>, key: string)
    requires LastField(lines, "language:").None? && LastField(lines, "python:").None?
    ensures Decides(lines, key) <==> key == "python-3.14"
  {
    LastFieldMissing(lines, "language:");
    LastFieldMissing(lines, "python:");
  }

  /** A submission gets a runtime exactly if what decides is one of the five supported. */
  lemma RuntimeKeyExact(docstring: string, key: string)
    ensures RuntimeKey(docstring) == Some(key) <==>
      && key in {"python-3.10", "python-3.11", "python-3.12", "python-3.13", "python-3.14"}
      && Decides(SplitLines(docstring), key)
  {
    var lines := SplitLines(docstring);
    if LastField(lines, "language:").Some? {
      DecidedByLanguage(lines, key);
    } else if LastField(lines, "python:").Some? {
      DecidedByPython(lines, key);
    } else {
      DecidedByDefault(lines, key);
    }
  }

  /** Line `i` is the first with the field. */
  predicate IsFirstField(lines: seq<string>, field: string, i: nat) {
    i < |lines| && IsField(Strip(lines[i]), field) && forall j :: 0 <= j < i ==> !IsField(Strip(lines[j]), field)
  }

  ghost predicate Names(lines: seq<string>, name: string) {
    exists i: nat :: IsFirstField(lines, "name:", i) && name == Strip(Strip(lines[i])[5..])
  }

  /** A submission gets the name of its first `name:` line, unless that is empty. */
  lemma BotNameExact(docstring: string, name: string)
    ensures BotName(docstring) == Some(name) <==> name != "" && Names(SplitLines(docstring), name)
  {
    var lines := SplitLines(docstring);
    FirstFieldExact(lines, "name:", name);
    if BotName(docstring) == Some(name) {
      var i :| 0 <= i < |lines| && IsField(Strip(lines[i]), "name:") && name == Strip(Strip(lines[i])[5..])
               && forall j :: 0 <= j < i ==> !IsField(Strip(lines[j]), "name:");
      assert IsFirstField(lines, "name:", i);
    }
  }
}
