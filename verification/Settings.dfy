/** The .env merge: targeted assignments are replaced in place, duplicates of them collapse, and
    missing ones are appended; every other line is kept. */
module Settings {
  import opened Options
  import opened Text

  function Comment(): string {
    "#" + " RCAT Google Workspace " + "\U{2014} set by " + "scripts/setup-rcat-workspace.py"
  }

  predicate IsFirst(c: char) {
    'A' <= c <= 'Z' || 'a' <= c <= 'z' || c == '_'
  }

  predicate IsWordChar(c: char) {
    IsFirst(c) || '0' <= c <= '9'
  }

  predicate IsKey(s: string) {
    s != "" && IsFirst(s[0]) && forall i :: 0 <= i < |s| ==> IsWordChar(s[i])
  }

  function WordLength(s: string): (n: nat)
    ensures n <= |s| && (n < |s| ==> !IsWordChar(s[n])) && forall i :: 0 <= i < n ==> IsWordChar(s[i])
  {
    if s == "" || !IsWordChar(s[0]) then 0
    else
      var n := WordLength(s[1..]);
      assert forall i :: 1 <= i <= n ==> s[i] == s[1..][i - 1];
      n + 1
  }

  // KEY, blanks, an equals sign and the rest of the line.
  function Assign(s: string): (r: Option<(string, string)>)
    ensures r.Some? ==> IsKey(r.value.0)
  {
    var n := WordLength(s);
    if n == 0 || !IsFirst(s[0]) then None
    else
      var rest := DropSpaces(s[n..]);
      if rest != "" && rest[0] == '=' then Some((s[..n], rest[1..])) else None
  }

  // The assignment on a line, with or without a leading `export`.
  function Assignment(line: string): (r: Option<(string, string)>)
    ensures r.Some? ==> IsKey(r.value.0)
  {
    var s := DropSpaces(line);
    if "export" < s && IsSpace(s[6]) && Assign(DropSpaces(s[6..])).Some? then Assign(DropSpaces(s[6..]))
    else Assign(s)
  }

  // ---- reading

  function ParseLines(lines: seq<string>): map<string, string> {
    if lines == [] then map[]
    else
      var before, a := ParseLines(lines[..|lines| - 1]), Assignment(lines[|lines| - 1]);
      if a.None? then before else before[a.value.0 := Strip(a.value.1)]
  }

  method ParseValues(source: string) returns (values: map<string, string>)
    ensures values == ParseLines(SplitLines(source))
  {
    hide Assignment, Strip;
    values := map[];
    var lines := SplitLines(source);
    for i := 0 to |lines|
      invariant values == ParseLines(lines[..i])
    {
      assert lines[..i + 1][..i] == lines[..i];
      var a := Assignment(lines[i]);
      if a.Some? {
        values := values[a.value.0 := Strip(a.value.1)];
      }
    }
    assert lines[..|lines|] == lines;
  }

  // ---- merging

  type Targets = seq<(string, string)>

  function Keys(targets: Targets): set<string> {
    set i | 0 <= i < |targets| :: targets[i].0
  }

  function ValueOf(targets: Targets, key: string): string {
    if targets == [] then "" else if targets[0].0 == key then targets[0].1 else ValueOf(targets[1..], key)
  }

  // The target a line assigns, if it assigns one.
  function TargetOf(targets: Targets, line: string): Option<string> {
    var a := Assignment(line);
    if a.Some? && a.value.0 in Keys(targets) then Some(a.value.0) else None
  }

  function Setting(targets: Targets, key: string): string {
    key + "=" + ValueOf(targets, key)
  }

  function Seen(targets: Targets, lines: seq<string>): set<string> {
    if lines == [] then {}
    else
      var key := TargetOf(targets, lines[|lines| - 1]);
      Seen(targets, lines[..|lines| - 1]) + (if key.Some? then {key.value} else {})
  }

  // The lines with each target at its first place and its repetitions dropped.
  function Kept(targets: Targets, lines: seq<string>): seq<string> {
    if lines == [] then []
    else
      var init, key := lines[..|lines| - 1], TargetOf(targets, lines[|lines| - 1]);
      Kept(targets, init)
      + (if key.None? then [lines[|lines| - 1]]
         else if key.value in Seen(targets, init) then [] else [Setting(targets, key.value)])
  }

  function Missing(targets: Targets, rest: Targets, seen: set<string>): seq<string> {
    if rest == [] then []
    else (if rest[0].0 in seen then [] else [Setting(targets, rest[0].0)]) + Missing(targets, rest[1..], seen)
  }

  function Separator(lines: seq<string>): seq<string> {
    (if lines != [] && Strip(lines[|lines| - 1]) != "" then [""] else []) + [Comment()]
  }

  function MergedLines(targets: Targets, lines: seq<string>): seq<string> {
    var kept, missing := Kept(targets, lines), Missing(targets, targets, Seen(targets, lines));
    if missing == [] then kept else kept + Separator(kept) + missing
  }

  function Merge(targets: Targets, source: string): string {
    DropLastNewlines(Join(MergedLines(targets, SplitLines(source)), '\n')) + "\n"
  }

  method KeepLines(targets: Targets, lines: seq<string>) returns (result: seq<string>, seen: set<string>)
    ensures result == Kept(targets, lines) && seen == Seen(targets, lines)
  {
    hide TargetOf, Setting;
    result, seen := [], {};
    for i := 0 to |lines|
      invariant result == Kept(targets, lines[..i]) && seen == Seen(targets, lines[..i])
    {
      assert lines[..i + 1][..i] == lines[..i];
      var key := TargetOf(targets, lines[i]);
      if key.Some? {
        if key.value !in seen {
          result := result + [Setting(targets, key.value)];
          seen := seen + {key.value};
        }
      } else {
        result := result + [lines[i]];
      }
    }
    assert lines[..|lines|] == lines;
  }

  lemma MissingFrom(targets: Targets, i: nat, seen: set<string>)
    requires i <= |targets|
    ensures i == |targets| ==> Missing(targets, targets[i..], seen) == []
    ensures i < |targets| ==>
      Missing(targets, targets[i..], seen)
      == (if targets[i].0 in seen then [] else [Setting(targets, targets[i].0)])
         + Missing(targets, targets[i + 1..], seen)
  {
    hide Setting;
    assert i < |targets| ==> targets[i..][1..] == targets[i + 1..];
  }

  method ListMissing(targets: Targets, seen: set<string>) returns (missing: seq<string>)
    ensures missing == Missing(targets, targets, seen)
  {
    hide Setting, Missing;
    missing := [];
    for i := 0 to |targets|
      invariant missing + Missing(targets, targets[i..], seen) == Missing(targets, targets, seen)
    {
      MissingFrom(targets, i, seen);
      if targets[i].0 !in seen {
        missing := missing + [Setting(targets, targets[i].0)];
      }
    }
    MissingFrom(targets, |targets|, seen);
    assert missing + [] == missing;
  }

  method MergeSettings(source: string, targets: Targets) returns (text: string)
    ensures text == Merge(targets, source)
  {
    hide Kept, Seen, Separator, Setting, Join, DropLastNewlines, Missing;
    var result, seen := KeepLines(targets, SplitLines(source));
    var missing := ListMissing(targets, seen);
    if missing != [] {
      result := result + Separator(result) + missing;
    }
    text := DropLastNewlines(Join(result, '\n')) + "\n";
  }
}
