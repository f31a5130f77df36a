/** Python's notions of blank characters and of lines. */
module Text {

  predicate IsSpace(c: char) {
    ('\t' <= c <= '\r') || c == ' ' || ('\U{1C}' <= c <= '\U{1F}') || c == '\U{85}' || c == '\U{A0}'
    || c == '\U{1680}' || ('\U{2000}' <= c <= '\U{200A}') || c == '\U{2028}' || c == '\U{2029}'
    || c == '\U{202F}' || c == '\U{205F}' || c == '\U{3000}'
  }

  predicate Blank(s: string) {
    forall i :: 0 <= i < |s| ==> IsSpace(s[i])
  }

  function DropSpaces(s: string): (r: string)
    ensures |r| <= |s| && (r == "" || !IsSpace(r[0]))
  {
    if s != "" && IsSpace(s[0]) then DropSpaces(s[1..]) else s
  }

  function Strip(s: string): string {
    var t := DropSpaces(s);
    DropLastSpaces(t)
  }

  function DropLastSpaces(s: string): string {
    if s != "" && IsSpace(s[|s| - 1]) then DropLastSpaces(s[..|s| - 1]) else s
  }

  // The characters str.splitlines breaks at.
  predicate IsBreak(c: char) {
    ('\n' <= c <= '\r') || ('\U{1C}' <= c <= '\U{1E}') || c == '\U{85}' || c == '\U{2028}' || c == '\U{2029}'
  }

  predicate OneLine(s: string) {
    forall i :: 0 <= i < |s| ==> !IsBreak(s[i])
  }

  function FirstBreak(s: string): (n: nat)
    ensures n <= |s| && OneLine(s[..n]) && (n < |s| ==> IsBreak(s[n]))
  {
    if s == "" || IsBreak(s[0]) then 0
    else
      var n := FirstBreak(s[1..]);
      assert s[..n + 1] == [s[0]] + s[1..][..n];
      n + 1
  }

  // A carriage return and a line feed are one break.
  function SplitLines(s: string): (lines: seq<string>)
    ensures forall i :: 0 <= i < |lines| ==> OneLine(lines[i])
  {
    if s == "" then []
    else
      var n := FirstBreak(s);
      if n == |s| then [s]
      else
        var k := if s[n] == '\r' && n + 1 < |s| && s[n + 1] == '\n' then n + 2 else n + 1;
        [s[..n]] + SplitLines(s[k..])
  }

  // str.join with a one-character separator.
  function Join(parts: seq<string>, sep: char): string {
    if parts == [] then "" else if |parts| == 1 then parts[0] else parts[0] + [sep] + Join(parts[1..], sep)
  }

  lemma {:induction false} JoinLast(parts: seq<string>, sep: char)
    requires |parts| > 1
    ensures Join(parts, sep) == Join(parts[..|parts| - 1], sep) + [sep] + parts[|parts| - 1]
  {
    var front := parts[..|parts| - 1];
    if |parts| == 2 {
      assert parts[1..] == [parts[1]];
    } else {
      assert front[1..] == parts[1..][..|parts| - 2];
      JoinLast(parts[1..], sep);
    }
  }

  function DropLastNewlines(s: string): string {
    if s != "" && s[|s| - 1] == '\n' then DropLastNewlines(s[..|s| - 1]) else s
  }

  // Every line with a newline after it.
  function Lined(lines: seq<string>): string {
    if lines == [] then "" else lines[0] + "\n" + Lined(lines[1..])
  }

  lemma {:induction false} FirstBreakAt(line: string, rest: string)
    requires OneLine(line)
    ensures FirstBreak(line + "\n" + rest) == |line|
  {
    var s := line + "\n" + rest;
    if line != "" {
      assert s[1..] == line[1..] + "\n" + rest;
      FirstBreakAt(line[1..], rest);
    }
  }

  lemma {:induction false} SplitLined(lines: seq<string>)
    requires forall i :: 0 <= i < |lines| ==> OneLine(lines[i])
    ensures SplitLines(Lined(lines)) == lines
  {
    if lines != [] {
      var s, n := Lined(lines), |lines[0]|;
      assert s == lines[0] + "\n" + Lined(lines[1..]);
      FirstBreakAt(lines[0], Lined(lines[1..]));
      assert s[..n] == lines[0] && s[n + 1..] == Lined(lines[1..]) && s[n] == '\n';
      SplitLined(lines[1..]);
    }
  }

  lemma {:induction false} LinedMore(lines: seq<string>, line: string)
    ensures Lined(lines + [line]) == Lined(lines) + line + "\n"
  {
    if lines == [] {
      assert lines + [line] == [line];
    } else {
      assert (lines + [line])[1..] == lines[1..] + [line];
      LinedMore(lines[1..], line);
      assert lines[0] + "\n" + (Lined(lines[1..]) + line + "\n") == lines[0] + "\n" + Lined(lines[1..]) + line + "\n";
    }
  }

  lemma {:induction false} JoinLined(lines: seq<string>)
    requires lines != []
    ensures Join(lines, '\n') + "\n" == Lined(lines)
  {
    if |lines| == 1 {
      assert lines[1..] == [];
    } else {
      JoinLined(lines[1..]);
    }
  }

  // The lines without the empty ones at the end; at least one line is kept.
  function TrimEnd(lines: seq<string>): (r: seq<string>)
    ensures r != [] && (forall i :: 0 <= i < |lines| ==> OneLine(lines[i])) ==>
              (forall i :: 0 <= i < |r| ==> OneLine(r[i]))
  {
    if lines == [] then [""]
    else if lines[|lines| - 1] != "" then lines
    else TrimEnd(lines[..|lines| - 1])
  }

  lemma JoinEnd(parts: seq<string>, sep: char)
    requires parts != [] && parts[|parts| - 1] != ""
    ensures var text, last := Join(parts, sep), parts[|parts| - 1]; text != "" && text[|text| - 1] == last[|last| - 1]
  {
    if |parts| > 1 {
      JoinLast(parts, sep);
    }
  }

  lemma KeptText(lines: seq<string>)
    requires lines != [] && lines[|lines| - 1] != "" && OneLine(lines[|lines| - 1])
    ensures DropLastNewlines(Join(lines, '\n')) == Join(lines, '\n')
  {
    var last := lines[|lines| - 1];
    assert !IsBreak(last[|last| - 1]);
    JoinEnd(lines, '\n');
  }

  // Dropping the newlines at the end of a text and adding one drops its empty last lines.
  lemma {:induction false} TrimText(lines: seq<string>)
    requires forall i :: 0 <= i < |lines| ==> OneLine(lines[i])
    ensures DropLastNewlines(Join(lines, '\n')) + "\n" == Lined(TrimEnd(lines))
  {
    if lines == [] {
      assert Lined([""]) == "" + "\n" + Lined([""][1..]);
    } else {
      var n := |lines| - 1;
      if lines[n] != "" {
        KeptText(lines);
        JoinLined(lines);
      } else if n == 0 {
        assert lines == [""];
        assert Lined([""]) == "" + "\n" + Lined([""][1..]);
      } else {
        JoinLast(lines, '\n');
        assert Join(lines, '\n')[..|Join(lines, '\n')| - 1] == Join(lines[..n], '\n');
        TrimText(lines[..n]);
      }
    }
  }
}
