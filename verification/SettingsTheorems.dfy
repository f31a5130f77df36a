/** What a merge changes and what it leaves: targets take their value and occur once, other keys
    read as before, and merging again changes nothing. */
module SettingsTheorems {
  import opened Options
  import opened Text
  import opened Settings

  // Distinct identifiers with values that are one line and not surrounded by blanks.
  ghost predicate Clean(targets: Targets) {
    && (forall i :: 0 <= i < |targets| ==>
        IsKey(targets[i].0) && OneLine(targets[i].1) && Strip(targets[i].1) == targets[i].1)
    && (forall i, k :: 0 <= i < k < |targets| ==> targets[i].0 != targets[k].0)
  }

  // ---- the written line reads back

  lemma {:induction false} WordLengthOf(key: string, rest: string)
    requires forall i :: 0 <= i < |key| ==> IsWordChar(key[i])
    requires rest != "" && !IsWordChar(rest[0])
    ensures WordLength(key + rest) == |key|
  {
    if key == "" {
      assert key + rest == rest;
    } else {
      assert (key + rest)[1..] == key[1..] + rest;
      WordLengthOf(key[1..], rest);
    }
  }

  lemma AssignmentOf(key: string, value: string)
    requires IsKey(key)
    ensures Assignment(key + "=" + value) == Some((key, value))
  {
    var line := key + "=" + value;
    assert line[0] == key[0];
    assert DropSpaces(line) == line;
    WordLengthOf(key, "=" + value);
    assert line == key + ("=" + value);
    assert line[|key|..] == "=" + value;
    assert DropSpaces("=" + value) == "=" + value;
    assert |key| < 6 ==> line[|key|] != "export"[|key|];
    assert |key| > 6 ==> line[6] == key[6];
  }

  lemma {:induction false} ValueAt(targets: Targets, i: nat)
    requires i < |targets| && forall a, b :: 0 <= a < b < |targets| ==> targets[a].0 != targets[b].0
    ensures ValueOf(targets, targets[i].0) == targets[i].1
    decreases |targets|
  {
    if i > 0 {
      ValueAt(targets[1..], i - 1);
    }
  }

  lemma SettingReads(targets: Targets, key: string)
    requires Clean(targets) && key in Keys(targets)
    ensures Assignment(Setting(targets, key)) == Some((key, ValueOf(targets, key)))
    ensures Strip(ValueOf(targets, key)) == ValueOf(targets, key) && OneLine(Setting(targets, key))
    ensures TargetOf(targets, Setting(targets, key)) == Some(key)
  {
    hide Assignment, Strip, ValueOf;
    var i :| 0 <= i < |targets| && targets[i].0 == key;
    ValueAt(targets, i);
    AssignmentOf(key, ValueOf(targets, key));
    assert forall k :: 0 <= k < |key| ==> IsWordChar(key[k]);
  }

  // ---- settled lines

  // Every target line is in its written form and no target occurs twice.
  ghost predicate Settled(targets: Targets, lines: seq<string>) {
    lines == [] ||
    (var init, last := lines[..|lines| - 1], lines[|lines| - 1];
     Settled(targets, init)
     && (TargetOf(targets, last).Some? ==>
           last == Setting(targets, TargetOf(targets, last).value)
             && TargetOf(targets, last).value !in Seen(targets, init)))
  }

  function Others(targets: Targets, lines: seq<string>): map<string, string> {
    map k | k in ParseLines(lines) && k !in Keys(targets) :: ParseLines(lines)[k]
  }

  function Count(lines: seq<string>, key: string): nat {
    if lines == [] then 0
    else
      var a := Assignment(lines[|lines| - 1]);
      Count(lines[..|lines| - 1], key) + (if a.Some? && a.value.0 == key then 1 else 0)
  }

  lemma LastLine(lines: seq<string>, line: string)
    ensures (lines + [line])[..|lines + [line]| - 1] == lines && (lines + [line])[|lines + [line]| - 1] == line
  {
  }

  lemma KeepOther(targets: Targets, lines: seq<string>, line: string)
    requires Settled(targets, lines) && TargetOf(targets, line).None?
    ensures Settled(targets, lines + [line]) && Seen(targets, lines + [line]) == Seen(targets, lines)
    ensures Others(targets, lines + [line]) == Others(targets, lines)
      + (var a := Assignment(line); if a.Some? then map[a.value.0 := Strip(a.value.1)] else map[])
  {
    LastLine(lines, line);
    hide Assignment, Strip;
  }

  lemma AddSetting(targets: Targets, lines: seq<string>, key: string)
    requires Clean(targets) && Settled(targets, lines) && key in Keys(targets) && key !in Seen(targets, lines)
    ensures Settled(targets, lines + [Setting(targets, key)])
    ensures Seen(targets, lines + [Setting(targets, key)]) == Seen(targets, lines) + {key}
    ensures Others(targets, lines + [Setting(targets, key)]) == Others(targets, lines)
  {
    LastLine(lines, Setting(targets, key));
    SettingReads(targets, key);
    hide Assignment, Strip, Setting, TargetOf, Keys;
  }

  lemma {:induction false} KeptSettled(targets: Targets, lines: seq<string>)
    requires Clean(targets)
    ensures Settled(targets, Kept(targets, lines)) && Seen(targets, Kept(targets, lines)) == Seen(targets, lines)
    ensures Others(targets, Kept(targets, lines)) == Others(targets, lines)
  {
    hide Assignment, Strip, Setting;
    if lines != [] {
      var init, last := lines[..|lines| - 1], lines[|lines| - 1];
      KeptSettled(targets, init);
      var key := TargetOf(targets, last);
      if key.None? {
        KeepOther(targets, Kept(targets, init), last);
        OthersLast(targets, lines);
      } else {
        OthersLast(targets, lines);
        if key.value !in Seen(targets, init) {
          AddSetting(targets, Kept(targets, init), key.value);
        } else {
          assert Kept(targets, lines) == Kept(targets, init);
        }
      }
    }
  }

  lemma OthersLast(targets: Targets, lines: seq<string>)
    requires lines != []
    ensures var init, last := lines[..|lines| - 1], lines[|lines| - 1];
      Others(targets, lines) == Others(targets, init)
        + (var a := Assignment(last);
           if a.Some? && TargetOf(targets, last).None? then map[a.value.0 := Strip(a.value.1)] else map[])
  {
    hide Assignment, Strip;
  }

  lemma NotAnAssignment(line: string)
    requires line == "" || (!IsSpace(line[0]) && !IsWordChar(line[0]))
    ensures Assignment(line) == None
  {
    assert IsWordChar("export"[0]);
  }

  lemma NoAssignment()
    ensures Assignment("") == None && Assignment(Comment()) == None
  {
    NotAnAssignment("");
    assert Comment()[0] == '#';
    NotAnAssignment(Comment());
    hide Assignment;
  }

  lemma SeparatorSettled(targets: Targets, lines: seq<string>)
    requires Settled(targets, lines)
    ensures Settled(targets, lines + Separator(lines))
    ensures Seen(targets, lines + Separator(lines)) == Seen(targets, lines)
    ensures Others(targets, lines + Separator(lines)) == Others(targets, lines)
  {
    hide Assignment, Strip, Settled, Seen, Others, Comment;
    NoAssignment();
    SilentLine(targets, lines, "");
    SilentLine(targets, lines, Comment());
    SilentLine(targets, lines + [""], Comment());
    var c := Comment();
    assert lines + ([""] + [c]) == lines + [""] + [c] && lines + ([] + [c]) == lines + [c];
  }

  lemma SilentLine(targets: Targets, lines: seq<string>, line: string)
    requires Assignment(line).None?
    ensures Settled(targets, lines) ==> Settled(targets, lines + [line])
    ensures Seen(targets, lines + [line]) == Seen(targets, lines)
    ensures Others(targets, lines + [line]) == Others(targets, lines)
  {
    hide Assignment, Strip;
    LastLine(lines, line);
  }

  lemma MissingOfNone(targets: Targets, seen: set<string>)
    ensures Missing(targets, [], seen) == [] && Keys([]) == {}
  {
  }

  lemma MissingHead(targets: Targets, rest: Targets, seen: set<string>)
    requires rest != []
    ensures Missing(targets, rest, seen)
            == (if rest[0].0 in seen then [] else [Setting(targets, rest[0].0)]) + Missing(targets, rest[1..], seen)
    ensures rest[0].0 in seen ==> Missing(targets, rest, seen) == Missing(targets, rest[1..], seen)
  {
    hide Setting;
  }

  lemma {:induction false} MissingSettled(targets: Targets, lines: seq<string>, rest: Targets, seen: set<string>)
    requires Clean(targets) && Clean(rest) && Keys(rest) <= Keys(targets) && Settled(targets, lines)
    requires forall k :: k in Keys(rest) ==> (k in Seen(targets, lines) <==> k in seen)
    ensures var all := lines + Missing(targets, rest, seen);
      && Settled(targets, all) && Seen(targets, all) == Seen(targets, lines) + Keys(rest)
      && Others(targets, all) == Others(targets, lines)
    decreases |rest|
  {
    hide Assignment, Strip, Setting, Others, Settled, Seen, Keys, Clean, Missing;
    if rest == [] {
      MissingOfNone(targets, seen);
      assert lines + Missing(targets, rest, seen) == lines;
    } else {
      var key := rest[0].0;
      HeadKey(rest);
      MissingHead(targets, rest, seen);
      if key in seen {
        MissingSettled(targets, lines, rest[1..], seen);
        assert Seen(targets, lines) + Keys(rest) == Seen(targets, lines) + Keys(rest[1..]);
      } else {
        var more := lines + [Setting(targets, key)];
        AddSetting(targets, lines, key);
        MissingSettled(targets, more, rest[1..], seen);
        assert lines + Missing(targets, rest, seen) == more + Missing(targets, rest[1..], seen);
      }
    }
  }

  lemma HeadKey(rest: Targets)
    requires Clean(rest) && rest != []
    ensures rest[0].0 in Keys(rest) && Keys(rest) == {rest[0].0} + Keys(rest[1..]) && rest[0].0 !in Keys(rest[1..])
    ensures Clean(rest[1..])
  {
    forall k | k in Keys(rest) && k != rest[0].0 ensures k in Keys(rest[1..]) {
      var i :| 0 <= i < |rest| && rest[i].0 == k;
      assert rest[1..][i - 1].0 == k;
    }
    forall k | k in Keys(rest[1..]) ensures k in Keys(rest) && k != rest[0].0 {
      var i :| 0 <= i < |rest[1..]| && rest[1..][i].0 == k;
      assert rest[i + 1].0 == k;
    }
  }

  // ---- the merged lines

  // All targets are set, each once, and the other keys read as in the given lines.
  lemma MergedSettled(targets: Targets, lines: seq<string>)
    requires Clean(targets)
    ensures var merged := MergedLines(targets, lines);
      Settled(targets, merged) && Seen(targets, merged) == Keys(targets)
        && Others(targets, merged) == Others(targets, lines)
  {
    hide Assignment, Strip, Settled, Others, Kept, Separator, Missing;
    var kept, seen := Kept(targets, lines), Seen(targets, lines);
    var missing := Missing(targets, targets, seen);
    KeptSettled(targets, lines);
    SeenAreKeys(targets, lines);
    if missing == [] {
      MissingSettled(targets, kept, targets, seen);
      assert kept + missing == kept;
      assert seen + Keys(targets) == Keys(targets);
    } else {
      SeparatorSettled(targets, kept);
      MissingSettled(targets, kept + Separator(kept), targets, seen);
      assert seen + Keys(targets) == Keys(targets);
    }
  }

  lemma {:induction false} SeenAreKeys(targets: Targets, lines: seq<string>)
    ensures Seen(targets, lines) <= Keys(targets)
  {
    hide Assignment;
    if lines != [] {
      SeenAreKeys(targets, lines[..|lines| - 1]);
    }
  }

  lemma {:induction false} SettledReads(targets: Targets, lines: seq<string>, key: string)
    requires Clean(targets) && Settled(targets, lines) && key in Keys(targets)
    ensures key in Seen(targets, lines) ==> key in ParseLines(lines) && ParseLines(lines)[key] == ValueOf(targets, key)
    ensures Count(lines, key) == if key in Seen(targets, lines) then 1 else 0
  {
    hide Strip, Setting;
    if lines != [] {
      SettledReads(targets, lines[..|lines| - 1], key);
      SettingReads(targets, key);
      hide Assignment;
    }
  }

  // Settled lines that set every target are left as they are.
  lemma {:induction false} SettledKept(targets: Targets, lines: seq<string>)
    requires Settled(targets, lines)
    ensures Kept(targets, lines) == lines
  {
    hide Assignment, Setting;
    if lines != [] {
      SettledKept(targets, lines[..|lines| - 1]);
    }
  }

  lemma {:induction false} NothingMissing(targets: Targets, rest: Targets, seen: set<string>)
    requires Keys(rest) <= seen
    ensures Missing(targets, rest, seen) == []
    decreases |rest|
  {
    if rest != [] {
      assert rest[0].0 in Keys(rest);
      assert Keys(rest[1..]) <= Keys(rest) by {
        forall k | k in Keys(rest[1..]) ensures k in Keys(rest) {
          var i :| 0 <= i < |rest[1..]| && rest[1..][i].0 == k;
          assert rest[i + 1].0 == k;
        }
      }
      NothingMissing(targets, rest[1..], seen);
    }
  }

  // Dropping empty last lines loses no assignment.
  lemma {:induction false} TrimSettled(targets: Targets, lines: seq<string>)
    requires Settled(targets, lines)
    ensures var t := TrimEnd(lines);
      Settled(targets, t) && Seen(targets, t) == Seen(targets, lines) && Others(targets, t) == Others(targets, lines)
  {
    hide Assignment, Strip, Setting;
    NoAssignment();
    if lines == [] {
      SilentLine(targets, [], "");
      assert [] + [""] == [""];
    } else if lines[|lines| - 1] == "" {
      var init := lines[..|lines| - 1];
      TrimSettled(targets, init);
      SilentLine(targets, init, "");
      assert init + [""] == lines;
    }
  }

  lemma {:induction false} TrimTwice(lines: seq<string>)
    ensures TrimEnd(TrimEnd(lines)) == TrimEnd(lines)
  {
    if lines != [] && lines[|lines| - 1] == "" {
      TrimTwice(lines[..|lines| - 1]);
    } else if lines == [] {
      assert [""][..0] == [];
    }
  }

  lemma {:induction false} KeptOneLine(targets: Targets, lines: seq<string>)
    requires Clean(targets) && forall i :: 0 <= i < |lines| ==> OneLine(lines[i])
    ensures forall i :: 0 <= i < |Kept(targets, lines)| ==> OneLine(Kept(targets, lines)[i])
  {
    hide Assignment, Setting, OneLine;
    if lines != [] {
      var key := TargetOf(targets, lines[|lines| - 1]);
      KeptOneLine(targets, lines[..|lines| - 1]);
      if key.Some? {
        SettingReads(targets, key.value);
      }
    }
  }

  lemma {:induction false} MissingOneLine(targets: Targets, rest: Targets, seen: set<string>)
    requires Clean(targets) && Clean(rest) && Keys(rest) <= Keys(targets)
    ensures forall i :: 0 <= i < |Missing(targets, rest, seen)| ==> OneLine(Missing(targets, rest, seen)[i])
    decreases |rest|
  {
    hide Setting, OneLine;
    if rest != [] {
      HeadKey(rest);
      SettingReads(targets, rest[0].0);
      MissingOneLine(targets, rest[1..], seen);
    }
  }

  lemma CommentOneLine()
    ensures OneLine(Comment()) && OneLine("")
  {
    assert OneLine("#") && OneLine(" RCAT Google Workspace ");
    assert OneLine("\U{2014} set by ") && OneLine("scripts/setup-rcat-workspace.py");
    OneLineJoin("#", " RCAT Google Workspace ");
    OneLineJoin("#" + " RCAT Google Workspace ", "\U{2014} set by ");
    OneLineJoin("#" + " RCAT Google Workspace " + "\U{2014} set by ", "scripts/setup-rcat-workspace.py");
  }

  lemma OneLineJoin(a: string, b: string)
    requires OneLine(a) && OneLine(b)
    ensures OneLine(a + b)
  {
  }

  lemma MergedOneLine(targets: Targets, lines: seq<string>)
    requires Clean(targets) && forall i :: 0 <= i < |lines| ==> OneLine(lines[i])
    ensures forall i :: 0 <= i < |MergedLines(targets, lines)| ==> OneLine(MergedLines(targets, lines)[i])
  {
    hide OneLine, Comment, Kept, Missing, Seen, Strip;
    KeptOneLine(targets, lines);
    MissingOneLine(targets, targets, Seen(targets, lines));
    CommentOneLine();
  }

  // The text of a merge, split again, is the merged lines without empty last ones.
  lemma MergedText(targets: Targets, source: string)
    requires Clean(targets)
    ensures var merged := TrimEnd(MergedLines(targets, SplitLines(source)));
      Merge(targets, source) == Lined(merged) && SplitLines(Merge(targets, source)) == merged
  {
    var lines := SplitLines(source);
    MergedOneLine(targets, lines);
    TrimText(MergedLines(targets, lines));
    SplitLined(TrimEnd(MergedLines(targets, lines)));
    hide MergedLines, SplitLines, Lined, Join, DropLastNewlines;
  }

  // After a merge every target reads as its value and is assigned on exactly one line; every other
  // key reads as before, or is as absent as before.
  lemma MergeSetsExactlyTheTargets(targets: Targets, source: string)
    requires Clean(targets)
    ensures var lines := SplitLines(Merge(targets, source));
      && (forall key :: key in Keys(targets) ==>
            key in ParseLines(lines) && ParseLines(lines)[key] == ValueOf(targets, key) && Count(lines, key) == 1)
      && (forall key :: key !in Keys(targets) ==>
            (key in ParseLines(lines) <==> key in ParseLines(SplitLines(source)))
            && (key in ParseLines(lines) ==> ParseLines(lines)[key] == ParseLines(SplitLines(source))[key]))
  {
    hide Settled, SplitLines, MergedLines, Merge, Seen, Count, TrimEnd;
    var before := SplitLines(source);
    var lines := SplitLines(Merge(targets, source));
    MergedText(targets, source);
    MergedSettled(targets, before);
    TrimSettled(targets, MergedLines(targets, before));
    forall key | key in Keys(targets)
      ensures key in ParseLines(lines) && ParseLines(lines)[key] == ValueOf(targets, key) && Count(lines, key) == 1
    {
      SettledReads(targets, lines, key);
    }
    OthersAgree(targets, lines, before);
  }

  lemma OthersAgree(targets: Targets, lines: seq<string>, before: seq<string>)
    requires Others(targets, lines) == Others(targets, before)
    ensures forall key :: key !in Keys(targets) ==>
      (key in ParseLines(lines) <==> key in ParseLines(before))
      && (key in ParseLines(lines) ==> ParseLines(lines)[key] == ParseLines(before)[key])
  {
    hide ParseLines, Keys;
    forall key | key !in Keys(targets)
      ensures key in ParseLines(lines) <==> key in ParseLines(before)
      ensures key in ParseLines(lines) ==> ParseLines(lines)[key] == ParseLines(before)[key]
    {
      assert key in Others(targets, lines) <==> key in Others(targets, before);
    }
  }

  // Merging the same settings again changes nothing.
  lemma MergeIdempotent(targets: Targets, source: string)
    requires Clean(targets)
    ensures Merge(targets, Merge(targets, source)) == Merge(targets, source)
  {
    hide Settled, SplitLines, Kept, Missing, Seen, Lined, Join, DropLastNewlines, TrimEnd;
    var merged := MergedLines(targets, SplitLines(source));
    var once := TrimEnd(merged);
    MergedText(targets, source);
    MergedSettled(targets, SplitLines(source));
    TrimSettled(targets, merged);
    SettledKept(targets, once);
    NothingMissing(targets, targets, Seen(targets, once));
    MergedText(targets, Merge(targets, source));
    TrimTwice(merged);
  }

  // ---- what a line assigns

  predicate IsExport(word: string) {
    "export" <= word && |word| > 6 && Blank(word[6..])
  }

  // A letter or an underscore, then letters, digits and underscores.
  predicate IsIdentifier(s: string) {
    && s != "" && !('0' <= s[0] <= '9')
    && forall i :: 0 <= i < |s| ==> 'A' <= s[i] <= 'Z' || 'a' <= s[i] <= 'z' || '0' <= s[i] <= '9' || s[i] == '_'
  }

  lemma KeyMeans(s: string)
    ensures IsKey(s) <==> IsIdentifier(s)
  {
    forall i | 0 <= i < |s|
      ensures IsWordChar(s[i]) <==> 'A' <= s[i] <= 'Z' || 'a' <= s[i] <= 'z' || '0' <= s[i] <= '9' || s[i] == '_'
    {
    }
  }

  // KEY=value, with blanks before the key and before the sign, and perhaps `export` and blanks.
  predicate Writes(line: string, pad: string, word: string, key: string, gap: string, value: string) {
    IsIdentifier(key) && Composes(line, pad, word, key, gap, value)
  }

  predicate Composes(line: string, pad: string, word: string, key: string, gap: string, value: string) {
    && Blank(pad) && (word == "" || IsExport(word)) && Blank(gap)
    && line == pad + (word + (key + (gap + ("=" + value))))
  }

  lemma {:induction false} DropsBlanks(s: string) returns (n: nat)
    ensures n <= |s| && DropSpaces(s) == s[n..] && Blank(s[..n])
  {
    hide IsSpace;
    if s != "" && IsSpace(s[0]) {
      n := DropsBlanks(s[1..]);
      n := n + 1;
      assert s[..n] == [s[0]] + s[1..][..n - 1];
    } else {
      n := 0;
    }
  }

  lemma {:induction false} DropsPad(pad: string, rest: string)
    requires Blank(pad) && (rest == "" || !IsSpace(rest[0]))
    ensures DropSpaces(pad + rest) == rest
  {
    hide IsSpace;
    if pad == "" {
      assert pad + rest == rest;
    } else {
      assert (pad + rest)[1..] == pad[1..] + rest;
      DropsPad(pad[1..], rest);
    }
  }

  lemma WordIsNoSpace(c: char)
    requires IsWordChar(c)
    ensures !IsSpace(c) && c != '='
  {
  }

  lemma SignIsNoWord()
    ensures !IsSpace('=') && !IsWordChar('=')
  {
  }

  lemma SpaceIsNoWord(c: char)
    requires IsSpace(c)
    ensures !IsWordChar(c)
  {
  }

  lemma AssignRead(key: string, gap: string, value: string)
    requires IsKey(key) && Blank(gap)
    ensures Assign(key + (gap + ("=" + value))) == Some((key, value))
  {
    var s, tail := key + (gap + ("=" + value)), gap + ("=" + value);
    SignIsNoWord();
    if gap != "" {
      SpaceIsNoWord(gap[0]);
    }
    hide IsSpace, IsWordChar, IsFirst;
    WordLengthOf(key, tail);
    assert s[|key|..] == tail && s[..|key|] == key && s[0] == key[0];
    DropsPad(gap, "=" + value);
    assert ("=" + value)[1..] == value;
  }

  lemma AssignSplit(s: string) returns (gap: string)
    requires Assign(s).Some?
    ensures var a := Assign(s).value; IsKey(a.0) && Blank(gap) && s == a.0 + (gap + ("=" + a.1))
  {
    hide IsSpace, IsWordChar, IsFirst;
    var n := WordLength(s);
    var m := DropsBlanks(s[n..]);
    gap := s[n..][..m];
    var rest := s[n..][m..];
    assert rest == "=" + rest[1..];
    assert s == s[..n] + (gap + rest);
  }

  lemma WrittenReads(line: string, pad: string, word: string, key: string, gap: string, value: string)
    requires IsKey(key) && Composes(line, pad, word, key, gap, value)
    ensures Assignment(line) == Some((key, value))
  {
    var tail := key + (gap + ("=" + value));
    WordIsNoSpace(key[0]);
    AssignRead(key, gap, value);
    if word == "" {
      assert word + tail == tail;
      DropsPad(pad, tail);
      PlainKey(key, gap, value);
    } else {
      ExportDropped(word, tail);
      DropsPad(pad, word + tail);
    }
    hide Assign, DropSpaces, IsKey, Blank, IsSpace;
  }

  lemma ExportDropped(word: string, tail: string)
    requires IsExport(word) && tail != "" && !IsSpace(tail[0])
    ensures var s := word + tail; !IsSpace(s[0]) && "export" < s && IsSpace(s[6]) && DropSpaces(s[6..]) == tail
  {
    var s := word + tail;
    assert s[..6] == word[..6] && s[0] == 'e' && s[6] == word[6..][0];
    assert s[6..] == word[6..] + tail;
    DropsPad(word[6..], tail);
  }

  // A key is not taken for the word `export` before another key.
  lemma PlainKey(key: string, gap: string, value: string)
    requires IsKey(key) && Blank(gap)
    ensures var s := key + (gap + ("=" + value));
      !("export" < s && IsSpace(s[6]) && Assign(DropSpaces(s[6..])).Some?)
  {
    var s := key + (gap + ("=" + value));
    SignIsNoWord();
    if "export" < s && IsSpace(s[6]) {
      if |key| > 6 {
        assert s[6] == key[6];
        WordIsNoSpace(key[6]);
      } else if |key| < 6 {
        assert s[|key|] == "export"[|key|];
        assert s[|key|] == (gap + ("=" + value))[0];
        LetterIsWord("export"[|key|]);
        if gap != "" {
          SpaceIsNoWord(gap[0]);
        }
      } else {
        assert s[6..] == gap + ("=" + value);
        DropsPad(gap, "=" + value);
        assert WordLength("=" + value) == 0;
      }
    }
  }

  lemma LetterIsWord(c: char)
    requires 'a' <= c <= 'z'
    ensures IsWordChar(c)
  {
  }

  lemma ReadIsWritten(line: string) returns (pad: string, word: string, gap: string)
    requires Assignment(line).Some?
    ensures Composes(line, pad, word, Assignment(line).value.0, gap, Assignment(line).value.1)
  {
    hide IsKey, IsSpace, Assign;
    var n := DropsBlanks(line);
    var s := line[n..];
    pad := line[..n];
    assert line == pad + s;
    if "export" < s && IsSpace(s[6]) && Assign(DropSpaces(s[6..])).Some? {
      word, gap := ExportSplit(s);
    } else {
      gap := AssignSplit(s);
      word := "";
      assert word + s == s;
    }
    hide DropSpaces, Blank, IsExport;
  }

  lemma ExportSplit(s: string) returns (word: string, gap: string)
    requires "export" < s && Assign(DropSpaces(s[6..])).Some? && IsSpace(s[6])
    ensures var a := Assign(DropSpaces(s[6..])).value;
      IsExport(word) && Blank(gap) && s == word + (a.0 + (gap + ("=" + a.1)))
  {
    hide IsKey, IsSpace, Assign;
    var m := DropsBlanks(s[6..]);
    var tail := s[6..][m..];
    gap := AssignSplit(tail);
    AssignStart(tail);
    word := s[..6 + m];
    assert word[6..] == s[6..][..m] && s == word + tail && word[..6] == s[..6];
  }

  lemma AssignStart(s: string)
    requires Assign(s).Some?
    ensures s != "" && !IsSpace(s[0])
  {
    WordIsNoSpace(s[0]);
  }

  // A line assigns a value to a key exactly when it is written so, and in one way only.
  lemma AssignmentMeans(line: string, key: string, value: string)
    ensures Assignment(line) == Some((key, value)) <==>
      exists pad, word, gap :: Writes(line, pad, word, key, gap, value)
  {
    KeyMeans(key);
    hide Assignment, Composes, IsKey, IsIdentifier;
    if Assignment(line) == Some((key, value)) {
      var pad, word, gap := ReadIsWritten(line);
      assert Writes(line, pad, word, key, gap, value);
    }
    if exists pad, word, gap :: Writes(line, pad, word, key, gap, value) {
      var pad, word, gap :| Writes(line, pad, word, key, gap, value);
      WrittenReads(line, pad, word, key, gap, value);
    }
  }

  predicate AssignsAt(lines: seq<string>, i: nat, key: string)
    requires i < |lines|
  {
    Assignment(lines[i]).Some? && Assignment(lines[i]).value.0 == key
  }

  // No later line assigns the key.
  predicate LastAt(lines: seq<string>, i: nat, key: string)
    requires i < |lines|
  {
    AssignsAt(lines, i, key) && forall k :: i < k < |lines| ==> !AssignsAt(lines, k, key)
  }

  predicate Assigned(lines: seq<string>, key: string) {
    exists i :: 0 <= i < |lines| && AssignsAt(lines, i, key)
  }

  lemma AssignedMore(lines: seq<string>, key: string)
    requires lines != []
    ensures Assigned(lines, key) <==> Assigned(lines[..|lines| - 1], key) || AssignsAt(lines, |lines| - 1, key)
  {
    hide Assignment;
    var init := lines[..|lines| - 1];
    assert forall i :: 0 <= i < |init| ==> AssignsAt(init, i, key) == AssignsAt(lines, i, key);
  }

  lemma {:induction false} AssignedRead(lines: seq<string>, key: string)
    ensures key in ParseLines(lines) <==> Assigned(lines, key)
  {
    hide Assignment, Strip;
    if lines != [] {
      AssignedRead(lines[..|lines| - 1], key);
      AssignedMore(lines, key);
    }
  }

  // The last assignment of a key is the one that counts, without the blanks around its value.
  lemma {:induction false} LastOneReads(lines: seq<string>, i: nat, key: string)
    requires i < |lines| && LastAt(lines, i, key)
    ensures key in ParseLines(lines) && ParseLines(lines)[key] == Strip(Assignment(lines[i]).value.1)
    decreases |lines|
  {
    hide Assignment, Strip;
    if i < |lines| - 1 {
      var init := lines[..|lines| - 1];
      assert !AssignsAt(lines, |lines| - 1, key);
      assert forall k :: 0 <= k < |init| ==> AssignsAt(init, k, key) == AssignsAt(lines, k, key);
      LastOneReads(init, i, key);
    }
  }

  // ---- the lines that assign no target

  function Unrelated(targets: Targets, lines: seq<string>): seq<string> {
    if lines == [] then []
    else
      Unrelated(targets, lines[..|lines| - 1])
      + if TargetOf(targets, lines[|lines| - 1]).None? then [lines[|lines| - 1]] else []
  }

  lemma {:induction false} UnrelatedJoins(targets: Targets, a: seq<string>, b: seq<string>)
    ensures Unrelated(targets, a + b) == Unrelated(targets, a) + Unrelated(targets, b)
  {
    hide TargetOf;
    if b == [] {
      assert a + b == a;
    } else {
      var init := b[..|b| - 1];
      assert a + b == a + init + [b[|b| - 1]];
      LastLine(a + init, b[|b| - 1]);
      UnrelatedJoins(targets, a, init);
    }
  }

  lemma {:induction false} KeptUnrelated(targets: Targets, lines: seq<string>)
    requires Clean(targets)
    ensures Unrelated(targets, Kept(targets, lines)) == Unrelated(targets, lines)
  {
    hide TargetOf, Setting, Clean;
    if lines != [] {
      var init, last := lines[..|lines| - 1], lines[|lines| - 1];
      KeptUnrelated(targets, init);
      var key, kept := TargetOf(targets, last), Kept(targets, init);
      if key.None? {
        LastLine(kept, last);
      } else if key.value !in Seen(targets, init) {
        LastLine(kept, Setting(targets, key.value));
        TargetIsKey(targets, last);
        SettingReads(targets, key.value);
      } else {
        assert kept + [] == kept;
      }
    }
  }

  lemma TargetIsKey(targets: Targets, line: string)
    requires TargetOf(targets, line).Some?
    ensures TargetOf(targets, line).value in Keys(targets)
  {
  }

  // The merge goes through the lines in order: what it makes of the first ones stays in front.
  lemma {:induction false} KeptGrows(targets: Targets, lines: seq<string>, n: nat)
    requires n <= |lines|
    ensures Kept(targets, lines[..n]) <= Kept(targets, lines)
  {
    hide TargetOf, Setting;
    if n < |lines| {
      var init := lines[..|lines| - 1];
      assert init[..n] == lines[..n];
      KeptGrows(targets, init, n);
    } else {
      assert lines[..n] == lines;
    }
  }

  lemma {:induction false} MissingUnrelated(targets: Targets, rest: Targets, seen: set<string>)
    requires Clean(targets) && forall i :: 0 <= i < |rest| ==> rest[i].0 in Keys(targets)
    ensures Unrelated(targets, Missing(targets, rest, seen)) == []
    ensures Missing(targets, rest, seen) == [] <==> forall i :: 0 <= i < |rest| ==> rest[i].0 in seen
  {
    hide TargetOf, Setting, Clean, Keys;
    if rest != [] {
      MissingUnrelated(targets, rest[1..], seen);
      assert forall i :: 1 <= i < |rest| ==> rest[i] == rest[1..][i - 1];
      var head := if rest[0].0 in seen then [] else [Setting(targets, rest[0].0)];
      UnrelatedJoins(targets, head, Missing(targets, rest[1..], seen));
      if rest[0].0 !in seen {
        SettingReads(targets, rest[0].0);
        assert head[..0] == [];
      }
    }
  }

  // Every line that assigns no target is kept, in order; behind them stands nothing but the comment,
  // after an empty line if needed, and that only when some target had to be added.
  lemma OtherLinesKept(targets: Targets, lines: seq<string>)
    requires Clean(targets)
    ensures var kept := Kept(targets, lines);
      && kept <= MergedLines(targets, lines)
      && (forall n :: 0 <= n <= |lines| ==> Kept(targets, lines[..n]) <= kept)
      && Unrelated(targets, MergedLines(targets, lines)) == Unrelated(targets, lines)
         + if forall i :: 0 <= i < |targets| ==> targets[i].0 in Seen(targets, lines) then []
           else (if kept != [] && Strip(kept[|kept| - 1]) != "" then [""] else [])
                + [Comment()]
  {
    hide TargetOf, Setting, Clean, Kept, Missing, Strip, Seen;
    forall n | 0 <= n <= |lines| ensures Kept(targets, lines[..n]) <= Kept(targets, lines) {
      KeptGrows(targets, lines, n);
    }
    var kept, seen := Kept(targets, lines), Seen(targets, lines);
    var missing := Missing(targets, targets, seen);
    KeptUnrelated(targets, lines);
    assert forall i :: 0 <= i < |targets| ==> targets[i].0 in Keys(targets);
    MissingUnrelated(targets, targets, seen);
    SeparatorUnrelated(targets, kept);
    UnrelatedJoins(targets, kept, Separator(kept));
    UnrelatedJoins(targets, kept + Separator(kept), missing);
    hide Unrelated;
  }

  lemma SeparatorUnrelated(targets: Targets, lines: seq<string>)
    ensures Unrelated(targets, Separator(lines)) == Separator(lines)
  {
    NoAssignment();
    OneUnrelated(targets, "");
    OneUnrelated(targets, Comment());
    UnrelatedJoins(targets, [""], [Comment()]);
    hide Assignment, Comment, Strip, Unrelated;
    assert [] + [Comment()] == [Comment()];
  }

  lemma OneUnrelated(targets: Targets, line: string)
    requires Assignment(line).None?
    ensures Unrelated(targets, [line]) == [line]
  {
    assert [line][..0] == [];
  }
}
