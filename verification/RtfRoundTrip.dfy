/** Reading an emitted document gives back its pages and lines; its size and alphabet. */
module RtfRoundTrip {
  import opened Options
  import opened Utf16
  import opened Decimals
  import opened Rtf

  // ---- reading what was written

  lemma ReadToken(r: Reader, piece: string, rest: string, tok: Token)
    requires piece != "" && Next(piece + rest) == (tok, |piece|) && Feed(r, tok).Some?
    ensures Read(r, piece + rest) == Read(Feed(r, tok).value, rest)
  {
    assert (piece + rest)[|piece|..] == rest;
  }

  lemma {:induction false} LettersOf(name: string, rest: string)
    requires forall i :: 0 <= i < |name| ==> IsLetter(name[i])
    requires rest == "" || !IsLetter(rest[0])
    ensures Letters(name + rest) == |name|
  {
    if name == "" {
      assert name + rest == rest;
    } else {
      assert (name + rest)[1..] == name[1..] + rest;
      LettersOf(name[1..], rest);
    }
  }

  lemma {:induction false} DigitsOf(digits: string, rest: string)
    requires forall i :: 0 <= i < |digits| ==> IsDigit(digits[i])
    requires rest == "" || !IsDigit(rest[0])
    ensures Digits(digits + rest) == |digits|
  {
    if digits == "" {
      assert digits + rest == rest;
    } else {
      assert (digits + rest)[1..] == digits[1..] + rest;
      DigitsOf(digits[1..], rest);
    }
  }

  lemma DigitsRead(digits: string, rest: string)
    requires digits != "" && forall i :: 0 <= i < |digits| ==> IsDigit(digits[i])
    requires rest == "" || !IsDigit(rest[0])
    ensures Argument(digits + rest) == (Some(Value(digits)), |digits|)
    ensures IsDigit(digits[0]) && !IsLetter(digits[0])
  {
    hide Value, Digits;
    DigitsOf(digits, rest);
    assert (digits + rest)[..|digits|] == digits;
    assert (digits + rest)[0] == digits[0];
  }

  lemma MinusArgument(t: string)
    requires Digits(t) > 0
    ensures Argument("-" + t) == (Some(-(Value(t[..Digits(t)]) as int)), 1 + Digits(t))
  {
    hide Value, Digits;
    assert ("-" + t)[1..] == t;
  }

  lemma MinusRead(digits: string, rest: string)
    requires digits != "" && forall i :: 0 <= i < |digits| ==> IsDigit(digits[i])
    requires rest == "" || !IsDigit(rest[0])
    ensures Argument("-" + digits + rest) == (Some(-(Value(digits) as int)), 1 + |digits|)
  {
    hide Value, Digits, Argument;
    DigitsOf(digits, rest);
    assert (digits + rest)[..|digits|] == digits;
    MinusArgument(digits + rest);
    assert "-" + digits + rest == "-" + (digits + rest);
  }

  lemma ArgumentOf(n: int, rest: string)
    requires rest == "" || !IsDigit(rest[0])
    ensures Argument(Signed(n) + rest) == (Some(n), |Signed(n)|)
    ensures Signed(n) != "" && !IsLetter(Signed(n)[0])
  {
    hide Argument, Value, Decimal;
    var magnitude := if n < 0 then -n else n;
    ValueDecimal(magnitude);
    DigitsRead(Decimal(magnitude), rest);
    MinusRead(Decimal(magnitude), rest);
  }

  predicate IsWord(name: string) {
    name != "" && forall i :: 0 <= i < |name| ==> IsLetter(name[i])
  }

  // A control word and what follows it.
  lemma NextWord(name: string, tail: string)
    requires IsWord(name) && (tail == "" || !IsLetter(tail[0]))
    ensures var k := Argument(tail).1;
      Next("\\" + name + tail) == (Word(name, Argument(tail).0),
                                    1 + |name| + k + (if k < |tail| && tail[k] == ' ' then 1 else 0))
  {
    hide Value, Argument, Letters, Digits, IsLetter;
    var s := "\\" + name + tail;
    assert s[1..] == name + tail;
    LettersOf(name, tail);
    assert s[1 + |name|..] == tail;
    assert s[1..1 + |name|] == name;
  }

  // A control word with a parameter, before anything that neither continues it nor is a space.
  lemma NextNumbered(name: string, n: int, rest: string)
    requires IsWord(name)
    requires rest != "" && !IsDigit(rest[0]) && rest[0] != ' '
    ensures Next("\\" + name + Signed(n) + rest) == (Word(name, Some(n)), 1 + |name| + |Signed(n)|)
  {
    hide Argument, Next, Signed;
    ArgumentOf(n, rest);
    NextWord(name, Signed(n) + rest);
    assert "\\" + name + Signed(n) + rest == "\\" + name + (Signed(n) + rest);
  }

  lemma ReadNumbered(r: Reader, name: string, n: int, rest: string)
    requires IsWord(name)
    requires rest != "" && !IsDigit(rest[0]) && rest[0] != ' '
    requires Feed(r, Word(name, Some(n))).Some?
    ensures Read(r, "\\" + name + Signed(n) + rest) == Read(Feed(r, Word(name, Some(n))).value, rest)
  {
    hide Next, Feed, Read, Signed;
    NextNumbered(name, n, rest);
    ReadToken(r, "\\" + name + Signed(n), rest, Word(name, Some(n)));
  }

  // A control word without a parameter, with its delimiting space or before a non-word character.
  lemma NoArgument(tail: string)
    requires tail != "" && tail[0] != '-' && !IsDigit(tail[0])
    ensures Argument(tail) == (None, 0)
  {
    hide Value;
  }

  lemma NextNamed(name: string, space: string, rest: string)
    requires IsWord(name)
    requires space == " "
             || (space == "" && rest != "" && !IsLetter(rest[0]) && !IsDigit(rest[0]) && rest[0] != ' '
                 && rest[0] != '-')
    ensures Next("\\" + name + space + rest) == (Word(name, None), 1 + |name| + |space|)
  {
    hide Argument, Next;
    NoArgument(space + rest);
    NextWord(name, space + rest);
    assert "\\" + name + space + rest == "\\" + name + (space + rest);
  }

  lemma ReadNamed(r: Reader, name: string, space: string, rest: string)
    requires IsWord(name)
    requires space == " "
             || (space == "" && rest != "" && !IsLetter(rest[0]) && !IsDigit(rest[0]) && rest[0] != ' '
                 && rest[0] != '-')
    requires Feed(r, Word(name, None)).Some?
    ensures Read(r, "\\" + name + space + rest) == Read(Feed(r, Word(name, None)).value, rest)
  {
    hide Next, Feed, Read;
    NextNamed(name, space, rest);
    ReadToken(r, "\\" + name + space, rest, Word(name, None));
  }

  lemma ReadNumberedAs(r: Reader, w: string, name: string, n: int, rest: string)
    requires IsWord(name) && w == "\\" + name + Signed(n)
    requires rest != "" && !IsDigit(rest[0]) && rest[0] != ' '
    requires Feed(r, Word(name, Some(n))).Some?
    ensures Read(r, w + rest) == Read(Feed(r, Word(name, Some(n))).value, rest)
  {
    ReadNumbered(r, name, n, rest);
  }

  lemma ReadNamedAs(r: Reader, w: string, name: string, space: string, rest: string)
    requires IsWord(name) && w == "\\" + name + space
    requires space == " "
             || (space == "" && rest != "" && !IsLetter(rest[0]) && !IsDigit(rest[0]) && rest[0] != ' '
                 && rest[0] != '-')
    requires Feed(r, Word(name, None)).Some?
    ensures Read(r, w + rest) == Read(Feed(r, Word(name, None)).value, rest)
  {
    ReadNamed(r, name, space, rest);
  }

  // A reader inside the document, past the font table.
  predicate InText(r: Reader) {
    r.groups == [Group(1, false)] && r.skip == 0
  }

  lemma ReadUnit(r: Reader, u: Unit, rest: string)
    requires InText(r)
    ensures Read(r, UnitText(u) + rest) == Read(Emit(r, u), rest)
  {
    hide Next, Signed, Read;
    var n := if u >= 32768 then u - 65536 else u;
    assert n % 0x1_0000 == u;
    assert UnitText(u) + rest == "\\" + "u" + Signed(n) + ("?" + rest);
    ReadNumbered(r, "u", n, "?" + rest);
    ReadFallback(Emit(r, u).(skip := 1), rest);
  }

  lemma ReadFallback(r: Reader, rest: string)
    requires r.groups == [Group(1, false)] && r.skip == 1
    ensures Read(r, "?" + rest) == Read(r.(skip := 0), rest)
  {
    ReadToken(r, "?", rest, Text('?'));
  }

  lemma {:induction false} ReadUnits(r: Reader, us: seq<Unit>, rest: string)
    requires InText(r)
    ensures Read(r, UnitsText(us) + rest) == Read(r.(line := r.line + us), rest)
    decreases |us|
  {
    hide Read, UnitText;
    if us == [] {
      assert r.(line := r.line + us) == r;
      assert UnitsText(us) + rest == rest;
    } else {
      assert UnitsText(us) + rest == UnitText(us[0]) + (UnitsText(us[1..]) + rest);
      ReadUnit(r, us[0], UnitsText(us[1..]) + rest);
      ReadUnits(Emit(r, us[0]), us[1..], rest);
      assert r.line + [us[0]] + us[1..] == r.line + us;
    }
  }

  lemma ReadChar(r: Reader, c: Scalar, rest: string)
    requires InText(r)
    ensures Read(r, EscapeChar(c) + rest) == Read(r.(line := r.line + Units(c)), rest)
  {
    hide Read;
    if c == '{' as int || c == '}' as int || c == '\\' as int {
      ReadToken(r, ['\\', c as char], rest, Symbol(c as char));
    } else if c == '\t' as int {
      assert EscapeChar(c) == "\\" + "tab" + " ";
      ReadNamed(r, "tab", " ", rest);
    } else if 32 <= c <= 126 {
      ReadToken(r, [c as char], rest, Text(c as char));
    } else {
      ReadUnits(r, Units(c), rest);
    }
  }

  lemma NothingEscaped()
    ensures Escape([]) == "" && Encode([]) == []
    ensures forall rest: string :: "" + rest == rest
  {
  }

  lemma EscapedHead(text: Line, rest: string)
    requires text != []
    ensures Escape(text) + rest == EscapeChar(text[0]) + (Escape(text[1..]) + rest)
    ensures Encode(text) == Units(text[0]) + Encode(text[1..])
  {
    hide EscapeChar, Units;
  }

  lemma {:induction false} ReadEscaped(r: Reader, text: Line, rest: string)
    requires InText(r)
    ensures Read(r, Escape(text) + rest) == Read(r.(line := r.line + Encode(text)), rest)
    decreases |text|
  {
    hide Read, EscapeChar, Escape, Encode, Units;
    if text == [] {
      NothingEscaped();
      assert r.line + [] == r.line && r.(line := r.line) == r;
    } else {
      EscapedHead(text, rest);
      ReadChar(r, text[0], Escape(text[1..]) + rest);
      ReadEscaped(r.(line := r.line + Units(text[0])), text[1..], rest);
      assert r.line + Units(text[0]) + Encode(text[1..]) == r.line + Encode(text);
    }
  }

  lemma ReadBreak(r: Reader, rest: string)
    ensures Read(r, "\n" + rest) == Read(r, rest)
  {
    ReadToken(r, "\n", rest, Break);
  }

  lemma LineNests(e: string, rest: string)
    ensures e + "\n" + "\\par\n" + rest == e + ("\n" + ("\\par" + ("\n" + rest)))
  {
    assert "\\par" + "\n" == "\\par\n";
  }

  lemma ReadLine(r: Reader, text: Line, rest: string)
    requires InText(r) && r.line == []
    ensures Read(r, Escape(text) + "\n" + "\\par\n" + rest) == Read(r.(page := r.page + [text]), rest)
  {
    hide Read, Next, Escape, Decode, Encode;
    var r1 := r.(line := Encode(text));
    LineNests(Escape(text), rest);
    ReadEscaped(r, text, "\n" + ("\\par" + ("\n" + rest)));
    assert r.line + Encode(text) == Encode(text);
    ReadBreak(r1, "\\par" + ("\n" + rest));
    DecodeEncode(text);
    ReadNamedAs(r1, "\\par", "par", "", "\n" + rest);
    ReadBreak(r.(page := r.page + [text]), rest);
  }

  lemma {:induction false} ReadLines(r: Reader, lines: Page, rest: string)
    requires InText(r) && r.line == []
    ensures Read(r, LinesText(lines) + rest) == Read(r.(page := r.page + lines), rest)
    decreases |lines|
  {
    hide Read, Escape;
    if lines == [] {
      assert r.(page := r.page + lines) == r;
      assert LinesText(lines) + rest == rest;
    } else {
      var more := LinesText(lines[1..]) + rest;
      assert LinesText(lines) + rest == Escape(lines[0]) + "\n" + "\\par\n" + more;
      ReadLine(r, lines[0], more);
      ReadLines(r.(page := r.page + [lines[0]]), lines[1..], rest);
      assert r.page + [lines[0]] + lines[1..] == r.page + lines;
    }
  }

  function WithPages(r: Reader, pages: seq<Page>): Reader
    decreases |pages|
  {
    if pages == [] then r else WithPages(r.(pages := r.pages + [r.page], page := pages[0]), pages[1..])
  }

  lemma {:induction false} WithPagesIs(r: Reader, pages: seq<Page>)
    ensures var r1 := WithPages(r, pages);
      r1.pages + [r1.page] == r.pages + [r.page] + pages && r1.groups == r.groups && r1.line == r.line
        && r1.skip == r.skip
    decreases |pages|
  {
    if pages != [] {
      WithPagesIs(r.(pages := r.pages + [r.page], page := pages[0]), pages[1..]);
      assert [pages[0]] + pages[1..] == pages;
    }
  }

  lemma ReadPage(r: Reader, lines: Page, rest: string)
    requires InText(r) && r.line == []
    ensures Read(r, "\\page\n" + LinesText(lines) + rest) == Read(r.(pages := r.pages + [r.page], page := lines), rest)
  {
    hide Read, Next, LinesText;
    var r1 := r.(pages := r.pages + [r.page], page := []);
    assert "\\page\n" + LinesText(lines) + rest == "\\" + "page" + "" + ("\n" + (LinesText(lines) + rest));
    ReadNamed(r, "page", "", "\n" + (LinesText(lines) + rest));
    ReadBreak(r1, LinesText(lines) + rest);
    ReadLines(r1, lines, rest);
    assert [] + lines == lines;
  }

  lemma {:induction false} ReadPages(r: Reader, pages: seq<Page>, rest: string)
    requires InText(r) && r.line == []
    ensures Read(r, MorePages(pages) + rest) == Read(WithPages(r, pages), rest)
    decreases |pages|
  {
    hide Read, LinesText;
    if pages == [] {
      assert MorePages(pages) + rest == rest;
    } else {
      var more := MorePages(pages[1..]) + rest;
      assert MorePages(pages) + rest == "\\page\n" + LinesText(pages[0]) + more;
      ReadPage(r, pages[0], more);
      ReadPages(r.(pages := r.pages + [r.page], page := pages[0]), pages[1..], rest);
    }
  }

  // ---- the header

  lemma Numerals()
    ensures Signed(0) == "0" && Signed(1) == "1" && Signed(4) == "4" && Signed(24) == "24" && Signed(1252) == "1252"
  {
    assert Decimal(12) == "12" && Decimal(125) == "125";
  }

  const TEXT_START := Reader([Group(1, false)], [], [], [], 0)

  const HIDDEN_GROUP := TEXT_START.(groups := [Group(1, false), Group(1, true)])
  const NESTED_GROUP := TEXT_START.(groups := [Group(1, false), Group(1, true), Group(1, true)])

  lemma HeaderSteps()
    ensures Feed(START, Open) == Some(TEXT_START)
    ensures Feed(TEXT_START, Word("uc", Some(1))) == Some(TEXT_START)
    ensures Feed(TEXT_START, Open) == Some(TEXT_START.(groups := [Group(1, false), Group(1, false)]))
    ensures Feed(TEXT_START.(groups := [Group(1, false), Group(1, false)]), Word("fonttbl", None)) == Some(HIDDEN_GROUP)
    ensures Feed(HIDDEN_GROUP, Open) == Some(NESTED_GROUP)
    ensures NESTED_GROUP.groups[..2] == HIDDEN_GROUP.groups && HIDDEN_GROUP.groups[..1] == TEXT_START.groups
  {
    assert [] + [Group(1, false)] == [Group(1, false)];
    assert [Group(1, false)] + [Group(1, false)] == [Group(1, false), Group(1, false)];
    assert HIDDEN_GROUP.groups + [Group(1, true)] == NESTED_GROUP.groups;
    assert [Group(1, false)][0 := Group(1, false)] == [Group(1, false)];
    assert [Group(1, false), Group(1, false)][1 := Group(1, true)] == [Group(1, false), Group(1, true)];
  }

  lemma OpeningNests(rest: string)
    ensures HEADER + "\n" + rest
            == "{" + ("\\rtf1" + ("\\ansi" + ("\\ansicpg1252" + ("\\uc1" + ("\\deff0" + ("\n" + rest))))))
  {
    NestSix("{", "\\rtf1", "\\ansi", "\\ansicpg1252", "\\uc1", "\\deff0", "\n" + rest);
  }

  lemma NestSix(a: string, b: string, c: string, d: string, e: string, f: string, rest: string)
    ensures a + b + c + d + e + f + rest == a + (b + (c + (d + (e + (f + rest)))))
  {
  }

  lemma FontsNest(rest: string)
    ensures FONTS + "\n" + rest == "{" + ("\\fonttbl" + ("{\\f0\\fnil Noto Sans Thai;}" + ("}" + ("\n" + rest))))
  {
    NestFour("{", "\\fonttbl", "{\\f0\\fnil Noto Sans Thai;}", "}", "\n" + rest);
  }

  lemma NestFour(a: string, b: string, c: string, d: string, rest: string)
    ensures a + b + c + d + rest == a + (b + (c + (d + rest)))
  {
  }

  lemma FontNests(rest: string)
    ensures "{\\f0\\fnil Noto Sans Thai;}" + rest == "{" + ("\\f0" + ("\\fnil " + ("Noto Sans Thai;" + ("}" + rest))))
  {
  }

  lemma ReadOpening(rest: string)
    ensures Read(START, HEADER + "\n" + rest) == Read(TEXT_START, rest)
  {
    hide Read, Next, Signed;
    Numerals();
    HeaderSteps();
    var t1 := "\\ansi" + ("\\ansicpg1252" + ("\\uc1" + ("\\deff0" + ("\n" + rest))));
    OpeningNests(rest);
    ReadOpen(START, "\\rtf1" + t1);
    ReadNumberedAs(TEXT_START, "\\rtf1", "rtf", 1, t1);
    ReadCharset(rest);
  }

  lemma ReadCharset(rest: string)
    ensures Read(TEXT_START, "\\ansi" + ("\\ansicpg1252" + ("\\uc1" + ("\\deff0" + ("\n" + rest)))))
            == Read(TEXT_START, rest)
  {
    hide Read;
    ReadCodePage("\\uc1" + ("\\deff0" + ("\n" + rest)));
    ReadSkips(rest);
  }

  lemma ReadAnsi(rest: string)
    requires rest != "" && rest[0] == '\\'
    ensures Read(TEXT_START, "\\ansi" + rest) == Read(TEXT_START, rest)
  {
    hide Read, Next;
    ReadNamedAs(TEXT_START, "\\ansi", "ansi", "", rest);
  }

  lemma ReadCodePage(rest: string)
    requires rest != "" && !IsDigit(rest[0]) && rest[0] != ' '
    ensures Read(TEXT_START, "\\ansi" + ("\\ansicpg1252" + rest)) == Read(TEXT_START, rest)
  {
    hide Read, Next, Signed;
    Numerals();
    ReadAnsi("\\ansicpg1252" + rest);
    ReadNumberedAs(TEXT_START, "\\ansicpg1252", "ansicpg", 1252, rest);
  }

  lemma ReadSkips(rest: string)
    ensures Read(TEXT_START, "\\uc1" + ("\\deff0" + ("\n" + rest))) == Read(TEXT_START, rest)
  {
    hide Read, Next, Signed;
    Numerals();
    HeaderSteps();
    ReadNumberedAs(TEXT_START, "\\uc1", "uc", 1, "\\deff0" + ("\n" + rest));
    ReadNumberedAs(TEXT_START, "\\deff0", "deff", 0, "\n" + rest);
    ReadBreak(TEXT_START, rest);
  }

  lemma ReadOpen(r: Reader, rest: string)
    ensures Read(r, "{" + rest) == Read(Feed(r, Open).value, rest)
  {
    ReadToken(r, "{", rest, Open);
  }

  lemma ReadClose(r: Reader, rest: string)
    requires r.groups != []
    ensures Read(r, "}" + rest) == Read(r.(groups := r.groups[..|r.groups| - 1], skip := 0), rest)
  {
    ReadToken(r, "}", rest, Close);
  }

  // Text in a hidden destination is passed over.
  lemma {:induction false} ReadHidden(r: Reader, text: string, rest: string)
    requires r.groups != [] && Top(r).hidden && r.skip == 0
    requires forall i :: 0 <= i < |text| ==> text[i] != '{' && text[i] != '}' && text[i] != '\\'
    ensures Read(r, text + rest) == Read(r, rest)
    decreases |text|
  {
    hide Read;
    if text == "" {
      assert text + rest == rest;
    } else {
      assert text + rest == [text[0]] + (text[1..] + rest);
      ReadToken(r, [text[0]], text[1..] + rest, if text[0] == '\n' || text[0] == '\r' then Break else Text(text[0]));
      ReadHidden(r, text[1..], rest);
    }
  }

  lemma ReadFonts(rest: string)
    ensures Read(TEXT_START, FONTS + "\n" + rest) == Read(TEXT_START, rest)
  {
    hide Read, Next, Signed;
    HeaderSteps();
    var t3 := "}" + ("\n" + rest);
    var t2 := "{\\f0\\fnil Noto Sans Thai;}" + t3;
    var t1 := "\\fonttbl" + t2;
    FontsNest(rest);
    ReadOpen(TEXT_START, t1);
    ReadNamedAs(TEXT_START.(groups := [Group(1, false), Group(1, false)]), "\\fonttbl", "fonttbl", "", t2);
    ReadFont(t3);
    ReadClose(HIDDEN_GROUP, "\n" + rest);
    ReadBreak(TEXT_START, rest);
  }

  lemma ReadFont(rest: string)
    ensures Read(HIDDEN_GROUP, "{\\f0\\fnil Noto Sans Thai;}" + rest) == Read(HIDDEN_GROUP, rest)
  {
    hide Read, Next, Signed;
    HeaderSteps();
    Numerals();
    var t4 := "Noto Sans Thai;" + ("}" + rest);
    var t3 := "\\fnil " + t4;
    var r := NESTED_GROUP;
    FontNests(rest);
    ReadOpen(HIDDEN_GROUP, "\\f0" + t3);
    ReadNumberedAs(r, "\\f0", "f", 0, t3);
    ReadNamedAs(r, "\\fnil ", "fnil", " ", t4);
    ReadHidden(r, "Noto Sans Thai;", "}" + rest);
    ReadClose(r, rest);
  }

  lemma ReadView(rest: string)
    ensures Read(TEXT_START, VIEW + "\n" + rest) == Read(TEXT_START, rest)
  {
    hide Read, Next, Signed;
    Numerals();
    assert VIEW + "\n" + rest == "\\viewkind4" + ("\\f0" + ("\\fs24" + ("\n" + rest)));
    ReadNumberedAs(TEXT_START, "\\viewkind4", "viewkind", 4, "\\f0" + ("\\fs24" + ("\n" + rest)));
    ReadNumberedAs(TEXT_START, "\\f0", "f", 0, "\\fs24" + ("\n" + rest));
    ReadNumberedAs(TEXT_START, "\\fs24", "fs", 24, "\n" + rest);
    ReadBreak(TEXT_START, rest);
  }

  // Reading a document gives back exactly its pages and lines.
  lemma ReadDocument(pages: seq<Page>)
    requires pages != []
    ensures Read(START, Document(pages)) == Some(pages)
  {
    hide Read, Next, LinesText, MorePages;
    var end := "}\n";
    var t3 := LinesText(pages[0]) + (MorePages(pages[1..]) + end);
    var t2 := VIEW + "\n" + t3;
    var t1 := FONTS + "\n" + t2;
    DocumentNests(pages);
    ReadOpening(t1);
    ReadFonts(t2);
    ReadView(t3);
    ReadLines(TEXT_START, pages[0], MorePages(pages[1..]) + end);
    assert [] + pages[0] == pages[0];
    var r1 := TEXT_START.(page := pages[0]);
    ReadPages(r1, pages[1..], end);
    WithPagesIs(r1, pages[1..]);
    ReadEnd(WithPages(r1, pages[1..]));
    assert [] + [pages[0]] + pages[1..] == pages;
  }

  lemma DocumentNests(pages: seq<Page>)
    requires pages != []
    ensures Document(pages)
            == HEADER + "\n" + (FONTS + "\n" + (VIEW + "\n" + (LinesText(pages[0]) + (MorePages(pages[1..]) + "}\n"))))
  {
    hide LinesText, MorePages;
  }

  lemma ReadEnd(r: Reader)
    requires InText(r) && r.line == []
    ensures Read(r, "}\n") == Some(r.pages + [r.page])
  {
    assert "}" + "\n" == "}\n" && "\n" + "" == "\n";
    ReadClose(r, "\n");
    ReadBreak(r.(groups := []), "");
  }

  // ---- size and alphabet

  predicate Ascii(s: string) {
    forall i :: 0 <= i < |s| ==> s[i] == '\n' || ' ' <= s[i] <= '~'
  }

  lemma UnitTextFits(u: Unit)
    ensures |UnitText(u)| <= 9 && Ascii(UnitText(u))
  {
    var n: nat := if u >= 32768 then 65536 - u else u;
    assert Power10(3) == 1000 && Power10(5) == 100000;
    DecimalLength(n, 5);
  }

  lemma CharFits(c: Scalar)
    ensures |EscapeChar(c)| <= 18 && Ascii(EscapeChar(c))
  {
    hide UnitText;
    var us := Units(c);
    assert UnitsText([]) == "";
    UnitTextFits(us[0]);
    if |us| == 2 {
      UnitTextFits(us[1]);
      assert us[1..] == [us[1]] && us[1..][1..] == [];
      assert UnitsText(us) == UnitText(us[0]) + (UnitText(us[1]) + "");
    } else {
      assert us[1..] == [];
      assert UnitsText(us) == UnitText(us[0]) + "";
    }
  }

  lemma {:induction false} EscapeFits(text: Line)
    ensures |Escape(text)| <= 18 * |text| && Ascii(Escape(text))
  {
    hide EscapeChar;
    if text != [] {
      CharFits(text[0]);
      EscapeFits(text[1..]);
    }
  }

  function Chars(lines: Page): nat {
    if lines == [] then 0 else |lines[0]| + Chars(lines[1..])
  }

  function TotalChars(pages: seq<Page>): nat {
    if pages == [] then 0 else Chars(pages[0]) + TotalChars(pages[1..])
  }

  function TotalLines(pages: seq<Page>): nat {
    if pages == [] then 0 else |pages[0]| + TotalLines(pages[1..])
  }

  predicate IsPlain(c: Scalar) {
    32 <= c <= 126 && c != 92 && c != 123 && c != 125
  }

  // A line of printable ASCII without braces and backslashes is written as it is.
  lemma {:induction false} PlainLine(line: Line)
    requires forall i :: 0 <= i < |line| ==> IsPlain(line[i])
    ensures |Escape(line)| == |line| && forall i :: 0 <= i < |line| ==> Escape(line)[i] as int == line[i]
  {
    if line != [] {
      PlainLine(line[1..]);
      assert EscapeChar(line[0]) == [line[0] as char];
    }
  }

  // The characters of all lines in order.
  function Flat(pages: seq<Page>): Line {
    if pages == [] then [] else FlatLines(pages[0]) + Flat(pages[1..])
  }

  function FlatLines(lines: Page): Line {
    if lines == [] then [] else lines[0] + FlatLines(lines[1..])
  }

  lemma {:induction false} CharsCounted(lines: Page)
    ensures Chars(lines) == |FlatLines(lines)|
  {
    if lines != [] {
      CharsCounted(lines[1..]);
    }
  }

  lemma {:induction false} AllCharsCounted(pages: seq<Page>)
    ensures TotalChars(pages) == |Flat(pages)|
  {
    if pages != [] {
      CharsCounted(pages[0]);
      AllCharsCounted(pages[1..]);
    }
  }

  lemma {:induction false} LinesFit(lines: Page)
    ensures |LinesText(lines)| <= 18 * Chars(lines) + 6 * |lines| && Ascii(LinesText(lines))
  {
    hide Escape;
    if lines != [] {
      EscapeFits(lines[0]);
      LinesFit(lines[1..]);
      assert Ascii(Escape(lines[0]) + "\n" + "\\par\n");
    }
  }

  lemma {:induction false} MorePagesFit(pages: seq<Page>)
    ensures |MorePages(pages)| <= 18 * TotalChars(pages) + 6 * TotalLines(pages) + 6 * |pages|
    ensures Ascii(MorePages(pages))
  {
    hide LinesText;
    if pages != [] {
      LinesFit(pages[0]);
      MorePagesFit(pages[1..]);
      assert Ascii("\\page\n" + LinesText(pages[0]));
    }
  }

  const FRAME := HEADER + "\n" + FONTS + "\n" + VIEW + "\n"

  lemma FrameFits()
    ensures |FRAME| == 90 && Ascii(FRAME) && Ascii("}\n")
  {
    assert |HEADER| == 33 && |FONTS| == 36 && |VIEW| == 18;
    HeaderAscii();
    FontsAscii();
    hide Ascii;
    AsciiJoin(HEADER, "\n");
    AsciiJoin(HEADER + "\n", FONTS);
    AsciiJoin(HEADER + "\n" + FONTS, "\n");
    AsciiJoin(HEADER + "\n" + FONTS + "\n", VIEW);
    AsciiJoin(HEADER + "\n" + FONTS + "\n" + VIEW, "\n");
  }

  lemma HeaderAscii()
    ensures Ascii(HEADER) && Ascii(VIEW)
  {
  }

  lemma FontsAscii()
    ensures Ascii(FONTS) && Ascii("\n") && Ascii("}\n")
  {
  }

  lemma AsciiJoin(a: string, b: string)
    requires Ascii(a) && Ascii(b)
    ensures Ascii(a + b)
  {
  }

  // Pure ASCII, and at most 18 bytes a character, 6 a line, 6 a page and 92 for the frame.
  lemma DocumentFits(pages: seq<Page>)
    requires pages != []
    ensures Ascii(Document(pages))
    ensures |Document(pages)| <= 18 * TotalChars(pages) + 6 * TotalLines(pages) + 6 * |pages| + 92
  {
    hide LinesText, MorePages, Ascii;
    LinesFit(pages[0]);
    MorePagesFit(pages[1..]);
    FrameFits();
    AsciiJoin(LinesText(pages[0]), MorePages(pages[1..]));
    AsciiJoin(FRAME, LinesText(pages[0]) + MorePages(pages[1..]));
    AsciiJoin(FRAME + (LinesText(pages[0]) + MorePages(pages[1..])), "}\n");
    assert Document(pages) == FRAME + (LinesText(pages[0]) + MorePages(pages[1..])) + "}\n";
  }

  // Whatever the emitter accepts, a reader gets back.
  lemma AcceptedIsReadable(pages: seq<Page>)
    requires 1 <= |pages| <= MAX_PAGES
    ensures Read(START, Document(pages)) == Some(pages) && Ascii(Document(pages))
  {
    ReadDocument(pages);
    DocumentFits(pages);
  }
}
