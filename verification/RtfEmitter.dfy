/** The loops that escape the text and assemble the document, with the budgets they enforce. */
module RtfEmitter {
  import opened Options
  import opened Text
  import opened Utf16
  import opened Rtf
  import opened RtfRoundTrip

  // ---- the emitter's loops

  method RtfEscape(text: Line) returns (output: string)
    ensures output == Escape(text)
  {
    hide EscapeChar;
    output := "";
    for i := 0 to |text|
      invariant output + Escape(text[i..]) == Escape(text)
    {
      assert text[i..][1..] == text[i + 1..];
      Regroup(output, EscapeChar(text[i]), Escape(text[i + 1..]), "");
      var escaped := EmitChar(text[i]);
      output := output + escaped;
    }
  }

  method EmitChar(c: Scalar) returns (output: string)
    ensures output == EscapeChar(c)
  {
    hide UnitText;
    if c == '{' as int || c == '}' as int || c == '\\' as int {
      output := "\\" + [c as char];
    } else if c == '\t' as int {
      output := "\\tab ";
    } else if 32 <= c <= 126 {
      output := [c as char];
    } else {
      output := EmitUnits(Units(c));
    }
  }

  method EmitUnits(units: seq<Unit>) returns (output: string)
    ensures output == UnitsText(units)
  {
    hide Signed;
    output := "";
    for k := 0 to |units|
      invariant output + UnitsText(units[k..]) == UnitsText(units)
    {
      var unit: int := units[k];
      if unit >= 32768 {
        unit := unit - 65536;
      }
      assert units[k..][1..] == units[k + 1..];
      Regroup(output, UnitText(units[k]), UnitsText(units[k + 1..]), "");
      output := output + ("\\u" + Signed(unit) + "?");
    }
  }

  // What is still to be written before page i.
  function Remaining(pages: seq<Page>, i: nat): string
    requires i <= |pages|
  {
    if i == 0 && pages != [] then LinesText(pages[0]) + MorePages(pages[1..]) else MorePages(pages[i..])
  }

  lemma RemainingPage(pages: seq<Page>, i: nat)
    requires i < |pages|
    ensures Remaining(pages, i) == (if i > 0 then "\\page\n" else "") + LinesText(pages[i]) + Remaining(pages, i + 1)
  {
    hide LinesText;
    assert pages[i..][1..] == pages[i + 1..];
  }

  lemma AppendLine(parts: seq<string>, escaped: string, more: string)
    ensures Lined(parts + [escaped] + ["\\par"]) + more == Lined(parts) + (escaped + "\n" + "\\par\n" + more)
  {
    LinedMore(parts, escaped);
    LinedMore(parts + [escaped], "\\par");
    hide Lined;
  }

  lemma NextLine(lines: Page, k: nat)
    requires k < |lines|
    ensures LinesText(lines[k..]) == Escape(lines[k]) + "\n" + "\\par\n" + LinesText(lines[k + 1..])
  {
    hide Escape;
    assert lines[k..][1..] == lines[k + 1..];
  }

  method PageParts(parts0: seq<string>, lines: Page) returns (parts: seq<string>)
    ensures Lined(parts) == Lined(parts0) + LinesText(lines)
    ensures parts0 != [] ==> parts != []
  {
    hide Escape, Lined;
    parts := parts0;
    for k := 0 to |lines|
      invariant Lined(parts) + LinesText(lines[k..]) == Lined(parts0) + LinesText(lines)
      invariant parts0 != [] ==> parts != []
    {
      var escaped := RtfEscape(lines[k]);
      hide LinesText;
      NextLine(lines, k);
      AppendLine(parts, escaped, LinesText(lines[k + 1..]));
      parts := parts + [escaped] + ["\\par"];
    }
  }

  method OnePage(parts0: seq<string>, further: bool, lines: Page) returns (parts: seq<string>)
    requires parts0 != []
    ensures parts != []
    ensures Lined(parts) == Lined(parts0) + (if further then "\\page\n" else "") + LinesText(lines)
  {
    hide Lined, LinesText;
    parts := parts0;
    if further {
      LinedMore(parts, "\\page");
      assert "\\page" + "\n" == "\\page\n";
      Regroup(Lined(parts), "\\page", "\n", "");
      parts := parts + ["\\page"];
    } else {
      assert Lined(parts) + "" == Lined(parts);
    }
    parts := PageParts(parts, lines);
  }

  method CountChars(lines: Page) returns (total: nat)
    ensures total == Chars(lines)
  {
    total := 0;
    for k := 0 to |lines|
      invariant total + Chars(lines[k..]) == Chars(lines)
    {
      assert lines[k..][1..] == lines[k + 1..];
      total := total + |lines[k]|;
    }
  }

  // None is the refusal of a document that exceeds one of the budgets.
  method ToRtf(pages: seq<Page>) returns (data: Option<string>)
    ensures data.Some? <==>
      1 <= |pages| <= 12 && |Flat(pages)| <= 150_000 && 32 <= |Document(pages)| <= 3 * 1024 * 1024
    ensures data.Some? ==> data.value == Document(pages)
    ensures data.Some? ==> Ascii(data.value) && Read(START, data.value) == Some(pages)
  {
    hide Document, Lined, Join, Ascii, Read, TotalChars, Flat;
    AllCharsCounted(pages);
    if !(1 <= |pages| <= MAX_PAGES) {
      return None;
    }
    var body := Body(pages);
    if body.None? {
      return None;
    }
    var parts := body.value + ["}"];
    JoinLined(parts);
    var text := Join(parts, '\n') + "\n";
    if !(32 <= |text| <= MAX_OUTPUT_BYTES) {
      return None;
    }
    data := Some(text);
    AcceptedIsReadable(pages);
  }

  // The lines of all pages, or None at the page on which there are too many characters.
  method Body(pages: seq<Page>) returns (body: Option<seq<string>>)
    requires pages != []
    ensures body.Some? <==> TotalChars(pages) <= MAX_CHARS
    ensures body.Some? ==> Lined(body.value + ["}"]) == Document(pages)
  {
    hide LinesText, MorePages, Chars, Lined, Document, Remaining;
    var parts := [HEADER, FONTS, VIEW];
    FrameLined();
    var total := 0;
    for i := 0 to |pages|
      invariant total + TotalChars(pages[i..]) == TotalChars(pages) && total <= MAX_CHARS
      invariant Lined(parts) + Remaining(pages, i) == FRAME + Remaining(pages, 0)
      invariant parts != []
    {
      assert pages[i..][1..] == pages[i + 1..];
      var chars := CountChars(pages[i]);
      total := total + chars;
      if total > MAX_CHARS {
        return None;
      }
      RemainingPage(pages, i);
      Regroup(Lined(parts), if i > 0 then "\\page\n" else "", LinesText(pages[i]), Remaining(pages, i + 1));
      parts := OnePage(parts, i > 0, pages[i]);
    }
    DocumentLined(parts, pages);
    body := Some(parts);
  }

  lemma DocumentFrame(pages: seq<Page>)
    requires pages != []
    ensures Document(pages) == FRAME + LinesText(pages[0]) + MorePages(pages[1..]) + "}\n"
  {
    hide LinesText, MorePages;
  }

  lemma DocumentLined(parts: seq<string>, pages: seq<Page>)
    requires pages != [] && Lined(parts) + Remaining(pages, |pages|) == FRAME + Remaining(pages, 0)
    ensures Lined(parts + ["}"]) == Document(pages)
  {
    LinedMore(parts, "}");
    assert Remaining(pages, |pages|) == "" && Lined(parts) + "" == Lined(parts);
    assert "}" + "\n" == "}\n";
    Regroup(Lined(parts), "}", "\n", "");
    Regroup(FRAME, LinesText(pages[0]), MorePages(pages[1..]), "");
    DocumentFrame(pages);
  }

  lemma Regroup(a: string, b: string, c: string, d: string)
    ensures a + (b + c + d) == a + b + c + d == a + b + (c + d)
    ensures a + (b + c) == a + b + c
  {
  }

  lemma ThreeLined(a: string, b: string, c: string)
    ensures Lined([a, b, c]) == a + "\n" + b + "\n" + c + "\n"
  {
    assert [a][1..] == [] && Lined([a]) == a + "\n";
    LinedMore([a], b);
    LinedMore([a] + [b], c);
    assert [a] + [b] + [c] == [a, b, c];
  }

  lemma FrameLined()
    ensures Lined([HEADER, FONTS, VIEW]) == FRAME
  {
    hide Lined;
    ThreeLined(HEADER, FONTS, VIEW);
  }
}
