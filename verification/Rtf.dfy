/** The RTF text emitter and a reader for it that follows the RTF 1.9.1 specification: control
    words with an optional decimal parameter and an optional space delimiter, control symbols,
    groups, ignored line breaks, and \uN with \uc skippable fallback characters. */
module Rtf {
  import opened Options
  import opened Utf16
  import opened Decimals

  type Line = seq<Scalar>
  type Page = seq<Line>

  const MAX_PAGES := 12
  const MAX_CHARS := 150_000
  const MAX_OUTPUT_BYTES := 3 * 1024 * 1024
  const HEADER := "{" + "\\rtf1" + "\\ansi" + "\\ansicpg1252" + "\\uc1" + "\\deff0"
  const FONTS := "{" + "\\fonttbl" + "{\\f0\\fnil Noto Sans Thai;}" + "}"
  const VIEW := "\\viewkind4\\f0\\fs24"

  predicate IsLetter(c: char) { 'a' <= c <= 'z' || 'A' <= c <= 'Z' }

  function Signed(n: int): string {
    if n < 0 then "-" + Decimal(-n) else Decimal(n)
  }

  // ---- the emitter

  // A code unit as the signed 16-bit number RTF requires, with the fallback character.
  function UnitText(u: Unit): string {
    "\\u" + Signed(if u >= 32768 then u - 65536 else u) + "?"
  }

  function UnitsText(us: seq<Unit>): string {
    if us == [] then "" else UnitText(us[0]) + UnitsText(us[1..])
  }

  function EscapeChar(c: Scalar): string {
    if c == '{' as int || c == '}' as int || c == '\\' as int then ['\\', c as char]
    else if c == '\t' as int then "\\tab "
    else if 32 <= c <= 126 then [c as char]
    else UnitsText(Units(c))
  }

  function Escape(text: Line): string {
    if text == [] then "" else EscapeChar(text[0]) + Escape(text[1..])
  }

  function LinesText(lines: Page): string {
    if lines == [] then "" else Escape(lines[0]) + "\n" + "\\par\n" + LinesText(lines[1..])
  }

  // The pages after the first, each introduced by \page.
  function MorePages(pages: seq<Page>): string {
    if pages == [] then "" else "\\page\n" + LinesText(pages[0]) + MorePages(pages[1..])
  }

  function Document(pages: seq<Page>): string
    requires pages != []
  {
    HEADER + "\n" + FONTS + "\n" + VIEW + "\n" + LinesText(pages[0]) + MorePages(pages[1..]) + "}\n"
  }

  // ---- the reader

  datatype Token = Open | Close | Word(name: string, arg: Option<int>) | Symbol(c: char) | Text(c: char) | Break | Bad

  function Letters(s: string): (n: nat)
    ensures n <= |s|
  {
    if s != "" && IsLetter(s[0]) then 1 + Letters(s[1..]) else 0
  }

  function Digits(s: string): (n: nat)
    ensures n <= |s| && forall i :: 0 <= i < n ==> IsDigit(s[i])
  {
    if s != "" && IsDigit(s[0]) then
      var m := Digits(s[1..]);
      assert forall i :: 1 <= i < m + 1 ==> s[i] == s[1..][i - 1];
      1 + m
    else 0
  }

  // The parameter at the start of s and its length.
  function Argument(s: string): (r: (Option<int>, nat))
    ensures r.1 <= |s|
  {
    if s != "" && s[0] == '-' && Digits(s[1..]) > 0
      then (Some(-(Value(s[1..][..Digits(s[1..])]) as int)), 1 + Digits(s[1..]))
    else if Digits(s) > 0 then (Some(Value(s[..Digits(s)])), Digits(s))
    else (None, 0)
  }

  // The first token and the number of characters it takes.
  function Next(s: string): (r: (Token, nat))
    requires s != ""
    ensures 1 <= r.1 <= |s|
  {
    if s[0] == '{' then (Open, 1)
    else if s[0] == '}' then (Close, 1)
    else if s[0] == '\n' || s[0] == '\r' then (Break, 1)
    else if s[0] != '\\' then (Text(s[0]), 1)
    else if |s| == 1 then (Bad, 1)
    else if !IsLetter(s[1]) then (Symbol(s[1]), 2)
    else
      var n := Letters(s[1..]);
      var a := Argument(s[1 + n..]);
      var k := 1 + n + a.1;
      (Word(s[1..1 + n], a.0), if k < |s| && s[k] == ' ' then k + 1 else k)
  }

  datatype Group = Group(uc: nat, hidden: bool)

  datatype Reader = Reader(groups: seq<Group>, pages: seq<Page>, page: Page, line: seq<Unit>, skip: nat)

  const START := Reader([], [], [], [], 0)

  function Emit(r: Reader, u: Unit): Reader {
    r.(line := r.line + [u])
  }

  function Top(r: Reader): Group
    requires r.groups != []
  {
    r.groups[|r.groups| - 1]
  }

  function SetTop(r: Reader, g: Group): Reader
    requires r.groups != []
  {
    r.(groups := r.groups[|r.groups| - 1 := g])
  }

  function Control(r: Reader, name: string, arg: Option<int>): Option<Reader>
    requires r.groups != []
  {
    if name == "u" && arg.Some? then
      // the parameter is a signed 16-bit number
      if -0x8000 <= arg.value < 0x8000 then Some(Emit(r, arg.value % 0x1_0000).(skip := Top(r).uc)) else None
    else if name == "uc" && arg.Some? && arg.value >= 0 then Some(SetTop(r, Top(r).(uc := arg.value)))
    else if name == "tab" then Some(Emit(r, 9))
    else if name == "par" then
      var text := Decode(r.line);
      if text.None? then None else Some(r.(page := r.page + [text.value], line := []))
    else if name == "page" then Some(r.(pages := r.pages + [r.page], page := []))
    else if name == "fonttbl" then Some(SetTop(r, Top(r).(hidden := true)))
    else Some(r)
  }

  function Feed(r: Reader, tok: Token): Option<Reader> {
    if tok.Break? then Some(r)
    else if tok.Bad? then None
    else if tok.Open? then
      Some(r.(groups := r.groups + [if r.groups == [] then Group(1, false) else Top(r)], skip := 0))
    else if r.groups == [] then None
    else if tok.Close? then Some(r.(groups := r.groups[..|r.groups| - 1], skip := 0))
    else if r.skip > 0 then Some(r.(skip := r.skip - 1))
    else if tok.Word? then (if Top(r).hidden then Some(r) else Control(r, tok.name, tok.arg))
    else if Top(r).hidden || tok.c as int >= 0x1_0000 then Some(r)
    else Some(Emit(r, tok.c as int))
  }

  // The document read to its end: all groups closed and no text after the last \par.
  function Finish(r: Reader): Option<seq<Page>> {
    if r.groups == [] && r.line == [] then Some(r.pages + [r.page]) else None
  }

  function Read(r: Reader, s: string): Option<seq<Page>>
    decreases |s|
  {
    if s == "" then Finish(r)
    else
      var next := Next(s);
      var r1 := Feed(r, next.0);
      if r1.None? then None else Read(r1.value, s[next.1..])
  }
}
