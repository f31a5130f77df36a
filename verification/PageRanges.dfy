/** The page-range syntax: a list of endpoints and endpoint pairs, and its one way to be written. */
module PageRanges {
  import opened Decimals
  import opened Text

  const MAX_LENGTH := 256
  const MAX_PAGE := 100_000

  // ---- text cut at a separator

  function Find(s: string, sep: char): (n: nat)
    ensures n <= |s| && sep !in s[..n] && (n < |s| ==> s[n] == sep)
  {
    if s == "" || s[0] == sep then 0
    else
      var n := Find(s[1..], sep);
      assert s[..n + 1] == [s[0]] + s[1..][..n];
      n + 1
  }

  // str.split: there is always at least one part.
  function Split(s: string, sep: char): (parts: seq<string>)
    ensures parts != [] && forall i :: 0 <= i < |parts| ==> sep !in parts[i]
  {
    var n := Find(s, sep);
    if n == |s| then (assert s[..n] == s; [s]) else [s[..n]] + Split(s[n + 1..], sep)
  }

  lemma {:induction false} JoinSplit(s: string, sep: char)
    ensures Join(Split(s, sep), sep) == s
  {
    var n := Find(s, sep);
    if n < |s| {
      var rest := Split(s[n + 1..], sep);
      JoinSplit(s[n + 1..], sep);
      assert Split(s, sep) == [s[..n]] + rest;
      JoinFirst(s[..n], rest, sep);
      hide Split, Join, Find;
      assert s == s[..n] + [sep] + s[n + 1..];
    }
  }

  lemma JoinFirst(part: string, rest: seq<string>, sep: char)
    requires rest != []
    ensures Join([part] + rest, sep) == part + [sep] + Join(rest, sep)
  {
    assert ([part] + rest)[1..] == rest;
  }

  lemma {:induction false} FindAt(part: string, sep: char, rest: string)
    requires sep !in part
    ensures Find(part + [sep] + rest, sep) == |part|
  {
    if part != "" {
      assert (part + [sep] + rest)[1..] == part[1..] + [sep] + rest;
      FindAt(part[1..], sep, rest);
    }
  }

  lemma {:induction false} FindNone(part: string, sep: char)
    requires sep !in part
    ensures Find(part, sep) == |part|
  {
    if part != "" {
      FindNone(part[1..], sep);
    }
  }

  lemma {:induction false} SplitJoin(parts: seq<string>, sep: char)
    requires parts != [] && forall i :: 0 <= i < |parts| ==> sep !in parts[i]
    ensures Split(Join(parts, sep), sep) == parts
    decreases |parts|
  {
    var s := Join(parts, sep);
    if |parts| == 1 {
      FindNone(parts[0], sep);
    } else {
      var rest := Join(parts[1..], sep);
      FindAt(parts[0], sep, rest);
      assert s[..|parts[0]|] == parts[0] && s[|parts[0]| + 1..] == rest;
      SplitJoin(parts[1..], sep);
    }
  }

  // ---- the grammar

  datatype Endpoint = Page(n: nat) | Last

  datatype Section = Single(at: Endpoint) | Pair(from: Endpoint, to: Endpoint)

  predicate ValidEndpoint(e: Endpoint) {
    e.Page? ==> 1 <= e.n <= 100_000
  }

  predicate ValidSection(s: Section) {
    match s
    case Single(at) => ValidEndpoint(at)
    case Pair(from, to) => ValidEndpoint(from) && ValidEndpoint(to)
  }

  // [1-9][0-9]{0,5} or z
  predicate IsEndpoint(t: string) {
    t == "z" || (1 <= |t| <= 6 && t[0] != '0' && forall i :: 0 <= i < |t| ==> IsDigit(t[i]))
  }

  predicate InBounds(t: string)
    requires IsEndpoint(t)
  {
    t != "z" ==> Value(t) <= MAX_PAGE
  }

  predicate IsSection(t: string) {
    var ends := Split(t, '-');
    |ends| <= 2 && forall i :: 0 <= i < |ends| ==> IsEndpoint(ends[i]) && InBounds(ends[i])
  }

  predicate Accepts(value: string) {
    && 1 <= |value| <= MAX_LENGTH
    && forall i :: 0 <= i < |Split(value, ',')| ==> IsSection(Split(value, ',')[i])
  }

  function ParseEndpoint(t: string): (e: Endpoint)
    requires IsEndpoint(t) && InBounds(t)
    ensures ValidEndpoint(e)
  {
    if t == "z" then Last
    else
      DecimalValue(t);
      Page(Value(t))
  }

  function ParseSection(t: string): (s: Section)
    requires IsSection(t)
    ensures ValidSection(s)
  {
    var ends := Split(t, '-');
    if |ends| == 1 then Single(ParseEndpoint(ends[0])) else Pair(ParseEndpoint(ends[0]), ParseEndpoint(ends[1]))
  }

  function ParseSections(parts: seq<string>): (sections: seq<Section>)
    requires forall i :: 0 <= i < |parts| ==> IsSection(parts[i])
    ensures |sections| == |parts| && forall i :: 0 <= i < |sections| ==> ValidSection(sections[i])
  {
    if parts == [] then [] else [ParseSection(parts[0])] + ParseSections(parts[1..])
  }

  function Parse(value: string): seq<Section>
    requires Accepts(value)
  {
    ParseSections(Split(value, ','))
  }

  function PrintEndpoint(e: Endpoint): string {
    if e.Last? then "z" else Decimal(e.n)
  }

  function PrintSection(s: Section): string {
    match s
    case Single(at) => PrintEndpoint(at)
    case Pair(from, to) => PrintEndpoint(from) + "-" + PrintEndpoint(to)
  }

  function PrintSections(sections: seq<Section>): (parts: seq<string>)
    ensures |parts| == |sections|
  {
    if sections == [] then [] else [PrintSection(sections[0])] + PrintSections(sections[1..])
  }

  function Print(sections: seq<Section>): string
    requires sections != []
  {
    Join(PrintSections(sections), ',')
  }

  // ---- round trips

  lemma EndpointText(t: string)
    requires IsEndpoint(t) && InBounds(t)
    ensures PrintEndpoint(ParseEndpoint(t)) == t
  {
    if t != "z" {
      DecimalValue(t);
    }
  }

  lemma EndpointValue(e: Endpoint)
    requires ValidEndpoint(e)
    ensures IsEndpoint(PrintEndpoint(e)) && InBounds(PrintEndpoint(e)) && ParseEndpoint(PrintEndpoint(e)) == e
    ensures '-' !in PrintEndpoint(e) && ',' !in PrintEndpoint(e)
  {
    if e.Page? {
      var t := Decimal(e.n);
      NoLeadingZero(e.n);
      ValueDecimal(e.n);
      assert Power10(3) == 1000 && Power10(6) == 1_000_000;
      DecimalLength(e.n, 6);
      assert forall c :: c in t ==> IsDigit(c);
      assert t != "z" by {
        assert IsDigit(t[0]) && !IsDigit('z');
      }
    }
  }

  lemma SectionText(t: string)
    requires IsSection(t)
    ensures PrintSection(ParseSection(t)) == t
  {
    var ends := Split(t, '-');
    JoinSplit(t, '-');
    EndpointText(ends[0]);
    if |ends| == 2 {
      EndpointText(ends[1]);
      assert ends[1..] == [ends[1]];
    }
  }

  lemma SectionValue(s: Section)
    requires ValidSection(s)
    ensures IsSection(PrintSection(s)) && ParseSection(PrintSection(s)) == s && ',' !in PrintSection(s)
  {
    hide Split, IsEndpoint, InBounds, PrintEndpoint, ParseEndpoint;
    match s {
      case Single(at) =>
        EndpointValue(at);
        SplitJoin([PrintEndpoint(at)], '-');
      case Pair(from, to) =>
        EndpointValue(from);
        EndpointValue(to);
        var parts := [PrintEndpoint(from), PrintEndpoint(to)];
        assert parts[1..] == [PrintEndpoint(to)];
        assert Join(parts, '-') == PrintSection(s);
        SplitJoin(parts, '-');
    }
  }

  lemma {:induction false} SectionsText(parts: seq<string>)
    requires forall i :: 0 <= i < |parts| ==> IsSection(parts[i])
    ensures PrintSections(ParseSections(parts)) == parts
  {
    hide IsSection, PrintSection, ParseSection;
    if parts != [] {
      SectionText(parts[0]);
      SectionsText(parts[1..]);
      assert ParseSections(parts)[1..] == ParseSections(parts[1..]);
    }
  }

  lemma {:induction false} SectionsValue(sections: seq<Section>)
    requires forall i :: 0 <= i < |sections| ==> ValidSection(sections[i])
    ensures forall i :: 0 <= i < |sections| ==>
              IsSection(PrintSections(sections)[i]) && ',' !in PrintSections(sections)[i]
    ensures ParseSections(PrintSections(sections)) == sections
  {
    hide IsSection, PrintSection, ParseSection;
    if sections != [] {
      SectionValue(sections[0]);
      SectionsValue(sections[1..]);
      assert PrintSections(sections)[1..] == PrintSections(sections[1..]);
    }
  }

  // Every accepted text is the print of the list it parses to, so no list has two texts.
  lemma AcceptedText(value: string)
    requires Accepts(value)
    ensures Parse(value) != [] && Print(Parse(value)) == value
    ensures forall i :: 0 <= i < |Parse(value)| ==> ValidSection(Parse(value)[i])
  {
    JoinSplit(value, ',');
    SectionsText(Split(value, ','));
  }

  // Every list of valid sections whose print fits the length limit is accepted and read back.
  lemma PrintedIsAccepted(sections: seq<Section>)
    requires sections != [] && forall i :: 0 <= i < |sections| ==> ValidSection(sections[i])
    requires |Print(sections)| <= MAX_LENGTH
    ensures Accepts(Print(sections)) && Parse(Print(sections)) == sections
  {
    hide IsSection, PrintSections, ParseSections, Split;
    SectionsValue(sections);
    SplitJoin(PrintSections(sections), ',');
    NonEmptyPrint(sections);
  }

  lemma NonEmptyPrint(sections: seq<Section>)
    requires sections != []
    ensures |Print(sections)| >= 1
  {
    hide Decimal;
    assert |PrintSection(sections[0])| >= 1;
  }

  // The two ends of a printed list: exactly the texts that print a valid list are accepted.
  lemma AcceptsExactlyPrints(value: string)
    ensures Accepts(value) <==>
      |value| <= 256
      && exists sections: seq<Section> ::
           sections != [] && (forall i :: 0 <= i < |sections| ==> ValidSection(sections[i])) && Print(sections) == value
  {
    if Accepts(value) {
      AcceptedText(value);
    }
    forall sections: seq<Section> |
      |value| <= 256 && sections != []
      && (forall i :: 0 <= i < |sections| ==> ValidSection(sections[i])) && Print(sections) == value
      ensures Accepts(value)
    {
      PrintedIsAccepted(sections);
    }
  }

  lemma OneSection(s: Section, text: string)
    requires ValidSection(s) && PrintSection(s) == text && |text| <= 256
    ensures Accepts(text) && Parse(text) == [s]
  {
    assert [s][1..] == [] && [text][1..] == [];
    assert PrintSections([s]) == [text];
    hide PrintSection;
    PrintedIsAccepted([s]);
  }

  lemma TwoSections(s: Section, text: string, s1: Section, text1: string)
    requires ValidSection(s) && ValidSection(s1) && PrintSection(s) == text && PrintSection(s1) == text1
    requires |text| + |text1| <= 255
    ensures Accepts(text + "," + text1) && Parse(text + "," + text1) == [s, s1]
  {
    var sections := [s, s1];
    assert sections[1..] == [s1] && [s1][1..] == [] && [text, text1][1..] == [text1];
    assert PrintSections([s1]) == [text1] && PrintSections(sections) == [text, text1];
    assert Join([text, text1], ',') == text + [','] + text1;
    assert [','] == ",";
    hide PrintSection;
    PrintedIsAccepted(sections);
  }

  // The documented texts and what they stand for.
  lemma DocumentedRanges()
    ensures Accepts("1") && Parse("1") == [Single(Page(1))]
    ensures Accepts("1-z") && Parse("1-z") == [Pair(Page(1), Last)]
    ensures Accepts("z-1") && Parse("z-1") == [Pair(Last, Page(1))]
    ensures Accepts("3-1") && Parse("3-1") == [Pair(Page(3), Page(1))]
    ensures Accepts("2,4-6") && Parse("2,4-6") == [Single(Page(2)), Pair(Page(4), Page(6))]
  {
    hide Accepts, Parse;
    OneSection(Single(Page(1)), "1");
    OneSection(Pair(Page(1), Last), "1-z");
    OneSection(Pair(Last, Page(1)), "z-1");
    OneSection(Pair(Page(3), Page(1)), "3-1");
    TwoSections(Single(Page(2)), "2", Pair(Page(4), Page(6)), "4-6");
    assert "2" + "," + "4-6" == "2,4-6";
  }
}
