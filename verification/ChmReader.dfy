/** A reader of the HTML that the CHM boundary emits, written after the HTML syntax alone: tags with
    quoted attributes, and text with character references. */
module ChmReader {
  import opened Options
  import opened ChmFragment

  // ---- character references

  // The reference at the start of s.
  function Reference(s: string): (r: Option<(char, nat)>)
    ensures r.Some? ==> 1 <= r.value.1 <= |s|
  {
    if "&amp;" <= s then Some(('&', 5))
    else if "&lt;" <= s then Some(('<', 4))
    else if "&gt;" <= s then Some(('>', 4))
    else if "&quot;" <= s then Some(('"', 6))
    else if "&#x27;" <= s then Some(('\'', 6))
    else None
  }

  function Unescape(s: string): Option<string> {
    if s == "" then Some("")
    else if s[0] == '&' then
      var r := Reference(s);
      if r.None? then None
      else
        var rest := Unescape(s[r.value.1..]);
        if rest.None? then None else Some([r.value.0] + rest.value)
    else
      var rest := Unescape(s[1..]);
      if rest.None? then None else Some([s[0]] + rest.value)
  }

  // ---- tags

  predicate IsNameChar(c: char) {
    'a' <= c <= 'z' || '0' <= c <= '9'
  }

  predicate IsName(s: string) {
    s != "" && forall i :: 0 <= i < |s| ==> IsNameChar(s[i])
  }

  function NameLength(s: string): (n: nat)
    ensures n <= |s|
  {
    if s != "" && IsNameChar(s[0]) then 1 + NameLength(s[1..]) else 0
  }

  // The characters before the next one of this kind.
  function Before(s: string, c: char): (n: nat)
    ensures n <= |s|
  {
    if s == "" || s[0] == c then 0 else 1 + Before(s[1..], c)
  }

  // A blank, a name and a quoted value, and the number of characters they take.
  function ReadAttribute(s: string): (r: Option<(Attribute, nat)>)
    requires s != ""
    ensures r.Some? ==> 1 <= r.value.1 <= |s|
  {
    var n := NameLength(s[1..]);
    if s[0] != ' ' || n == 0 || |s| < n + 3 || s[n + 1] != '=' || s[n + 2] != '"' then None
    else
      var m := Before(s[n + 3..], '"');
      if n + 3 + m >= |s| then None
      else
        var value := Unescape(s[n + 3..n + 3 + m]);
        if value.None? then None else Some(((s[1..n + 1], value), n + m + 4))
  }

  // Attributes up to the end of the tag, and the number of characters they take with it.
  function ReadAttributes(s: string): (r: Option<(seq<Attribute>, nat)>)
    ensures r.Some? ==> 1 <= r.value.1 <= |s|
    decreases |s|
  {
    if s == "" then None
    else if s[0] == '>' then Some(([], 1))
    else
      var first := ReadAttribute(s);
      if first.None? then None
      else
        var rest := ReadAttributes(s[first.value.1..]);
        if rest.None? then None else Some(([first.value.0] + rest.value.0, first.value.1 + rest.value.1))
  }

  // A start or end tag and its length; comments and declarations are no tags.
  function ReadTag(s: string): (r: Option<(Event, nat)>)
    requires s != ""
    ensures r.Some? ==> 1 <= r.value.1 <= |s|
  {
    if "</" <= s then
      var n := NameLength(s[2..]);
      if n > 0 && n + 2 < |s| && s[n + 2] == '>' then Some((End(s[2..n + 2]), n + 3)) else None
    else
      var n := NameLength(s[1..]);
      var attrs := ReadAttributes(s[n + 1..]);
      if n == 0 || attrs.None? then None else Some((Start(s[1..n + 1], attrs.value.0), n + 1 + attrs.value.1))
  }

  // The events of a whole text; None when it is not of this form.
  function ReadHtml(s: string): Option<seq<Event>>
    decreases |s|
  {
    if s == "" then Some([])
    else if s[0] == '<' then
      var tag := ReadTag(s);
      if tag.None? then None
      else
        var rest := ReadHtml(s[tag.value.1..]);
        if rest.None? then None else Some([tag.value.0] + rest.value)
    else
      var n := Before(s, '<');
      var text, rest := Unescape(s[..n]), ReadHtml(s[n..]);
      if text.None? || rest.None? then None else Some([Data(text.value)] + rest.value)
  }

  // ---- reading what was escaped

  lemma {:induction false} UnescapeEscape(s: string)
    ensures Unescape(Escape(s)) == Some(s)
  {
    if s != "" {
      UnescapeEscape(s[1..]);
      UnescapeChar(s[0], Escape(s[1..]), s[1..]);
      assert s == [s[0]] + s[1..];
    }
  }

  lemma UnescapeChar(c: char, rest: string, text: string)
    requires Unescape(rest) == Some(text)
    ensures Unescape(EscapeChar(c) + rest) == Some([c] + text)
  {
    var e := EscapeChar(c);
    assert (e + rest)[|e|..] == rest && (e + rest)[0] == e[0];
    if c in {'&', '<', '>', '"', '\''} {
      EscapedReference(c, rest);
    }
  }

  lemma EscapedReference(c: char, rest: string)
    requires c in {'&', '<', '>', '"', '\''}
    ensures Reference(EscapeChar(c) + rest) == Some((c, |EscapeChar(c)|)) && EscapeChar(c)[0] == '&'
  {
    var s := EscapeChar(c) + rest;
    assert s[..|EscapeChar(c)|] == EscapeChar(c);
    assert s[1] == EscapeChar(c)[1] && s[2] == EscapeChar(c)[2] && s[3] == EscapeChar(c)[3];
  }

  // One of the five references html.escape may write.
  predicate BeginsReference(s: string) {
    "&amp;" <= s || "&lt;" <= s || "&gt;" <= s || "&quot;" <= s || "&#x27;" <= s
  }

  // Escaped text holds no character that could end it, and every ampersand begins a reference.
  lemma {:induction false} EscapeSafe(s: string)
    ensures forall i :: 0 <= i < |Escape(s)| ==> Escape(s)[i] !in {'<', '>', '"', '\''}
    ensures forall i :: 0 <= i < |Escape(s)| && Escape(s)[i] == '&' ==> BeginsReference(Escape(s)[i..])
  {
    if s != "" {
      var e, rest := EscapeChar(s[0]), Escape(s[1..]);
      EscapeSafe(s[1..]);
      EscapedCharSafe(s[0]);
      forall i | 0 <= i < |Escape(s)| && Escape(s)[i] == '&'
        ensures BeginsReference(Escape(s)[i..])
      {
        if i < |e| {
          assert i == 0 && e <= Escape(s)[i..];
        } else {
          assert Escape(s)[i..] == rest[i - |e|..];
        }
      }
    }
  }

  lemma EscapedCharSafe(c: char)
    ensures forall i :: 0 <= i < |EscapeChar(c)| ==> EscapeChar(c)[i] !in {'<', '>', '"', '\''}
    ensures forall i :: 0 <= i < |EscapeChar(c)| && EscapeChar(c)[i] == '&' ==> i == 0
    ensures '&' in EscapeChar(c) ==> EscapeChar(c) in {"&amp;", "&lt;", "&gt;", "&quot;", "&#x27;"}
    ensures EscapeChar(c) != ""
  {
  }

  lemma EscapedNonEmpty(s: string)
    requires s != ""
    ensures Escape(s) != "" && Escape(s)[0] != '<'
  {
    EscapedCharSafe(s[0]);
  }

  // ---- reading tags

  // A value that needs no escaping inside double quotes.
  predicate IsPlain(s: string) {
    forall i :: 0 <= i < |s| ==> s[i] != '"' && s[i] != '&'
  }

  predicate PlainAttributes(attrs: seq<(string, string)>) {
    forall i :: 0 <= i < |attrs| ==> IsName(attrs[i].0) && IsPlain(attrs[i].1)
  }

  function AsAttributes(attrs: seq<(string, string)>): (r: seq<Attribute>)
    ensures |r| == |attrs|
  {
    seq(|attrs|, i requires 0 <= i < |attrs| => (attrs[i].0, Some(attrs[i].1)))
  }

  lemma {:induction false} UnescapePlain(s: string)
    requires IsPlain(s)
    ensures Unescape(s) == Some(s)
  {
    if s != "" {
      UnescapePlain(s[1..]);
      assert s == [s[0]] + s[1..];
    }
  }

  lemma {:induction false} NameLengthOf(name: string, rest: string)
    requires forall i :: 0 <= i < |name| ==> IsNameChar(name[i])
    requires rest == "" || !IsNameChar(rest[0])
    ensures NameLength(name + rest) == |name|
  {
    if name == "" {
      assert name + rest == rest;
    } else {
      assert (name + rest)[1..] == name[1..] + rest;
      NameLengthOf(name[1..], rest);
    }
  }

  lemma {:induction false} BeforeOf(s: string, rest: string, c: char)
    requires c !in s && (rest == "" || rest[0] == c)
    ensures Before(s + rest, c) == |s|
  {
    if s == "" {
      assert s + rest == rest;
    } else {
      assert (s + rest)[1..] == s[1..] + rest;
      BeforeOf(s[1..], rest, c);
    }
  }

  lemma {:induction false} AttributesRead(attrs: seq<(string, string)>, rest: string)
    requires PlainAttributes(attrs)
    ensures ReadAttributes(Attributes(attrs) + ">" + rest) == Some((AsAttributes(attrs), |Attributes(attrs)| + 1))
  {
    hide IsName, IsPlain, ReadAttribute, ReadAttributes;
    if attrs == [] {
      NoAttributesRead(rest);
    } else {
      var name, value, tail := attrs[0].0, attrs[0].1, Attributes(attrs[1..]) + ">" + rest;
      AttributesRead(attrs[1..], rest);
      AttributesSplit(attrs, rest);
      AttributeRead(name, value, tail);
      AttributesStep(" " + name + "=\"" + value + "\"" + tail, (name, Some(value)), |name| + |value| + 4, tail);
      assert AsAttributes(attrs) == [(name, Some(value))] + AsAttributes(attrs[1..]);
      hide Attributes, AsAttributes;
    }
  }

  lemma NoAttributesRead(rest: string)
    ensures Attributes([]) == "" && AsAttributes([]) == []
    ensures ReadAttributes(Attributes([]) + ">" + rest) == Some(([], 1))
  {
    assert Attributes([]) + ">" + rest == ">" + rest;
  }

  lemma AttributesStep(s: string, first: Attribute, n: nat, tail: string)
    requires s != "" && s[0] == ' ' && ReadAttribute(s) == Some((first, n)) && n <= |s| && s[n..] == tail
    ensures ReadAttributes(s)
      == if ReadAttributes(tail).None? then None
         else Some(([first] + ReadAttributes(tail).value.0, n + ReadAttributes(tail).value.1))
  {
    hide ReadAttribute;
  }

  lemma AttributesSplit(attrs: seq<(string, string)>, rest: string)
    requires attrs != []
    ensures Attributes(attrs) + ">" + rest
      == " " + attrs[0].0 + "=\"" + attrs[0].1 + "\"" + (Attributes(attrs[1..]) + ">" + rest)
    ensures |Attributes(attrs)| == |attrs[0].0| + |attrs[0].1| + 4 + |Attributes(attrs[1..])|
  {
  }

  lemma AttributeRead(name: string, value: string, tail: string)
    requires IsName(name) && IsPlain(value)
    ensures var s := " " + name + "=\"" + value + "\"" + tail;
      && s[0] == ' ' && ReadAttribute(s) == Some(((name, Some(value)), |name| + |value| + 4))
      && s[|name| + |value| + 4..] == tail
  {
    AttributeSplit(name, value, tail);
    NameLengthOf(name, "=\"" + value + "\"" + tail);
    BeforeOf(value, "\"" + tail, '"');
    UnescapePlain(value);
    hide NameLength, Before, Unescape, IsPlain;
  }

  // Where the parts of an attribute stand.
  lemma AttributeSplit(name: string, value: string, tail: string)
    ensures var s, n := " " + name + "=\"" + value + "\"" + tail, |name|;
      && |s| == n + |value| + |tail| + 4 && s[0] == ' ' && s[n + 1] == '=' && s[n + 2] == '"'
      && s[1..] == name + ("=\"" + value + "\"" + tail) && s[1..n + 1] == name
      && s[n + 3..] == value + ("\"" + tail) && s[n + 3..n + 3 + |value|] == value
      && s[n + 4 + |value|..] == tail
  {
    var s, n := " " + name + "=\"" + value + "\"" + tail, |name|;
    assert s[1..] == name + ("=\"" + value + "\"" + tail) && s[1..n + 1] == name;
    assert s[n + 3..] == value + ("\"" + tail) && s[n + 3..n + 3 + |value|] == value;
    assert s[n + 4 + |value|..] == tail;
  }

  lemma OpenRead(tag: string, attrs: seq<(string, string)>, rest: string)
    requires IsName(tag) && PlainAttributes(attrs)
    ensures var s := RenderToken(Open(tag, attrs));
      s[0] == '<' && ReadTag(s + rest) == Some((Start(tag, AsAttributes(attrs)), |s|))
  {
    hide Attributes, ReadAttributes, AsAttributes, PlainAttributes;
    var s := RenderToken(Open(tag, attrs)) + rest;
    var after := Attributes(attrs) + ">" + rest;
    AttributesRead(attrs, rest);
    AttributesStart(attrs, rest);
    OpenSplit(tag, attrs, rest);
    NameLengthOf(tag, after);
    hide NameLength, RenderToken;
  }

  lemma OpenSplit(tag: string, attrs: seq<(string, string)>, rest: string)
    requires IsName(tag)
    ensures var s, after := RenderToken(Open(tag, attrs)) + rest, Attributes(attrs) + ">" + rest;
      && s[1..] == tag + after && s[|tag| + 1..] == after && s[1..|tag| + 1] == tag && s[0] == '<'
      && !("</" <= s) && RenderToken(Open(tag, attrs))[0] == '<'
      && |RenderToken(Open(tag, attrs))| == |tag| + |Attributes(attrs)| + 2
  {
    var attributes := Attributes(attrs);
    hide Attributes, IsName;
    TagSplit(tag, attributes + ">" + rest);
    assert RenderToken(Open(tag, attrs)) == "<" + tag + attributes + ">";
    assert "<" + tag + attributes + ">" + rest == "<" + tag + (attributes + ">" + rest);
  }

  lemma TagSplit(tag: string, after: string)
    requires IsName(tag)
    ensures var s := "<" + tag + after;
      s[1..] == tag + after && s[|tag| + 1..] == after && s[1..|tag| + 1] == tag && s[0] == '<' && !("</" <= s)
  {
    var s := "<" + tag + after;
    assert s[1..] == tag + after && s[1] == tag[0];
    assert s[|tag| + 1..] == after && s[1..|tag| + 1] == tag;
  }

  lemma AttributesStart(attrs: seq<(string, string)>, rest: string)
    ensures !IsNameChar((Attributes(attrs) + ">" + rest)[0])
  {
  }

  lemma CloseRead(tag: string, rest: string)
    requires IsName(tag)
    ensures var s := RenderToken(Close(tag));
      s[0] == '<' && ReadTag(s + rest) == Some((End(tag), |s|))
  {
    var s := RenderToken(Close(tag)) + rest;
    assert s[2..] == tag + (">" + rest);
    NameLengthOf(tag, ">" + rest);
    assert s[2..|tag| + 2] == tag;
  }

  lemma TextRead(text: string, rest: string)
    requires text != "" && (rest == "" || rest[0] == '<')
    ensures ReadHtml(Escape(text) + rest)
      == if ReadHtml(rest).None? then None else Some([Data(text)] + ReadHtml(rest).value)
  {
    var e := Escape(text);
    EscapeSafe(text);
    EscapedNonEmpty(text);
    UnescapeEscape(text);
    BeforeOf(e, rest, '<');
    assert (e + rest)[..|e|] == e && (e + rest)[|e|..] == rest;
    hide Escape, Unescape, Before;
  }
}
