/** The HTML boundary for CHM fragments, over the stream of parser events: which events it
    accepts and the fragment it reconstructs from them. */
module ChmFragment {
  import opened Options
  import Text

  const VOID := {"br", "hr", "img"}
  const MAX_HTML_BYTES := 16 * 1024 * 1024
  const MAX_TAGS := 80_000
  const MAX_CHARS := 250_000
  const MAX_DEPTH := 128
  const MAX_IMAGES := 32
  const MAX_IMAGE_BYTES := 3 * 1024 * 1024
  const MAX_TOTAL_IMAGE_BYTES := 8 * 1024 * 1024

  predicate Allowed(tag: string) {
    tag in {
      "p", "div", "section", "article", "h1", "h2", "h3", "h4", "h5", "h6", "br", "pre", "code", "strong",
      "b", "em", "i", "u", "ul", "ol", "li", "blockquote", "table", "thead", "tbody", "tr", "td", "th",
      "hr", "small", "sup", "sub", "a", "img"}
  }

  type Attribute = (string, Option<string>)

  // What the HTML parser reports; Prohibited is a comment, declaration or processing instruction.
  datatype Event =
    | Start(tag: string, attrs: seq<Attribute>)
    | SelfClosing(tag: string, attrs: seq<Attribute>)
    | End(tag: string)
    | Data(text: string)
    | Prohibited

  // One reconstructed piece of the fragment.
  datatype Token = Open(tag: string, attrs: seq<(string, string)>) | Close(tag: string) | Text(text: string)

  // The decoded size of an acceptable inline image, by its data URI; decoding and image inspection
  // are not part of this model.
  type Images = string -> Option<nat>

  datatype State = State(
    parts: seq<Token>, stack: seq<string>, topics: set<string>, links: set<string>,
    tags: nat, chars: nat, images: nat, imageBytes: nat, printable: bool)

  const EMPTY := State([], [], {}, {}, 0, 0, 0, 0, false)

  predicate Digits(s: string) {
    forall i :: 0 <= i < |s| ==> '0' <= s[i] <= '9'
  }

  const TOPIC_PREFIX := "chm-topic-"

  predicate IsTopic(s: string) {
    && TOPIC_PREFIX <= s && |TOPIC_PREFIX| < |s| <= |TOPIC_PREFIX| + 4
    && s[|TOPIC_PREFIX|] != '0' && Digits(s[|TOPIC_PREFIX|..])
  }

  predicate IsBase64Char(c: char) {
    'A' <= c <= 'Z' || 'a' <= c <= 'z' || '0' <= c <= '9' || c == '+' || c == '/'
  }

  // The first n characters are base64 and at most two signs of padding follow.
  predicate PaddedAt(s: string, n: nat) {
    && 1 <= n <= |s| <= n + 2 && (forall i :: 0 <= i < n ==> IsBase64Char(s[i]))
    && forall i :: n <= i < |s| ==> s[i] == '='
  }

  predicate IsBase64(s: string) {
    exists n :: 0 <= n <= |s| && PaddedAt(s, n)
  }

  predicate Embeds(src: string, prefix: string) {
    prefix <= src && IsBase64(src[|prefix|..])
  }

  // The local data URIs an illustration may have as its source.
  predicate IsDataImage(src: string) {
    Embeds(src, "data:image/png;base64,") || Embeds(src, "data:image/jpeg;base64,")
    || Embeds(src, "data:image/gif;base64,") || Embeds(src, "data:image/webp;base64,")
  }

  // ---- attributes

  function Keys(attrs: seq<Attribute>): set<string> {
    set i | 0 <= i < |attrs| :: attrs[i].0
  }

  // The value a dictionary built from the attributes holds for a key.
  function Lookup(attrs: seq<Attribute>, key: string): Option<string> {
    if attrs == [] then None
    else if attrs[|attrs| - 1].0 == key then attrs[|attrs| - 1].1
    else Lookup(attrs[..|attrs| - 1], key)
  }

  // The attributes an element is rebuilt with, when they are acceptable.
  function Rebuilt(st: State, images: Images, tag: string, attrs: seq<Attribute>): Option<seq<(string, string)>> {
    if |Keys(attrs)| != |attrs| then None
    else if tag == "section" then
      if attrs == [] then Some([])
      else if Keys(attrs) == {"class", "id"} && Lookup(attrs, "class") == Some("chm-chapter")
        && Lookup(attrs, "id").Some?
              && IsTopic(Lookup(attrs, "id").value) && Lookup(attrs, "id").value !in st.topics
      then Some([("class", "chm-chapter"), ("id", Lookup(attrs, "id").value)])
      else None
    else if tag == "a" then
      if Keys(attrs) == {"href"} && Lookup(attrs, "href").Some? && "#" <= Lookup(attrs, "href").value
         && IsTopic(Lookup(attrs, "href").value[1..])
      then Some([("href", Lookup(attrs, "href").value)])
      else None
    else if tag == "img" then
      if Keys(attrs) == {"class", "src", "alt"} && Lookup(attrs, "class") == Some("book-image")
        && Lookup(attrs, "alt") == Some("")
         && Lookup(attrs, "src").Some? && IsDataImage(Lookup(attrs, "src").value)
         && FitsBudget(st, images(Lookup(attrs, "src").value))
      then Some([("class", "book-image"), ("src", Lookup(attrs, "src").value), ("alt", "")])
      else None
    else if attrs == [] then Some([]) else None
  }

  predicate FitsBudget(st: State, size: Option<nat>) {
    && size.Some? && st.images + 1 <= MAX_IMAGES
    && 0 < size.value <= MAX_IMAGE_BYTES && st.imageBytes + size.value <= MAX_TOTAL_IMAGE_BYTES
  }

  // ---- the handlers

  function OnStart(st: State, images: Images, tag: string, attrs: seq<Attribute>): Option<State> {
    if st.tags + 1 > MAX_TAGS || |st.stack| > MAX_DEPTH || !Allowed(tag) then None
    else
      var rebuilt := Rebuilt(st, images, tag, attrs);
      if rebuilt.None? || (tag !in VOID && |st.stack| + 1 > MAX_DEPTH) then None
      else Some(Opened(st, images, tag, rebuilt.value))
  }

  function Opened(st: State, images: Images, tag: string, attrs: seq<(string, string)>): State {
    st.(tags := st.tags + 1,
        parts := st.parts + [Open(tag, attrs)],
        stack := if tag in VOID then st.stack else st.stack + [tag],
        topics := if tag == "section" && |attrs| == 2 then st.topics + {attrs[1].1} else st.topics,
        links := if tag == "a" && |attrs| == 1 && attrs[0].1 != "" then st.links + {attrs[0].1[1..]} else st.links,
        images := if tag == "img" then st.images + 1 else st.images,
        imageBytes := if tag == "img" && |attrs| == 3 && images(attrs[1].1).Some?
                      then st.imageBytes + images(attrs[1].1).value else st.imageBytes)
  }

  function OnEnd(st: State, tag: string): Option<State> {
    if tag in VOID || st.stack == [] || st.stack[|st.stack| - 1] != tag then None
    else Some(st.(stack := st.stack[..|st.stack| - 1], parts := st.parts + [Close(tag)]))
  }

  function OnData(st: State, text: string): Option<State> {
    if text == "" then Some(st)
    else if st.chars + |text| > MAX_CHARS then None
    else Some(st.(chars := st.chars + |text|, printable := st.printable || !Text.Blank(text),
                  parts := st.parts + [Text(text)]))
  }

  function On(st: State, images: Images, e: Event): Option<State> {
    match e
    case Start(tag, attrs) => OnStart(st, images, tag, attrs)
    case SelfClosing(tag, attrs) => if tag in VOID then OnStart(st, images, tag, attrs) else None
    case End(tag) => OnEnd(st, tag)
    case Data(text) => OnData(st, text)
    case Prohibited => None
  }

  function Feed(st: State, images: Images, events: seq<Event>): Option<State> {
    if events == [] then Some(st)
    else
      var r := Feed(st, images, events[..|events| - 1]);
      if r.None? then None else On(r.value, images, events[|events| - 1])
  }

  // ---- the fragment as text

  // html.escape with quotes.
  function EscapeChar(c: char): string {
    if c == '&' then "&amp;" else if c == '<' then "&lt;" else if c == '>' then "&gt;"
    else if c == '"' then "&quot;" else if c == '\'' then "&#x27;" else [c]
  }

  function Escape(s: string): string {
    if s == "" then "" else EscapeChar(s[0]) + Escape(s[1..])
  }

  function Attributes(attrs: seq<(string, string)>): string {
    if attrs == [] then "" else " " + attrs[0].0 + "=\"" + attrs[0].1 + "\"" + Attributes(attrs[1..])
  }

  function RenderToken(t: Token): string {
    match t
    case Open(tag, attrs) => "<" + tag + Attributes(attrs) + ">"
    case Close(tag) => "</" + tag + ">"
    case Text(text) => Escape(text)
  }

  function Render(parts: seq<Token>): string {
    if parts == [] then "" else Render(parts[..|parts| - 1]) + RenderToken(parts[|parts| - 1])
  }

  function Utf8Length(s: string): nat {
    if s == "" then 0
    else Utf8Length(s[..|s| - 1])
         + (var c := s[|s| - 1] as int; if c < 0x80 then 1 else if c < 0x800 then 2 else if c < 0x1_0000 then 3 else 4)
  }

  predicate Finished(st: State) {
    st.stack == [] && st.printable && st.links <= st.topics && Utf8Length(Render(st.parts)) <= MAX_HTML_BYTES
  }

  // The reconstruction of an accepted fragment, as pieces.
  function Accepted(images: Images, events: seq<Event>): Option<State> {
    var r := Feed(EMPTY, images, events);
    if r.Some? && Finished(r.value) then r else None
  }

  // The reconstruction of an accepted fragment, as text.
  function Validate(images: Images, events: seq<Event>): Option<string> {
    var r := Accepted(images, events);
    if r.None? then None else Some(Render(r.value.parts))
  }

  // What the HTML parser reports for a text, up to its close; the parser is not part of this model.
  type Parser = string -> seq<Event>

  // The size of the text as it came is limited before it is parsed.
  function ValidatePayload(parse: Parser, images: Images, payload: string): Option<string> {
    if Utf8Length(payload) > MAX_HTML_BYTES then None else Validate(images, parse(payload))
  }
}
