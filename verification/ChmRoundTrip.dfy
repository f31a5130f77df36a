/** Reading the text the CHM boundary returns: a reader gets the accepted pieces back, so the
    boundary leaves its own output as it is, and nothing but the permitted markup is in it. */
module ChmRoundTrip {
  import opened Options
  import opened Decimals
  import Text
  import opened ChmFragment
  import opened ChmReader
  import opened ChmTheorems

  // A piece whose text a reader can tell apart from what follows.
  predicate Readable(t: Token) {
    match t
    case Open(tag, attrs) => IsName(tag) && PlainAttributes(attrs)
    case Close(tag) => IsName(tag)
    case Text(text) => text != ""
  }

  predicate AllReadable(parts: seq<Token>) {
    forall i :: 0 <= i < |parts| ==> Readable(parts[i])
  }

  // ---- rendering and merging from the front

  lemma {:induction false} RenderFront(t: Token, parts: seq<Token>)
    ensures Render([t] + parts) == RenderToken(t) + Render(parts)
  {
    hide RenderToken;
    if parts == [] {
      assert [t] + parts == [] + [t];
      RenderMore([], t);
    } else {
      var init, last := parts[..|parts| - 1], parts[|parts| - 1];
      RenderFront(t, init);
      assert [t] + parts == [t] + init + [last];
      RenderMore([t] + init, last);
    }
  }

  // One more event before joined ones.
  function JoinFirst(e: Event, m: seq<Event>): seq<Event> {
    if e.Data? && m != [] && m[0].Data? then [Data(e.text + m[0].text)] + m[1..] else [e] + m
  }

  lemma FirstAlone(e: Event, x: Event, rest: seq<Event>)
    ensures JoinFirst(e, [x] + rest) == JoinFirst(e, [x]) + rest
  {
    assert ([x] + rest)[1..] == rest && [x][1..] == [];
  }

  lemma LastAlone(init: seq<Event>, y: Event, f: Event)
    ensures JoinLast(init + [y], f) == init + JoinLast([y], f)
  {
    assert (init + [y])[..|init|] == init && [y][..0] == [];
  }

  lemma EndsCommute(e: Event, m: seq<Event>, f: Event)
    ensures JoinLast(JoinFirst(e, m), f) == JoinFirst(e, JoinLast(m, f))
  {
    hide JoinFirst, JoinLast;
    if m == [] {
      EndsMeet(e, f);
    } else if |m| == 1 {
      EndsCommuteOne(e, m[0], f);
      assert m == [m[0]];
    } else {
      EndsApart(e, m[0], m[1..|m| - 1], m[|m| - 1], f);
      assert m == [m[0]] + m[1..|m| - 1] + [m[|m| - 1]];
    }
  }

  lemma EndsMeet(e: Event, f: Event)
    ensures JoinLast(JoinFirst(e, []), f) == JoinFirst(e, JoinLast([], f))
  {
    assert [e] + [] == [e] && [] + [f] == [f];
    assert [f][1..] == [] && [e][..0] == [];
  }

  lemma EndsApart(e: Event, x: Event, middle: seq<Event>, y: Event, f: Event)
    ensures var m := [x] + middle + [y];
      JoinLast(JoinFirst(e, m), f) == JoinFirst(e, JoinLast(m, f))
  {
    hide JoinFirst, JoinLast;
    assert [x] + middle + [y] == [x] + (middle + [y]);
    FirstAlone(e, x, middle + [y]);
    assert JoinFirst(e, [x]) + (middle + [y]) == JoinFirst(e, [x]) + middle + [y];
    LastAlone(JoinFirst(e, [x]) + middle, y, f);
    LastAlone([x] + middle, y, f);
    assert [x] + middle + JoinLast([y], f) == [x] + (middle + JoinLast([y], f));
    FirstAlone(e, x, middle + JoinLast([y], f));
  }

  lemma EndsCommuteOne(e: Event, d: Event, f: Event)
    ensures JoinLast(JoinFirst(e, [d]), f) == JoinFirst(e, JoinLast([d], f))
  {
    assert [e] + [d] == [e, d] && [d] + [f] == [d, f];
    assert [e, d][..1] == [e] && [d, f][1..] == [f] && [d][1..] == [] && [d][..0] == [];
    if e.Data? && d.Data? && f.Data? {
      assert e.text + (d.text + f.text) == e.text + d.text + f.text;
    }
  }

  lemma {:induction false} MergeFront(e: Event, events: seq<Event>)
    ensures Merge([e] + events) == JoinFirst(e, Merge(events))
  {
    if events == [] {
      assert [e] + events == [e] && [e][..0] == [];
    } else {
      var init, last := events[..|events| - 1], events[|events| - 1];
      MergeFront(e, init);
      var all := [e] + events;
      assert all[..|all| - 1] == [e] + init && all[|all| - 1] == last;
      EndsCommute(e, Merge(init), last);
    }
  }

  lemma AsEventsFront(t: Token, parts: seq<Token>)
    ensures AsEvents([t] + parts) == [AsEvent(t)] + AsEvents(parts)
  {
    hide AsEvent;
  }

  lemma JoinedEvents(a: string, b: string, parts: seq<Token>)
    ensures Merge(AsEvents([Text(a)] + ([Text(b)] + parts))) == Merge(AsEvents([Text(a + b)] + parts))
  {
    AsEventsFront(Text(a), [Text(b)] + parts);
    AsEventsFront(Text(b), parts);
    AsEventsFront(Text(a + b), parts);
    var m := Merge(AsEvents(parts));
    MergeFront(Data(a), [Data(b)] + AsEvents(parts));
    MergeFront(Data(b), AsEvents(parts));
    MergeFront(Data(a + b), AsEvents(parts));
    hide Merge, AsEvents;
    if m != [] && m[0].Data? {
      assert a + (b + m[0].text) == a + b + m[0].text;
    }
  }

  lemma JoinedText(a: string, b: string, parts: seq<Token>)
    ensures Render([Text(a)] + ([Text(b)] + parts)) == Render([Text(a + b)] + parts)
  {
    RenderFront(Text(a), [Text(b)] + parts);
    RenderFront(Text(b), parts);
    RenderFront(Text(a + b), parts);
    EscapeJoins(a, b);
    hide Render, Escape;
    assert Escape(a) + (Escape(b) + Render(parts)) == Escape(a) + Escape(b) + Render(parts);
  }

  // ---- reading the pieces back

  // A reader of the text finds the pieces, with adjacent texts joined.
  lemma {:induction false} ReadRendered(parts: seq<Token>)
    requires AllReadable(parts)
    ensures ReadHtml(Render(parts)) == Some(Merge(AsEvents(parts)))
    decreases |parts|
  {
    hide Readable, Merge, Render, AsEvent, ReadHtml, AsEvents;
    if parts == [] {
      NothingRead();
    } else {
      var t, rest := parts[0], parts[1..];
      assert parts == [t] + rest;
      if t.Text? && rest != [] && rest[0].Text? {
        var a, b := t.text, rest[0].text;
        assert rest == [Text(b)] + rest[1..];
        assert Readable(parts[0]);
        JoinedReadable(a, b);
        ReadRendered([Text(a + b)] + rest[1..]);
        JoinedEvents(a, b, rest[1..]);
        JoinedText(a, b, rest[1..]);
      } else {
        assert Readable(parts[0]);
        ReadRendered(rest);
        RenderFront(t, rest);
        AsEventsFront(t, rest);
        MergeFront(AsEvent(t), AsEvents(rest));
        if t.Text? {
          NextIsTag(rest);
          LastText(t, rest);
        } else {
          NextTag(t, rest);
        }
      }
    }
  }

  lemma JoinedReadable(a: string, b: string)
    requires Readable(Text(a))
    ensures Readable(Text(a + b))
  {
  }

  lemma NothingRead()
    ensures ReadHtml(Render([])) == Some(Merge(AsEvents([])))
  {
    assert AsEvents([]) == [];
  }

  lemma NextIsTag(rest: seq<Token>)
    requires rest != [] ==> !rest[0].Text?
    ensures Render(rest) == "" || Render(rest)[0] == '<'
    ensures Merge(AsEvents(rest)) == [] || !Merge(AsEvents(rest))[0].Data?
  {
    if rest == [] {
      assert AsEvents(rest) == [];
    } else {
      assert rest == [rest[0]] + rest[1..];
      RenderFront(rest[0], rest[1..]);
      AsEventsFront(rest[0], rest[1..]);
      MergeFront(AsEvent(rest[0]), AsEvents(rest[1..]));
      hide Render, Merge, AsEvents, Attributes, AsAttributes;
    }
  }

  lemma LastText(t: Token, rest: seq<Token>)
    requires t.Text? && Readable(t) && ReadHtml(Render(rest)) == Some(Merge(AsEvents(rest)))
    requires Render(rest) == "" || Render(rest)[0] == '<'
    requires Merge(AsEvents(rest)) == [] || !Merge(AsEvents(rest))[0].Data?
    ensures ReadHtml(RenderToken(t) + Render(rest)) == Some(JoinFirst(AsEvent(t), Merge(AsEvents(rest))))
  {
    TextRead(t.text, Render(rest));
    hide ReadHtml, Render, Merge, AsEvents, Escape;
  }

  lemma NextTag(t: Token, rest: seq<Token>)
    requires !t.Text? && Readable(t) && ReadHtml(Render(rest)) == Some(Merge(AsEvents(rest)))
    ensures ReadHtml(RenderToken(t) + Render(rest)) == Some(JoinFirst(AsEvent(t), Merge(AsEvents(rest))))
  {
    hide Render, Merge, AsEvents, Attributes, AsAttributes;
    if t.Open? {
      OpenRead(t.tag, t.attrs, Render(rest));
    } else {
      CloseRead(t.tag, Render(rest));
    }
    var s := RenderToken(t) + Render(rest);
    assert s[|RenderToken(t)|..] == Render(rest);
    hide RenderToken, ReadTag, Readable;
    assert s[0] == RenderToken(t)[0];
  }

  // ---- the pieces of a normal form are readable

  lemma AllowedIsName(tag: string)
    requires Allowed(tag)
    ensures IsName(tag)
  {
    assert |tag| >= 1;
    assert |tag| <= 10;
    assert IsNameChar(tag[0]);
    forall i | 0 <= i < |tag| ensures IsNameChar(tag[i]) {
    }
  }

  lemma TopicIsPlain(s: string)
    requires IsTopic(s)
    ensures IsPlain(s) && IsPlain("#" + s)
  {
    var prefix, digits := s[..|TOPIC_PREFIX|], s[|TOPIC_PREFIX|..];
    assert s == prefix + digits && prefix == TOPIC_PREFIX;
    assert IsPlain(TOPIC_PREFIX) && IsPlain(digits);
    assert "#" + s == ['#'] + s;
  }

  lemma EmbedsIsPlain(src: string, prefix: string)
    requires Embeds(src, prefix) && IsPlain(prefix)
    ensures IsPlain(src)
  {
    var data := src[|prefix|..];
    assert src == prefix + data;
    var n :| 0 <= n <= |data| && PaddedAt(data, n);
    forall i | 0 <= i < |data| ensures data[i] != '"' && data[i] != '&' {
      assert i < n ==> IsBase64Char(data[i]);
    }
  }

  lemma ImageIsPlain(src: string)
    requires IsDataImage(src)
    ensures IsPlain(src)
  {
    hide Embeds;
    if Embeds(src, "data:image/png;base64,") {
      EmbedsIsPlain(src, "data:image/png;base64,");
    } else if Embeds(src, "data:image/jpeg;base64,") {
      EmbedsIsPlain(src, "data:image/jpeg;base64,");
    } else if Embeds(src, "data:image/gif;base64,") {
      EmbedsIsPlain(src, "data:image/gif;base64,");
    } else {
      EmbedsIsPlain(src, "data:image/webp;base64,");
    }
  }

  lemma OpenIsReadable(images: Images, tag: string, attrs: seq<(string, string)>)
    requires CanonicalToken(images, Open(tag, attrs))
    ensures Readable(Open(tag, attrs))
  {
    AllowedIsName(tag);
    hide Allowed, IsTopic, IsDataImage;
    assert IsName("class") && IsName("id") && IsName("href") && IsName("src") && IsName("alt");
    assert IsPlain("chm-chapter") && IsPlain("book-image") && IsPlain("");
    if |attrs| == 1 {
      TopicIsPlain(attrs[0].1[1..]);
      assert attrs[0].1 == "#" + attrs[0].1[1..];
    } else if |attrs| == 2 {
      TopicIsPlain(attrs[1].1);
    } else if |attrs| == 3 {
      ImageIsPlain(attrs[1].1);
    }
  }

  // Only elements that were opened are open, so only names are closed.
  lemma {:induction false} NestedNames(images: Images, parts: seq<Token>)
    requires forall i :: 0 <= i < |parts| ==> CanonicalToken(images, parts[i])
    requires NestedWithin(parts)
    ensures Nesting(parts).Some? && forall i :: 0 <= i < |Nesting(parts).value| ==> IsName(Nesting(parts).value[i])
    ensures AllReadable(parts)
  {
    hide CanonicalToken, IsName, NestedWithin, Readable;
    if parts != [] {
      var init, t := parts[..|parts| - 1], parts[|parts| - 1];
      NestedPrefix(parts);
      NestedNames(images, init);
      assert CanonicalToken(images, parts[|parts| - 1]);
      if t.Open? {
        OpenIsReadable(images, t.tag, t.attrs);
      }
      StepNames(images, Nesting(init).value, t);
      assert forall i :: 0 <= i < |init| ==> parts[i] == init[i];
    } else {
      assert AllReadable(parts);
    }
  }

  lemma StepNames(images: Images, stack: seq<string>, t: Token)
    requires forall i :: 0 <= i < |stack| ==> IsName(stack[i])
    requires CanonicalToken(images, t) && NestStep(stack, t).Some? && (t.Open? ==> Readable(t))
    ensures Readable(t)
    ensures forall i :: 0 <= i < |NestStep(stack, t).value| ==> IsName(NestStep(stack, t).value[i])
  {
    hide IsName, Allowed, IsTopic, IsDataImage, PlainAttributes;
  }

  // ---- the boundary and its own output

  // Reading what the boundary returned gives the accepted pieces, with adjacent texts joined.
  lemma OutputReads(parse: Parser, images: Images, payload: string, html: string)
    requires ValidatePayload(parse, images, payload) == Some(html)
    ensures Accepted(images, parse(payload)).Some?
    ensures NormalForm(images, Accepted(images, parse(payload)).value.parts)
    ensures ReadHtml(html) == Some(Merge(AsEvents(Accepted(images, parse(payload)).value.parts)))
  {
    var parts := Accepted(images, parse(payload)).value.parts;
    AcceptedIsNormal(images, parse(payload));
    NestedNames(images, parts);
    ReadRendered(parts);
    hide Feed, Render, Utf8Length, ReadHtml, Merge, AsEvents;
  }

  // The boundary's own output is never oversized, and is accepted again unchanged by a parser that
  // reads it as HTML.
  lemma Idempotent(parse: Parser, images: Images, payload: string, html: string)
    requires ValidatePayload(parse, images, payload) == Some(html)
    requires Some(parse(html)) == ReadHtml(html)
    ensures ValidatePayload(parse, images, html) == Some(html)
  {
    OutputReads(parse, images, payload, html);
    OwnPiecesAccepted(images, parse(payload));
    hide Feed, Render, Utf8Length, Merge, AsEvents, NormalForm, ReadHtml;
  }

  // ---- what the output holds

  ghost predicate IsTopicName(s: string) {
    exists n: nat :: 1 <= n <= 9999 && s == "chm-topic-" + Decimal(n)
  }

  predicate IsImageData(kind: string, body: string, padding: string) {
    && kind in {"png", "jpeg", "gif", "webp"} && body != "" && padding in {"", "=", "=="}
    && forall i :: 0 <= i < |body| ==>
         'A' <= body[i] <= 'Z' || 'a' <= body[i] <= 'z' || '0' <= body[i] <= '9' || body[i] == '+' || body[i] == '/'
  }

  function ImageUri(kind: string, data: string): string {
    "data:image/" + kind + ";base64," + data
  }

  ghost predicate IsInlineImage(src: string) {
    exists kind, body, padding :: IsImageData(kind, body, padding) && src == ImageUri(kind, body + padding)
  }

  // The whole markup a fragment may hold, element by element.
  ghost predicate PermittedStart(tag: string, attrs: seq<Attribute>) {
    || (attrs == [] && tag in {
          "p", "div", "section", "article", "h1", "h2", "h3", "h4", "h5", "h6", "br", "pre", "code", "strong", "b",
          "em", "i", "u", "ul", "ol", "li", "blockquote", "table", "thead", "tbody", "tr", "td", "th", "hr", "small",
          "sup", "sub"})
    || (tag == "section" && |attrs| == 2 && attrs[0] == ("class", Some("chm-chapter")) && attrs[1].0 == "id"
        && attrs[1].1.Some? && IsTopicName(attrs[1].1.value))
    || (tag == "a" && |attrs| == 1 && attrs[0].0 == "href" && attrs[0].1.Some? && attrs[0].1.value != ""
        && attrs[0].1.value[0] == '#' && IsTopicName(attrs[0].1.value[1..]))
    || (tag == "img" && |attrs| == 3 && attrs[0] == ("class", Some("book-image")) && attrs[1].0 == "src"
        && attrs[1].1.Some? && IsInlineImage(attrs[1].1.value) && attrs[2] == ("alt", Some("")))
  }

  lemma {:induction false} ValueBound(s: string)
    requires forall i :: 0 <= i < |s| ==> IsDigit(s[i])
    ensures Value(s) < Power10(|s|)
  {
    if s != "" {
      assert IsDigit(s[|s| - 1]);
      ValueBound(s[..|s| - 1]);
    }
  }

  lemma TopicMeans(s: string)
    ensures IsTopic(s) <==> IsTopicName(s)
  {
    if IsTopic(s) {
      var digits := s[|TOPIC_PREFIX|..];
      assert s[..|TOPIC_PREFIX|] == TOPIC_PREFIX && s == TOPIC_PREFIX + digits;
      assert digits[0] == s[|TOPIC_PREFIX|];
      DecimalValue(digits);
      ValueBound(digits);
      PowersOfTen();
      assert s == "chm-topic-" + Decimal(Value(digits));
    }
    if IsTopicName(s) {
      var n: nat :| 1 <= n <= 9999 && s == "chm-topic-" + Decimal(n);
      NoLeadingZero(n);
      PowersOfTen();
      DecimalLength(n, 4);
      assert s[|TOPIC_PREFIX|..] == Decimal(n);
      assert forall i :: 0 <= i < |Decimal(n)| ==> IsDigit(Decimal(n)[i]);
      assert s[..|TOPIC_PREFIX|] == TOPIC_PREFIX;
    }
  }

  lemma PowersOfTen()
    ensures Power10(1) == 10 && Power10(2) == 100 && Power10(3) == 1000 && Power10(4) == 10000
  {
  }

  ghost predicate HoldsImage(src: string, kind: string) {
    exists body, padding :: IsImageData(kind, body, padding) && src == ImageUri(kind, body + padding)
  }

  lemma EmbedsMeans(src: string, kind: string)
    requires kind in {"png", "jpeg", "gif", "webp"}
    ensures Embeds(src, ImageUri(kind, "")) <==> HoldsImage(src, kind)
  {
    if Embeds(src, ImageUri(kind, "")) {
      EmbeddedIsHeld(src, kind);
    }
    if HoldsImage(src, kind) {
      var body, padding :| IsImageData(kind, body, padding) && src == ImageUri(kind, body + padding);
      HeldIsEmbedded(kind, body, padding);
    }
  }

  lemma EmbeddedIsHeld(src: string, kind: string)
    requires kind in {"png", "jpeg", "gif", "webp"} && Embeds(src, ImageUri(kind, ""))
    ensures HoldsImage(src, kind)
  {
    var prefix := ImageUri(kind, "");
    var data := src[|prefix|..];
    var n :| 0 <= n <= |data| && PaddedAt(data, n);
    var body, padding := data[..n], data[n..];
    PaddingMeans(padding);
    assert forall i :: 0 <= i < n ==> IsBase64Char(data[i]);
    assert IsImageData(kind, body, padding);
    hide IsImageData;
    assert data == body + padding && src == prefix + data;
    UriSplit(kind, data);
  }

  lemma HeldIsEmbedded(kind: string, body: string, padding: string)
    requires IsImageData(kind, body, padding)
    ensures Embeds(ImageUri(kind, body + padding), ImageUri(kind, ""))
  {
    var prefix, data := ImageUri(kind, ""), body + padding;
    UriSplit(kind, data);
    hide ImageUri;
    assert (prefix + data)[|prefix|..] == data;
    assert PaddedAt(data, |body|);
  }

  lemma UriSplit(kind: string, data: string)
    ensures ImageUri(kind, data) == ImageUri(kind, "") + data
  {
  }

  lemma PaddingMeans(s: string)
    requires |s| <= 2 && forall i :: 0 <= i < |s| ==> s[i] == '='
    ensures s in {"", "=", "=="}
  {
    if |s| == 1 {
      assert s == "=";
    } else if |s| == 2 {
      assert s == "==";
    }
  }

  lemma ImageMeans(src: string)
    ensures IsDataImage(src) <==> IsInlineImage(src)
  {
    EmbedsMeans(src, "png");
    EmbedsMeans(src, "jpeg");
    EmbedsMeans(src, "gif");
    EmbedsMeans(src, "webp");
    KindsMean();
    hide Embeds, IsImageData, ImageUri;
    if IsInlineImage(src) {
      var kind, body, padding :| IsImageData(kind, body, padding) && src == ImageUri(kind, body + padding);
      KindOf(kind, body, padding);
    }
  }

  lemma KindOf(kind: string, body: string, padding: string)
    requires IsImageData(kind, body, padding)
    ensures kind == "png" || kind == "jpeg" || kind == "gif" || kind == "webp"
  {
  }

  lemma KindsMean()
    ensures ImageUri("png", "") == "data:image/png;base64," && ImageUri("jpeg", "") == "data:image/jpeg;base64,"
    ensures ImageUri("gif", "") == "data:image/gif;base64," && ImageUri("webp", "") == "data:image/webp;base64,"
  {
  }

  // The elements of normal forms are exactly those written out above; an illustration also has a
  // decoded size within the limit.
  lemma ElementMeans(images: Images, tag: string, attrs: seq<(string, string)>)
    ensures CanonicalToken(images, Open(tag, attrs)) <==>
      && PermittedStart(tag, AsAttributes(attrs))
      && (tag == "img" ==> images(attrs[1].1).Some? && 0 < images(attrs[1].1).value <= 3 * 1024 * 1024)
  {
    hide IsTopic, IsTopicName, IsDataImage, IsInlineImage;
    if |attrs| == 1 && attrs[0].1 != "" {
      TopicMeans(attrs[0].1[1..]);
    } else if |attrs| == 2 {
      TopicMeans(attrs[1].1);
    } else if |attrs| == 3 {
      ImageMeans(attrs[1].1);
    }
  }

  lemma {:induction false} MergeKeeps(events: seq<Event>, e: Event)
    requires !e.Data?
    ensures e in Merge(events) <==> e in events
  {
    if events != [] {
      var init, last := events[..|events| - 1], events[|events| - 1];
      MergeKeeps(init, e);
      assert events == init + [last];
      JoinLastKeeps(Merge(init), last, e);
      hide Merge, JoinLast;
    }
  }

  lemma JoinLastKeeps(m: seq<Event>, last: Event, e: Event)
    requires !e.Data?
    ensures e in JoinLast(m, last) <==> e in m || e == last
  {
    if m != [] {
      assert m == m[..|m| - 1] + [m[|m| - 1]];
    }
  }

  ghost predicate Permitted(e: Event) {
    match e
    case Start(tag, attrs) => PermittedStart(tag, attrs)
    case End(tag) => tag !in {"br", "hr", "img"}
    case Data(_) => true
    case _ => false
  }

  // Some element of the text declares the topic that a link refers to.
  ghost predicate Resolved(events: seq<Event>, href: string) {
    exists id :: href == "#" + id
      && Start("section", [("class", Some("chm-chapter")), ("id", Some(id))]) in events
  }

  lemma CanonicalIsPermitted(images: Images, t: Token)
    requires CanonicalToken(images, t)
    ensures Permitted(AsEvent(t))
  {
    hide PermittedStart, IsTopic, IsDataImage, Allowed;
    if t.Open? {
      ElementMeans(images, t.tag, t.attrs);
    }
  }

  // Nothing but the permitted markup is in the text that the boundary returns: no other element or
  // attribute, comment, declaration or instruction, and no link that leaves the text.
  lemma OutputIsPermitted(parse: Parser, images: Images, payload: string, html: string)
    requires ValidatePayload(parse, images, payload) == Some(html)
    ensures ReadHtml(html).Some?
    ensures forall e :: e in ReadHtml(html).value ==> Permitted(e)
    ensures forall href :: Start("a", [("href", Some(href))]) in ReadHtml(html).value ==>
              Resolved(ReadHtml(html).value, href)
  {
    OutputReads(parse, images, payload, html);
    var parts := Accepted(images, parse(payload)).value.parts;
    hide Accepted, ValidatePayload, Permitted, Resolved, Merge, AsEvents, CanonicalToken, ReadHtml;
    forall e | e in Merge(AsEvents(parts)) ensures Permitted(e) {
      PiecesPermitted(images, parts, e);
    }
    forall href | Start("a", [("href", Some(href))]) in Merge(AsEvents(parts))
      ensures Resolved(Merge(AsEvents(parts)), href)
    {
      LinkResolved(images, parts, href);
    }
  }

  lemma PiecesPermitted(images: Images, parts: seq<Token>, e: Event)
    requires NormalParts(images, parts) && e in Merge(AsEvents(parts))
    ensures Permitted(e)
  {
    hide CanonicalToken, PermittedStart, AsEvent, Merge, NestedWithin, Count;
    if !e.Data? {
      MergeKeeps(AsEvents(parts), e);
      var i :| 0 <= i < |parts| && AsEvents(parts)[i] == e;
      CanonicalIsPermitted(images, parts[i]);
    }
  }

  lemma {:induction false} CountedTopics(images: Images, parts: seq<Token>, topic: string)
    requires Count(images, parts).Some?
    ensures topic in Count(images, parts).value.topics <==>
      exists i :: 0 <= i < |parts| && topic in Declares(parts[i])
    ensures topic in Count(images, parts).value.links <==>
      exists i :: 0 <= i < |parts| && topic in RefersTo(parts[i])
  {
    hide Declares, RefersTo, ImageSize, Text.Blank;
    if parts != [] {
      var init, t := parts[..|parts| - 1], parts[|parts| - 1];
      CountedTopics(images, init, topic);
      assert forall i :: 0 <= i < |init| ==> init[i] == parts[i];
    }
  }

  lemma LinkResolved(images: Images, parts: seq<Token>, href: string)
    requires NormalForm(images, parts) && Start("a", [("href", Some(href))]) in Merge(AsEvents(parts))
    ensures Resolved(Merge(AsEvents(parts)), href)
  {
    hide Merge, NestedWithin, Count, Render, Utf8Length, IsTopic, IsDataImage, Allowed, WithinBudgets;
    var link := Start("a", [("href", Some(href))]);
    MergeKeeps(AsEvents(parts), link);
    var i :| 0 <= i < |parts| && AsEvents(parts)[i] == link;
    LinkOf(images, parts[i], href);
    var id := href[1..];
    CountedTopics(images, parts, id);
    assert id in RefersTo(parts[i]);
    var j :| 0 <= j < |parts| && id in Declares(parts[j]);
    SectionOf(images, parts[j], id);
    assert AsEvents(parts)[j] == Start("section", [("class", Some("chm-chapter")), ("id", Some(id))]);
    MergeKeeps(AsEvents(parts), AsEvents(parts)[j]);
    assert href == "#" + id;
  }

  lemma LinkOf(images: Images, t: Token, href: string)
    requires CanonicalToken(images, t) && AsEvent(t) == Start("a", [("href", Some(href))])
    ensures href != "" && href[0] == '#' && RefersTo(t) == {href[1..]}
  {
    hide IsTopic, IsDataImage, Allowed;
    assert |t.attrs| == 1;
    assert AsAttributes(t.attrs)[0] == ("href", Some(href));
  }

  lemma SectionOf(images: Images, t: Token, id: string)
    requires CanonicalToken(images, t) && id in Declares(t)
    ensures AsEvent(t) == Start("section", [("class", Some("chm-chapter")), ("id", Some(id))])
  {
    hide IsTopic, IsDataImage, Allowed;
    assert AsAttributes(t.attrs) == [("class", Some("chm-chapter")), ("id", Some(id))];
  }

  // ---- the limits

  function TextOf(parts: seq<Token>): string {
    if parts == [] then ""
    else TextOf(parts[..|parts| - 1]) + if parts[|parts| - 1].Text? then parts[|parts| - 1].text else ""
  }

  // The places of the elements.
  function Elements(parts: seq<Token>): set<nat> {
    set i: nat | i < |parts| && parts[i].Open?
  }

  // The places of the illustrations.
  function Illustrations(parts: seq<Token>): set<nat> {
    set i: nat | i < |parts| && parts[i].Open? && parts[i].tag == "img"
  }

  lemma {:induction false} ElementsCounted(images: Images, parts: seq<Token>)
    requires Count(images, parts).Some?
    ensures var c := Count(images, parts).value; c.tags == |Elements(parts)| && c.images == |Illustrations(parts)|
  {
    hide Declares, RefersTo, ImageSize, Text.Blank, Elements, Illustrations;
    if parts == [] {
      NoElements();
    } else {
      var init, t := parts[..|parts| - 1], parts[|parts| - 1];
      ElementsCounted(images, init);
      assert parts == init + [t];
      OneMoreElement(init, t);
      OneMoreIllustration(init, t);
    }
  }

  lemma NoElements()
    ensures Elements([]) == {} && Illustrations([]) == {}
  {
  }

  lemma OneMoreElement(parts: seq<Token>, t: Token)
    ensures |Elements(parts + [t])| == |Elements(parts)| + if t.Open? then 1 else 0
  {
    assert Elements(parts + [t]) == Elements(parts) + if t.Open? then {|parts|} else {};
  }

  lemma OneMoreIllustration(parts: seq<Token>, t: Token)
    ensures |Illustrations(parts + [t])| == |Illustrations(parts)| + if t.Open? && t.tag == "img" then 1 else 0
  {
    assert Illustrations(parts + [t]) == Illustrations(parts) + if t.Open? && t.tag == "img" then {|parts|} else {};
  }

  lemma {:induction false} TextCounted(images: Images, parts: seq<Token>)
    requires Count(images, parts).Some?
    ensures var c := Count(images, parts).value;
      c.chars == |TextOf(parts)| && (c.printable <==> !Text.Blank(TextOf(parts)))
  {
    hide Declares, RefersTo, ImageSize, Text.Blank;
    if parts == [] {
      BlankNothing();
    } else {
      var init, t := parts[..|parts| - 1], parts[|parts| - 1];
      TextCounted(images, init);
      if t.Text? {
        BlankJoin(TextOf(init), t.text);
      } else {
        assert TextOf(init) + "" == TextOf(init);
      }
    }
  }

  lemma BlankNothing()
    ensures Text.Blank("")
  {
  }

  ghost predicate AllDistinct(parts: seq<Token>) {
    forall i, j :: 0 <= i < j < |parts| ==> Declares(parts[i]) !! Declares(parts[j])
  }

  lemma {:induction false} TopicsDistinct(images: Images, parts: seq<Token>)
    ensures Count(images, parts).Some? <==> AllDistinct(parts)
  {
    hide Declares, RefersTo, ImageSize, Text.Blank;
    if parts != [] {
      var init, t := parts[..|parts| - 1], parts[|parts| - 1];
      TopicsDistinct(images, init);
      assert parts == init + [t];
      if Count(images, init).Some? {
        DistinctMore(images, init, t);
      } else {
        DistinctLess(init, t);
      }
      hide AllDistinct;
    }
  }

  lemma DistinctLess(parts: seq<Token>, t: Token)
    ensures AllDistinct(parts + [t]) ==> AllDistinct(parts)
  {
    hide Declares;
    if AllDistinct(parts + [t]) {
      forall i, j | 0 <= i < j < |parts| ensures Declares(parts[i]) !! Declares(parts[j]) {
        assert (parts + [t])[i] == parts[i] && (parts + [t])[j] == parts[j];
      }
    }
  }

  lemma DistinctMore(images: Images, parts: seq<Token>, t: Token)
    requires Count(images, parts).Some? && AllDistinct(parts)
    ensures AllDistinct(parts + [t]) <==> Declares(t) !! Count(images, parts).value.topics
  {
    hide Declares, Count;
    var all, topics := parts + [t], Count(images, parts).value.topics;
    forall i | 0 <= i < |parts| ensures Declares(parts[i]) <= topics && all[i] == parts[i] {
      DeclaredBefore(images, parts, i);
    }
    assert all[|parts|] == t;
    if AllDistinct(all) {
      forall topic | topic in topics ensures topic !in Declares(t) {
        CountedTopics(images, parts, topic);
        var i :| 0 <= i < |parts| && topic in Declares(parts[i]);
        assert Declares(all[i]) !! Declares(all[|parts|]);
      }
    }
  }

  lemma DeclaredBefore(images: Images, parts: seq<Token>, i: nat)
    requires i < |parts| && Count(images, parts).Some?
    ensures Declares(parts[i]) <= Count(images, parts).value.topics
  {
    hide Declares, Count;
    forall topic | topic in Declares(parts[i]) ensures topic in Count(images, parts).value.topics {
      CountedTopics(images, parts, topic);
    }
  }

  // A section that declares a topic.
  predicate IsChapter(t: Token) {
    t.Open? && t.tag == "section" && |t.attrs| == 2
  }

  // Distinct topics, and every link to one of them.
  ghost predicate Linked(parts: seq<Token>) {
    && (forall i, j :: 0 <= i < j < |parts| && IsChapter(parts[i]) && IsChapter(parts[j]) ==>
          parts[i].attrs[1].1 != parts[j].attrs[1].1)
    && (forall i, topic :: 0 <= i < |parts| && topic in RefersTo(parts[i]) ==>
          exists j :: 0 <= j < |parts| && topic in Declares(parts[j]))
  }

  // Properly nested, never more than 128 deep, and closed at the end.
  ghost predicate WellNested(parts: seq<Token>) {
    && Nesting(parts) == Some([])
    && forall n :: 0 <= n <= |parts| ==> Nesting(parts[..n]).Some? && |Nesting(parts[..n]).value| <= 128
  }

  ghost predicate WithinLimits(images: Images, parts: seq<Token>) {
    && |Elements(parts)| <= 80_000 && |Illustrations(parts)| <= 32 && ImageBytes(images, parts) <= 8 * 1024 * 1024
    && |TextOf(parts)| <= 250_000 && Utf8Length(Render(parts)) <= 16 * 1024 * 1024
  }

  lemma DistinctMeans(parts: seq<Token>)
    ensures AllDistinct(parts) <==>
      (forall i, j :: 0 <= i < j < |parts| && IsChapter(parts[i]) && IsChapter(parts[j]) ==>
         parts[i].attrs[1].1 != parts[j].attrs[1].1)
  {
    if AllDistinct(parts) {
      forall i, j | 0 <= i < j < |parts| && IsChapter(parts[i]) && IsChapter(parts[j])
        ensures parts[i].attrs[1].1 != parts[j].attrs[1].1
      {
        assert parts[i].attrs[1].1 in Declares(parts[i]) && Declares(parts[i]) !! Declares(parts[j]);
      }
    }
  }

  // A normal form: permitted pieces, properly nested and closed, with distinct topics and resolved
  // links, something printable, and the limits in numbers.
  lemma NormalFormMeans(images: Images, parts: seq<Token>)
    ensures NormalForm(images, parts) <==>
      && (forall i :: 0 <= i < |parts| ==> CanonicalToken(images, parts[i]))
      && WellNested(parts) && Linked(parts) && !Text.Blank(TextOf(parts)) && WithinLimits(images, parts)
  {
    TopicsDistinct(images, parts);
    LinkedMeans(images, parts);
    NestedMeans(parts);
    if Count(images, parts).Some? {
      LimitsMean(images, parts);
      TextCounted(images, parts);
    }
    hide CanonicalToken, Count, Render, Utf8Length, Text.Blank, TextOf, Nesting, NestedWithin, WellNested, AllDistinct,
      Linked, WithinLimits, WithinBudgets;
  }

  lemma NestedMeans(parts: seq<Token>)
    ensures WellNested(parts) <==> NestedWithin(parts) && Nesting(parts) == Some([])
  {
    hide Nesting;
  }

  lemma LimitsMean(images: Images, parts: seq<Token>)
    requires Count(images, parts).Some?
    ensures WithinLimits(images, parts) <==>
      WithinBudgets(Count(images, parts).value) && Utf8Length(Render(parts)) <= MAX_HTML_BYTES
  {
    ElementsCounted(images, parts);
    ImagesCounted(images, parts);
    TextCounted(images, parts);
    hide Count, Render, Utf8Length, TextOf, Elements, Illustrations, ImageBytes;
  }

  lemma LinkedMeans(images: Images, parts: seq<Token>)
    ensures Linked(parts) <==>
      && AllDistinct(parts)
      && (Count(images, parts).Some? ==> Count(images, parts).value.links <= Count(images, parts).value.topics)
  {
    TopicsDistinct(images, parts);
    DistinctMeans(parts);
    if Count(images, parts).Some? {
      LinksMean(images, parts);
    }
    hide Count, IsChapter, AllDistinct, Declares, RefersTo;
  }

  // The decoded bytes of the illustrations.
  function ImageBytes(images: Images, parts: seq<Token>): nat {
    if parts == [] then 0
    else
      var t := parts[|parts| - 1];
      ImageBytes(images, parts[..|parts| - 1])
      + if t.Open? && t.tag == "img" && |t.attrs| == 3 && images(t.attrs[1].1).Some? then images(t.attrs[1].1).value
        else 0
  }

  lemma {:induction false} ImagesCounted(images: Images, parts: seq<Token>)
    requires Count(images, parts).Some?
    ensures Count(images, parts).value.imageBytes == ImageBytes(images, parts)
  {
    hide Declares, RefersTo, Text.Blank;
    if parts != [] {
      ImagesCounted(images, parts[..|parts| - 1]);
    }
  }

  lemma LinksMean(images: Images, parts: seq<Token>)
    requires Count(images, parts).Some?
    ensures Count(images, parts).value.links <= Count(images, parts).value.topics <==>
      (forall i, topic :: 0 <= i < |parts| && topic in RefersTo(parts[i]) ==>
         exists j :: 0 <= j < |parts| && topic in Declares(parts[j]))
  {
    hide Count, RefersTo, Declares;
    var c := Count(images, parts).value;
    if c.links <= c.topics {
      forall i, topic | 0 <= i < |parts| && topic in RefersTo(parts[i])
        ensures exists j :: 0 <= j < |parts| && topic in Declares(parts[j])
      {
        CountedTopics(images, parts, topic);
      }
    } else {
      var topic :| topic in c.links && topic !in c.topics;
      CountedTopics(images, parts, topic);
    }
  }

  // ---- the size of a text

  // The bytes of a character in UTF-8.
  function Utf8(c: char): seq<nat> {
    var n := c as int;
    if n <= 0x7F then [n]
    else if n <= 0x7FF then [0xC0 + n / 64, 0x80 + n % 64]
    else if n <= 0xFFFF then [0xE0 + n / 4096, 0x80 + n / 64 % 64, 0x80 + n % 64]
    else [0xF0 + n / 262144, 0x80 + n / 4096 % 64, 0x80 + n / 64 % 64, 0x80 + n % 64]
  }

  function Utf8Text(s: string): seq<nat> {
    if s == "" then [] else Utf8(s[0]) + Utf8Text(s[1..])
  }

  lemma {:induction false} Utf8Joins(s: string, c: char)
    ensures Utf8Text(s + [c]) == Utf8Text(s) + Utf8(c)
  {
    hide Utf8;
    if s == "" {
      assert s + [c] == [c] && [c][1..] == "";
    } else {
      assert (s + [c])[1..] == s[1..] + [c];
      Utf8Joins(s[1..], c);
    }
  }

  lemma {:induction false} Utf8LengthMeans(s: string)
    ensures Utf8Length(s) == |Utf8Text(s)|
  {
    if s != "" {
      assert s == s[..|s| - 1] + [s[|s| - 1]];
      Utf8LengthMeans(s[..|s| - 1]);
      Utf8Joins(s[..|s| - 1], s[|s| - 1]);
    }
  }
}
