/** The CHM boundary as a handler object that updates its fields event by event. */
module ChmChecker {
  import opened Options
  import Text
  import opened ChmFragment
  import opened ChmReader
  import opened ChmRoundTrip

  class Fragment {
    const imageSizes: Images
    var parts: seq<Token>
    var stack: seq<string>
    var topics: set<string>
    var links: set<string>
    var tags: nat
    var chars: nat
    var images: nat
    var imageBytes: nat
    var printable: bool

    constructor (imageSizes: Images)
      ensures this.imageSizes == imageSizes && Now() == EMPTY
    {
      this.imageSizes := imageSizes;
      parts, stack, topics, links := [], [], {}, {};
      tags, chars, images, imageBytes, printable := 0, 0, 0, 0, false;
    }

    ghost function Now(): State
      reads this
    {
      State(parts, stack, topics, links, tags, chars, images, imageBytes, printable)
    }

    method Append(tag: string, attrs: seq<(string, string)>)
      modifies this
      ensures Now() == Opened(old(Now()), imageSizes, tag, attrs)
    {
      tags := tags + 1;
      if tag == "section" && |attrs| == 2 {
        topics := topics + {attrs[1].1};
      } else if tag == "a" && |attrs| == 1 && attrs[0].1 != "" {
        links := links + {attrs[0].1[1..]};
      } else if tag == "img" {
        images := images + 1;
        if |attrs| == 3 && imageSizes(attrs[1].1).Some? {
          imageBytes := imageBytes + imageSizes(attrs[1].1).value;
        }
      }
      parts := parts + [Open(tag, attrs)];
      if tag !in VOID {
        stack := stack + [tag];
      }
    }

    // false stands for the raised refusal, after which the object is not used again.
    method HandleStartTag(tag: string, attrs: seq<Attribute>) returns (ok: bool)
      modifies this
      ensures ok <==> OnStart(old(Now()), imageSizes, tag, attrs).Some?
      ensures ok ==> Now() == OnStart(old(Now()), imageSizes, tag, attrs).value
    {
      hide Rebuilt, Allowed, Opened;
      if tags + 1 > MAX_TAGS || |stack| > MAX_DEPTH || !Allowed(tag) {
        return false;
      }
      var state := State(parts, stack, topics, links, tags, chars, images, imageBytes, printable);
      var rebuilt := Rebuilt(state, imageSizes, tag, attrs);
      if rebuilt.None? {
        return false;
      }
      if tag !in VOID && |stack| + 1 > MAX_DEPTH {
        return false;
      }
      Append(tag, rebuilt.value);
      ok := true;
    }

    method HandleEndTag(tag: string) returns (ok: bool)
      modifies this`stack, this`parts
      ensures ok <==> OnEnd(old(Now()), tag).Some?
      ensures ok ==> Now() == OnEnd(old(Now()), tag).value
    {
      if tag in VOID || stack == [] || stack[|stack| - 1] != tag {
        return false;
      }
      stack := stack[..|stack| - 1];
      parts := parts + [Close(tag)];
      ok := true;
    }

    method HandleData(text: string) returns (ok: bool)
      modifies this`chars, this`printable, this`parts
      ensures ok <==> OnData(old(Now()), text).Some?
      ensures ok ==> Now() == OnData(old(Now()), text).value
    {
      if text != "" {
        chars := chars + |text|;
        if chars > MAX_CHARS {
          return false;
        }
        if !Text.Blank(text) {
          printable := true;
        }
        parts := parts + [Text(text)];
      }
      ok := true;
    }

    method Handle(e: Event) returns (ok: bool)
      modifies this
      ensures ok <==> On(old(Now()), imageSizes, e).Some?
      ensures ok ==> Now() == On(old(Now()), imageSizes, e).value
    {
      match e {
        case Start(tag, attrs) => ok := HandleStartTag(tag, attrs);
        case SelfClosing(tag, attrs) =>
          if tag !in VOID {
            return false;
          }
          ok := HandleStartTag(tag, attrs);
        case End(tag) => ok := HandleEndTag(tag);
        case Data(text) => ok := HandleData(text);
        case Prohibited => ok := false;
      }
    }

    method Finish() returns (html: Option<string>)
      ensures html.Some? <==>
        && stack == [] && printable && (forall link :: link in links ==> link in topics)
        && Utf8Length(Render(parts)) <= 16 * 1024 * 1024
      ensures html.Some? ==> html.value == Render(parts)
    {
      if stack != [] || !printable {
        return None;
      }
      if exists link :: link in links && link !in topics {
        return None;
      }
      var verified := "";
      for i := 0 to |parts|
        invariant verified == Render(parts[..i])
      {
        assert parts[..i + 1][..i] == parts[..i];
        verified := verified + RenderToken(parts[i]);
      }
      assert parts[..|parts|] == parts;
      if Utf8Length(verified) > MAX_HTML_BYTES {
        return None;
      }
      html := Some(verified);
    }
  }

  // An oversized text is refused unparsed; otherwise a fresh object, fed event by event, computes
  // the function the theorems speak about.
  method ValidateFragment(parse: Parser, imageSizes: Images, payload: string) returns (html: Option<string>)
    ensures html == ValidatePayload(parse, imageSizes, payload)
    ensures Utf8Length(payload) > 16 * 1024 * 1024 ==> html.None?
    ensures html.Some? ==> ReadHtml(html.value).Some?
    ensures html.Some? ==> forall e :: e in ReadHtml(html.value).value ==> Permitted(e)
  {
    if Utf8Length(payload) > MAX_HTML_BYTES {
      return None;
    }
    var checker := new Fragment(imageSizes);
    var events := parse(payload);
    for i := 0 to |events|
      invariant fresh(checker) && checker.imageSizes == imageSizes
      invariant Feed(EMPTY, imageSizes, events[..i]) == Some(checker.Now())
    {
      assert events[..i + 1][..i] == events[..i];
      var ok := checker.Handle(events[i]);
      if !ok {
        FailsForever(imageSizes, events, i + 1);
        return None;
      }
    }
    assert events[..|events|] == events;
    html := checker.Finish();
    if html.Some? {
      OutputIsPermitted(parse, imageSizes, payload, html.value);
    }
  }

  lemma {:induction false} FailsForever(imageSizes: Images, events: seq<Event>, i: nat)
    requires i <= |events| && Feed(EMPTY, imageSizes, events[..i]).None?
    ensures Feed(EMPTY, imageSizes, events).None?
  {
    if i == |events| {
      assert events[..i] == events;
    } else {
      assert events[..|events| - 1][..i] == events[..i];
      FailsForever(imageSizes, events[..|events| - 1], i);
    }
  }
}
