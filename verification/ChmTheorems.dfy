/** Every fragment the boundary lets through is in normal form, and the boundary leaves a
    normal form as it is. */
module ChmTheorems {
  import opened Options
  import Text
  import opened ChmFragment
  import opened ChmReader

  // The open elements after one more piece; None when it does not fit.
  function NestStep(stack: seq<string>, t: Token): Option<seq<string>> {
    match t
    case Open(tag, _) => Some(if tag in VOID then stack else stack + [tag])
    case Close(tag) => if stack != [] && stack[|stack| - 1] == tag then Some(stack[..|stack| - 1]) else None
    case Text(_) => Some(stack)
  }

  // The open elements after the pieces; None when they are not properly nested.
  function Nesting(parts: seq<Token>): Option<seq<string>> {
    if parts == [] then Some([])
    else
      var r := Nesting(parts[..|parts| - 1]);
      if r.None? then None else NestStep(r.value, parts[|parts| - 1])
  }

  predicate CanonicalToken(images: Images, t: Token) {
    match t
    case Open(tag, attrs) =>
      && Allowed(tag)
      && ((attrs == [] && tag != "a" && tag != "img")
          || (tag == "section" && |attrs| == 2 && attrs[0] == ("class", "chm-chapter") && attrs[1].0 == "id"
              && IsTopic(attrs[1].1))
          || (tag == "a" && |attrs| == 1 && attrs[0].0 == "href" && "#" <= attrs[0].1 && IsTopic(attrs[0].1[1..]))
          || (tag == "img" && |attrs| == 3 && attrs[0] == ("class", "book-image") && attrs[1].0 == "src"
              && attrs[2] == ("alt", "") && IsDataImage(attrs[1].1) && images(attrs[1].1).Some?
              && 0 < images(attrs[1].1).value <= MAX_IMAGE_BYTES))
    case Close(tag) => tag !in VOID
    case Text(text) => text != ""
  }

  // The topic a piece declares and the topic it refers to.
  function Declares(t: Token): set<string> {
    if t.Open? && t.tag == "section" && |t.attrs| == 2 then {t.attrs[1].1} else {}
  }

  function RefersTo(t: Token): set<string> {
    if t.Open? && t.tag == "a" && |t.attrs| == 1 && t.attrs[0].1 != "" then {t.attrs[0].1[1..]} else {}
  }

  function ImageSize(images: Images, t: Token): nat {
    if t.Open? && t.tag == "img" && |t.attrs| == 3 && images(t.attrs[1].1).Some? then images(t.attrs[1].1).value else 0
  }

  datatype Totals = Totals(topics: set<string>, links: set<string>, tags: nat, chars: nat, images: nat, imageBytes: nat,
                           printable: bool)

  function CountStep(images: Images, c: Totals, t: Token): Option<Totals> {
    if !(Declares(t) !! c.topics) then None
    else Some(Totals(
      c.topics + Declares(t), c.links + RefersTo(t),
      c.tags + (if t.Open? then 1 else 0),
      c.chars + (if t.Text? then |t.text| else 0),
      c.images + (if t.Open? && t.tag == "img" then 1 else 0),
      c.imageBytes + ImageSize(images, t),
      c.printable || (t.Text? && !Text.Blank(t.text))))
  }

  // What the pieces declare, refer to and use up; None when a topic is declared twice.
  function Count(images: Images, parts: seq<Token>): Option<Totals> {
    if parts == [] then Some(Totals({}, {}, 0, 0, 0, 0, false))
    else
      var r := Count(images, parts[..|parts| - 1]);
      if r.None? then None else CountStep(images, r.value, parts[|parts| - 1])
  }

  predicate WithinBudgets(c: Totals) {
    c.tags <= MAX_TAGS && c.chars <= MAX_CHARS && c.images <= MAX_IMAGES && c.imageBytes <= MAX_TOTAL_IMAGE_BYTES
  }

  // Properly nested and never deeper than the limit, over every prefix.
  ghost predicate NestedWithin(parts: seq<Token>) {
    forall n :: 0 <= n <= |parts| ==> Nesting(parts[..n]).Some? && |Nesting(parts[..n]).value| <= MAX_DEPTH
  }

  ghost predicate NormalParts(images: Images, parts: seq<Token>) {
    && (forall i :: 0 <= i < |parts| ==> CanonicalToken(images, parts[i]))
    && NestedWithin(parts)
    && Count(images, parts).Some? && WithinBudgets(Count(images, parts).value)
  }

  // A complete fragment in normal form: allowed elements with their fixed attributes, properly
  // nested and closed, distinct topics, every link to a declared topic, within every budget.
  ghost predicate NormalForm(images: Images, parts: seq<Token>) {
    && NormalParts(images, parts)
    && Nesting(parts) == Some([])
    && Count(images, parts).value.links <= Count(images, parts).value.topics
    && Count(images, parts).value.printable
    && Utf8Length(Render(parts)) <= MAX_HTML_BYTES
  }

  function TotalsOf(st: State): Totals {
    Totals(st.topics, st.links, st.tags, st.chars, st.images, st.imageBytes, st.printable)
  }

  // The state holds exactly what its pieces say.
  ghost predicate Faithful(images: Images, st: State) {
    && NormalParts(images, st.parts)
    && Nesting(st.parts) == Some(st.stack)
    && Count(images, st.parts) == Some(TotalsOf(st))
  }

  // st1 is st with one more piece.
  ghost predicate Extends(images: Images, st: State, st1: State, t: Token) {
    && st1.parts == st.parts + [t] && CanonicalToken(images, t)
    && NestStep(st.stack, t) == Some(st1.stack) && |st1.stack| <= MAX_DEPTH
    && CountStep(images, TotalsOf(st), t) == Some(TotalsOf(st1)) && WithinBudgets(TotalsOf(st1))
  }

  lemma NestedMore(parts: seq<Token>, t: Token)
    requires NestedWithin(parts)
    requires Nesting(parts + [t]).Some? && |Nesting(parts + [t]).value| <= MAX_DEPTH
    ensures NestedWithin(parts + [t])
  {
    forall n | 0 <= n <= |parts| + 1
      ensures Nesting((parts + [t])[..n]).Some? && |Nesting((parts + [t])[..n]).value| <= MAX_DEPTH
    {
      if n <= |parts| {
        assert (parts + [t])[..n] == parts[..n];
      } else {
        assert (parts + [t])[..n] == parts + [t];
      }
    }
  }

  lemma ExtendsFaithful(images: Images, st: State, st1: State, t: Token)
    requires Faithful(images, st) && Extends(images, st, st1, t)
    ensures Faithful(images, st1)
  {
    hide CanonicalToken, NestStep, CountStep, WithinBudgets, TotalsOf, NestedWithin;
    var parts := st.parts + [t];
    assert parts[..|parts| - 1] == st.parts && parts[|parts| - 1] == t;
    NestedMore(st.parts, t);
  }

  lemma EndExtends(images: Images, st: State, tag: string)
    requires OnEnd(st, tag).Some? && |st.stack| <= MAX_DEPTH && WithinBudgets(TotalsOf(st))
    ensures Extends(images, st, OnEnd(st, tag).value, Close(tag))
  {
    assert st.topics + {} == st.topics && st.links + {} == st.links;
  }

  lemma DataExtends(images: Images, st: State, text: string)
    requires text != "" && OnData(st, text).Some? && |st.stack| <= MAX_DEPTH && WithinBudgets(TotalsOf(st))
    ensures Extends(images, st, OnData(st, text).value, Text(text))
  {
    hide Text.Blank;
    assert st.topics + {} == st.topics && st.links + {} == st.links;
  }

  lemma RebuiltIsCanonical(images: Images, st: State, tag: string, attrs: seq<Attribute>)
    requires Rebuilt(st, images, tag, attrs).Some? && Allowed(tag)
    ensures var t := Open(tag, Rebuilt(st, images, tag, attrs).value);
      CanonicalToken(images, t) && Declares(t) !! st.topics && (tag == "img" ==> FitsBudget(st, images(t.attrs[1].1)))
  {
    hide IsTopic, IsDataImage, Lookup, Keys, Allowed;
  }

  lemma OpenedNests(images: Images, st: State, tag: string, attrs: seq<(string, string)>)
    ensures NestStep(st.stack, Open(tag, attrs)) == Some(Opened(st, images, tag, attrs).stack)
    ensures Opened(st, images, tag, attrs).parts == st.parts + [Open(tag, attrs)]
  {
  }

  lemma OpenedCounts(images: Images, st: State, tag: string, attrs: seq<(string, string)>)
    requires CanonicalToken(images, Open(tag, attrs)) && Declares(Open(tag, attrs)) !! st.topics
    ensures CountStep(images, TotalsOf(st), Open(tag, attrs)) == Some(TotalsOf(Opened(st, images, tag, attrs)))
  {
    hide IsTopic, IsDataImage, Allowed;
    assert st.topics + {} == st.topics && st.links + {} == st.links;
  }

  lemma StartExtends(images: Images, st: State, tag: string, attrs: seq<Attribute>)
    requires OnStart(st, images, tag, attrs).Some? && |st.stack| <= MAX_DEPTH && WithinBudgets(TotalsOf(st))
    ensures Extends(images, st, OnStart(st, images, tag, attrs).value, Open(tag, Rebuilt(st, images, tag, attrs).value))
  {
    var rebuilt := Rebuilt(st, images, tag, attrs).value;
    RebuiltIsCanonical(images, st, tag, attrs);
    OpenedNests(images, st, tag, rebuilt);
    OpenedCounts(images, st, tag, rebuilt);
    hide Rebuilt, Allowed, CanonicalToken, NestStep, CountStep, Declares;
  }

  lemma OnFaithful(images: Images, st: State, e: Event)
    requires Faithful(images, st) && On(st, images, e).Some?
    ensures Faithful(images, On(st, images, e).value)
  {
    assert st.parts[..|st.parts|] == st.parts;
    hide NormalParts, Rebuilt, CanonicalToken, NestStep, CountStep, Extends;
    DepthOf(images, st);
    match e {
      case Start(tag, attrs) => StartFaithful(images, st, tag, attrs);
      case SelfClosing(tag, attrs) => StartFaithful(images, st, tag, attrs);
      case End(tag) =>
        EndExtends(images, st, tag);
        ExtendsFaithful(images, st, OnEnd(st, tag).value, Close(tag));
      case Data(text) =>
        if text != "" {
          DataExtends(images, st, text);
          ExtendsFaithful(images, st, OnData(st, text).value, Text(text));
        }
      case Prohibited =>
    }
  }

  lemma DepthOf(images: Images, st: State)
    requires Faithful(images, st)
    ensures |st.stack| <= MAX_DEPTH && WithinBudgets(TotalsOf(st))
  {
    assert st.parts[..|st.parts|] == st.parts;
  }

  lemma StartFaithful(images: Images, st: State, tag: string, attrs: seq<Attribute>)
    requires Faithful(images, st) && OnStart(st, images, tag, attrs).Some?
    ensures Faithful(images, OnStart(st, images, tag, attrs).value)
  {
    DepthOf(images, st);
    hide Faithful, OnStart, Extends;
    StartExtends(images, st, tag, attrs);
    ExtendsFaithful(images, st, OnStart(st, images, tag, attrs).value,
                    Open(tag, Rebuilt(st, images, tag, attrs).value));
  }

  lemma {:induction false} FeedFaithful(images: Images, events: seq<Event>)
    requires Feed(EMPTY, images, events).Some?
    ensures Faithful(images, Feed(EMPTY, images, events).value)
  {
    hide Faithful, On;
    if events == [] {
      EmptyFaithful(images);
    } else {
      FeedFaithful(images, events[..|events| - 1]);
      OnFaithful(images, Feed(EMPTY, images, events[..|events| - 1]).value, events[|events| - 1]);
    }
  }

  lemma EmptyFaithful(images: Images)
    ensures Faithful(images, EMPTY)
  {
    assert forall n :: 0 <= n <= 0 ==> EMPTY.parts[..n] == [];
  }

  // ---- feeding the checker its own output

  // The event a parser reports for a reconstructed piece.
  function AsEvent(t: Token): Event {
    match t
    case Open(tag, attrs) => Start(tag, AsAttributes(attrs))
    case Close(tag) => End(tag)
    case Text(text) => Data(text)
  }

  function AsEvents(parts: seq<Token>): (r: seq<Event>)
    ensures |r| == |parts|
  {
    seq(|parts|, i requires 0 <= i < |parts| => AsEvent(parts[i]))
  }

  predicate DistinctKeys(attrs: seq<Attribute>) {
    forall i, j :: 0 <= i < j < |attrs| ==> attrs[i].0 != attrs[j].0
  }

  // The same attributes, each once, in any order.
  ghost predicate SameAttributes(attrs: seq<Attribute>, fixed: seq<(string, string)>) {
    DistinctKeys(attrs) && forall x :: x in attrs <==> x in AsAttributes(fixed)
  }

  // The piece an event stands for.
  ghost predicate Becomes(e: Event, t: Token) {
    match t
    case Open(tag, fixed) =>
      && (e.Start? || (e.SelfClosing? && tag in {"br", "hr", "img"}))
      && e.tag == tag && SameAttributes(e.attrs, fixed)
    case Close(tag) => e == End(tag)
    case Text(text) => e == Data(text)
  }

  ghost predicate AllBecome(events: seq<Event>, parts: seq<Token>) {
    |events| == |parts| && forall i :: 0 <= i < |events| ==> Becomes(events[i], parts[i])
  }

  // The events without empty chunks of text.
  function Visible(events: seq<Event>): seq<Event> {
    if events == [] then []
    else
      var r, e := Visible(events[..|events| - 1]), events[|events| - 1];
      if e == Data("") then r else r + [e]
  }

  lemma {:induction false} KeysCounted(attrs: seq<Attribute>)
    ensures |Keys(attrs)| <= |attrs| && (|Keys(attrs)| == |attrs| <==> DistinctKeys(attrs))
  {
    if attrs == [] {
      assert Keys(attrs) == {};
    } else {
      var init, key := attrs[..|attrs| - 1], attrs[|attrs| - 1].0;
      KeysCounted(init);
      OneMoreKey(attrs);
      hide Keys, DistinctKeys;
    }
  }

  lemma OneMoreKey(attrs: seq<Attribute>)
    requires attrs != []
    ensures var init, key := attrs[..|attrs| - 1], attrs[|attrs| - 1].0;
      && Keys(attrs) == Keys(init) + {key}
      && (DistinctKeys(attrs) <==> DistinctKeys(init) && key !in Keys(init))
  {
  }

  lemma {:induction false} LookupFinds(attrs: seq<Attribute>, key: string)
    ensures key in Keys(attrs) ==> (key, Lookup(attrs, key)) in attrs
    ensures Lookup(attrs, key).Some? ==> key in Keys(attrs)
  {
    if attrs != [] {
      LookupFinds(attrs[..|attrs| - 1], key);
      assert attrs == attrs[..|attrs| - 1] + [attrs[|attrs| - 1]];
    }
  }

  lemma LookupOf(attrs: seq<Attribute>, key: string, value: Option<string>)
    requires DistinctKeys(attrs) && (key, value) in attrs
    ensures key in Keys(attrs) && Lookup(attrs, key) == value
  {
    var i :| 0 <= i < |attrs| && attrs[i] == (key, value);
    assert attrs[i].0 in Keys(attrs);
    LookupFinds(attrs, key);
  }

  lemma KeysOf(attrs: seq<Attribute>, fixed: seq<(string, string)>)
    requires SameAttributes(attrs, fixed)
    ensures forall key :: key in Keys(attrs) <==> exists i :: 0 <= i < |fixed| && fixed[i].0 == key
    ensures forall i :: 0 <= i < |fixed| ==> Lookup(attrs, fixed[i].0) == Some(fixed[i].1)
    ensures |Keys(attrs)| == |attrs|
  {
    KeysCounted(attrs);
    forall i | 0 <= i < |fixed| ensures fixed[i].0 in Keys(attrs) && Lookup(attrs, fixed[i].0) == Some(fixed[i].1) {
      assert AsAttributes(fixed)[i] in AsAttributes(fixed);
      LookupOf(attrs, fixed[i].0, Some(fixed[i].1));
    }
    forall key | key in Keys(attrs) ensures exists i :: 0 <= i < |fixed| && fixed[i].0 == key {
      var j :| 0 <= j < |attrs| && attrs[j].0 == key;
      assert attrs[j] in AsAttributes(fixed);
    }
  }

  lemma CanonicalRebuilt(images: Images, st: State, tag: string, attrs: seq<Attribute>, fixed: seq<(string, string)>)
    requires CanonicalToken(images, Open(tag, fixed)) && Declares(Open(tag, fixed)) !! st.topics
    requires SameAttributes(attrs, fixed)
    requires tag == "img" ==>
               st.images + 1 <= MAX_IMAGES
                 && st.imageBytes + ImageSize(images, Open(tag, fixed)) <= MAX_TOTAL_IMAGE_BYTES
    ensures Rebuilt(st, images, tag, attrs) == Some(fixed)
  {
    KeysOf(attrs, fixed);
    hide IsTopic, IsDataImage, Allowed, Lookup, Keys, SameAttributes;
    if |fixed| == 1 {
      assert Keys(attrs) == {fixed[0].0};
      assert fixed == [("href", fixed[0].1)];
    } else if |fixed| == 2 {
      assert Keys(attrs) == {fixed[0].0, fixed[1].0};
      assert fixed == [("class", "chm-chapter"), ("id", fixed[1].1)];
    } else if |fixed| == 3 {
      assert Keys(attrs) == {fixed[0].0, fixed[1].0, fixed[2].0};
      assert fixed == [("class", "book-image"), ("src", fixed[1].1), ("alt", "")];
    } else {
      assert Keys(attrs) == {};
      assert attrs == [];
    }
  }

  lemma PieceAccepted(images: Images, st: State, e: Event, t: Token)
    requires Becomes(e, t) && CanonicalToken(images, t) && |st.stack| <= MAX_DEPTH
    requires NestStep(st.stack, t).Some? && |NestStep(st.stack, t).value| <= MAX_DEPTH
    requires CountStep(images, TotalsOf(st), t).Some? && WithinBudgets(CountStep(images, TotalsOf(st), t).value)
    ensures On(st, images, e).Some? && On(st, images, e).value.parts == st.parts + [t]
  {
    hide IsTopic, IsDataImage, Allowed, Text.Blank, SameAttributes;
    if t.Open? {
      hide Rebuilt;
      CanonicalRebuilt(images, st, t.tag, e.attrs, t.attrs);
    }
  }

  lemma CountGrows(images: Images, c: Totals, t: Token)
    requires CountStep(images, c, t).Some? && WithinBudgets(CountStep(images, c, t).value)
    ensures WithinBudgets(c)
  {
  }

  lemma NestedPrefix(parts: seq<Token>)
    requires NestedWithin(parts) && parts != []
    ensures NestedWithin(parts[..|parts| - 1])
    ensures Nesting(parts).Some? && |Nesting(parts).value| <= MAX_DEPTH
    ensures Nesting(parts[..|parts| - 1]).Some? && |Nesting(parts[..|parts| - 1]).value| <= MAX_DEPTH
    ensures NestStep(Nesting(parts[..|parts| - 1]).value, parts[|parts| - 1]) == Nesting(parts)
  {
    hide NestStep;
    var init := parts[..|parts| - 1];
    assert parts[..|parts|] == parts && init[..|init|] == init;
    forall n | 0 <= n <= |init| ensures init[..n] == parts[..n] {
    }
  }

  lemma NormalPrefix(images: Images, parts: seq<Token>)
    requires NormalParts(images, parts) && parts != []
    ensures NormalParts(images, parts[..|parts| - 1])
  {
    hide CanonicalToken, NestedWithin, CountStep, WithinBudgets;
    NestedPrefix(parts);
    CountGrows(images, Count(images, parts[..|parts| - 1]).value, parts[|parts| - 1]);
  }

  // Events that stand for the pieces of a normal form are let through, and give these pieces.
  lemma {:induction false} Replay(images: Images, events: seq<Event>, parts: seq<Token>)
    requires NormalParts(images, parts) && AllBecome(Visible(events), parts)
    ensures Feed(EMPTY, images, events).Some? && Feed(EMPTY, images, events).value.parts == parts
  {
    hide CanonicalToken, NestStep, CountStep, On, Becomes, NestedWithin, WithinBudgets, TotalsOf;
    if events != [] {
      var before, e := events[..|events| - 1], events[|events| - 1];
      if e == Data("") {
        Replay(images, before, parts);
        NothingSaid(images, Feed(EMPTY, images, before).value);
      } else {
        var init, t := parts[..|parts| - 1], parts[|parts| - 1];
        LastBecomes(events, parts);
        NormalPrefix(images, parts);
        NestedPrefix(parts);
        Replay(images, before, init);
        FeedFaithful(images, before);
        assert init + [t] == parts;
        PieceAccepted(images, Feed(EMPTY, images, before).value, e, t);
      }
    }
  }

  lemma NothingSaid(images: Images, st: State)
    ensures On(st, images, Data("")) == Some(st)
  {
  }

  lemma LastBecomes(events: seq<Event>, parts: seq<Token>)
    requires events != [] && events[|events| - 1] != Data("") && AllBecome(Visible(events), parts)
    ensures parts != [] && Becomes(events[|events| - 1], parts[|parts| - 1])
    ensures AllBecome(Visible(events[..|events| - 1]), parts[..|parts| - 1])
  {
    hide Becomes;
    var init, e := Visible(events[..|events| - 1]), events[|events| - 1];
    assert Visible(events) == init + [e];
    forall i | 0 <= i < |init| ensures Becomes(init[i], parts[i]) {
      assert init[i] == Visible(events)[i];
    }
  }

  lemma RebuiltSame(images: Images, st: State, tag: string, attrs: seq<Attribute>)
    requires Rebuilt(st, images, tag, attrs).Some?
    ensures SameAttributes(attrs, Rebuilt(st, images, tag, attrs).value)
  {
    hide IsTopic, IsDataImage, FitsBudget;
    var fixed := Rebuilt(st, images, tag, attrs).value;
    KeysCounted(attrs);
    RebuiltKeys(images, st, tag, attrs);
    hide Rebuilt, DistinctKeys, Keys, Lookup;
    forall x | x in attrs ensures x in AsAttributes(fixed) {
      KeyIn(attrs, x);
      LookupOf(attrs, x.0, x.1);
      var i :| 0 <= i < |fixed| && fixed[i].0 == x.0;
      assert AsAttributes(fixed)[i] == x;
    }
    forall x | x in AsAttributes(fixed) ensures x in attrs {
      var i :| 0 <= i < |fixed| && AsAttributes(fixed)[i] == x;
      LookupFinds(attrs, fixed[i].0);
    }
  }

  lemma KeyIn(attrs: seq<Attribute>, x: Attribute)
    requires x in attrs
    ensures x.0 in Keys(attrs)
  {
    var i :| 0 <= i < |attrs| && attrs[i] == x;
    assert attrs[i].0 in Keys(attrs);
  }

  lemma RebuiltKeys(images: Images, st: State, tag: string, attrs: seq<Attribute>)
    requires Rebuilt(st, images, tag, attrs).Some?
    ensures |Keys(attrs)| == |attrs|
    ensures var fixed := Rebuilt(st, images, tag, attrs).value;
      && (forall key :: key in Keys(attrs) <==> exists i :: 0 <= i < |fixed| && fixed[i].0 == key)
      && (forall i :: 0 <= i < |fixed| ==> Lookup(attrs, fixed[i].0) == Some(fixed[i].1))
  {
    hide IsTopic, IsDataImage, FitsBudget, Lookup;
    var fixed := Rebuilt(st, images, tag, attrs).value;
    if fixed == [] {
      assert Keys(attrs) == {};
    } else {
      hide Keys;
      assert fixed[0].0 in Keys(attrs);
      assert |fixed| > 1 ==> fixed[1].0 in Keys(attrs);
      assert |fixed| > 2 ==> fixed[2].0 in Keys(attrs);
    }
  }

  lemma OnBecomes(images: Images, st: State, e: Event) returns (t: Token)
    requires On(st, images, e).Some? && e != Data("")
    ensures On(st, images, e).value.parts == st.parts + [t] && Becomes(e, t)
  {
    hide Rebuilt, Allowed, SameAttributes, Text.Blank;
    match e {
      case Start(tag, attrs) =>
        RebuiltSame(images, st, tag, attrs);
        t := Open(tag, Rebuilt(st, images, tag, attrs).value);
      case SelfClosing(tag, attrs) =>
        RebuiltSame(images, st, tag, attrs);
        t := Open(tag, Rebuilt(st, images, tag, attrs).value);
      case End(tag) => t := Close(tag);
      case Data(text) => t := Text(text);
    }
  }

  lemma {:induction false} FeedBecomes(images: Images, events: seq<Event>)
    requires Feed(EMPTY, images, events).Some?
    ensures AllBecome(Visible(events), Feed(EMPTY, images, events).value.parts)
  {
    hide On, Becomes;
    if events != [] {
      var before, e := events[..|events| - 1], events[|events| - 1];
      FeedBecomes(images, before);
      if e == Data("") {
        NothingSaid(images, Feed(EMPTY, images, before).value);
      } else {
        var t := OnBecomes(images, Feed(EMPTY, images, before).value, e);
      }
    }
  }

  // The boundary lets through exactly the events that stand for the pieces of a normal form, and
  // these are the pieces it rebuilds.
  lemma AcceptsExactlyNormalForms(images: Images, events: seq<Event>)
    ensures Accepted(images, events).Some? <==>
      exists parts :: NormalForm(images, parts) && AllBecome(Visible(events), parts)
    ensures forall parts :: NormalForm(images, parts) && AllBecome(Visible(events), parts) ==>
              Accepted(images, events).Some? && Accepted(images, events).value.parts == parts
  {
    hide Accepted, NormalForm, AllBecome;
    if Accepted(images, events).Some? {
      AcceptedIsNormal(images, events);
    }
    forall parts | NormalForm(images, parts) && AllBecome(Visible(events), parts)
      ensures Accepted(images, events).Some? && Accepted(images, events).value.parts == parts
    {
      NormalIsAccepted(images, events, parts);
    }
  }

  lemma AcceptedIsNormal(images: Images, events: seq<Event>)
    requires Accepted(images, events).Some?
    ensures NormalForm(images, Accepted(images, events).value.parts)
    ensures AllBecome(Visible(events), Accepted(images, events).value.parts)
  {
    FeedFaithful(images, events);
    FeedBecomes(images, events);
    hide Render, Utf8Length, Feed, AllBecome;
  }

  lemma NormalIsAccepted(images: Images, events: seq<Event>, parts: seq<Token>)
    requires NormalForm(images, parts) && AllBecome(Visible(events), parts)
    ensures Accepted(images, events).Some? && Accepted(images, events).value.parts == parts
  {
    hide NormalParts, Render, Utf8Length, Feed, AllBecome;
    Replay(images, events, parts);
    FeedFaithful(images, events);
  }

  lemma {:induction false} OwnEvents(parts: seq<Token>)
    requires forall i :: 0 <= i < |parts| ==> parts[i] != Text("")
    requires forall i :: 0 <= i < |parts| ==> Becomes(AsEvent(parts[i]), parts[i])
    ensures AllBecome(Visible(AsEvents(parts)), parts)
    ensures Visible(AsEvents(parts)) == AsEvents(parts)
  {
    hide Becomes;
    if parts != [] {
      var init := parts[..|parts| - 1];
      assert AsEvents(parts)[..|parts| - 1] == AsEvents(init);
      OwnEvents(init);
      assert AsEvents(parts) == AsEvents(init) + [AsEvent(parts[|parts| - 1])];
    }
  }

  lemma OwnPiece(images: Images, t: Token)
    requires CanonicalToken(images, t)
    ensures t != Text("") && Becomes(AsEvent(t), t)
  {
    hide Allowed, IsTopic, IsDataImage;
    if t.Open? {
      assert |t.attrs| == 2 ==> |t.attrs[0].0| != |t.attrs[1].0|;
      assert |t.attrs| == 3 ==> |t.attrs[0].0| != |t.attrs[1].0| && t.attrs[1].0[0] != t.attrs[2].0[0];
      assert |t.attrs| == 3 ==> |t.attrs[0].0| != |t.attrs[2].0|;
    }
  }

  // Fed its own pieces the checker rebuilds exactly those pieces.
  lemma OwnPiecesReplayed(images: Images, parts: seq<Token>)
    requires NormalForm(images, parts)
    ensures Accepted(images, AsEvents(parts)).Some? && Accepted(images, AsEvents(parts)).value.parts == parts
  {
    hide CanonicalToken, Becomes;
    forall i | 0 <= i < |parts| ensures parts[i] != Text("") && Becomes(AsEvent(parts[i]), parts[i]) {
      OwnPiece(images, parts[i]);
    }
    OwnEvents(parts);
    NormalIsAccepted(images, AsEvents(parts), parts);
    hide NormalForm, AllBecome, Accepted, AsEvents, AsEvent, Visible;
  }

  // ---- how the parser cuts text into chunks does not matter

  lemma {:induction false} EscapeJoins(a: string, b: string)
    ensures Escape(a + b) == Escape(a) + Escape(b)
  {
    if a == "" {
      assert a + b == b;
    } else {
      assert (a + b)[1..] == a[1..] + b;
      EscapeJoins(a[1..], b);
    }
  }

  lemma RenderMore(parts: seq<Token>, t: Token)
    ensures Render(parts + [t]) == Render(parts) + RenderToken(t)
  {
    assert (parts + [t])[..|parts + [t]| - 1] == parts;
  }

  // The states differ at most in how their text is cut.
  ghost predicate Same(a: Option<State>, b: Option<State>) {
    || (a.None? && b.None?)
    || (a.Some? && b.Some? && Render(a.value.parts) == Render(b.value.parts)
        && a.value.(parts := []) == b.value.(parts := []))
  }

  function FeedOne(images: Images, st: Option<State>, e: Event): Option<State> {
    if st.None? then None else On(st.value, images, e)
  }

  lemma SameAfter(images: Images, a: Option<State>, b: Option<State>, e: Event)
    requires Same(a, b)
    ensures Same(FeedOne(images, a, e), FeedOne(images, b, e))
  {
    hide Rebuilt, Allowed, Text.Blank, Render, RenderToken;
    if a.Some? {
      RebuiltIgnoresParts(images, a.value, b.value);
      match e {
        case Start(tag, attrs) => StartSame(images, a.value, b.value, tag, attrs);
        case SelfClosing(tag, attrs) => StartSame(images, a.value, b.value, tag, attrs);
        case End(tag) =>
          RenderMore(a.value.parts, Close(tag));
          RenderMore(b.value.parts, Close(tag));
        case Data(text) =>
          RenderMore(a.value.parts, Text(text));
          RenderMore(b.value.parts, Text(text));
        case Prohibited =>
      }
    }
  }

  lemma RebuiltIgnoresParts(images: Images, a: State, b: State)
    requires a.(parts := []) == b.(parts := [])
    ensures forall tag, attrs :: Rebuilt(a, images, tag, attrs) == Rebuilt(b, images, tag, attrs)
  {
  }

  lemma StartSame(images: Images, a: State, b: State, tag: string, attrs: seq<Attribute>)
    requires Same(Some(a), Some(b))
    ensures Same(OnStart(a, images, tag, attrs), OnStart(b, images, tag, attrs))
  {
    hide Rebuilt, Allowed, Render, RenderToken;
    RebuiltIgnoresParts(images, a, b);
    var rebuilt := Rebuilt(a, images, tag, attrs);
    if rebuilt.Some? {
      RenderMore(a.parts, Open(tag, rebuilt.value));
      RenderMore(b.parts, Open(tag, rebuilt.value));
    }
  }

  // One chunk of text or the two halves of it.
  lemma TwoChunks(images: Images, st: Option<State>, x: string, y: string)
    ensures Same(FeedOne(images, st, Data(x + y)), FeedOne(images, FeedOne(images, st, Data(x)), Data(y)))
  {
    hide Text.Blank, Render, Escape;
    if st.Some? {
      if x == "" {
        assert x + y == y;
      } else if y == "" {
        assert x + y == x;
      } else {
        BlankJoin(x, y);
        ChunksRender(st.value.parts, x, y);
      }
    }
  }

  lemma ChunksRender(parts: seq<Token>, x: string, y: string)
    ensures Render(parts + [Text(x + y)]) == Render(parts + [Text(x)] + [Text(y)])
  {
    hide Render, Escape;
    EscapeJoins(x, y);
    RenderMore(parts, Text(x + y));
    RenderMore(parts, Text(x));
    RenderMore(parts + [Text(x)], Text(y));
    assert Render(parts) + (Escape(x) + Escape(y)) == Render(parts) + Escape(x) + Escape(y);
  }

  lemma BlankJoin(x: string, y: string)
    ensures Text.Blank(x + y) <==> Text.Blank(x) && Text.Blank(y)
  {
    hide Text.IsSpace;
    if Text.Blank(x + y) {
      assert forall i :: 0 <= i < |x| ==> x[i] == (x + y)[i];
      assert forall i :: 0 <= i < |y| ==> y[i] == (x + y)[|x| + i];
    }
  }

  // One more event after joined ones.
  function JoinLast(m: seq<Event>, e: Event): seq<Event> {
    if e.Data? && m != [] && m[|m| - 1].Data? then m[..|m| - 1] + [Data(m[|m| - 1].text + e.text)] else m + [e]
  }

  // Adjacent text events joined into one, as a parser reports the text between two tags.
  function Merge(events: seq<Event>): seq<Event> {
    if events == [] then [] else JoinLast(Merge(events[..|events| - 1]), events[|events| - 1])
  }

  lemma FeedLast(images: Images, events: seq<Event>, e: Event)
    ensures Feed(EMPTY, images, events + [e]) == FeedOne(images, Feed(EMPTY, images, events), e)
  {
    assert (events + [e])[..|events + [e]| - 1] == events;
  }

  lemma {:induction false} MergeSame(images: Images, events: seq<Event>)
    ensures Same(Feed(EMPTY, images, Merge(events)), Feed(EMPTY, images, events))
  {
    hide On, Render;
    if events != [] {
      var init, e := events[..|events| - 1], events[|events| - 1];
      var m := Merge(init);
      MergeSame(images, init);
      assert events == init + [e];
      FeedLast(images, init, e);
      SameAfter(images, Feed(EMPTY, images, m), Feed(EMPTY, images, init), e);
      if e.Data? && m != [] && m[|m| - 1].Data? {
        var front, x := m[..|m| - 1], m[|m| - 1].text;
        assert m == front + [Data(x)];
        FeedLast(images, front, Data(x));
        FeedLast(images, front, Data(x + e.text));
        TwoChunks(images, Feed(EMPTY, images, front), x, e.text);
      } else {
        FeedLast(images, m, e);
      }
    }
  }

  lemma OwnPiecesAccepted(images: Images, events: seq<Event>)
    requires Validate(images, events).Some?
    ensures Validate(images, Merge(AsEvents(Accepted(images, events).value.parts))) == Validate(images, events)
  {
    var parts := Accepted(images, events).value.parts;
    AcceptedIsNormal(images, events);
    OwnPiecesReplayed(images, parts);
    MergeSame(images, AsEvents(parts));
    hide Feed, Render, Utf8Length, NormalForm;
  }
}
