/** The archive of a document's embedded images: the producer that writes its members and the
    stager that checks them and unpacks them into a directory. */
module EmbeddedImages {
  import opened ImageFormats
  import opened Options

  const MAX_SOURCE_PAGES := 200
  const MAX_IMAGES := 80
  const MAX_IMAGE_BYTES := 64 * 1024 * 1024
  const MAX_ARCHIVE_BYTES := 64 * 1024 * 1024

  // The bytes of an image: their number, and the format an image library verifies them as with
  // an acceptable pixel count, if any.
  datatype Blob = Blob(size: nat, verified: Option<Format>)

  predicate ValidImage(blob: Blob, format: Format) {
    50 <= blob.size <= MAX_IMAGE_BYTES && blob.verified == Some(format)
  }

  // page-NNNN-image-NNNN.png or .jpg
  datatype MemberName = MemberName(page: nat, index: nat, format: Format)

  // A member as an archive lists it; a name of another form is None.
  datatype Member = Member(name: Option<MemberName>, plain: bool, declared: nat, blob: Blob)

  // One image object of a page, with the format its file suffix names.
  datatype Source = Source(suffix: Option<Format>, blob: Blob)

  // A stored ZIP entry: 30 bytes of local header, 46 of central directory, and its name in both.
  const NAME_BYTES := 24

  function LocalSize(members: seq<Member>): nat {
    if members == [] then 0
    else LocalSize(members[..|members| - 1]) + 30 + NAME_BYTES + members[|members| - 1].blob.size
  }

  function ArchiveSize(members: seq<Member>): nat {
    LocalSize(members) + |members| * (46 + NAME_BYTES) + 22
  }

  function TotalBytes(members: seq<Member>): nat {
    if members == [] then 0 else TotalBytes(members[..|members| - 1]) + members[|members| - 1].blob.size
  }

  // ---- the producer

  function MemberOf(page: nat, index: nat, format: Format, blob: Blob): Member {
    Member(Some(MemberName(page, index, format)), true, blob.size, blob)
  }

  function PageMembers(page: nat, images: seq<Source>): seq<Member> {
    seq(|images|, i requires 0 <= i < |images| =>
      MemberOf(page, i + 1, if images[i].suffix.Some? then images[i].suffix.value else Png, images[i].blob))
  }

  // The members of the first n pages in order, pages and images numbered from 1.
  function Inventory(pages: seq<seq<Source>>, n: nat): seq<Member>
    requires n <= |pages|
  {
    if n == 0 then [] else Inventory(pages, n - 1) + PageMembers(n, pages[n - 1])
  }

  predicate GoodSource(s: Source) {
    s.suffix.Some? && ValidImage(s.blob, s.suffix.value)
  }

  ghost predicate Extractable(pages: seq<seq<Source>>) {
    var members := Inventory(pages, |pages|);
    && 1 <= |pages| <= MAX_SOURCE_PAGES
    && (forall p, i :: 0 <= p < |pages| && 0 <= i < |pages[p]| ==> GoodSource(pages[p][i]))
    && 1 <= |members| <= MAX_IMAGES
    && TotalBytes(members) <= MAX_IMAGE_BYTES && ArchiveSize(members) <= MAX_ARCHIVE_BYTES
  }

  // ---- the stager

  datatype Staged = Staged(name: MemberName, blob: Blob, ordinal: nat)

  // The member may follow one numbered (lastPage, lastIndex).
  predicate Follows(lastPage: nat, lastIndex: nat, m: MemberName) {
    if m.page == lastPage then m.index == lastIndex + 1 else m.page > lastPage && m.index == 1
  }

  function LastName(members: seq<Member>): (nat, nat) {
    if members == [] || members[|members| - 1].name.None? then (0, 0)
    else (members[|members| - 1].name.value.page, members[|members| - 1].name.value.index)
  }

  // The checks on the next member after the ones already staged.
  predicate Acceptable(before: seq<Member>, m: Member, maxBytes: nat) {
    && m.name.Some? && m.plain && 1 <= m.name.value.page <= MAX_SOURCE_PAGES
    && Follows(LastName(before).0, LastName(before).1, m.name.value)
    && 50 <= m.declared && TotalBytes(before) + m.declared <= maxBytes
    && TotalBytes(before) + m.blob.size <= maxBytes
    && ValidImage(m.blob, m.name.value.format)
  }

  ghost predicate AllAcceptable(members: seq<Member>, maxBytes: nat) {
    forall i :: 0 <= i < |members| ==> Acceptable(members[..i], members[i], maxBytes)
  }

  function StagedParts(members: seq<Member>): (parts: seq<Staged>)
    requires forall i :: 0 <= i < |members| ==> members[i].name.Some?
    ensures |parts| == |members|
  {
    seq(|members|, i requires 0 <= i < |members| => Staged(members[i].name.value, members[i].blob, i + 1))
  }

  ghost predicate Stageable(members: seq<Member>, archiveSize: nat, maxBytes: nat) {
    && 50 <= archiveSize <= MAX_ARCHIVE_BYTES && 1 <= maxBytes <= MAX_IMAGE_BYTES
    && 1 <= |members| <= MAX_IMAGES && AllAcceptable(members, maxBytes)
  }

  // ---- the order check, said by pages

  // Consecutive members of one page, numbered 1..count.
  datatype PageGroup = PageGroup(page: nat, count: nat)

  function Numbers(groups: seq<PageGroup>): seq<(nat, nat)> {
    if groups == [] then []
    else
      var g := groups[|groups| - 1];
      Numbers(groups[..|groups| - 1]) + seq(g.count, i => (g.page, i + 1))
  }

  predicate Rising(groups: seq<PageGroup>) {
    && (forall i :: 0 <= i < |groups| ==> groups[i].page >= 1 && groups[i].count >= 1)
    && (forall i, k :: 0 <= i < k < |groups| ==> groups[i].page < groups[k].page)
  }

  function Previous(numbers: seq<(nat, nat)>, i: nat): (nat, nat)
    requires i <= |numbers|
  {
    if i == 0 then (0, 0) else numbers[i - 1]
  }

  predicate OrderedAt(numbers: seq<(nat, nat)>, i: nat)
    requires i < |numbers|
  {
    var last, m := Previous(numbers, i), numbers[i];
    m.0 >= 1 && (if m.0 == last.0 then m.1 == last.1 + 1 else m.0 > last.0 && m.1 == 1)
  }

  ghost predicate Ordered(numbers: seq<(nat, nat)>) {
    forall i :: 0 <= i < |numbers| ==> OrderedAt(numbers, i)
  }

  lemma OrderedPrefix(numbers: seq<(nat, nat)>)
    requires numbers != []
    ensures Ordered(numbers) <==> Ordered(numbers[..|numbers| - 1]) && OrderedAt(numbers, |numbers| - 1)
  {
    var init := numbers[..|numbers| - 1];
    assert forall i :: 0 <= i < |init| ==> OrderedAt(init, i) == OrderedAt(numbers, i);
  }

  // A member sequence passes the order check exactly when it lists strictly increasing pages, each
  // numbered 1..k.
  lemma {:induction false} OrderMeansPages(numbers: seq<(nat, nat)>)
    ensures Ordered(numbers) <==> exists groups :: Rising(groups) && Numbers(groups) == numbers
  {
    if Ordered(numbers) {
      var groups := GroupsOf(numbers);
      assert Rising(groups) && Numbers(groups) == numbers;
    }
    forall groups | Rising(groups) && Numbers(groups) == numbers ensures Ordered(numbers) {
      RisingIsOrdered(groups);
    }
  }

  lemma {:induction false} GroupsOf(numbers: seq<(nat, nat)>) returns (groups: seq<PageGroup>)
    requires Ordered(numbers)
    ensures Rising(groups) && Numbers(groups) == numbers
    ensures numbers != [] ==>
              groups != [] && numbers[|numbers| - 1] == (groups[|groups| - 1].page, groups[|groups| - 1].count)
    decreases |numbers|
  {
    hide Ordered, OrderedAt, Rising, Numbers;
    if numbers == [] {
      groups := [];
      NoGroups();
    } else {
      var init, last := numbers[..|numbers| - 1], numbers[|numbers| - 1];
      OrderedPrefix(numbers);
      NextNumber(numbers);
      var before := GroupsOf(init);
      groups := NextGroups(init, last, before);
      assert init + [last] == numbers;
    }
  }

  lemma NoGroups()
    ensures Rising([]) && Numbers([]) == []
  {
  }

  // A member in order continues the last page or begins a later one.
  lemma NextNumber(numbers: seq<(nat, nat)>)
    requires numbers != [] && OrderedAt(numbers, |numbers| - 1)
    ensures var n := |numbers| - 1;
      if n > 0 && numbers[n].0 == numbers[n - 1].0 then numbers[n].1 == numbers[n - 1].1 + 1
      else numbers[n].0 >= 1 && numbers[n].1 == 1 && (n > 0 ==> numbers[n].0 > numbers[n - 1].0)
  {
  }

  lemma NextGroups(init: seq<(nat, nat)>, last: (nat, nat), before: seq<PageGroup>) returns (groups: seq<PageGroup>)
    requires Rising(before) && Numbers(before) == init
    requires init != [] ==>
               before != [] && init[|init| - 1] == (before[|before| - 1].page, before[|before| - 1].count)
    requires if init != [] && last.0 == init[|init| - 1].0 then last.1 == init[|init| - 1].1 + 1
             else last.0 >= 1 && last.1 == 1 && (init != [] ==> last.0 > init[|init| - 1].0)
    ensures Rising(groups) && Numbers(groups) == init + [last]
    ensures groups != [] && last == (groups[|groups| - 1].page, groups[|groups| - 1].count)
  {
    assert last == (last.0, last.1);
    if init != [] && last.0 == init[|init| - 1].0 {
      hide Rising, Numbers;
      groups := Lengthened(before);
    } else {
      if init == [] {
        NumbersOfSome(before);
      }
      hide Rising, Numbers;
      groups := Begun(before, last.0);
    }
  }

  lemma NumbersOfSome(groups: seq<PageGroup>)
    requires Rising(groups) && Numbers(groups) == []
    ensures groups == []
  {
  }

  // One more member of the last page.
  lemma Lengthened(before: seq<PageGroup>) returns (groups: seq<PageGroup>)
    requires before != []
    ensures groups != [] && groups[|groups| - 1] == PageGroup(before[|before| - 1].page, before[|before| - 1].count + 1)
    ensures Rising(before) ==> Rising(groups)
    ensures Numbers(groups) == Numbers(before) + [(before[|before| - 1].page, before[|before| - 1].count + 1)]
  {
    var front, g := before[..|before| - 1], before[|before| - 1];
    groups := front + [PageGroup(g.page, g.count + 1)];
    assert groups[..|groups| - 1] == front;
    assert seq(g.count + 1, i => (g.page, i + 1)) == seq(g.count, i => (g.page, i + 1)) + [(g.page, g.count + 1)];
  }

  // The first member of a later page.
  lemma Begun(before: seq<PageGroup>, page: nat) returns (groups: seq<PageGroup>)
    ensures groups != [] && groups[|groups| - 1] == PageGroup(page, 1)
    ensures Rising(before) && page >= 1 && (before != [] ==> before[|before| - 1].page < page) ==> Rising(groups)
    ensures Numbers(groups) == Numbers(before) + [(page, 1)]
  {
    groups := before + [PageGroup(page, 1)];
    assert groups[..|groups| - 1] == before;
    assert seq(1, i => (page, i + 1)) == [(page, 1)];
    if Rising(before) && page >= 1 && (before != [] ==> before[|before| - 1].page < page) {
      RisingEnd(before, page);
    }
  }

  lemma RisingEnd(groups: seq<PageGroup>, page: nat)
    requires Rising(groups) && page >= 1 && (groups != [] ==> groups[|groups| - 1].page < page)
    ensures Rising(groups + [PageGroup(page, 1)])
  {
    forall i | 0 <= i < |groups| ensures groups[i].page < page {
      assert i < |groups| - 1 ==> groups[i].page < groups[|groups| - 1].page;
    }
  }

  lemma {:induction false} RisingIsOrdered(groups: seq<PageGroup>)
    requires Rising(groups)
    ensures Ordered(Numbers(groups))
    ensures groups != [] ==> |Numbers(groups)| > 0
    ensures groups != [] ==>
              Previous(Numbers(groups), |Numbers(groups)|) == (groups[|groups| - 1].page, groups[|groups| - 1].count)
    decreases |groups|
  {
    if groups != [] {
      var front, g := groups[..|groups| - 1], groups[|groups| - 1];
      RisingIsOrdered(front);
      var before, numbers := Numbers(front), Numbers(groups);
      forall i | 0 <= i < |numbers| ensures OrderedAt(numbers, i) {
        if i >= |before| {
          assert numbers[i] == (g.page, i - |before| + 1);
        } else {
          assert OrderedAt(before, i);
        }
      }
    }
  }
}
