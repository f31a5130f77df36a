/** The loops of the image producer and of the stager, and their agreement. */
module ImageArchive {
  import opened Options
  import opened Arithmetic
  import opened EmbeddedImages
  import opened ImageFormats

  // ---- sizes along a prefix

  lemma {:induction false} SizesGrow(members: seq<Member>, n: nat)
    requires n <= |members|
    ensures TotalBytes(members[..n]) <= TotalBytes(members) && LocalSize(members[..n]) <= LocalSize(members)
    decreases |members|
  {
    if n == |members| {
      assert members[..n] == members;
    } else {
      assert members[..|members| - 1][..n] == members[..n];
      SizesGrow(members[..|members| - 1], n);
    }
  }

  lemma OneMoreMember(members: seq<Member>, m: Member)
    ensures TotalBytes(members + [m]) == TotalBytes(members) + m.blob.size
    ensures LocalSize(members + [m]) == LocalSize(members) + 30 + NAME_BYTES + m.blob.size
  {
    assert (members + [m])[..|members|] == members;
  }

  lemma {:induction false} InventoryGrows(pages: seq<seq<Source>>, n: nat, k: nat)
    requires n <= k <= |pages|
    ensures Inventory(pages, n) <= Inventory(pages, k)
    decreases k
  {
    if n < k {
      InventoryGrows(pages, n, k - 1);
    }
  }

  // What the producer has written before image i of page p.
  function Written(pages: seq<seq<Source>>, p: nat, i: nat): seq<Member>
    requires p < |pages| && i <= |pages[p]|
  {
    Inventory(pages, p) + PageMembers(p + 1, pages[p])[..i]
  }

  lemma WrittenIsPrefix(pages: seq<seq<Source>>, p: nat, i: nat)
    requires p < |pages| && i <= |pages[p]|
    ensures Written(pages, p, i) <= Inventory(pages, |pages|)
  {
    var page := PageMembers(p + 1, pages[p]);
    assert Inventory(pages, p + 1) == Inventory(pages, p) + page;
    assert Written(pages, p, i) == Inventory(pages, p + 1)[..|Inventory(pages, p)| + i];
    InventoryGrows(pages, p + 1, |pages|);
  }

  // A prefix that breaks a budget rules the whole document out.
  lemma PrefixFails(pages: seq<seq<Source>>, written: seq<Member>)
    requires written <= Inventory(pages, |pages|)
    requires |written| > MAX_IMAGES || TotalBytes(written) > MAX_IMAGE_BYTES || LocalSize(written) > MAX_ARCHIVE_BYTES
    ensures !Extractable(pages)
  {
    var all := Inventory(pages, |pages|);
    assert written == all[..|written|];
    SizesGrow(all, |written|);
  }

  // The archive is completed exactly when every image is acceptable and all budgets hold, and then
  // lists every image once, in page and image order.
  method Extract(pages: seq<seq<Source>>) returns (archive: Option<seq<Member>>)
    ensures archive.Some? <==> Extractable(pages)
    ensures archive.Some? ==> archive.value == Inventory(pages, |pages|)
  {
    if !(1 <= |pages| <= MAX_SOURCE_PAGES) {
      return None;
    }
    var members: seq<Member> := [];
    for p := 0 to |pages|
      invariant members == Inventory(pages, p)
      invariant |members| <= MAX_IMAGES && TotalBytes(members) <= MAX_IMAGE_BYTES
      invariant LocalSize(members) <= MAX_ARCHIVE_BYTES
      invariant forall q, i :: 0 <= q < p && 0 <= i < |pages[q]| ==> GoodSource(pages[q][i])
    {
      var page := ExtractPage(pages, p, members);
      if page.None? {
        return None;
      }
      members := page.value;
    }
    if |members| == 0 {
      return None;
    }
    if !(50 <= ArchiveSize(members) <= MAX_ARCHIVE_BYTES) {
      return None;
    }
    archive := Some(members);
  }

  method ExtractPage(pages: seq<seq<Source>>, p: nat, before: seq<Member>) returns (after: Option<seq<Member>>)
    requires p < |pages| && before == Inventory(pages, p)
    requires |before| <= MAX_IMAGES && TotalBytes(before) <= MAX_IMAGE_BYTES && LocalSize(before) <= MAX_ARCHIVE_BYTES
    ensures after.None? ==> !Extractable(pages)
    ensures after.Some? ==> after.value == Inventory(pages, p + 1) && |after.value| <= MAX_IMAGES
                            && TotalBytes(after.value) <= MAX_IMAGE_BYTES && LocalSize(after.value) <= MAX_ARCHIVE_BYTES
    ensures after.Some? ==> forall i :: 0 <= i < |pages[p]| ==> GoodSource(pages[p][i])
  {
    hide Inventory, TotalBytes, LocalSize;
    var members, combined, size := before, TotalBytes(before), LocalSize(before);
    var images := pages[p];
    assert members == Written(pages, p, 0);
    for i := 0 to |images|
      invariant members == Written(pages, p, i) && combined == TotalBytes(members) && size == LocalSize(members)
      invariant |members| <= MAX_IMAGES && combined <= MAX_IMAGE_BYTES && size <= MAX_ARCHIVE_BYTES
      invariant forall k :: 0 <= k < i ==> GoodSource(images[k])
    {
      var source := images[i];
      if source.suffix.None? || !ValidImage(source.blob, source.suffix.value) {
        BadSource(pages, p, i);
        return None;
      }
      var m := MemberOf(p + 1, i + 1, source.suffix.value, source.blob);
      WrittenIsPrefix(pages, p, i + 1);
      assert Written(pages, p, i + 1) == members + [m];
      OneMoreMember(members, m);
      if |members| + 1 > MAX_IMAGES || source.blob.size > MAX_IMAGE_BYTES - combined
         || size + 30 + NAME_BYTES + source.blob.size > MAX_ARCHIVE_BYTES {
        PrefixFails(pages, members + [m]);
        return None;
      }
      members, combined := members + [m], combined + source.blob.size;
      size := size + 30 + NAME_BYTES + source.blob.size;
    }
    PageWritten(pages, p);
    after := Some(members);
  }

  lemma PageWritten(pages: seq<seq<Source>>, p: nat)
    requires p < |pages|
    ensures Written(pages, p, |pages[p]|) == Inventory(pages, p + 1)
  {
    assert PageMembers(p + 1, pages[p])[..|pages[p]|] == PageMembers(p + 1, pages[p]);
  }

  lemma BadSource(pages: seq<seq<Source>>, p: nat, i: nat)
    requires p < |pages| && i < |pages[p]| && !GoodSource(pages[p][i])
    ensures !Extractable(pages)
  {
    hide Inventory, TotalBytes, ArchiveSize;
  }

  // ---- the stager

  // The first bytes of a stream; only the whole of it can be an image.
  function Part(blob: Blob, read: nat): Blob
    requires read <= blob.size
  {
    if read == blob.size then blob else Blob(read, None)
  }

  class StagingDirectory {
    // Files on disk, and how many bytes were ever written to the directory.
    var files: map<MemberName, Blob>
    var written: nat

    constructor (files: map<MemberName, Blob>)
      ensures this.files == files && written == 0
    {
      this.files, written := files, 0;
    }

    // The copy of one stream, at most `maxBytes - total` bytes of it.
    method Copy(name: MemberName, blob: Blob, total: nat, maxBytes: nat) returns (ok: bool)
      requires total <= maxBytes && name !in files
      modifies this
      ensures ok <==> total + blob.size <= maxBytes
      ensures ok ==> files == old(files)[name := blob] && written == old(written) + blob.size
      ensures written <= old(written) + (maxBytes - total)
    {
      var read := 0;
      files := files[name := Part(blob, 0)];
      while read < blob.size
        invariant read <= blob.size && total + read <= maxBytes
        invariant files == old(files)[name := Part(blob, read)] && written == old(written) + read
        decreases blob.size - read
      {
        var chunk := Min(blob.size - read, Min(CHUNK, maxBytes - (total + read) + 1));
        if total + read + chunk > maxBytes {
          return false;
        }
        read := read + chunk;
        files := files[name := Part(blob, read)];
        written := written + chunk;
      }
      ok := true;
    }

    // The checks on one member, its unpacking and the check of what was unpacked. `before` is what
    // the counters summarise.
    method StageOne(m: Member, total: nat, lastPage: nat, lastIndex: nat, maxBytes: nat, ghost before: seq<Member>)
      returns (ok: bool)
      requires total == TotalBytes(before) <= maxBytes && (lastPage, lastIndex) == LastName(before)
      requires NoneLater(files, lastPage, lastIndex)
      modifies this
      ensures ok <==> Acceptable(before, m, maxBytes)
      ensures ok ==> m.name.value !in old(files) && files == old(files)[m.name.value := m.blob]
                     && written == old(written) + m.blob.size
      ensures written <= old(written) + (maxBytes - total)
    {
      if m.name.None? || !m.plain {
        return false;
      }
      var name := m.name.value;
      if !(1 <= name.page <= MAX_SOURCE_PAGES) || !Follows(lastPage, lastIndex, name)
         || m.declared < 50 || m.declared > maxBytes - total {
        return false;
      }
      assert name !in files;
      ok := Copy(name, m.blob, total, maxBytes);
      if ok {
        ok := ValidImage(m.blob, name.format);
      }
    }

    method StageAll(members: seq<Member>, maxBytes: nat) returns (staged: Option<seq<Staged>>)
      requires files == map[]
      modifies this
      ensures staged.Some? <==> AllAcceptable(members, maxBytes)
      ensures staged.Some? ==>
                staged.value == StagedParts(members) && TotalBytes(members) <= maxBytes && HoldsExactly(files, members)
      ensures written <= old(written) + maxBytes && (staged.Some? ==> written == old(written) + TotalBytes(members))
    {
      hide TotalBytes, Acceptable, AllAcceptable;
      StartOf(members, maxBytes);
      var parts, total, lastPage, lastIndex := [], 0, 0, 0;
      for i := 0 to |members|
        invariant AllAcceptable(members[..i], maxBytes) && forall k :: 0 <= k < i ==> members[k].name.Some?
        invariant parts == StagedParts(members[..i])
        invariant total == TotalBytes(members[..i]) <= maxBytes && (lastPage, lastIndex) == LastName(members[..i])
        invariant HoldsExactly(files, members[..i]) && NoneLater(files, lastPage, lastIndex)
        invariant written == old(written) + total
      {
        AcceptableMore(members, i, maxBytes);
        var m := members[i];
        ghost var held := files;
        var ok := StageOne(m, total, lastPage, lastIndex, maxBytes, members[..i]);
        if !ok {
          return None;
        }
        AcceptableMeans(members[..i], m, maxBytes);
        HoldsOneMore(held, members, i);
        assert StagedParts(members[..i + 1]) == StagedParts(members[..i]) + [Staged(m.name.value, m.blob, i + 1)];
        lastPage, lastIndex, total := m.name.value.page, m.name.value.index, total + m.blob.size;
        parts := parts + [Staged(m.name.value, m.blob, i + 1)];
      }
      assert members[..|members|] == members;
      staged := Some(parts);
    }

    // Everything or nothing: a refusal leaves a directory that was empty empty again, and even then
    // no more than `maxBytes` bytes were written.
    method Stage(members: seq<Member>, archiveSize: nat, maxBytes: nat) returns (staged: Option<seq<Staged>>)
      modifies this
      ensures old(files) != map[] ==> staged.None? && files == old(files)
      ensures old(files) == map[] ==> (staged.Some? <==> Stageable(members, archiveSize, maxBytes))
      ensures old(files) == map[] && staged.None? ==> files == map[]
      ensures staged.Some? ==> Stageable(members, archiveSize, maxBytes) && staged.value == StagedParts(members)
                               && TotalBytes(members) <= maxBytes && HoldsExactly(files, members)
      ensures written <= old(written) + maxBytes && (staged.Some? ==> written == old(written) + TotalBytes(members))
    {
      hide TotalBytes, Acceptable, HoldsExactly;
      if !(50 <= archiveSize <= MAX_ARCHIVE_BYTES) || !(1 <= maxBytes <= MAX_IMAGE_BYTES) {
        return None;
      }
      if files != map[] {
        return None;
      }
      if !(1 <= |members| <= MAX_IMAGES) {
        return None;
      }
      staged := StageAll(members, maxBytes);
      if staged.None? {
        files := map[];
      }
    }
  }

  lemma StartOf(members: seq<Member>, maxBytes: nat)
    ensures members[..0] == [] && TotalBytes([]) == 0 && AllAcceptable([], maxBytes)
  {
  }

  lemma AcceptableMeans(before: seq<Member>, m: Member, maxBytes: nat)
    requires Acceptable(before, m, maxBytes)
    ensures m.name.Some? && TotalBytes(before + [m]) == TotalBytes(before) + m.blob.size <= maxBytes
    ensures LastName(before + [m]) == (m.name.value.page, m.name.value.index)
    ensures m.name.value.page > LastName(before).0
            || (m.name.value.page == LastName(before).0 && m.name.value.index > LastName(before).1)
  {
    OneMoreMember(before, m);
  }

  lemma HoldsOneMore(files: map<MemberName, Blob>, members: seq<Member>, i: nat)
    requires i < |members| && HoldsExactly(files, members[..i]) && members[i].name.Some?
    requires members[i].name.value !in files
    ensures HoldsExactly(files[members[i].name.value := members[i].blob], members[..i + 1])
  {
    var after, n := files[members[i].name.value := members[i].blob], members[..i + 1];
    forall name | name in after ensures exists k :: 0 <= k < |n| && n[k].name == Some(name) {
      if name == members[i].name.value {
        assert n[i].name == Some(name);
      } else {
        var k :| 0 <= k < |members[..i]| && members[..i][k].name == Some(name);
        assert n[k].name == Some(name);
      }
    }
    assert forall k :: 0 <= k < i ==> n[k] == members[..i][k];
  }

  // The directory holds each member's bytes under its name and nothing else.
  ghost predicate HoldsExactly(files: map<MemberName, Blob>, members: seq<Member>) {
    && (forall i :: 0 <= i < |members| ==>
          members[i].name.Some? && members[i].name.value in files && files[members[i].name.value] == members[i].blob)
    && (forall name :: name in files ==> exists i :: 0 <= i < |members| && members[i].name == Some(name))
  }

  // No staged name comes after the last one, so the next destination is always new.
  ghost predicate NoneLater(files: map<MemberName, Blob>, lastPage: nat, lastIndex: nat) {
    forall name :: name in files ==> name.page < lastPage || (name.page == lastPage && name.index <= lastIndex)
  }

  lemma AcceptableMore(members: seq<Member>, i: nat, maxBytes: nat)
    requires i < |members| && AllAcceptable(members[..i], maxBytes)
    ensures members[..i + 1] == members[..i] + [members[i]]
    ensures AllAcceptable(members[..i + 1], maxBytes) <==> Acceptable(members[..i], members[i], maxBytes)
    ensures AllAcceptable(members, maxBytes) ==> Acceptable(members[..i], members[i], maxBytes)
  {
    forall k | 0 <= k < i ensures members[..i + 1][..k] == members[..i][..k] {
    }
    assert members[..i + 1][..i] == members[..i];
    OneMoreMember(members[..i], members[i]);
  }

  // ---- agreement

  // The position after image i of page p.
  lemma LastWritten(pages: seq<seq<Source>>, p: nat, i: nat)
    requires p < |pages| && i <= |pages[p]|
    ensures i > 0 ==> LastName(Written(pages, p, i)) == (p + 1, i)
    ensures i == 0 ==> LastName(Written(pages, p, i)).0 <= p
  {
    if i > 0 {
      assert Written(pages, p, i)[|Written(pages, p, i)| - 1] == PageMembers(p + 1, pages[p])[i - 1];
    } else {
      assert Written(pages, p, 0) == Inventory(pages, p);
      LastInventory(pages, p);
    }
  }

  lemma {:induction false} LastInventory(pages: seq<seq<Source>>, n: nat)
    requires n <= |pages|
    ensures LastName(Inventory(pages, n)).0 <= n
    decreases n
  {
    if n > 0 {
      if |pages[n - 1]| > 0 {
        assert Inventory(pages, n)[|Inventory(pages, n)| - 1] == PageMembers(n, pages[n - 1])[|pages[n - 1]| - 1];
      } else {
        assert Inventory(pages, n) == Inventory(pages, n - 1);
        LastInventory(pages, n - 1);
      }
    }
  }

  lemma WrittenAcceptable(pages: seq<seq<Source>>, p: nat, i: nat)
    requires Extractable(pages) && p < |pages| && i < |pages[p]|
    ensures Acceptable(Written(pages, p, i), PageMembers(p + 1, pages[p])[i], MAX_IMAGE_BYTES)
  {
    assert GoodSource(pages[p][i]);
    var m, all := PageMembers(p + 1, pages[p])[i], Inventory(pages, |pages|);
    WrittenIsPrefix(pages, p, i + 1);
    assert Written(pages, p, i + 1) == Written(pages, p, i) + [m];
    assert Written(pages, p, i + 1) == all[..|Written(pages, p, i + 1)|];
    SizesGrow(all, |Written(pages, p, i + 1)|);
    OneMoreMember(Written(pages, p, i), m);
    LastWritten(pages, p, i);
    hide Inventory, TotalBytes, LocalSize, Written, PageMembers;
  }

  lemma WrittenSlice(pages: seq<seq<Source>>, p: nat, i: nat)
    requires Extractable(pages) && p < |pages| && i < |pages[p]|
    ensures |Inventory(pages, p)| + i <= |Inventory(pages, p + 1)|
    ensures Inventory(pages, p + 1)[..|Inventory(pages, p)| + i] == Written(pages, p, i)
  {
  }

  lemma {:induction false} InventoryAcceptable(pages: seq<seq<Source>>, p: nat)
    requires Extractable(pages) && p <= |pages|
    ensures AllAcceptable(Inventory(pages, p), MAX_IMAGE_BYTES)
    decreases p
  {
    hide Acceptable, GoodSource, Written;
    if p > 0 {
      InventoryAcceptable(pages, p - 1);
      var before, page, all := Inventory(pages, p - 1), PageMembers(p, pages[p - 1]), Inventory(pages, p);
      forall i | 0 <= i < |all| ensures Acceptable(all[..i], all[i], MAX_IMAGE_BYTES) {
        if i < |before| {
          assert all[..i] == before[..i] && all[i] == before[i];
        } else {
          WrittenAcceptable(pages, p - 1, i - |before|);
          WrittenSlice(pages, p - 1, i - |before|);
        }
      }
    }
  }

  // Every archive the producer completes is accepted by the stager under the default byte budget,
  // and the staged parts are its images in the same order, numbered from 1.
  lemma ProducedIsStageable(pages: seq<seq<Source>>)
    requires Extractable(pages)
    ensures var members := Inventory(pages, |pages|);
      && Stageable(members, ArchiveSize(members), MAX_IMAGE_BYTES)
      && |StagedParts(members)| == |members|
      && (forall i :: 0 <= i < |members| ==>
            StagedParts(members)[i] == Staged(members[i].name.value, members[i].blob, i + 1))
  {
    InventoryAcceptable(pages, |pages|);
    hide Inventory, TotalBytes, LocalSize;
    var members := Inventory(pages, |pages|);
    assert Acceptable(members[..0], members[0], MAX_IMAGE_BYTES);
    forall i | 0 <= i < |members| ensures members[i].name.Some? {
      assert Acceptable(members[..i], members[i], MAX_IMAGE_BYTES);
    }
  }

  // The checks on member i that have nothing to do with its place in the order.
  predicate OwnChecks(members: seq<Member>, i: nat, maxBytes: nat)
    requires i < |members|
  {
    var m := members[i];
    && m.name.Some? && m.plain && 1 <= m.name.value.page <= MAX_SOURCE_PAGES && 50 <= m.declared
    && TotalBytes(members[..i]) + m.declared <= maxBytes && TotalBytes(members[..i]) + m.blob.size <= maxBytes
    && ValidImage(m.blob, m.name.value.format)
  }

  function NumbersOf(members: seq<Member>): (numbers: seq<(nat, nat)>)
    ensures |numbers| == |members|
  {
    seq(|members|, i requires 0 <= i < |members| => NumberOf(members[i]))
  }

  lemma AcceptableAt(members: seq<Member>, i: nat, maxBytes: nat)
    requires i < |members| && (i > 0 ==> members[i - 1].name.Some?)
    ensures Acceptable(members[..i], members[i], maxBytes)
            <==> OwnChecks(members, i, maxBytes) && OrderedAt(NumbersOf(members), i)
  {
    hide TotalBytes, ValidImage;
    if i > 0 {
      assert members[..i][|members[..i]| - 1] == members[i - 1];
    }
  }

  lemma NamedIfChecked(members: seq<Member>, i: nat, maxBytes: nat)
    requires i < |members|
    ensures Acceptable(members[..i], members[i], maxBytes) || OwnChecks(members, i, maxBytes) ==> members[i].name.Some?
  {
  }

  // The stager accepts exactly the members that pass their own checks and are in page order.
  lemma AcceptableIsOrdered(members: seq<Member>, maxBytes: nat)
    ensures AllAcceptable(members, maxBytes) <==>
            (forall i :: 0 <= i < |members| ==> OwnChecks(members, i, maxBytes)) && Ordered(NumbersOf(members))
  {
    hide Acceptable, OwnChecks, OrderedAt, NumbersOf;
    if AllAcceptable(members, maxBytes) || forall i :: 0 <= i < |members| ==> OwnChecks(members, i, maxBytes) {
      forall i | 0 <= i < |members| ensures members[i].name.Some? {
        NamedIfChecked(members, i, maxBytes);
      }
      forall i | 0 <= i < |members|
        ensures Acceptable(members[..i], members[i], maxBytes)
                <==> OwnChecks(members, i, maxBytes) && OrderedAt(NumbersOf(members), i)
      {
        AcceptableAt(members, i, maxBytes);
      }
    }
  }

  // The stager accepts exactly the members that pass their own checks and list strictly increasing
  // pages, each numbered 1..k.
  lemma AcceptedExactly(members: seq<Member>, maxBytes: nat)
    ensures AllAcceptable(members, maxBytes) <==>
            && (forall i :: 0 <= i < |members| ==> OwnChecks(members, i, maxBytes))
            && (exists groups :: Rising(groups) && Numbers(groups) == NumbersOf(members))
  {
    hide AllAcceptable, OwnChecks, Ordered, NumbersOf;
    AcceptableIsOrdered(members, maxBytes);
    OrderMeansPages(NumbersOf(members));
  }

  function NumberOf(m: Member): (nat, nat) {
    if m.name.Some? then (m.name.value.page, m.name.value.index) else (0, 0)
  }

  // ---- the conditions written out

  // Bytes that an image library verifies as the format the member's name gives.
  predicate GoodBytes(blob: Blob, format: Format) {
    50 <= blob.size <= 64 * 1024 * 1024 && blob.verified == Some(format)
  }

  predicate GoodMember(members: seq<Member>, i: nat, maxBytes: nat)
    requires i < |members|
  {
    var m := members[i];
    && m.name.Some? && m.plain && 1 <= m.name.value.page <= 200 && 50 <= m.declared
    && TotalBytes(members[..i]) + m.declared <= maxBytes && TotalBytes(members[..i]) + m.blob.size <= maxBytes
    && GoodBytes(m.blob, m.name.value.format)
  }

  // What the stager accepts: 1 to 80 members of at least 50 bytes within the budget, on pages up to
  // 200 in strictly increasing order, each numbered 1..k, with the bytes their names promise.
  lemma StageableMeans(members: seq<Member>, archiveSize: nat, maxBytes: nat)
    ensures Stageable(members, archiveSize, maxBytes) <==>
      && 50 <= archiveSize <= 64 * 1024 * 1024 && 1 <= maxBytes <= 64 * 1024 * 1024 && 1 <= |members| <= 80
      && (forall i :: 0 <= i < |members| ==> GoodMember(members, i, maxBytes))
      && (exists groups :: Rising(groups) && Numbers(groups) == NumbersOf(members))
  {
    AcceptedExactly(members, maxBytes);
    hide TotalBytes, AllAcceptable, NumbersOf, Rising, Numbers;
    forall i | 0 <= i < |members| ensures OwnChecks(members, i, maxBytes) <==> GoodMember(members, i, maxBytes) {
    }
    hide OwnChecks, GoodMember;
  }

  lemma {:induction false} ArchiveSizeMeans(members: seq<Member>)
    ensures ArchiveSize(members) == TotalBytes(members) + 124 * |members| + 22
  {
    if members != [] {
      ArchiveSizeMeans(members[..|members| - 1]);
    }
  }

  function ImageCount(pages: seq<seq<Source>>, n: nat): nat
    requires n <= |pages|
  {
    if n == 0 then 0 else ImageCount(pages, n - 1) + |pages[n - 1]|
  }

  lemma {:induction false} InventorySize(pages: seq<seq<Source>>, n: nat)
    requires n <= |pages|
    ensures |Inventory(pages, n)| == ImageCount(pages, n)
  {
    if n > 0 {
      InventorySize(pages, n - 1);
    }
  }

  // Image i of page p is the member after all earlier images, under its own numbers and format.
  lemma InventoryAt(pages: seq<seq<Source>>, p: nat, i: nat)
    requires p < |pages| && i < |pages[p]| && pages[p][i].suffix.Some?
    ensures var k, image := ImageCount(pages, p) + i, pages[p][i];
      && k < |Inventory(pages, |pages|)|
      && Inventory(pages, |pages|)[k]
         == Member(Some(MemberName(p + 1, i + 1, image.suffix.value)), true, image.blob.size, image.blob)
  {
    InventorySize(pages, p);
    InventoryGrows(pages, p + 1, |pages|);
    var page := PageMembers(p + 1, pages[p]);
    assert Inventory(pages, p + 1) == Inventory(pages, p) + page;
    assert Inventory(pages, p + 1)[|Inventory(pages, p)| + i] == page[i];
  }

  // What the producer completes: 1 to 200 pages with 1 to 80 images, each of the format its suffix
  // gives, whose bytes and whose archive fit in 64 MiB.
  lemma ExtractableMeans(pages: seq<seq<Source>>)
    ensures Extractable(pages) <==>
      && 1 <= |pages| <= 200 && 1 <= ImageCount(pages, |pages|) <= 80
      && (forall p, i :: 0 <= p < |pages| && 0 <= i < |pages[p]| ==>
            pages[p][i].suffix.Some? && GoodBytes(pages[p][i].blob, pages[p][i].suffix.value))
      && TotalBytes(Inventory(pages, |pages|)) + 124 * ImageCount(pages, |pages|) + 22 <= 64 * 1024 * 1024
  {
    InventorySize(pages, |pages|);
    ArchiveSizeMeans(Inventory(pages, |pages|));
    hide Inventory, TotalBytes, ArchiveSize, ImageCount;
  }
}
