/** The stager of rasterised pages: contiguous page images out of an archive whose declared sizes
    are not trusted. */
module RasterPages {
  import opened Arithmetic
  import opened ImageFormats
  import opened Options

  const MAX_ARTIFACTS := 200

  // A member as listed, the bytes its stream really yields, and what an image library makes of them.
  datatype Member = Member(name: Option<(nat, Format)>, plain: bool, declared: nat, bytes: nat,
                           verified: Option<Format>)

  datatype Part = Part(page: nat, format: Format, ordinal: nat)

  function Bytes(members: seq<Member>): nat {
    if members == [] then 0 else Bytes(members[..|members| - 1]) + members[|members| - 1].bytes
  }

  // The checks on member i of an archive that should start at page `first`.
  predicate Acceptable(members: seq<Member>, i: nat, first: nat, maxBytes: nat)
    requires i < |members|
  {
    var m := members[i];
    && m.name.Some? && m.plain && m.name.value.0 == first + i
    && (i > 0 ==> members[0].name.Some? && m.name.value.1 == members[0].name.value.1)
    && Bytes(members[..i]) + m.declared <= maxBytes && Bytes(members[..i]) + m.bytes <= maxBytes
    && m.verified == Some(m.name.value.1)
  }

  predicate Limits(members: seq<Member>, first: nat, maxBytes: nat) {
    first >= 1 && maxBytes >= 1 && 1 <= |members| <= MAX_ARTIFACTS
  }

  ghost predicate Stageable(members: seq<Member>, first: nat, maxBytes: nat) {
    Limits(members, first, maxBytes) && forall i :: 0 <= i < |members| ==> Acceptable(members, i, first, maxBytes)
  }

  function NameOf(m: Member): (nat, Format) {
    if m.name.Some? then m.name.value else (0, Png)
  }

  // A stageable archive lists consecutive pages of one format and fits the budget as a whole.
  lemma StageableMeans(members: seq<Member>, first: nat, maxBytes: nat)
    requires Stageable(members, first, maxBytes)
    ensures forall i :: 0 <= i < |members| ==> members[i].name == Some((first + i, NameOf(members[0]).1))
    ensures Bytes(members) <= maxBytes
  {
    assert Acceptable(members, |members| - 1, first, maxBytes);
    forall i | 0 <= i < |members| ensures members[i].name == Some((first + i, NameOf(members[0]).1)) {
      assert Acceptable(members, i, first, maxBytes);
      var name := members[i].name.value;
      assert name == (name.0, name.1);
    }
  }

  // A file of the staging directory: a page under its fixed name, or anything else.
  datatype Entry = PageFile(page: nat, format: Format) | OtherFile(name: string)

  function EntryOf(m: Member): Entry {
    PageFile(NameOf(m).0, NameOf(m).1)
  }

  // Pages are created exclusively: none of them may be in the directory already.
  ghost predicate NoneTaken(files: map<Entry, nat>, members: seq<Member>) {
    forall i :: 0 <= i < |members| ==> EntryOf(members[i]) !in files
  }

  // The directory after the members were added to it.
  function WithPages(files: map<Entry, nat>, members: seq<Member>): map<Entry, nat> {
    if members == [] then files
    else WithPages(files, members[..|members| - 1])[EntryOf(members[|members| - 1]) := members[|members| - 1].bytes]
  }

  // Staged pages are numbered from the first, so only what was there before can be in the way.
  lemma NextIsNew(files: map<Entry, nat>, members: seq<Member>, i: nat, first: nat, maxBytes: nat)
    requires i < |members| && Acceptable(members, i, first, maxBytes)
    requires forall k :: 0 <= k < i ==> Acceptable(members, k, first, maxBytes)
    ensures EntryOf(members[i]) in WithPages(files, members[..i]) <==> EntryOf(members[i]) in files
  {
    AddedBefore(files, members, i, i, first, maxBytes);
  }

  lemma {:induction false} AddedBefore(files: map<Entry, nat>, members: seq<Member>, n: nat, i: nat, first: nat,
                                       maxBytes: nat)
    requires n <= i < |members| && members[i].name.Some? && members[i].name.value.0 == first + i
    requires forall k :: 0 <= k < n ==> Acceptable(members, k, first, maxBytes)
    ensures EntryOf(members[i]) in WithPages(files, members[..n]) <==> EntryOf(members[i]) in files
  {
    if n > 0 {
      assert members[..n][..n - 1] == members[..n - 1];
      AddedBefore(files, members, n - 1, i, first, maxBytes);
      assert Acceptable(members, n - 1, first, maxBytes);
    }
  }

  class StagingDirectory {
    // Files on disk, and how many bytes were ever written to the directory.
    var files: map<Entry, nat>
    var written: nat

    constructor (files: map<Entry, nat>)
      ensures this.files == files && written == 0
    {
      this.files, written := files, 0;
    }

    // The copy of one stream, at most `maxBytes - total` bytes of it.
    method Copy(entry: Entry, bytes: nat, total: nat, maxBytes: nat) returns (ok: bool)
      requires total <= maxBytes && entry !in files
      modifies this
      ensures ok <==> total + bytes <= maxBytes
      ensures ok ==> files == old(files)[entry := bytes] && written == old(written) + bytes
      ensures written <= old(written) + (maxBytes - total)
    {
      files := files[entry := 0];
      var read, remaining := 0, maxBytes - total;
      while read < bytes
        invariant read <= bytes && total + read <= maxBytes && remaining == maxBytes - total - read
        invariant files == old(files)[entry := read] && written == old(written) + read
        decreases bytes - read
      {
        var chunk := Min(bytes - read, Min(CHUNK, remaining + 1));
        if total + read + chunk > maxBytes {
          return false;
        }
        read := read + chunk;
        remaining := maxBytes - (total + read);
        files := files[entry := read];
        written := written + chunk;
      }
      ok := true;
    }

    // One member, after the ones before it were staged with `total` bytes.
    method StageOne(members: seq<Member>, i: nat, total: nat, first: nat, maxBytes: nat) returns (ok: bool)
      requires i < |members| && total == Bytes(members[..i]) <= maxBytes
      requires i > 0 ==> members[0].name.Some?
      modifies this
      ensures ok <==> Acceptable(members, i, first, maxBytes) && EntryOf(members[i]) !in old(files)
      ensures ok ==> files == old(files)[EntryOf(members[i]) := members[i].bytes]
                     && written == old(written) + members[i].bytes
      ensures written <= old(written) + (maxBytes - total)
    {
      var m := members[i];
      if m.name.None? || !m.plain {
        return false;
      }
      if m.name.value.0 != first + i {
        return false;
      }
      if i > 0 && m.name.value.1 != members[0].name.value.1 {
        return false;
      }
      if m.declared > maxBytes - total {
        return false;
      }
      var entry := PageFile(m.name.value.0, m.name.value.1);
      if entry in files {
        return false;
      }
      ok := Copy(entry, m.bytes, total, maxBytes);
      if ok {
        ok := m.verified == Some(m.name.value.1);
      }
    }

    // The loop over the members; what it leaves behind when it raises is for the caller to remove.
    method StageAll(members: seq<Member>, first: nat, maxBytes: nat) returns (parts: Option<seq<Part>>)
      modifies this
      ensures parts.Some? <==> (forall i :: 0 <= i < |members| ==> Acceptable(members, i, first, maxBytes))
                               && NoneTaken(old(files), members)
      ensures parts.Some? ==> |parts.value| == |members| && forall i :: 0 <= i < |members| ==>
        parts.value[i] == Part(first + i, NameOf(members[0]).1, i + 1)
      ensures written <= old(written) + maxBytes
      ensures parts.Some? ==> written == old(written) + Bytes(members) && files == WithPages(old(files), members)
    {
      hide Bytes;
      NoBytes(members);
      var pages, total := [], 0;
      for i := 0 to |members|
        invariant forall k :: 0 <= k < i ==> Acceptable(members, k, first, maxBytes)
        invariant forall k :: 0 <= k < i ==> EntryOf(members[k]) !in old(files)
        invariant total == Bytes(members[..i]) <= maxBytes && written == old(written) + total
        invariant |pages| == i && forall k :: 0 <= k < i ==> pages[k] == Part(first + k, NameOf(members[0]).1, k + 1)
        invariant files == WithPages(old(files), members[..i])
      {
        assert i > 0 ==> Acceptable(members, 0, first, maxBytes);
        var ok := StageOne(members, i, total, first, maxBytes);
        if Acceptable(members, i, first, maxBytes) {
          NextIsNew(old(files), members, i, first, maxBytes);
        }
        if !ok {
          return None;
        }
        OneMore(members, i);
        total := total + members[i].bytes;
        pages := pages + [Part(members[i].name.value.0, members[i].name.value.1, |pages| + 1)];
      }
      assert members[..|members|] == members;
      parts := Some(pages);
    }

    // Pages become parts 1, 2, ... in order; whatever the archive declares, no more than `maxBytes`
    // bytes are written. Bad limits are refused before the directory is touched; any other refusal
    // removes every file of the directory, also those that were there before.
    method Stage(members: seq<Member>, first: nat, maxBytes: nat) returns (parts: Option<seq<Part>>)
      modifies this
      ensures parts.Some? <==> Stageable(members, first, maxBytes) && NoneTaken(old(files), members)
      ensures parts.Some? ==> |parts.value| == |members| && forall i :: 0 <= i < |members| ==>
        parts.value[i] == Part(first + i, NameOf(members[0]).1, i + 1)
      ensures written <= old(written) + maxBytes
      ensures parts.Some? ==> written == old(written) + Bytes(members) && files == WithPages(old(files), members)
      ensures parts.None? ==> files == if first >= 1 && maxBytes >= 1 then map[] else old(files)
    {
      hide Acceptable, Bytes, WithPages, NoneTaken;
      if first < 1 || maxBytes < 1 {
        return None;
      }
      if !(1 <= |members| <= MAX_ARTIFACTS) {
        files := map[];
        return None;
      }
      parts := StageAll(members, first, maxBytes);
      if parts.None? {
        files := map[];
      }
    }
  }

  lemma NoBytes(members: seq<Member>)
    ensures Bytes(members[..0]) == 0
  {
  }

  lemma OneMore(members: seq<Member>, i: nat)
    requires i < |members|
    ensures Bytes(members[..i + 1]) == Bytes(members[..i]) + members[i].bytes
    ensures forall files ::
              WithPages(files, members[..i + 1])
                == WithPages(files, members[..i])[EntryOf(members[i]) := members[i].bytes]
  {
    assert members[..i + 1][..i] == members[..i];
  }

  predicate IsPage(m: Member, page: nat, format: Format) {
    m.plain && m.name == Some((page, format)) && m.verified == Some(format)
  }

  ghost predicate ConsecutivePages(members: seq<Member>, first: nat, format: Format) {
    forall i :: 0 <= i < |members| ==> IsPage(members[i], first + i, format)
  }

  predicate FitsAt(members: seq<Member>, i: nat, maxBytes: nat)
    requires i < |members|
  {
    && Bytes(members[..i]) + members[i].declared <= maxBytes
    && Bytes(members[..i]) + members[i].bytes <= maxBytes
  }

  // The conditions written out: 1 to 200 plain members that are consecutive pages of one format,
  // verified as that format, whose declared and actual bytes both fit.
  lemma StageableExactly(members: seq<Member>, first: nat, maxBytes: nat)
    ensures Stageable(members, first, maxBytes) <==>
      && first >= 1 && maxBytes >= 1 && 1 <= |members| <= 200
      && (exists format :: ConsecutivePages(members, first, format))
      && (forall i :: 0 <= i < |members| ==> FitsAt(members, i, maxBytes))
  {
    hide Bytes, FitsAt, Acceptable;
    if Stageable(members, first, maxBytes) {
      PagesOf(members, first, maxBytes);
    }
    forall format | ConsecutivePages(members, first, format)
      ensures forall i :: 0 <= i < |members| && FitsAt(members, i, maxBytes) ==> Acceptable(members, i, first, maxBytes)
    {
      PagesAcceptable(members, first, format, maxBytes);
    }
    hide ConsecutivePages;
  }

  lemma PagesOf(members: seq<Member>, first: nat, maxBytes: nat)
    requires Stageable(members, first, maxBytes)
    ensures ConsecutivePages(members, first, NameOf(members[0]).1)
    ensures forall i :: 0 <= i < |members| ==> FitsAt(members, i, maxBytes)
  {
    hide Bytes;
    StageableMeans(members, first, maxBytes);
    forall i | 0 <= i < |members|
      ensures IsPage(members[i], first + i, NameOf(members[0]).1) && FitsAt(members, i, maxBytes)
    {
      assert Acceptable(members, i, first, maxBytes);
    }
  }

  lemma PagesAcceptable(members: seq<Member>, first: nat, format: Format, maxBytes: nat)
    requires ConsecutivePages(members, first, format)
    ensures forall i :: 0 <= i < |members| && FitsAt(members, i, maxBytes) ==> Acceptable(members, i, first, maxBytes)
  {
    hide Bytes;
    forall i | 0 <= i < |members| && FitsAt(members, i, maxBytes) ensures Acceptable(members, i, first, maxBytes) {
      assert IsPage(members[i], first + i, format) && IsPage(members[0], first + 0, format);
    }
  }

  // What was there, and the pages from the first on with their bytes.
  ghost predicate HoldsPages(files: map<Entry, nat>, all: map<Entry, nat>, members: seq<Member>, first: nat,
                             format: Format) {
    && (forall e :: e in all <==>
          e in files || (e.PageFile? && first <= e.page < first + |members| && e.format == format))
    && (forall e :: e in files && e in all ==> all[e] == files[e])
    && (forall page :: first <= page < first + |members| && PageFile(page, format) in all ==>
          all[PageFile(page, format)] == members[page - first].bytes)
  }

  // The directory afterwards: what was there, and each page with its bytes.
  lemma {:induction false} WithPagesMeans(files: map<Entry, nat>, members: seq<Member>, first: nat, format: Format)
    requires ConsecutivePages(members, first, format) && NoneTaken(files, members)
    ensures HoldsPages(files, WithPages(files, members), members, first, format)
  {
    hide HoldsPages;
    if members == [] {
      NoPages(files, first, format);
    } else {
      var n := |members| - 1;
      FirstPages(files, members, first, format);
      WithPagesMeans(files, members[..n], first, format);
      hide NoneTaken, ConsecutivePages;
      OneMorePage(files, WithPages(files, members[..n]), members, first, format);
    }
  }

  lemma NoPages(files: map<Entry, nat>, first: nat, format: Format)
    ensures HoldsPages(files, files, [], first, format)
  {
  }

  lemma FirstPages(files: map<Entry, nat>, members: seq<Member>, first: nat, format: Format)
    requires members != [] && ConsecutivePages(members, first, format) && NoneTaken(files, members)
    ensures var n := |members| - 1;
      && ConsecutivePages(members[..n], first, format) && NoneTaken(files, members[..n])
      && EntryOf(members[n]) == PageFile(first + n, format) && EntryOf(members[n]) !in files
  {
    var n := |members| - 1;
    hide EntryOf;
    assert IsPage(members[n], first + n, format);
    assert forall i :: 0 <= i < n ==> members[..n][i] == members[i] && IsPage(members[i], first + i, format);
    forall i | 0 <= i < n ensures EntryOf(members[..n][i]) !in files {
      assert EntryOf(members[i]) !in files;
    }
    PageEntry(members[n], first + n, format);
  }

  lemma PageEntry(m: Member, page: nat, format: Format)
    requires IsPage(m, page, format)
    ensures EntryOf(m) == PageFile(page, format)
  {
  }

  lemma OneMorePage(files: map<Entry, nat>, before: map<Entry, nat>, members: seq<Member>, first: nat, format: Format)
    requires members != [] && HoldsPages(files, before, members[..|members| - 1], first, format)
    requires PageFile(first + |members| - 1, format) !in files
    ensures var n := |members| - 1;
      HoldsPages(files, before[PageFile(first + n, format) := members[n].bytes], members, first, format)
  {
  }
}
