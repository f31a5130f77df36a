/** The comparison of file records with stored objects, on both backends. */
module Reconciliation {
  import opened Arithmetic
  import opened Options
  import opened StoredNames
  import opened TextOrder

  datatype Record = Record(id: string, name: string, size: nat)

  datatype Object = Object(name: string, size: nat)

  datatype Category =
    | BackendMismatch
    | InvalidStoredName
    | MissingObject
    | DuplicateStorageName
    | SizeMismatch
    | OrphanObject

  datatype Issue = Issue(category: Category, file: Option<string>, name: string)

  datatype Report = Report(counts: map<Category, nat>, records: nat, objects: nat, issueCount: nat,
                           healthy: bool, truncated: bool, issues: seq<Issue>)

  // The last component of a path; pathlib is not part of this model.
  type LastComponent = string -> string

  predicate OnBackend(b: Backend, r: Record) {
    IsS3Name(r.name) == b.S3?
  }

  function Logical(b: Backend, last: LastComponent, r: Record): string {
    if b.S3? then r.name else last(r.name)
  }

  function Matches(objects: seq<Object>, name: string): seq<Object> {
    if objects == [] then []
    else
      var o := objects[|objects| - 1];
      Matches(objects[..|objects| - 1], name) + (if o.name == name then [o] else [])
  }

  // What one record is reported for.
  function RecordIssues(b: Backend, last: LastComponent, objects: seq<Object>, r: Record): seq<Issue> {
    if !OnBackend(b, r) then [Issue(BackendMismatch, Some(r.id), r.name)]
    else
      var found := Matches(objects, Logical(b, last, r));
      (if Logical(b, last, r) != r.name then [Issue(InvalidStoredName, Some(r.id), r.name)] else [])
      + (if found == [] then [Issue(MissingObject, Some(r.id), r.name)]
         else if |found| > 1 then [Issue(DuplicateStorageName, Some(r.id), r.name)]
         else if found[0].size != r.size then [Issue(SizeMismatch, Some(r.id), r.name)]
         else [])
  }

  function AllRecordIssues(b: Backend, last: LastComponent, objects: seq<Object>, records: seq<Record>): seq<Issue> {
    if records == [] then []
    else AllRecordIssues(b, last, objects, records[..|records| - 1])
         + RecordIssues(b, last, objects, records[|records| - 1])
  }

  function Referenced(b: Backend, last: LastComponent, records: seq<Record>): set<string> {
    set i | 0 <= i < |records| && OnBackend(b, records[i]) :: Logical(b, last, records[i])
  }

  function Orphans(objects: seq<Object>, referenced: set<string>): seq<Issue> {
    if objects == [] then []
    else
      var o := objects[|objects| - 1];
      Orphans(objects[..|objects| - 1], referenced)
      + (if o.name in referenced then [] else [Issue(OrphanObject, None, o.name)])
  }

  function AllIssues(b: Backend, last: LastComponent, records: seq<Record>, objects: seq<Object>): seq<Issue> {
    AllRecordIssues(b, last, objects, records) + Orphans(objects, Referenced(b, last, records))
  }

  function CategoryText(c: Category): string {
    match c
    case BackendMismatch => "backend_mismatch"
    case InvalidStoredName => "invalid_stored_name"
    case MissingObject => "missing_object"
    case DuplicateStorageName => "duplicate_storage_name"
    case SizeMismatch => "size_mismatch"
    case OrphanObject => "orphan_object"
  }

  // Details are sorted by category, stored name and file id; an issue without a file comes first.
  function SortKey(i: Issue): Key {
    (CategoryText(i.category), i.name, if i.file.Some? then i.file.value else "")
  }

  predicate IssueLe(i: Issue, k: Issue) {
    KeyLe(SortKey(i), SortKey(k))
  }

  // Behind the issues with the same key.
  function Insert(sorted: seq<Issue>, issue: Issue): seq<Issue> {
    if sorted == [] || IssueLe(sorted[|sorted| - 1], issue) then sorted + [issue]
    else Insert(sorted[..|sorted| - 1], issue) + [sorted[|sorted| - 1]]
  }

  function Sorted(issues: seq<Issue>): seq<Issue> {
    if issues == [] then [] else Insert(Sorted(issues[..|issues| - 1]), issues[|issues| - 1])
  }

  function CountOf(issues: seq<Issue>, c: Category): nat {
    if issues == [] then 0
    else CountOf(issues[..|issues| - 1], c) + (if issues[|issues| - 1].category == c then 1 else 0)
  }

  function CountIn(counts: map<Category, nat>, c: Category): nat {
    if c in counts then counts[c] else 0
  }

  // ---- the loops

  // Objects by name, each list in the order of the scan.
  method Index(objects: seq<Object>) returns (byName: map<string, seq<Object>>)
    ensures forall name :: Matches(objects, name) == if name in byName then byName[name] else []
  {
    byName := map[];
    for i := 0 to |objects|
      invariant forall name :: Matches(objects[..i], name) == if name in byName then byName[name] else []
    {
      assert objects[..i + 1][..i] == objects[..i];
      var o := objects[i];
      byName := byName[o.name := (if o.name in byName then byName[o.name] else []) + [o]];
    }
    assert objects[..|objects|] == objects;
  }

  method CheckRecord(b: Backend, last: LastComponent, byName: map<string, seq<Object>>, r: Record,
                     ghost objects: seq<Object>)
    returns (issues: seq<Issue>)
    requires forall name :: Matches(objects, name) == if name in byName then byName[name] else []
    ensures issues == RecordIssues(b, last, objects, r)
  {
    if !OnBackend(b, r) {
      return [Issue(BackendMismatch, Some(r.id), r.name)];
    }
    issues := [];
    var logical := Logical(b, last, r);
    if logical != r.name {
      issues := issues + [Issue(InvalidStoredName, Some(r.id), r.name)];
    }
    var found := if logical in byName then byName[logical] else [];
    if found == [] {
      issues := issues + [Issue(MissingObject, Some(r.id), r.name)];
    } else if |found| > 1 {
      issues := issues + [Issue(DuplicateStorageName, Some(r.id), r.name)];
    } else if found[0].size != r.size {
      issues := issues + [Issue(SizeMismatch, Some(r.id), r.name)];
    }
  }

  method CheckRecords(b: Backend, last: LastComponent, records: seq<Record>, objects: seq<Object>)
    returns (issues: seq<Issue>, referenced: set<string>)
    ensures issues == AllRecordIssues(b, last, objects, records) && referenced == Referenced(b, last, records)
  {
    hide RecordIssues, Matches, Referenced;
    var byName := Index(objects);
    issues, referenced := [], {};
    NothingReferenced(b, last, records);
    for i := 0 to |records|
      invariant issues == AllRecordIssues(b, last, objects, records[..i])
      invariant referenced == Referenced(b, last, records[..i])
    {
      assert records[..i + 1][..i] == records[..i];
      ReferencedMore(b, last, records, i);
      var found := CheckRecord(b, last, byName, records[i], objects);
      issues := issues + found;
      if OnBackend(b, records[i]) {
        referenced := referenced + {Logical(b, last, records[i])};
      }
    }
    assert records[..|records|] == records;
  }

  lemma NothingReferenced(b: Backend, last: LastComponent, records: seq<Record>)
    ensures Referenced(b, last, records[..0]) == {}
  {
  }

  method Collect(b: Backend, last: LastComponent, records: seq<Record>, objects: seq<Object>)
    returns (issues: seq<Issue>)
    ensures issues == AllIssues(b, last, records, objects)
  {
    hide AllRecordIssues, Referenced;
    var referenced;
    issues, referenced := CheckRecords(b, last, records, objects);
    ghost var before := issues;
    for i := 0 to |objects|
      invariant issues == before + Orphans(objects[..i], referenced)
    {
      assert objects[..i + 1][..i] == objects[..i];
      if objects[i].name !in referenced {
        issues := issues + [Issue(OrphanObject, None, objects[i].name)];
      }
    }
    assert objects[..|objects|] == objects;
  }

  lemma ReferencedMore(b: Backend, last: LastComponent, records: seq<Record>, i: nat)
    requires i < |records|
    ensures Referenced(b, last, records[..i + 1])
      == Referenced(b, last, records[..i]) + (if OnBackend(b, records[i]) then {Logical(b, last, records[i])} else {})
  {
    assert forall k :: 0 <= k < i ==> records[..i + 1][k] == records[..i][k];
    assert records[..i + 1][i] == records[i];
  }

  method CountCategories(issues: seq<Issue>) returns (counts: map<Category, nat>)
    ensures forall c :: CountIn(counts, c) == CountOf(issues, c)
  {
    counts := map[];
    for i := 0 to |issues|
      invariant forall c :: CountIn(counts, c) == CountOf(issues[..i], c)
    {
      assert issues[..i + 1][..i] == issues[..i];
      var c := issues[i].category;
      counts := counts[c := CountIn(counts, c) + 1];
    }
    assert issues[..|issues|] == issues;
  }

  // issues.sort: the issues found so far are kept in order.
  method Sort(issues: seq<Issue>) returns (sorted: seq<Issue>)
    ensures sorted == Sorted(issues) && |sorted| == |issues|
  {
    sorted := [];
    for i := 0 to |issues|
      invariant sorted == Sorted(issues[..i])
    {
      assert issues[..i + 1][..i] == issues[..i];
      sorted := Insert(sorted, issues[i]);
    }
    assert issues[..|issues|] == issues;
    SortedBag(issues);
    assert |multiset(sorted)| == |sorted| && |multiset(issues)| == |issues|;
  }

  // Nothing is changed on either side; the details are sorted and then cut at the limit.
  method Reconcile(b: Backend, last: LastComponent, records: seq<Record>, objects: seq<Object>, detailLimit: nat)
    returns (report: Report)
    ensures var issues := AllIssues(b, last, records, objects);
      && report.records == |records| && report.objects == |objects| && report.issueCount == |issues|
      && (report.healthy <==> issues == []) && (report.truncated <==> |issues| > detailLimit)
      && report.issues <= Sorted(issues) && |report.issues| == Min(detailLimit, |issues|)
      && (forall c :: CountIn(report.counts, c) == CountOf(issues, c))
    ensures forall i, k :: 0 <= i < k < |report.issues| ==>
      var a, d := report.issues[i], report.issues[k];
      if CategoryText(a.category) != CategoryText(d.category)
      then TextLe(CategoryText(a.category), CategoryText(d.category))
      else if a.name != d.name then TextLe(a.name, d.name)
      else TextLe(if a.file == None then "" else a.file.value, if d.file == None then "" else d.file.value)
  {
    hide AllIssues, Sorted, CountOf;
    var found := Collect(b, last, records, objects);
    var issues := Sort(found);
    var total := |issues|;
    var counts := CountCategories(issues);
    SortedCounts(found);
    SortedMeans(found);
    report := Report(counts, |records|, |objects|, total, total == 0, total > detailLimit,
                     if total > detailLimit then issues[..detailLimit] else issues);
  }

  // ---- the order of the details

  predicate Ordered(issues: seq<Issue>) {
    forall i, k :: 0 <= i < k < |issues| ==> IssueLe(issues[i], issues[k])
  }

  lemma {:induction false} InsertBag(sorted: seq<Issue>, issue: Issue)
    ensures multiset(Insert(sorted, issue)) == multiset(sorted) + multiset{issue}
  {
    hide IssueLe;
    if sorted != [] && !IssueLe(sorted[|sorted| - 1], issue) {
      InsertBag(sorted[..|sorted| - 1], issue);
      SplitLast(sorted);
    }
  }

  lemma {:induction false} SortedBag(issues: seq<Issue>)
    ensures multiset(Sorted(issues)) == multiset(issues)
  {
    hide Insert;
    if issues != [] {
      SortedBag(issues[..|issues| - 1]);
      InsertBag(Sorted(issues[..|issues| - 1]), issues[|issues| - 1]);
      SplitLast(issues);
    }
  }

  lemma {:induction false} InsertOrdered(sorted: seq<Issue>, issue: Issue)
    requires Ordered(sorted)
    ensures Ordered(Insert(sorted, issue))
  {
    hide IssueLe;
    if sorted != [] {
      var front, last := sorted[..|sorted| - 1], sorted[|sorted| - 1];
      if IssueLe(last, issue) {
        forall i | 0 <= i < |sorted| ensures IssueLe(sorted[i], issue) {
          KeyTransitiveAt(sorted[i], last, issue);
        }
      } else {
        InsertOrdered(front, issue);
        InsertBag(front, issue);
        IssueTotal(issue, last);
        forall i | 0 <= i < |Insert(front, issue)| ensures IssueLe(Insert(front, issue)[i], last) {
          assert Insert(front, issue)[i] in multiset(Insert(front, issue));
        }
      }
    }
  }

  lemma IssueTotal(i: Issue, k: Issue)
    ensures IssueLe(i, k) || IssueLe(k, i)
  {
    KeyTotal(SortKey(i), SortKey(k));
  }

  lemma KeyTransitiveAt(i: Issue, k: Issue, l: Issue)
    requires (i == k || IssueLe(i, k)) && IssueLe(k, l)
    ensures IssueLe(i, l)
  {
    hide SortKey, KeyLe;
    if i != k {
      KeyTransitive(SortKey(i), SortKey(k), SortKey(l));
    }
  }

  lemma {:induction false} SortedOrdered(issues: seq<Issue>)
    ensures Ordered(Sorted(issues))
  {
    hide Ordered, Insert;
    if issues == [] {
      NothingOrdered();
    } else {
      SortedOrdered(issues[..|issues| - 1]);
      InsertOrdered(Sorted(issues[..|issues| - 1]), issues[|issues| - 1]);
    }
  }

  lemma NothingOrdered()
    ensures Ordered([])
  {
  }

  lemma {:induction false} InsertCount(sorted: seq<Issue>, issue: Issue, c: Category)
    ensures CountOf(Insert(sorted, issue), c) == CountOf(sorted, c) + (if issue.category == c then 1 else 0)
  {
    hide IssueLe;
    if sorted != [] && !IssueLe(sorted[|sorted| - 1], issue) {
      InsertCount(sorted[..|sorted| - 1], issue, c);
    }
  }

  // Sorting before counting changes no count.
  lemma {:induction false} SortedCounts(issues: seq<Issue>)
    ensures forall c :: CountOf(Sorted(issues), c) == CountOf(issues, c)
  {
    hide Insert;
    if issues != [] {
      var n := |issues| - 1;
      SortedCounts(issues[..n]);
      forall c ensures CountOf(Sorted(issues), c) == CountOf(issues, c) {
        InsertCount(Sorted(issues[..n]), issues[n], c);
      }
    }
  }

  predicate NamedFiles(issues: seq<Issue>) {
    forall i :: 0 <= i < |issues| ==> issues[i].file != Some("")
  }

  lemma SameKey(i: Issue, k: Issue)
    requires IssueLe(i, k) && IssueLe(k, i) && i.file != Some("") && k.file != Some("")
    ensures i == k
  {
    hide KeyLe, CategoryText;
    KeyAntisymmetric(SortKey(i), SortKey(k));
    CategoryTexts(i.category, k.category);
  }

  lemma CategoryTexts(c: Category, d: Category)
    requires CategoryText(c) == CategoryText(d)
    ensures c == d
  {
    assert CategoryText(c)[0] == CategoryText(d)[0];
  }

  lemma LastSame(a: seq<Issue>, b: seq<Issue>)
    requires a != [] && b != []
    requires Ordered(a) && Ordered(b) && multiset(a) == multiset(b) && NamedFiles(a) && NamedFiles(b)
    ensures a[|a| - 1] == b[|b| - 1]
  {
    hide IssueLe;
    var x, y := a[|a| - 1], b[|b| - 1];
    assert x in multiset(b) && y in multiset(a);
    if x != y {
      SameKey(x, y);
    }
  }

  lemma FrontKeeps(a: seq<Issue>)
    requires a != [] && Ordered(a) && NamedFiles(a)
    ensures Ordered(a[..|a| - 1]) && NamedFiles(a[..|a| - 1])
    ensures multiset(a[..|a| - 1]) == multiset(a) - multiset{a[|a| - 1]}
  {
    hide IssueLe;
    SplitLast(a);
  }

  // A bag of issues has one order.
  lemma {:induction false} OneOrder(a: seq<Issue>, b: seq<Issue>)
    requires Ordered(a) && Ordered(b) && multiset(a) == multiset(b) && NamedFiles(a) && NamedFiles(b)
    ensures a == b
    decreases |a|
  {
    hide Ordered, NamedFiles;
    SameLength(a, b);
    if a != [] {
      LastSame(a, b);
      FrontKeeps(a);
      FrontKeeps(b);
      OneOrder(a[..|a| - 1], b[..|b| - 1]);
      assert a == a[..|a| - 1] + [a[|a| - 1]] && b == b[..|b| - 1] + [b[|b| - 1]];
    }
  }

  lemma SameLength<T>(a: seq<T>, b: seq<T>)
    requires multiset(a) == multiset(b)
    ensures |a| == |b|
  {
    assert |multiset(a)| == |a| && |multiset(b)| == |b|;
  }

  lemma {:induction false} OrphanCount(objects: seq<Object>, referenced: set<string>, i: Issue)
    ensures multiset(Orphans(objects, referenced))[i]
            == if i.category.OrphanObject? && i.file.None? && i.name !in referenced
               then |Matches(objects, i.name)| else 0
  {
    if objects != [] {
      OrphanCount(objects[..|objects| - 1], referenced, i);
    }
  }

  lemma SameRecordIssues(b: Backend, last: LastComponent, objects: seq<Object>, more: seq<Object>, r: Record)
    requires multiset(objects) == multiset(more)
    ensures RecordIssues(b, last, objects, r) == RecordIssues(b, last, more, r)
  {
    hide Matches;
    var name := Logical(b, last, r);
    MatchedSame(objects, more, name);
  }

  lemma MatchedSame(objects: seq<Object>, more: seq<Object>, name: string)
    requires multiset(objects) == multiset(more)
    ensures multiset(Matches(objects, name)) == multiset(Matches(more, name))
    ensures |Matches(objects, name)| == |Matches(more, name)|
    ensures |Matches(objects, name)| == 1 ==> Matches(objects, name) == Matches(more, name)
  {
    hide Matches;
    var found, other := Matches(objects, name), Matches(more, name);
    MatchCount(objects, name);
    MatchCount(more, name);
    forall o ensures multiset(found)[o] == multiset(other)[o] {
    }
    assert |multiset(found)| == |found| && |multiset(other)| == |other|;
    if |found| == 1 {
      assert found[0] in multiset(other);
    }
  }

  lemma {:induction false} SameAllRecordIssues(b: Backend, last: LastComponent, objects: seq<Object>, more: seq<Object>,
                                               records: seq<Record>)
    requires multiset(objects) == multiset(more)
    ensures AllRecordIssues(b, last, objects, records) == AllRecordIssues(b, last, more, records)
  {
    hide RecordIssues;
    if records != [] {
      SameAllRecordIssues(b, last, objects, more, records[..|records| - 1]);
      SameRecordIssues(b, last, objects, more, records[|records| - 1]);
    }
  }

  lemma {:induction false} IssuesNamed(b: Backend, last: LastComponent, objects: seq<Object>, records: seq<Record>)
    requires forall i :: 0 <= i < |records| ==> records[i].id != ""
    ensures NamedFiles(AllRecordIssues(b, last, objects, records))
  {
    hide Matches;
    if records != [] {
      IssuesNamed(b, last, objects, records[..|records| - 1]);
    }
  }

  lemma {:induction false} OrphansNamed(objects: seq<Object>, referenced: set<string>)
    ensures NamedFiles(Orphans(objects, referenced))
  {
    if objects != [] {
      OrphansNamed(objects[..|objects| - 1], referenced);
    }
  }

  // The sorted details, and so any cut of them, do not depend on the order in which the scan lists
  // the objects.
  lemma DetailsIgnoreScanOrder(b: Backend, last: LastComponent, records: seq<Record>, objects: seq<Object>,
                               more: seq<Object>)
    requires multiset(objects) == multiset(more) && forall i :: 0 <= i < |records| ==> records[i].id != ""
    ensures Ordered(Sorted(AllIssues(b, last, records, objects)))
    ensures multiset(Sorted(AllIssues(b, last, records, objects))) == multiset(AllIssues(b, last, records, objects))
    ensures Sorted(AllIssues(b, last, records, objects)) == Sorted(AllIssues(b, last, records, more))
  {
    hide AllRecordIssues, Orphans, Sorted, Ordered, NamedFiles;
    var issues, other := AllIssues(b, last, records, objects), AllIssues(b, last, records, more);
    SameAllRecordIssues(b, last, objects, more, records);
    SameOrphans(objects, more, Referenced(b, last, records));
    SortedBag(issues);
    SortedBag(other);
    SortedOrdered(issues);
    SortedOrdered(other);
    SortedNamed(b, last, records, objects);
    SortedNamed(b, last, records, more);
    OneOrder(Sorted(issues), Sorted(other));
  }

  lemma SameOrphans(objects: seq<Object>, more: seq<Object>, referenced: set<string>)
    requires multiset(objects) == multiset(more)
    ensures multiset(Orphans(objects, referenced)) == multiset(Orphans(more, referenced))
  {
    hide Matches, Orphans;
    forall i ensures multiset(Orphans(objects, referenced))[i] == multiset(Orphans(more, referenced))[i] {
      OrphanCount(objects, referenced, i);
      OrphanCount(more, referenced, i);
      MatchedSame(objects, more, i.name);
    }
  }

  lemma SortedNamed(b: Backend, last: LastComponent, records: seq<Record>, objects: seq<Object>)
    requires forall i :: 0 <= i < |records| ==> records[i].id != ""
    ensures NamedFiles(Sorted(AllIssues(b, last, records, objects)))
  {
    hide AllRecordIssues, Orphans, Sorted;
    var issues := AllIssues(b, last, records, objects);
    IssuesNamed(b, last, objects, records);
    OrphansNamed(objects, Referenced(b, last, records));
    assert NamedFiles(issues);
    SortedBag(issues);
    forall i | 0 <= i < |Sorted(issues)| ensures Sorted(issues)[i].file != Some("") {
      assert Sorted(issues)[i] in multiset(issues);
    }
  }

  lemma SortedMeans(issues: seq<Issue>)
    ensures forall i, k :: 0 <= i < k < |Sorted(issues)| ==>
      var a, d := Sorted(issues)[i], Sorted(issues)[k];
      if CategoryText(a.category) != CategoryText(d.category)
      then TextLe(CategoryText(a.category), CategoryText(d.category))
      else if a.name != d.name then TextLe(a.name, d.name)
      else TextLe(if a.file == None then "" else a.file.value, if d.file == None then "" else d.file.value)
  {
    hide Sorted, CategoryText, TextLe;
    SortedOrdered(issues);
    forall i, k | 0 <= i < k < |Sorted(issues)| ensures IssueLe(Sorted(issues)[i], Sorted(issues)[k]) {
    }
  }

  // ---- what the report means

  // The categories account for every issue, also for the ones cut from the details.
  lemma {:induction false} CountsSumToTotal(issues: seq<Issue>)
    ensures CountOf(issues, BackendMismatch) + CountOf(issues, InvalidStoredName) + CountOf(issues, MissingObject)
      + CountOf(issues, DuplicateStorageName) + CountOf(issues, SizeMismatch)
      + CountOf(issues, OrphanObject) == |issues|
  {
    if issues != [] {
      CountsSumToTotal(issues[..|issues| - 1]);
    }
  }

  function AsObject(r: Record): Object {
    Object(r.name, r.size)
  }

  function AsObjects(records: seq<Record>): (objects: seq<Object>)
    ensures |objects| == |records|
  {
    if records == [] then [] else AsObjects(records[..|records| - 1]) + [AsObject(records[|records| - 1])]
  }

  predicate DistinctRecords(records: seq<Record>) {
    forall i, k :: 0 <= i < k < |records| ==> records[i].name != records[k].name
  }

  // Every record is on the backend under a plain name, and records and objects are the same names
  // with the same sizes.
  ghost predicate Bijective(b: Backend, last: LastComponent, records: seq<Record>, objects: seq<Object>) {
    && (forall i :: 0 <= i < |records| ==> OnBackend(b, records[i]) && Logical(b, last, records[i]) == records[i].name)
    && multiset(AsObjects(records)) == multiset(objects)
  }

  lemma SplitLast<T>(s: seq<T>)
    requires s != []
    ensures multiset(s) == multiset(s[..|s| - 1]) + multiset{s[|s| - 1]}
  {
    assert s == s[..|s| - 1] + [s[|s| - 1]];
  }

  lemma {:induction false} MatchCount(objects: seq<Object>, name: string)
    ensures forall o :: multiset(Matches(objects, name))[o] == if o.name == name then multiset(objects)[o] else 0
  {
    if objects != [] {
      MatchCount(objects[..|objects| - 1], name);
      SplitLast(objects);
    }
  }

  // With distinct names each pair of name and size occurs at most once among the records.
  lemma {:induction false} PairCount(records: seq<Record>, o: Object)
    requires DistinctRecords(records)
    ensures multiset(AsObjects(records))[o]
            == if exists i :: 0 <= i < |records| && AsObject(records[i]) == o then 1 else 0
  {
    if records != [] {
      var init, r := records[..|records| - 1], records[|records| - 1];
      PairCount(init, o);
      OneMorePair(records, o);
      hide AsObject, DistinctRecords;
      assert records[|records| - 1] == r;
    }
  }

  lemma OneMorePair(records: seq<Record>, o: Object)
    requires records != [] && DistinctRecords(records)
    ensures var init, r := records[..|records| - 1], records[|records| - 1];
      && DistinctRecords(init)
      && (forall i :: 0 <= i < |init| ==> records[i] == init[i])
      && (AsObject(r) == o ==> forall i :: 0 <= i < |init| ==> AsObject(init[i]) != o)
  {
    var init, r := records[..|records| - 1], records[|records| - 1];
    assert AsObject(r) == o ==> forall i :: 0 <= i < |init| ==> AsObject(init[i]).name != o.name;
  }

  // The record is on the backend under a plain name that matches one object, of its size.
  ghost predicate Clean(b: Backend, last: LastComponent, objects: seq<Object>, r: Record) {
    OnBackend(b, r) && Logical(b, last, r) == r.name && multiset(Matches(objects, r.name)) == multiset{AsObject(r)}
  }

  lemma CleanRecord(b: Backend, last: LastComponent, objects: seq<Object>, r: Record)
    ensures RecordIssues(b, last, objects, r) == [] <==> Clean(b, last, objects, r)
  {
    hide Matches;
    MatchCount(objects, Logical(b, last, r));
    SoleElement(Matches(objects, Logical(b, last, r)), AsObject(r));
    SameName(objects, Logical(b, last, r));
  }

  lemma SoleElement(found: seq<Object>, o: Object)
    ensures multiset(found) == multiset{o} <==> |found| == 1 && found[0] == o
  {
    if |found| == 1 {
      assert found == [found[0]];
      assert found[0] in multiset(found);
    }
    if multiset(found) == multiset{o} {
      assert |found| == |multiset(found)| == 1;
      assert found[0] in multiset(found);
    }
  }

  lemma {:induction false} SameName(objects: seq<Object>, name: string)
    ensures forall i :: 0 <= i < |Matches(objects, name)| ==> Matches(objects, name)[i].name == name
  {
    if objects != [] {
      SameName(objects[..|objects| - 1], name);
    }
  }

  lemma {:induction false} NoRecordIssues(b: Backend, last: LastComponent, objects: seq<Object>, records: seq<Record>)
    ensures AllRecordIssues(b, last, objects, records) == [] <==>
      forall i :: 0 <= i < |records| ==> RecordIssues(b, last, objects, records[i]) == []
  {
    hide RecordIssues;
    if records != [] {
      var n := |records| - 1;
      var before, more := AllRecordIssues(b, last, objects, records[..n]), RecordIssues(b, last, objects, records[n]);
      NoRecordIssues(b, last, objects, records[..n]);
      hide AllRecordIssues;
      assert before + more == [] <==> before == [] && more == [];
      assert forall i :: 0 <= i < n ==> records[..n][i] == records[i];
    }
  }

  lemma {:induction false} NoOrphans(objects: seq<Object>, referenced: set<string>)
    ensures Orphans(objects, referenced) == [] <==> forall i :: 0 <= i < |objects| ==> objects[i].name in referenced
  {
    if objects != [] {
      NoOrphans(objects[..|objects| - 1], referenced);
    }
  }

  // The report is healthy exactly when records and objects are in a bijection that keeps names and
  // sizes; stored names are unique among records.
  lemma HealthyExactly(b: Backend, last: LastComponent, records: seq<Record>, objects: seq<Object>)
    requires DistinctRecords(records)
    ensures AllIssues(b, last, records, objects) == [] <==> Bijective(b, last, records, objects)
  {
    NoRecordIssues(b, last, objects, records);
    NoOrphans(objects, Referenced(b, last, records));
    forall i | 0 <= i < |records|
      ensures RecordIssues(b, last, objects, records[i]) == [] <==> Clean(b, last, objects, records[i])
    {
      CleanRecord(b, last, objects, records[i]);
    }
    hide RecordIssues, AllRecordIssues, Orphans, Clean, Referenced, Bijective, DistinctRecords;
    if AllIssues(b, last, records, objects) == [] {
      CleanIsBijective(b, last, records, objects);
    }
    if Bijective(b, last, records, objects) {
      BijectiveIsClean(b, last, records, objects);
    }
  }

  lemma CleanIsBijective(b: Backend, last: LastComponent, records: seq<Record>, objects: seq<Object>)
    requires DistinctRecords(records)
    requires forall i :: 0 <= i < |records| ==> Clean(b, last, objects, records[i])
    requires forall i :: 0 <= i < |objects| ==> objects[i].name in Referenced(b, last, records)
    ensures Bijective(b, last, records, objects)
  {
    hide Matches, AsObjects, DistinctRecords, OnBackend, Logical, Referenced;
    forall o ensures multiset(AsObjects(records))[o] == multiset(objects)[o] {
      if o.name in Names(records) {
        var i :| 0 <= i < |records| && records[i].name == o.name;
        KnownName(records, objects, i, o);
      } else {
        UnknownName(b, last, records, objects, o);
      }
    }
  }

  lemma KnownName(records: seq<Record>, objects: seq<Object>, i: nat, o: Object)
    requires DistinctRecords(records) && i < |records| && records[i].name == o.name
    requires multiset(Matches(objects, records[i].name)) == multiset{AsObject(records[i])}
    ensures multiset(AsObjects(records))[o] == multiset(objects)[o]
  {
    hide Matches, AsObjects;
    PairCount(records, o);
    MatchCount(objects, o.name);
    assert multiset(objects)[o] == multiset{AsObject(records[i])}[o];
  }

  lemma UnknownName(b: Backend, last: LastComponent, records: seq<Record>, objects: seq<Object>, o: Object)
    requires DistinctRecords(records) && o.name !in Names(records)
    requires forall i :: 0 <= i < |records| ==> Logical(b, last, records[i]) == records[i].name
    requires forall i :: 0 <= i < |objects| ==> objects[i].name in Referenced(b, last, records)
    ensures multiset(AsObjects(records))[o] == multiset(objects)[o]
  {
    hide AsObjects;
    PairCount(records, o);
    assert forall i :: 0 <= i < |records| ==> records[i].name in Names(records);
    assert Referenced(b, last, records) <= Names(records);
    assert o in multiset(objects) ==> o in objects;
  }

  function Names(records: seq<Record>): set<string> {
    set i | 0 <= i < |records| :: records[i].name
  }

  lemma BijectiveIsClean(b: Backend, last: LastComponent, records: seq<Record>, objects: seq<Object>)
    requires DistinctRecords(records) && Bijective(b, last, records, objects)
    ensures forall i :: 0 <= i < |records| ==> Clean(b, last, objects, records[i])
    ensures forall i :: 0 <= i < |objects| ==> objects[i].name in Referenced(b, last, records)
  {
    hide Matches, AsObjects, DistinctRecords;
    forall i | 0 <= i < |records| ensures Clean(b, last, objects, records[i]) {
      SoleMatch(records, objects, i);
    }
    forall i | 0 <= i < |objects| ensures objects[i].name in Referenced(b, last, records) {
      PairCount(records, objects[i]);
      assert objects[i] in multiset(objects);
    }
  }

  lemma SoleMatch(records: seq<Record>, objects: seq<Object>, i: nat)
    requires DistinctRecords(records) && multiset(AsObjects(records)) == multiset(objects) && i < |records|
    ensures multiset(Matches(objects, records[i].name)) == multiset{AsObject(records[i])}
  {
    hide Matches, AsObjects;
    MatchCount(objects, records[i].name);
    forall o ensures multiset(Matches(objects, records[i].name))[o] == multiset{AsObject(records[i])}[o] {
      PairCount(records, o);
    }
  }

  function TotalBytes(objects: seq<Object>): nat {
    if objects == [] then 0 else TotalBytes(objects[..|objects| - 1]) + objects[|objects| - 1].size
  }

  lemma {:induction false} BytesJoin(a: seq<Object>, c: seq<Object>)
    ensures TotalBytes(a + c) == TotalBytes(a) + TotalBytes(c)
    decreases |c|
  {
    if c == [] {
      assert a + c == a;
    } else {
      assert (a + c)[..|a + c| - 1] == a + c[..|c| - 1];
      BytesJoin(a, c[..|c| - 1]);
    }
  }

  lemma BytesAround(front: seq<Object>, o: Object, back: seq<Object>)
    ensures TotalBytes(front + [o] + back) == TotalBytes(front + back) + o.size
  {
    BytesJoin(front + [o], back);
    BytesJoin(front, [o]);
    BytesJoin(front, back);
    assert [o][..0] == [];
  }

  lemma BagAround<T>(front: seq<T>, o: T, back: seq<T>)
    ensures multiset(front + [o] + back) == multiset(front + back) + multiset{o}
  {
  }

  lemma BytesWithout(objects: seq<Object>, k: nat)
    requires k < |objects|
    ensures TotalBytes(objects) == TotalBytes(objects[..k] + objects[k + 1..]) + objects[k].size
    ensures multiset(objects) == multiset(objects[..k] + objects[k + 1..]) + multiset{objects[k]}
  {
    hide TotalBytes;
    var front, o, back := objects[..k], objects[k], objects[k + 1..];
    SplitAt(objects, k);
    BytesAround(front, o, back);
    BagAround(front, o, back);
  }

  lemma SplitAt<T>(items: seq<T>, k: nat)
    requires k < |items|
    ensures items == items[..k] + [items[k]] + items[k + 1..]
  {
  }

  lemma {:induction false} SameBytes(a: seq<Object>, b: seq<Object>)
    requires multiset(a) == multiset(b)
    ensures |a| == |b| && TotalBytes(a) == TotalBytes(b)
    decreases |a|
  {
    assert |multiset(a)| == |a| && |multiset(b)| == |b|;
    if a != [] {
      var n := |a| - 1;
      SplitLast(a);
      assert a[n] in multiset(b);
      var k :| 0 <= k < |b| && b[k] == a[n];
      BytesWithout(b, k);
      assert multiset(a[..n]) == multiset(a) - multiset{a[n]};
      assert multiset(b[..k] + b[k + 1..]) == multiset(b) - multiset{b[k]};
      SameBytes(a[..n], b[..k] + b[k + 1..]);
    }
  }

  // A healthy report means as many objects as records and the same total number of bytes.
  lemma HealthyTotals(b: Backend, last: LastComponent, records: seq<Record>, objects: seq<Object>)
    requires DistinctRecords(records) && AllIssues(b, last, records, objects) == []
    ensures |records| == |objects| && TotalBytes(AsObjects(records)) == TotalBytes(objects)
  {
    HealthyExactly(b, last, records, objects);
    SameBytes(AsObjects(records), objects);
  }
}
