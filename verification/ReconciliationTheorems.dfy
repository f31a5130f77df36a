/** What a reconciliation report says: each category, each count and each issue from the records and
    the objects alone. */
module ReconciliationTheorems {
  import opened Options
  import opened Reconciliation
  import opened StoredNames
  import opened TextOrder

  predicate Foreign(b: Backend, r: Record) {
    ("s3:" <= r.name) != (b == S3)
  }

  // The name a record has in the store.
  function NameInStore(b: Backend, last: LastComponent, r: Record): string {
    match b
    case S3 => r.name
    case Local => last(r.name)
  }

  // What is wrong with a record.
  ghost predicate Wrong(c: Category, b: Backend, last: LastComponent, objects: seq<Object>, r: Record) {
    var name := NameInStore(b, last, r);
    match c
    case BackendMismatch => Foreign(b, r)
    case InvalidStoredName => !Foreign(b, r) && name != r.name
    case MissingObject => !Foreign(b, r) && forall k :: 0 <= k < |objects| ==> objects[k].name != name
    case DuplicateStorageName =>
      !Foreign(b, r) && exists k, m :: 0 <= k < m < |objects| && objects[k].name == objects[m].name == name
    case SizeMismatch =>
      !Foreign(b, r) && exists k :: 0 <= k < |objects| && objects[k].name == name && objects[k].size != r.size
                                    && forall m :: 0 <= m < |objects| && m != k ==> objects[m].name != name
    case OrphanObject => false
  }

  // An object no record on the backend stands for.
  ghost predicate Orphaned(b: Backend, last: LastComponent, records: seq<Record>, o: Object) {
    forall i :: 0 <= i < |records| && !Foreign(b, records[i]) ==> NameInStore(b, last, records[i]) != o.name
  }

  ghost function WrongOnes(c: Category, b: Backend, last: LastComponent, objects: seq<Object>, records: seq<Record>):
      set<nat> {
    set i | 0 <= i < |records| && Wrong(c, b, last, objects, records[i])
  }

  ghost function OrphanedOnes(b: Backend, last: LastComponent, records: seq<Record>, objects: seq<Object>): set<nat> {
    set k | 0 <= k < |objects| && Orphaned(b, last, records, objects[k])
  }

  // The number of objects with a name decides which of three lists they are.
  lemma {:induction false} MatchedObjects(objects: seq<Object>, name: string)
    ensures |Matches(objects, name)| == 0 <==> forall k :: 0 <= k < |objects| ==> objects[k].name != name
    ensures |Matches(objects, name)| >= 1 ==>
              exists k :: 0 <= k < |objects| && objects[k].name == name && objects[k] == Matches(objects, name)[0]
    ensures |Matches(objects, name)| > 1 <==>
              exists k, m :: 0 <= k < m < |objects| && objects[k].name == objects[m].name == name
  {
    if objects != [] {
      var n := |objects| - 1;
      MatchedObjects(objects[..n], name);
      assert forall k :: 0 <= k < n ==> objects[..n][k] == objects[k];
      if objects[n].name == name && |Matches(objects[..n], name)| >= 1 {
        var k :| 0 <= k < n && objects[..n][k].name == name;
        assert objects[k].name == objects[n].name == name;
      }
    }
  }

  lemma AtMostOne(part: seq<Issue>, r: Record, c: Category)
    requires |part| <= 1 && (part != [] ==> part[0].file == Some(r.id) && part[0].name == r.name)
    ensures CountOf(part, c) == multiset(part)[Issue(c, Some(r.id), r.name)]
            == if part != [] && part[0].category == c then 1 else 0
  {
    if part != [] {
      assert part == [part[0]] && part[..0] == [];
      assert part[0] == Issue(part[0].category, part[0].file, part[0].name);
    }
  }

  // The two independent findings about a record on the backend.
  lemma TwoParts(b: Backend, last: LastComponent, objects: seq<Object>, r: Record)
    returns (named: seq<Issue>, stored: seq<Issue>)
    ensures RecordIssues(b, last, objects, r) == named + stored && |named| <= 1 && |stored| <= 1
    ensures forall part: seq<Issue> :: part == named || part == stored ==>
              part != [] ==> part[0].file == Some(r.id) && part[0].name == r.name
    ensures forall c ::
      ((named != [] && named[0].category == c) || (stored != [] && stored[0].category == c)
       <==> Wrong(c, b, last, objects, r))
      && !(named != [] && named[0].category == c && stored != [] && stored[0].category == c)
  {
    hide Matches;
    var found := Matches(objects, NameInStore(b, last, r));
    MatchedObjects(objects, NameInStore(b, last, r));
    if |found| == 1 {
      SoleMatchSize(objects, NameInStore(b, last, r), r.size);
    }
    if !OnBackend(b, r) {
      named, stored := [Issue(BackendMismatch, Some(r.id), r.name)], [];
    } else {
      named := if Logical(b, last, r) != r.name then [Issue(InvalidStoredName, Some(r.id), r.name)] else [];
      stored := if found == [] then [Issue(MissingObject, Some(r.id), r.name)]
        else if |found| > 1 then [Issue(DuplicateStorageName, Some(r.id), r.name)]
        else if found[0].size != r.size then [Issue(SizeMismatch, Some(r.id), r.name)]
        else [];
    }
  }

  // A record is reported once for each thing that is wrong with it, under its id and stored name.
  lemma RecordReported(b: Backend, last: LastComponent, objects: seq<Object>, r: Record, c: Category)
    ensures var issues := RecordIssues(b, last, objects, r);
      && multiset(issues)[Issue(c, Some(r.id), r.name)] == CountOf(issues, c)
         == (if Wrong(c, b, last, objects, r) then 1 else 0)
      && (forall i :: i in multiset(issues) ==> i.file == Some(r.id) && i.name == r.name)
  {
    hide RecordIssues, Wrong, CountOf;
    var named, stored := TwoParts(b, last, objects, r);
    AtMostOne(named, r, c);
    AtMostOne(stored, r, c);
    CountAppend(named, stored, c);
    assert multiset(named + stored) == multiset(named) + multiset(stored);
  }

  lemma SoleMatchSize(objects: seq<Object>, name: string, size: nat)
    requires |Matches(objects, name)| == 1
    ensures Matches(objects, name)[0].size != size <==>
            exists k :: 0 <= k < |objects| && objects[k].name == name && objects[k].size != size
                        && forall m :: 0 <= m < |objects| && m != k ==> objects[m].name != name
  {
    hide Matches;
    MatchedObjects(objects, name);
    var k :| 0 <= k < |objects| && objects[k].name == name && objects[k] == Matches(objects, name)[0];
    forall m | 0 <= m < |objects| && m != k ensures objects[m].name != name {
      assert m < k || k < m;
    }
  }

  lemma {:induction false} CountAppend(a: seq<Issue>, more: seq<Issue>, c: Category)
    ensures CountOf(a + more, c) == CountOf(a, c) + CountOf(more, c)
    decreases |more|
  {
    if more == [] {
      assert a + more == a;
    } else {
      assert (a + more)[..|a + more| - 1] == a + more[..|more| - 1];
      CountAppend(a, more[..|more| - 1], c);
    }
  }

  lemma OneMore(a: set<nat>, n: nat, more: bool)
    requires n !in a
    ensures |a + if more then {n} else {}| == |a| + if more then 1 else 0
  {
  }

  lemma WrongMore(c: Category, b: Backend, last: LastComponent, objects: seq<Object>, records: seq<Record>)
    requires records != []
    ensures var n := |records| - 1;
      && n !in WrongOnes(c, b, last, objects, records[..n])
      && WrongOnes(c, b, last, objects, records) == WrongOnes(c, b, last, objects, records[..n])
                                                    + if Wrong(c, b, last, objects, records[n]) then {n} else {}
  {
    hide Wrong;
  }

  lemma {:induction false} RecordCounts(b: Backend, last: LastComponent, objects: seq<Object>, records: seq<Record>,
                                        c: Category)
    ensures CountOf(AllRecordIssues(b, last, objects, records), c) == |WrongOnes(c, b, last, objects, records)|
  {
    hide RecordIssues, Wrong, CountOf, WrongOnes;
    if records == [] {
      NoneWrong(c, b, last, objects);
    } else {
      var n := |records| - 1;
      RecordCounts(b, last, objects, records[..n], c);
      CountAppend(AllRecordIssues(b, last, objects, records[..n]), RecordIssues(b, last, objects, records[n]), c);
      RecordReported(b, last, objects, records[n], c);
      WrongMore(c, b, last, objects, records);
      OneMore(WrongOnes(c, b, last, objects, records[..n]), n, Wrong(c, b, last, objects, records[n]));
    }
  }

  lemma NoneWrong(c: Category, b: Backend, last: LastComponent, objects: seq<Object>)
    ensures CountOf([], c) == 0 && WrongOnes(c, b, last, objects, []) == {}
  {
  }

  lemma OrphanedMore(b: Backend, last: LastComponent, records: seq<Record>, objects: seq<Object>)
    requires objects != []
    ensures var n := |objects| - 1;
      && n !in OrphanedOnes(b, last, records, objects[..n])
      && OrphanedOnes(b, last, records, objects)
         == OrphanedOnes(b, last, records, objects[..n]) + if Orphaned(b, last, records, objects[n]) then {n} else {}
  {
    hide Orphaned;
  }

  lemma {:induction false} OrphanCounts(b: Backend, last: LastComponent, records: seq<Record>, objects: seq<Object>,
                                        c: Category)
    ensures CountOf(Orphans(objects, Referenced(b, last, records)), c)
            == if c == OrphanObject then |OrphanedOnes(b, last, records, objects)| else 0
  {
    hide Orphaned, Referenced, OrphanedOnes;
    if objects == [] {
      NoneOrphaned(b, last, records);
    } else {
      var n := |objects| - 1;
      OrphanCounts(b, last, records, objects[..n], c);
      NotReferenced(b, last, records, objects[n]);
      var before := Orphans(objects[..n], Referenced(b, last, records));
      OneMoreIssue(before, Issue(OrphanObject, None, objects[n].name), c);
      OrphanedMore(b, last, records, objects);
      OneMore(OrphanedOnes(b, last, records, objects[..n]), n, Orphaned(b, last, records, objects[n]));
    }
  }

  lemma OneMoreIssue(before: seq<Issue>, i: Issue, c: Category)
    ensures CountOf(before + [i], c) == CountOf(before, c) + if i.category == c then 1 else 0
    ensures before + [] == before
  {
    assert (before + [i])[..|before|] == before;
  }

  lemma NoneOrphaned(b: Backend, last: LastComponent, records: seq<Record>)
    ensures OrphanedOnes(b, last, records, []) == {}
  {
  }

  lemma NotReferenced(b: Backend, last: LastComponent, records: seq<Record>, o: Object)
    ensures o.name !in Referenced(b, last, records) <==> Orphaned(b, last, records, o)
  {
    hide Foreign, OnBackend, NameInStore, Logical;
    forall i | 0 <= i < |records|
      ensures OnBackend(b, records[i]) <==> !Foreign(b, records[i])
      ensures Logical(b, last, records[i]) == NameInStore(b, last, records[i])
    {
      SameNotions(b, last, records[i]);
    }
  }

  lemma SameNotions(b: Backend, last: LastComponent, r: Record)
    ensures OnBackend(b, r) <==> !Foreign(b, r)
    ensures Logical(b, last, r) == NameInStore(b, last, r)
  {
  }

  // Every count of a report is the number of records or objects with that very thing wrong.
  lemma CountsMean(b: Backend, last: LastComponent, records: seq<Record>, objects: seq<Object>, c: Category)
    ensures CountOf(AllIssues(b, last, records, objects), c)
            == if c == OrphanObject then |OrphanedOnes(b, last, records, objects)|
               else |WrongOnes(c, b, last, objects, records)|
  {
    hide AllRecordIssues, Orphans, Referenced, Wrong, Orphaned;
    var found, orphans := AllRecordIssues(b, last, objects, records), Orphans(objects, Referenced(b, last, records));
    CountAppend(found, orphans, c);
    RecordCounts(b, last, objects, records, c);
    OrphanCounts(b, last, records, objects, c);
    if c == OrphanObject {
      NoRecordIsOrphan(b, last, objects, records);
    }
  }

  lemma NoRecordIsOrphan(b: Backend, last: LastComponent, objects: seq<Object>, records: seq<Record>)
    ensures WrongOnes(OrphanObject, b, last, objects, records) == {}
  {
  }

  // An issue is reported exactly for a record with that thing wrong, under its id and stored name,
  // or for an object no record stands for, under its name.
  lemma ReportedExactly(b: Backend, last: LastComponent, records: seq<Record>, objects: seq<Object>, i: Issue)
    ensures i in AllIssues(b, last, records, objects) <==>
            || (exists k :: 0 <= k < |records| && i.file == Some(records[k].id) && i.name == records[k].name
                            && Wrong(i.category, b, last, objects, records[k]))
            || (i.category == OrphanObject && i.file == None
                && exists k ::
                     0 <= k < |objects| && i.name == objects[k].name && Orphaned(b, last, records, objects[k]))
  {
    hide AllRecordIssues, Orphans, Referenced, Wrong, Orphaned;
    RecordIn(b, last, objects, records, i);
    OrphanIn(b, last, records, objects, i);
  }

  lemma {:induction false} RecordIn(b: Backend, last: LastComponent, objects: seq<Object>, records: seq<Record>,
                                    i: Issue)
    ensures i in AllRecordIssues(b, last, objects, records) <==>
            exists k :: 0 <= k < |records| && i.file == Some(records[k].id) && i.name == records[k].name
                        && Wrong(i.category, b, last, objects, records[k])
  {
    hide RecordIssues, Wrong;
    if records != [] {
      var n := |records| - 1;
      var more := RecordIssues(b, last, objects, records[n]);
      RecordIn(b, last, objects, records[..n], i);
      RecordReported(b, last, objects, records[n], i.category);
      assert i in more <==> i in multiset(more);
      assert i == Issue(i.category, i.file, i.name);
      assert forall k :: 0 <= k < n ==> records[..n][k] == records[k];
    }
  }

  lemma {:induction false} OrphanIn(b: Backend, last: LastComponent, records: seq<Record>, objects: seq<Object>,
                                    i: Issue)
    ensures i in Orphans(objects, Referenced(b, last, records)) <==>
            i.category == OrphanObject && i.file == None
            && exists k :: 0 <= k < |objects| && i.name == objects[k].name && Orphaned(b, last, records, objects[k])
  {
    hide Orphaned, Referenced;
    if objects != [] {
      var n := |objects| - 1;
      assert i == Issue(i.category, i.file, i.name);
      OrphanIn(b, last, records, objects[..n], i);
      NotReferenced(b, last, records, objects[n]);
      assert forall k :: 0 <= k < n ==> objects[..n][k] == objects[k];
    }
  }

  // Sorted details come category by category in this order.
  lemma CategoryOrder()
    ensures CategoryBefore(BackendMismatch, DuplicateStorageName)
    ensures CategoryBefore(DuplicateStorageName, InvalidStoredName)
    ensures CategoryBefore(InvalidStoredName, MissingObject) && CategoryBefore(MissingObject, OrphanObject)
    ensures CategoryBefore(OrphanObject, SizeMismatch)
  {
    assert CategoryText(BackendMismatch)[0] < CategoryText(DuplicateStorageName)[0];
    assert CategoryText(DuplicateStorageName)[0] < CategoryText(InvalidStoredName)[0];
    assert CategoryText(InvalidStoredName)[0] < CategoryText(MissingObject)[0] < CategoryText(OrphanObject)[0];
    assert CategoryText(OrphanObject)[0] < CategoryText(SizeMismatch)[0];
  }

  predicate CategoryBefore(c: Category, d: Category) {
    CategoryText(c) != CategoryText(d) && TextLe(CategoryText(c), CategoryText(d))
  }
}
