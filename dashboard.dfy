/**
 * The home dashboard: the "Learning Paths" list of bookmarked catalog
 * subjects, its count and empty state, and the (computed but not shown)
 * average progress over that list.
 */
module Dashboard {
  import opened Subjects

  /** `subjects.filter(subject => bookmarkedSubjects.includes(subject.id))` */
  function BookmarkedSubjectsList(catalog: seq<Subject>, bookmarks: seq<string>): (r: seq<Subject>)
    ensures IsSubseq(r, catalog)
    ensures forall s :: s in r <==> s in catalog && s.id in bookmarks
    ensures forall s :: multiset(r)[s] == if s.id in bookmarks then multiset(catalog)[s] else 0
  {
    if catalog == [] then []
    else
      assert catalog == [catalog[0]] + catalog[1..];
      assert multiset(catalog) == multiset{catalog[0]} + multiset(catalog[1..]);
      var rest := BookmarkedSubjectsList(catalog[1..], bookmarks);
      if catalog[0].id in bookmarks then
        assert ([catalog[0]] + rest)[1..] == rest;
        [catalog[0]] + rest
      else rest
  }

  /** Deleting elements never makes a list longer. */
  lemma {:induction false} SubseqLength<T>(a: seq<T>, b: seq<T>)
    requires IsSubseq(a, b)
    ensures |a| <= |b|
    decreases |b|
  {
    if b != [] {
      if a != [] && a[0] == b[0] && IsSubseq(a[1..], b[1..]) {
        SubseqLength(a[1..], b[1..]);
      } else {
        SubseqLength(a, b[1..]);
      }
    }
  }

  /** Deleting subjects keeps their ids unique. */
  lemma {:induction false} SubseqUniqueIds(a: seq<Subject>, b: seq<Subject>)
    requires IsSubseq(a, b) && UniqueIds(b)
    ensures UniqueIds(a)
    decreases |b|
  {
    if b != [] {
      if a != [] && a[0] == b[0] && IsSubseq(a[1..], b[1..]) {
        SubseqUniqueIds(a[1..], b[1..]);
        SubseqElements(a[1..], b[1..]);
        forall i, j | 0 <= i < j < |a| ensures a[i].id != a[j].id {
          if i == 0 {
            assert a[j] == a[1..][j - 1];
            assert a[j] in b[1..];
            var k :| 0 <= k < |b[1..]| && b[1..][k] == a[j];
            assert b[k + 1] == a[j];
          }
        }
      } else {
        SubseqUniqueIds(a, b[1..]);
      }
    }
  }

  function IdSet(subjects: seq<Subject>): set<string> {
    set i | 0 <= i < |subjects| :: subjects[i].id
  }

  /** With unique ids there are as many ids as subjects. */
  lemma {:induction false} IdSetSize(subjects: seq<Subject>)
    requires UniqueIds(subjects)
    ensures |IdSet(subjects)| == |subjects|
  {
    if subjects != [] {
      var rest := subjects[1..];
      IdSetSize(rest);
      assert IdSet(subjects) == {subjects[0].id} + IdSet(rest) by {
        forall x | x in IdSet(subjects) ensures x in {subjects[0].id} + IdSet(rest) {
          var i :| 0 <= i < |subjects| && subjects[i].id == x;
          if i > 0 {
            assert rest[i - 1].id == x;
          }
        }
      }
      assert subjects[0].id !in IdSet(rest) by {
        forall i | 0 <= i < |rest| ensures rest[i].id != subjects[0].id {
          assert rest[i] == subjects[i + 1];
        }
      }
    }
  }

  lemma {:induction false} SubsetSize<T>(a: set<T>, b: set<T>)
    requires a <= b
    ensures |a| <= |b|
  {
    assert b == a + (b - a);
  }

  /** The list is never longer than the catalog. */
  lemma BookmarkedListShorter(catalog: seq<Subject>, bookmarks: seq<string>)
    ensures |BookmarkedSubjectsList(catalog, bookmarks)| <= |catalog|
  {
    SubseqLength(BookmarkedSubjectsList(catalog, bookmarks), catalog);
  }

  /**
   * The catalog's ids being unique, the list is never longer than the
   * number of distinct bookmarked ids.
   */
  lemma BookmarkedListBound(catalog: seq<Subject>, bookmarks: seq<string>)
    requires UniqueIds(catalog)
    ensures |BookmarkedSubjectsList(catalog, bookmarks)| <= |set id | id in bookmarks|
  {
    var r := BookmarkedSubjectsList(catalog, bookmarks);
    SubseqUniqueIds(r, catalog);
    IdSetSize(r);
    assert IdSet(r) <= set id | id in bookmarks by {
      forall x | x in IdSet(r) ensures x in bookmarks {
        var i :| 0 <= i < |r| && r[i].id == x;
        assert r[i] in r;
      }
    }
    SubsetSize(IdSet(r), set id | id in bookmarks);
  }

  /**
   * The "No Bookmarked Subjects" state is shown exactly when no catalog
   * subject's id is bookmarked; stale ids of unknown subjects do not count.
   */
  lemma EmptyStateExactly(catalog: seq<Subject>, bookmarks: seq<string>)
    ensures BookmarkedSubjectsList(catalog, bookmarks) == [] <==>
            forall i :: 0 <= i < |catalog| ==> catalog[i].id !in bookmarks
  {
    var r := BookmarkedSubjectsList(catalog, bookmarks);
    if r != [] {
      assert r[0] in r;
    }
    if exists i :: 0 <= i < |catalog| && catalog[i].id in bookmarks {
      var i :| 0 <= i < |catalog| && catalog[i].id in bookmarks;
      assert catalog[i] in r;
    }
  }

  // ---------------------------------------------------------------------
  // Average progress, in exact arithmetic
  // ---------------------------------------------------------------------

  /**
   * `completedTopics / totalTopics`; a zero total gives `NaN` or an
   * infinity, which this model lumps together as `None`.
   */
  function Ratio(subject: Subject): Option<real> {
    if subject.totalTopics == 0 then None
    else Some(subject.completedTopics as real / subject.totalTopics as real)
  }

  /** `list.reduce((acc, subject) => acc + ratio(subject), acc)` */
  function SumRatios(acc: Option<real>, list: seq<Subject>): Option<real>
    decreases list
  {
    if list == [] then acc
    else
      var next := match (acc, Ratio(list[0]))
        case (Some(a), Some(x)) => Some(a + x)
        case _ => None;
      SumRatios(next, list[1..])
  }

  /** `totalProgress`: 0 for an empty list, else the mean ratio times 100. */
  function TotalProgress(list: seq<Subject>): (p: Option<real>)
    ensures list == [] ==> p == Some(0.0)
  {
    if |list| > 0 then
      match SumRatios(Some(0.0), list)
      case Some(total) => Some(total / |list| as real * 100.0)
      case None => None
    else Some(0.0)
  }

  predicate ValidProgress(subject: Subject) {
    0 <= subject.completedTopics <= subject.totalTopics && subject.totalTopics > 0
  }

  lemma {:induction false} SumRatiosBounds(acc: real, list: seq<Subject>)
    requires forall i :: 0 <= i < |list| ==> ValidProgress(list[i])
    ensures SumRatios(Some(acc), list).Some?
    ensures acc <= SumRatios(Some(acc), list).value <= acc + |list| as real
    decreases list
  {
    if list != [] {
      var s := list[0];
      var x := s.completedTopics as real / s.totalTopics as real;
      assert 0.0 <= x <= 1.0 by {
        assert s.completedTopics as real <= s.totalTopics as real;
      }
      SumRatiosBounds(acc + x, list[1..]);
    }
  }

  /**
   * When every listed subject has between 0 and all of its topics done, the
   * average progress is a percentage between 0 and 100.
   */
  lemma TotalProgressIsPercentage(list: seq<Subject>)
    requires forall i :: 0 <= i < |list| ==> ValidProgress(list[i])
    ensures TotalProgress(list).Some?
    ensures 0.0 <= TotalProgress(list).value <= 100.0
  {
    if list != [] {
      SumRatiosBounds(0.0, list);
      var total := SumRatios(Some(0.0), list).value;
      var n := |list| as real;
      assert 0.0 <= total / n <= 1.0;
    }
  }

  /** No bookmarked catalog subject: the list is empty and the progress is 0. */
  lemma NothingBookmarkedNoProgress(catalog: seq<Subject>, bookmarks: seq<string>)
    requires forall i :: 0 <= i < |catalog| ==> catalog[i].id !in bookmarks
    ensures BookmarkedSubjectsList(catalog, bookmarks) == []
    ensures TotalProgress(BookmarkedSubjectsList(catalog, bookmarks)) == Some(0.0)
  {
    EmptyStateExactly(catalog, bookmarks);
  }

  /** The built-in catalog's ids are unique. */
  lemma CatalogIdsUnique()
    ensures UniqueIds(Catalog)
  {
  }

  /** An id that names no catalog subject changes nothing in the list. */
  lemma {:induction false} StaleIdIgnored(catalog: seq<Subject>, bookmarks: seq<string>, stale: string)
    requires forall i :: 0 <= i < |catalog| ==> catalog[i].id != stale
    ensures BookmarkedSubjectsList(catalog, bookmarks + [stale]) == BookmarkedSubjectsList(catalog, bookmarks)
  {
    if catalog != [] {
      StaleIdIgnored(catalog[1..], bookmarks, stale);
      assert catalog[0].id in bookmarks + [stale] <==> catalog[0].id in bookmarks;
    }
  }
}
