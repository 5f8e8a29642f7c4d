/**
 * The bookmark list update shared by the root component's `toggleBookmark`
 * and the subject catalog's `handleBookmarkClick`: an id that is present is
 * filtered out (every occurrence), an id that is absent is appended.
 */
module Bookmarks {
  import opened Subjects

  predicate NoDuplicates(ids: seq<string>) {
    forall i, j :: 0 <= i < j < |ids| ==> ids[i] != ids[j]
  }

  /** `ids.filter(x => x !== id)` */
  function Without(ids: seq<string>, id: string): (r: seq<string>)
    ensures id !in r
    ensures multiset(r) == multiset(ids)[id := 0]
    ensures IsSubseq(r, ids)
  {
    if ids == [] then []
    else
      assert ids == [ids[0]] + ids[1..];
      var rest := Without(ids[1..], id);
      if ids[0] == id then rest
      else
        assert ([ids[0]] + rest)[1..] == rest;
        [ids[0]] + rest
  }

  /** `ids.includes(id) ? ids.filter(x => x !== id) : [...ids, id]` */
  function Toggle(ids: seq<string>, id: string): (r: seq<string>)
    ensures id in r <==> id !in ids
    ensures forall y :: y != id ==> multiset(r)[y] == multiset(ids)[y]
    ensures id !in ids ==> r == ids + [id]
    ensures id in ids ==> IsSubseq(r, ids) && |r| < |ids|
  {
    if id in ids then
      assert multiset(ids)[id] > 0;
      Without(ids, id)
    else ids + [id]
  }

  /** Filtering out an id that does not occur changes nothing. */
  lemma {:induction false} WithoutAbsent(ids: seq<string>, id: string)
    requires id !in ids
    ensures Without(ids, id) == ids
  {
    if ids != [] {
      WithoutAbsent(ids[1..], id);
    }
  }

  /** Filtering distributes over concatenation. */
  lemma {:induction false} WithoutAppend(a: seq<string>, b: seq<string>, id: string)
    ensures Without(a + b, id) == Without(a, id) + Without(b, id)
  {
    if a == [] {
      assert a + b == b;
    } else {
      assert (a + b)[1..] == a[1..] + b;
      WithoutAppend(a[1..], b, id);
    }
  }

  /** Toggling an absent id twice gives back exactly the original list. */
  lemma ToggleTwiceAbsent(ids: seq<string>, id: string)
    requires id !in ids
    ensures Toggle(Toggle(ids, id), id) == ids
  {
    WithoutAppend(ids, [id], id);
    WithoutAbsent(ids, id);
    assert Without([id], id) == [];
  }

  /** A list with some elements deleted keeps the no-duplicates property. */
  lemma {:induction false} SubseqNoDuplicates(a: seq<string>, b: seq<string>)
    requires IsSubseq(a, b) && NoDuplicates(b)
    ensures NoDuplicates(a)
    ensures forall y :: y in a ==> y in b
    decreases |b|
  {
    if b != [] {
      if a != [] && a[0] == b[0] && IsSubseq(a[1..], b[1..]) {
        SubseqNoDuplicates(a[1..], b[1..]);
        assert a == [a[0]] + a[1..];
        forall i, j | 0 <= i < j < |a| ensures a[i] != a[j] {
          if i == 0 {
            assert a[j] in a[1..];
            assert a[j] in b[1..];
          }
        }
      } else {
        SubseqNoDuplicates(a, b[1..]);
      }
    }
  }

  /** Toggling keeps a duplicate-free list duplicate-free. */
  lemma ToggleKeepsNoDuplicates(ids: seq<string>, id: string)
    requires NoDuplicates(ids)
    ensures NoDuplicates(Toggle(ids, id))
  {
    if id in ids {
      SubseqNoDuplicates(Toggle(ids, id), ids);
    }
  }

  /** Seen as a set, toggling is the symmetric difference with `{id}`. */
  lemma ToggleAsSet(ids: seq<string>, id: string)
    ensures forall y :: y in Toggle(ids, id) <==> (if y == id then id !in ids else y in ids)
  {
    var r := Toggle(ids, id);
    forall y | y != id ensures y in r <==> y in ids {
      assert multiset(r)[y] == multiset(ids)[y];
    }
  }

  /**
   * For a duplicate-free list, toggling twice restores the same set of ids
   * (a present id comes back at the end of the list).
   */
  lemma ToggleTwicePresent(ids: seq<string>, id: string)
    requires NoDuplicates(ids) && id in ids
    ensures Toggle(Toggle(ids, id), id) == Without(ids, id) + [id]
    ensures forall y :: y in Toggle(Toggle(ids, id), id) <==> y in ids
    ensures NoDuplicates(Toggle(Toggle(ids, id), id))
  {
    ToggleAsSet(ids, id);
    ToggleAsSet(Toggle(ids, id), id);
    ToggleKeepsNoDuplicates(ids, id);
    ToggleKeepsNoDuplicates(Toggle(ids, id), id);
  }
}
