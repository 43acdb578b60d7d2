/**
 * Lightbox navigation of the photo gallery: which filtered photo is the
 * current one, whether the "previous" and "next" buttons are offered, and
 * which photo each of them opens. Photos are matched by id, so an active
 * photo taken from the placeholder list still finds its metadata-merged copy.
 */
module Navigation {
  import opened Wrappers
  import opened Photos

  /** `currentIndex`: the first index in `filtered` whose id is the active photo's, or -1. */
  function CurrentIndex(filtered: seq<Photo>, active: Option<Photo>): (i: int)
    ensures -1 <= i < |filtered|
    ensures i >= 0 ==> active.Some? && filtered[i].id == active.value.id
                       && forall j :: 0 <= j < i ==> filtered[j].id != active.value.id
    ensures i == -1 <==> active.None? || forall j :: 0 <= j < |filtered| ==> filtered[j].id != active.value.id
  {
    if active.None? then -1 else FindIndexById(filtered, active.value.id)
  }

  /** `hasNext`: the current index is not the last one (true for -1 when the list is non-empty). */
  predicate HasNext(filtered: seq<Photo>, active: Option<Photo>) {
    CurrentIndex(filtered, active) < |filtered| - 1
  }

  /** `hasPrev`: the current index is past the first one. */
  predicate HasPrev(filtered: seq<Photo>, active: Option<Photo>) {
    CurrentIndex(filtered, active) > 0
  }

  /** The active photo after `handleNextPhoto`: the following filtered photo, or unchanged. */
  function AfterNext(filtered: seq<Photo>, active: Option<Photo>): (a: Option<Photo>)
    ensures HasNext(filtered, active) ==> a.Some? && a.value in filtered
    ensures !HasNext(filtered, active) ==> a == active
  {
    if HasNext(filtered, active) then Some(filtered[CurrentIndex(filtered, active) + 1]) else active
  }

  /** The active photo after `handlePrevPhoto`: the preceding filtered photo, or unchanged. */
  function AfterPrev(filtered: seq<Photo>, active: Option<Photo>): (a: Option<Photo>)
    ensures HasPrev(filtered, active) ==> a.Some? && a.value in filtered
    ensures !HasPrev(filtered, active) ==> a == active
  {
    if HasPrev(filtered, active) then Some(filtered[CurrentIndex(filtered, active) - 1]) else active
  }

  /** An active photo that is an element of the filtered list stays one after next or prev. */
  lemma NavigationStaysInFiltered(f: seq<Photo>, a: Option<Photo>)
    requires a.Some? && a.value in f
    ensures AfterNext(f, a).Some? && AfterNext(f, a).value in f
    ensures AfterPrev(f, a).Some? && AfterPrev(f, a).value in f
  {
  }

  /**
   * With distinct ids, the photo at index k is current at k; "next" is offered
   * exactly when k is not the last index and "prev" exactly when k is not the
   * first: no wrap-around at either end.
   */
  lemma {:induction false} ButtonsAtIndex(f: seq<Photo>, k: nat)
    requires UniqueIds(f) && k < |f|
    ensures CurrentIndex(f, Some(f[k])) == k
    ensures HasNext(f, Some(f[k])) <==> k < |f| - 1
    ensures HasPrev(f, Some(f[k])) <==> k > 0
  {
    FindOwnIndex(f, k);
  }

  /** With distinct ids, "next" moves the current index from k to k + 1. */
  lemma {:induction false} NextMovesByOne(f: seq<Photo>, k: nat)
    requires UniqueIds(f) && k + 1 < |f|
    ensures AfterNext(f, Some(f[k])) == Some(f[k + 1])
    ensures CurrentIndex(f, AfterNext(f, Some(f[k]))) == k + 1
  {
    FindOwnIndex(f, k);
    FindOwnIndex(f, k + 1);
  }

  /** With distinct ids, "prev" moves the current index from k to k - 1. */
  lemma {:induction false} PrevMovesByOne(f: seq<Photo>, k: nat)
    requires UniqueIds(f) && 0 < k < |f|
    ensures AfterPrev(f, Some(f[k])) == Some(f[k - 1])
    ensures CurrentIndex(f, AfterPrev(f, Some(f[k]))) == k - 1
  {
    FindOwnIndex(f, k);
    FindOwnIndex(f, k - 1);
  }

  /** At the last photo "next" changes nothing, and at the first "prev" changes nothing. */
  lemma {:induction false} NoWrapAround(f: seq<Photo>)
    requires UniqueIds(f) && f != []
    ensures AfterNext(f, Some(f[|f| - 1])) == Some(f[|f| - 1])
    ensures AfterPrev(f, Some(f[0])) == Some(f[0])
  {
    ButtonsAtIndex(f, |f| - 1);
    ButtonsAtIndex(f, 0);
  }

  /** Next then prev, and prev then next, come back to the photo at index k. */
  lemma {:induction false} NextPrevRoundTrip(f: seq<Photo>, k: nat)
    requires UniqueIds(f) && k < |f|
    ensures k + 1 < |f| ==> AfterPrev(f, AfterNext(f, Some(f[k]))) == Some(f[k])
    ensures k > 0 ==> AfterNext(f, AfterPrev(f, Some(f[k]))) == Some(f[k])
  {
    if k + 1 < |f| {
      NextMovesByOne(f, k);
      PrevMovesByOne(f, k + 1);
    }
    if k > 0 {
      PrevMovesByOne(f, k);
      NextMovesByOne(f, k - 1);
    }
  }

  /**
   * An active photo whose id is not in the filtered list (or no active photo):
   * no index is current, "prev" is never offered, "next" is offered whenever
   * the list is non-empty and then opens the first filtered photo.
   */
  lemma NotInFiltered(f: seq<Photo>, a: Option<Photo>)
    requires a.Some? ==> forall j :: 0 <= j < |f| ==> f[j].id != a.value.id
    ensures CurrentIndex(f, a) == -1
    ensures !HasPrev(f, a) && AfterPrev(f, a) == a
    ensures HasNext(f, a) <==> f != []
    ensures f != [] ==> AfterNext(f, a) == Some(f[0])
  {
  }

  /** "prev" changes the active photo exactly when it is offered. */
  lemma PrevMovesIffOffered(f: seq<Photo>, a: Option<Photo>)
    ensures HasPrev(f, a) <==> AfterPrev(f, a) != a
  {
  }

  /** With distinct ids, "next" changes the active photo exactly when it is offered. */
  lemma {:induction false} NextMovesIffOffered(f: seq<Photo>, a: Option<Photo>)
    requires UniqueIds(f)
    ensures HasNext(f, a) <==> AfterNext(f, a) != a
  {
    var i := CurrentIndex(f, a);
    if HasNext(f, a) && i >= 0 {
      assert f[i + 1].id != f[i].id;
    }
  }

  /**
   * Changing the filter leaves the active photo in place: with photo 2
   * ("nature") open and the "street" filter chosen, the viewer still shows
   * photo 2, no index is current, and "next" jumps to photo 1.
   */
  lemma StaleActiveAfterFilter()
    ensures LightboxShown(Some(SourcePhotos[1]))
    ensures CurrentIndex(Visible(SourcePhotos, "street"), Some(SourcePhotos[1])) == -1
    ensures !HasPrev(Visible(SourcePhotos, "street"), Some(SourcePhotos[1]))
    ensures AfterNext(Visible(SourcePhotos, "street"), Some(SourcePhotos[1])) == Some(SourcePhotos[0])
  {
    SourcePhotosFiltered();
    var f := Visible(SourcePhotos, "street");
    assert Ids(f) == [1, 3];
    assert f[0].id == 1 && f[1].id == 3;
    FilterMembers(SourcePhotos, "street", f[0]);
    assert f[0] == SourcePhotos[0];
    NotInFiltered(f, Some(SourcePhotos[1]));
  }
}
