/**
 * The photo gallery page (`PhotosPage`) as an object: its React state
 * variables are fields, and every handler that calls a state setter is a
 * method that changes those fields. The derived views (`allPhotos`, the
 * filtered list, the badge counts, `currentIndex`, `hasNext`, `hasPrev`) are
 * functions of the current state.
 */
module Gallery {
  import opened Wrappers
  import opened Exif
  import opened Photos
  import opened Navigation

  class PhotosPage {
    /** The built-in photo list (`PLACEHOLDERS.photos`). */
    const placeholders: seq<Photo>
    var active: Option<Photo>
    var imageErrors: map<int, bool>
    var photosWithMetadata: seq<Photo>
    var loadingMetadata: bool
    var activeFilter: string
    /** What reading each placeholder's EXIF gave, once loading completed. */
    ghost var read: seq<Option<TagMap>>

    /** The merged list is either not there yet or exactly the placeholders merged with their metadata. */
    ghost predicate Valid()
      reads this
    {
      photosWithMetadata == [] || (|read| == |placeholders| && photosWithMetadata == MergeMetadata(placeholders, read))
    }

    /** `allPhotos`: the merged list once it is non-empty, the placeholders before. */
    function AllPhotos(): seq<Photo>
      reads this
    {
      if |photosWithMetadata| > 0 then photosWithMetadata else placeholders
    }

    /** `filteredPhotos`, which is also the list of tiles shown. */
    function FilteredPhotos(): seq<Photo>
      reads this
    {
      Visible(AllPhotos(), activeFilter)
    }

    /** `currentIndex`. */
    function Index(): int
      reads this
    {
      CurrentIndex(FilteredPhotos(), active)
    }

    /** The badge on a category's filter button. */
    function Badge(category: string): nat
      reads this
    {
      CategoryCount(AllPhotos(), category)
    }

    /** The badge on the "All" button. */
    function AllBadge(): nat
      reads this
    {
      |AllPhotos()|
    }

    /**
     * Whatever the loading state, the page lists the placeholders' photos:
     * the same number, the same ids in every filter, the same badges, and
     * distinct ids when the placeholders have them.
     */
    lemma AllPhotosMatchPlaceholders(category: string)
      requires Valid()
      ensures |AllPhotos()| == |placeholders|
      ensures Ids(Filter(AllPhotos(), category)) == Ids(Filter(placeholders, category))
      ensures Badge(category) == CategoryCount(placeholders, category)
      ensures UniqueIds(placeholders) ==> UniqueIds(AllPhotos())
    {
      if photosWithMetadata != [] {
        MergeKeepsFilteredIds(placeholders, read, category);
        if UniqueIds(placeholders) {
          MergeKeepsUniqueIds(placeholders, read);
        }
      }
    }

    /** The state when the page mounts. */
    constructor (placeholders: seq<Photo>)
      ensures this.placeholders == placeholders
      ensures active == None && imageErrors == map[] && photosWithMetadata == []
      ensures loadingMetadata && activeFilter == All
      ensures Valid()
      ensures AllPhotos() == placeholders && FilteredPhotos() == placeholders
      ensures Index() == -1
    {
      this.placeholders := placeholders;
      active := None;
      imageErrors := map[];
      photosWithMetadata := [];
      loadingMetadata := true;
      activeFilter := All;
      read := [];
    }

    /** `setLoadingMetadata(true)` as loading starts. */
    method BeginLoad()
      requires Valid()
      modifies this
      ensures loadingMetadata
      ensures active == old(active) && imageErrors == old(imageErrors) && activeFilter == old(activeFilter)
      ensures photosWithMetadata == old(photosWithMetadata) && read == old(read)
      ensures Valid()
    {
      loadingMetadata := true;
    }

    /**
     * Loading finishes: every placeholder, in order, with the equipment line
     * extracted from `outcome[i]` (None when fetching or parsing threw), then
     * `setLoadingMetadata(false)`. The viewer, the filter and the image errors
     * are untouched, and so is every badge.
     */
    method CompleteLoad(outcome: seq<Option<TagMap>>)
      requires Valid() && |outcome| == |placeholders|
      modifies this
      ensures photosWithMetadata == MergeMetadata(placeholders, outcome)
      ensures AllPhotos() == MergeMetadata(placeholders, outcome)
      ensures !loadingMetadata
      ensures active == old(active) && imageErrors == old(imageErrors) && activeFilter == old(activeFilter)
      ensures Valid()
      ensures AllBadge() == old(AllBadge())
      ensures forall category :: Badge(category) == old(Badge(category))
    {
      ghost var before := AllPhotos();
      assert forall category :: CategoryCount(before, category) == CategoryCount(placeholders, category) by {
        forall category ensures CategoryCount(before, category) == CategoryCount(placeholders, category) {
          AllPhotosMatchPlaceholders(category);
        }
      }
      photosWithMetadata := MergeMetadata(placeholders, outcome);
      read := outcome;
      loadingMetadata := false;
      forall category ensures Badge(category) == CategoryCount(placeholders, category) {
        AllPhotosMatchPlaceholders(category);
      }
    }

    /** A filter button: `setActiveFilter(key)`. The active photo stays as it is. */
    method SetActiveFilter(key: string)
      requires Valid()
      modifies this
      ensures activeFilter == key
      ensures FilteredPhotos() == Visible(old(AllPhotos()), key)
      ensures AllPhotos() == old(AllPhotos())
      ensures active == old(active) && imageErrors == old(imageErrors)
      ensures photosWithMetadata == old(photosWithMetadata) && loadingMetadata == old(loadingMetadata)
      ensures read == old(read)
      ensures Valid()
    {
      activeFilter := key;
    }

    /** A tile click: `setActive(photo)` for the k-th shown tile. */
    method Open(k: nat)
      requires k < |FilteredPhotos()|
      requires Valid()
      modifies this
      ensures active == Some(old(FilteredPhotos())[k])
      ensures FilteredPhotos() == old(FilteredPhotos())
      ensures imageErrors == old(imageErrors) && activeFilter == old(activeFilter)
      ensures photosWithMetadata == old(photosWithMetadata) && loadingMetadata == old(loadingMetadata)
      ensures read == old(read)
      ensures UniqueIds(FilteredPhotos()) ==> Index() == k
      ensures Valid()
    {
      active := Some(FilteredPhotos()[k]);
      if UniqueIds(FilteredPhotos()) {
        FindOwnIndex(FilteredPhotos(), k);
      }
    }

    /** The viewer's close action: `setActive(null)`. */
    method Close()
      requires Valid()
      modifies this
      ensures active == None && !LightboxShown(active) && Index() == -1
      ensures imageErrors == old(imageErrors) && activeFilter == old(activeFilter)
      ensures photosWithMetadata == old(photosWithMetadata) && loadingMetadata == old(loadingMetadata)
      ensures read == old(read)
      ensures Valid()
    {
      active := None;
    }

    /** `handleNextPhoto`: opens the following filtered photo when `hasNext`, else does nothing. */
    method Next()
      requires Valid()
      modifies this
      ensures active == AfterNext(old(FilteredPhotos()), old(active))
      ensures old(HasNext(FilteredPhotos(), active)) ==> active.Some? && active.value in FilteredPhotos()
      ensures FilteredPhotos() == old(FilteredPhotos())
      ensures imageErrors == old(imageErrors) && activeFilter == old(activeFilter)
      ensures photosWithMetadata == old(photosWithMetadata) && loadingMetadata == old(loadingMetadata)
      ensures read == old(read)
      ensures Valid()
    {
      var currentIndex := Index();
      if currentIndex < |FilteredPhotos()| - 1 {
        active := Some(FilteredPhotos()[currentIndex + 1]);
      }
    }

    /** `handlePrevPhoto`: opens the preceding filtered photo when `hasPrev`, else does nothing. */
    method Prev()
      requires Valid()
      modifies this
      ensures active == AfterPrev(old(FilteredPhotos()), old(active))
      ensures old(HasPrev(FilteredPhotos(), active)) ==> active.Some? && active.value in FilteredPhotos()
      ensures FilteredPhotos() == old(FilteredPhotos())
      ensures imageErrors == old(imageErrors) && activeFilter == old(activeFilter)
      ensures photosWithMetadata == old(photosWithMetadata) && loadingMetadata == old(loadingMetadata)
      ensures read == old(read)
      ensures Valid()
    {
      var currentIndex := Index();
      if currentIndex > 0 {
        active := Some(FilteredPhotos()[currentIndex - 1]);
      }
    }

    /** `handleImageError(id)`: marks that photo's image as failed; its tile shows the placeholder. */
    method HandleImageError(id: int)
      requires Valid()
      modifies this
      ensures imageErrors == MarkImageError(old(imageErrors), id)
      ensures ShowsPlaceholderTile(imageErrors, id)
      ensures forall other :: other != id ==> (ShowsPlaceholderTile(imageErrors, other) <==> old(ShowsPlaceholderTile(imageErrors, other)))
      ensures active == old(active) && activeFilter == old(activeFilter)
      ensures photosWithMetadata == old(photosWithMetadata) && loadingMetadata == old(loadingMetadata)
      ensures read == old(read)
      ensures Valid()
    {
      imageErrors := MarkImageError(imageErrors, id);
    }
  }

  /**
   * The page with its three built-in photos: open photo 2 ("nature"), choose
   * the "street" filter, press "next". The viewer was never closed, so the
   * press opens photo 1, the first street photo.
   */
  method StaleViewerScenario() returns (before: Option<Photo>, after: Option<Photo>)
    ensures before == Some(SourcePhotos[1]) && LightboxShown(before)
    ensures after == Some(SourcePhotos[0])
  {
    var page := new PhotosPage(SourcePhotos);
    page.Open(1);
    page.SetActiveFilter("street");
    before := page.active;
    StaleActiveAfterFilter();
    page.Next();
    after := page.active;
  }

  /**
   * A photo opened while loading is still outstanding keeps the placeholder
   * record: loading replaces the list but not the active photo, so the open
   * viewer shows no equipment line although the merged copy of that photo
   * carries one.
   */
  method ViewerOpenedWhileLoading(outcome: seq<Option<TagMap>>) returns (shown: Option<Photo>, merged: Photo)
    requires |outcome| == |SourcePhotos|
    ensures shown == Some(SourcePhotos[0]) && LightboxShown(shown) && !EquipmentShown(shown.value)
    ensures merged == MergeMetadata(SourcePhotos, outcome)[0] && merged.id == shown.value.id
    ensures EquipmentShown(merged)
  {
    var page := new PhotosPage(SourcePhotos);
    page.BeginLoad();
    page.Open(0);
    page.CompleteLoad(outcome);
    shown := page.active;
    merged := page.AllPhotos()[0];
    SourcePhotosShowNoEquipment(0);
    MergedEquipmentShown(SourcePhotos, outcome, 0);
  }
}
