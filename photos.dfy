/**
 * Photo records and the pure list operations of the gallery page
 * (`PhotosPage` in src/App.js): the category filter, the badge counts,
 * `findIndex` by id, the metadata merge and the image-error map.
 */
module Photos {
  import opened Wrappers
  import Exif

  /** One gallery entry; `equipment` is `null` in the placeholders. */
  datatype Photo = Photo(id: int, src: string, caption: string, equipment: Option<string>, category: string)

  /** The filter key that shows every photo. */
  const All: string := "all"

  /** The placeholder photos the page starts from (PLACEHOLDERS.photos). */
  const SourcePhotos: seq<Photo> := [
    Photo(1, "/photos/DSC_0085.jpg", "Graffiti Building", None, "street"),
    Photo(2, "/photos/DSC_0102.jpg", "Stubbles", None, "nature"),
    Photo(3, "/photos/DSC_0114.jpg", "Skateboard Platform", None, "street")
  ]

  /** The ids of a list, in order. */
  function Ids(ps: seq<Photo>): (ids: seq<int>)
    ensures |ids| == |ps| && forall i :: 0 <= i < |ps| ==> ids[i] == ps[i].id
  {
    if ps == [] then [] else [ps[0].id] + Ids(ps[1..])
  }

  /** No id appears twice. */
  predicate UniqueIds(ps: seq<Photo>) {
    forall i, j :: 0 <= i < j < |ps| ==> ps[i].id != ps[j].id
  }

  /** `xs` is `ys` with some elements left out, the rest in the same order. */
  predicate IsSubsequence<T(==)>(xs: seq<T>, ys: seq<T>)
    decreases |ys|
  {
    xs == [] || (ys != [] && ((xs[0] == ys[0] && IsSubsequence(xs[1..], ys[1..])) || IsSubsequence(xs, ys[1..])))
  }

  /** `photos.filter(p => p.category === category)`. */
  function Filter(ps: seq<Photo>, category: string): (r: seq<Photo>)
    ensures |r| <= |ps|
    ensures forall i :: 0 <= i < |r| ==> r[i].category == category
    decreases |ps|
  {
    if ps == [] then []
    else if ps[0].category == category then [ps[0]] + Filter(ps[1..], category)
    else Filter(ps[1..], category)
  }

  /** The filter keeps exactly the photos of that category. */
  lemma {:induction false} FilterMembers(ps: seq<Photo>, category: string, p: Photo)
    ensures p in Filter(ps, category) <==> p in ps && p.category == category
    decreases |ps|
  {
    if ps != [] {
      FilterMembers(ps[1..], category, p);
      assert ps == [ps[0]] + ps[1..];
    }
  }

  /** The filter keeps every copy of a matching photo and no copy of any other. */
  lemma {:induction false} FilterMultiplicity(ps: seq<Photo>, category: string, p: Photo)
    ensures multiset(Filter(ps, category))[p] == if p.category == category then multiset(ps)[p] else 0
    decreases |ps|
  {
    if ps != [] {
      FilterMultiplicity(ps[1..], category, p);
      assert ps == [ps[0]] + ps[1..];
    }
  }

  /** The filter keeps the original relative order. */
  lemma {:induction false} FilterIsSubsequence(ps: seq<Photo>, category: string)
    ensures IsSubsequence(Filter(ps, category), ps)
    decreases |ps|
  {
    if ps != [] {
      FilterIsSubsequence(ps[1..], category);
    }
  }

  /** Filtering a list with unique ids leaves the ids unique. */
  lemma {:induction false} FilterKeepsUniqueIds(ps: seq<Photo>, category: string)
    requires UniqueIds(ps)
    ensures UniqueIds(Filter(ps, category))
    decreases |ps|
  {
    if ps != [] {
      var rest := Filter(ps[1..], category);
      FilterKeepsUniqueIds(ps[1..], category);
      if ps[0].category == category {
        forall k | 0 <= k < |rest| ensures rest[k].id != ps[0].id {
          FilterMembers(ps[1..], category, rest[k]);
          var m :| 0 <= m < |ps[1..]| && ps[1..][m] == rest[k];
          assert ps[m + 1] == rest[k];
        }
      }
    }
  }

  /** The visible list: everything under 'all', else the photos of the active category. */
  function Visible(all: seq<Photo>, activeFilter: string): (r: seq<Photo>)
    ensures activeFilter == All ==> r == all
    ensures activeFilter != All ==> r == Filter(all, activeFilter)
  {
    if activeFilter == All then all else Filter(all, activeFilter)
  }

  /** Every list is a subsequence of itself. */
  lemma {:induction false} SubsequenceOfSelf<T>(xs: seq<T>)
    ensures IsSubsequence(xs, xs)
    decreases |xs|
  {
    if xs != [] { SubsequenceOfSelf(xs[1..]); }
  }

  /**
   * What the grid shows: exactly the photos of the list that pass the active
   * filter ('all' passes everything), in their original order.
   */
  lemma VisibleSpec(all: seq<Photo>, activeFilter: string)
    ensures forall p :: p in Visible(all, activeFilter) <==> p in all && (activeFilter == All || p.category == activeFilter)
    ensures IsSubsequence(Visible(all, activeFilter), all)
  {
    if activeFilter == All {
      SubsequenceOfSelf(all);
    } else {
      forall p ensures p in Visible(all, activeFilter) <==> p in all && p.category == activeFilter {
        FilterMembers(all, activeFilter, p);
      }
      FilterIsSubsequence(all, activeFilter);
    }
  }

  /** The badge on a category button: how many photos of the whole list carry it. */
  function CategoryCount(all: seq<Photo>, category: string): (n: nat)
    ensures n <= |all|
  {
    |Filter(all, category)|
  }

  /** How many photos carry `category`, counted directly. */
  function Occurrences(ps: seq<Photo>, category: string): nat
    decreases |ps|
  {
    if ps == [] then 0
    else (if ps[0].category == category then 1 else 0) + Occurrences(ps[1..], category)
  }

  /** The badge counts exactly the photos of its category. */
  lemma {:induction false} CategoryCountIsOccurrences(ps: seq<Photo>, category: string)
    ensures CategoryCount(ps, category) == Occurrences(ps, category)
    decreases |ps|
  {
    if ps != [] { CategoryCountIsOccurrences(ps[1..], category); }
  }

  /**
   * When every photo is in one of the three filter categories, the three
   * category badges add up to the 'all' badge.
   */
  lemma {:induction false} BadgesAddUp(ps: seq<Photo>)
    requires forall i :: 0 <= i < |ps| ==> ps[i].category in {"nature", "portrait", "street"}
    ensures CategoryCount(ps, "nature") + CategoryCount(ps, "portrait") + CategoryCount(ps, "street") == |ps|
    decreases |ps|
  {
    if ps != [] {
      BadgesAddUp(ps[1..]);
    }
  }

  /** `photos.findIndex(p => p.id === id)`: the first index holding `id`, or -1. */
  function FindIndexById(ps: seq<Photo>, id: int): (r: int)
    ensures -1 <= r < |ps|
    ensures r >= 0 ==> ps[r].id == id && forall j :: 0 <= j < r ==> ps[j].id != id
    ensures r == -1 <==> forall j :: 0 <= j < |ps| ==> ps[j].id != id
  {
    FindIndexFrom(ps, id, 0)
  }

  function FindIndexFrom(ps: seq<Photo>, id: int, from: nat): (r: int)
    requires from <= |ps|
    ensures r == -1 || from <= r < |ps|
    ensures r >= 0 ==> ps[r].id == id && forall j :: from <= j < r ==> ps[j].id != id
    ensures r == -1 <==> forall j :: from <= j < |ps| ==> ps[j].id != id
    decreases |ps| - from
  {
    if from == |ps| then -1
    else if ps[from].id == id then from
    else FindIndexFrom(ps, id, from + 1)
  }

  /** In a list with unique ids, an element is found at its own index. */
  lemma FindOwnIndex(ps: seq<Photo>, k: nat)
    requires UniqueIds(ps) && k < |ps|
    ensures FindIndexById(ps, ps[k].id) == k
  {
  }

  /**
   * The list after loading: each placeholder with `equipment` replaced by the
   * line extracted from its file; `read[i]` is what reading photo i's EXIF gave.
   */
  function MergeMetadata(placeholders: seq<Photo>, read: seq<Option<Exif.TagMap>>): (r: seq<Photo>)
    requires |read| == |placeholders|
    ensures |r| == |placeholders|
    ensures forall i :: 0 <= i < |r| ==>
      r[i] == placeholders[i].(equipment := Some(Exif.Equipment(read[i])))
    decreases |placeholders|
  {
    if placeholders == [] then []
    else [placeholders[0].(equipment := Some(Exif.Equipment(read[0])))]
         + MergeMetadata(placeholders[1..], read[1..])
  }

  /** Merging changes no id, so a filtered list keeps its ids, and every badge its count. */
  lemma {:induction false} MergeKeepsFilteredIds(ps: seq<Photo>, read: seq<Option<Exif.TagMap>>, category: string)
    requires |read| == |ps|
    ensures Ids(Filter(MergeMetadata(ps, read), category)) == Ids(Filter(ps, category))
    ensures CategoryCount(MergeMetadata(ps, read), category) == CategoryCount(ps, category)
    decreases |ps|
  {
    if ps != [] {
      MergeKeepsFilteredIds(ps[1..], read[1..], category);
      var m := MergeMetadata(ps, read);
      assert m[1..] == MergeMetadata(ps[1..], read[1..]);
    }
  }

  /** Merging keeps ids unique. */
  lemma MergeKeepsUniqueIds(ps: seq<Photo>, read: seq<Option<Exif.TagMap>>)
    requires |read| == |ps| && UniqueIds(ps)
    ensures UniqueIds(MergeMetadata(ps, read))
  {
  }

  /** `{ ...prev, [id]: true }`: only `id`'s entry changes, and it becomes true. */
  function MarkImageError(errors: map<int, bool>, id: int): (r: map<int, bool>)
    ensures id in r && r[id]
    ensures r.Keys == errors.Keys + {id}
    ensures forall k :: k in errors && k != id ==> r[k] == errors[k]
  {
    errors[id := true]
  }

  /** `imageErrors[photo.id]` is truthy: the tile shows the placeholder instead of the image. */
  predicate ShowsPlaceholderTile(errors: map<int, bool>, id: int) {
    id in errors && errors[id]
  }

  /** After an image error, exactly that photo's tile is added to the placeholder tiles. */
  lemma MarkImageErrorTiles(errors: map<int, bool>, id: int, other: int)
    ensures ShowsPlaceholderTile(MarkImageError(errors, id), other)
            <==> other == id || ShowsPlaceholderTile(errors, other)
  {
  }

  /** Reporting the same error twice is the same as reporting it once. */
  lemma MarkImageErrorIdempotent(errors: map<int, bool>, id: int)
    ensures MarkImageError(MarkImageError(errors, id), id) == MarkImageError(errors, id)
  {
  }

  /** Errors reported for two photos give the same map in either order. */
  lemma MarkImageErrorCommutes(errors: map<int, bool>, a: int, b: int)
    ensures MarkImageError(MarkImageError(errors, a), b) == MarkImageError(MarkImageError(errors, b), a)
  {
  }

  /** The viewer renders: a photo is active and its `src` is truthy. */
  predicate LightboxShown(active: Option<Photo>) {
    active.Some? && active.value.src != ""
  }

  /** The viewer shows the equipment line: `equipment` is non-null and non-empty. */
  predicate EquipmentShown(p: Photo) {
    p.equipment.Some? && p.equipment.value != ""
  }

  /**
   * Every merged record carries a non-empty equipment line (possibly the
   * fallback), so a viewer opened on a merged record shows one.
   */
  lemma MergedEquipmentShown(ps: seq<Photo>, read: seq<Option<Exif.TagMap>>, i: nat)
    requires |read| == |ps| && i < |ps|
    ensures EquipmentShown(MergeMetadata(ps, read)[i])
  {
  }

  /** The placeholders carry no equipment, so their viewer shows no equipment line. */
  lemma SourcePhotosShowNoEquipment(i: nat)
    requires i < |SourcePhotos|
    ensures !EquipmentShown(SourcePhotos[i])
  {
  }

  /** The three placeholders: ids unique, 'street' shows photos 1 and 3 in that order. */
  lemma SourcePhotosFiltered()
    ensures UniqueIds(SourcePhotos)
    ensures Ids(Filter(SourcePhotos, "street")) == [1, 3]
    ensures CategoryCount(SourcePhotos, "nature") == 1
    ensures CategoryCount(SourcePhotos, "portrait") == 0
    ensures |Visible(SourcePhotos, All)| == 3
  {
    assert SourcePhotos[1..][1..] == [SourcePhotos[2]];
  }
}
