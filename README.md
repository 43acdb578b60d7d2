# Photo gallery of a personal portfolio site, in Dafny

The site is a single-page React application. Almost all of it is static
profile text rendered through JSX. The logic lives in two places:

- `src/App.js`: the photo gallery page (`PhotosPage`). It holds a built-in
  list of photos and loads each photo's EXIF tags to build an
  "equipment" line (camera, focal length, aperture, exposure time, ISO).
  It offers category filters with count badges, and a full-screen viewer
  (the lightbox) with previous/next navigation. It also records photos
  whose image failed to load. Next to it sit the light/dark theme rule and
  the viewer's visibility rules.
- `src/index.js`: before the application mounts, a static host's redirect
  (`/?p=<path>&q=<query>`) is turned back into the original address.

Modules:

| file | module | what it holds |
|---|---|---|
| `wrappers.dfy` | `Wrappers` | `Option` |
| `js_string.dfy` | `JsString` | The ECMAScript string operations the page relies on: `indexOf`, `replace` with a string pattern (first occurrence only), `trim` (the WhiteSpace and LineTerminator code points), `join`. |
| `exif.dfy` | `Exif` | `extractMetadataFromUrl`: a pure function `Equipment` over the outcome of reading a photo's tags, and a method `ExtractEquipment` that builds the line by successive pushes as the source does. |
| `photos.dfy` | `Photos` | The photo record, the built-in photo list, category filtering, badge counts, `findIndex` by id, the metadata merge, the image-error map, and the viewer's visibility rules. |
| `navigation.dfy` | `Navigation` | `currentIndex`, `hasNext`, `hasPrev`, and the photo that next/prev open. |
| `gallery.dfy` | `Gallery` | `PhotosPage` as a class whose fields are the React state variables and whose methods are the handlers that set them. |
| `theme.dfy` | `Theme` | The initial theme and the toggle rule. |
| `deep_link.dfy` | `DeepLink` | `applyDeepLink`: whether the history entry is replaced, and with which address. |

Modelling choices:

- ExifReader's result is a `TagMap`, a map from tag name to its
  `description`. A missing tag and an empty description are treated alike,
  because the code only tests truthiness.
- Everything that can throw while reading a file (`fetch`, `arrayBuffer`,
  `ExifReader.load`) is one input, `Option<TagMap>`. `None` means it threw,
  and the `catch` turns that into the fixed line
  "Equipment information not available".
- `Promise.all` over the placeholders is a sequential map. Each task catches
  its own errors, so no task rejects.
- `decodeURIComponent` is an abstract function parameter of type
  `string -> Option<string>`. `None` marks the inputs on which it throws a
  `URIError`.

Behaviour of the code worth knowing:

- Choosing a filter does not close the viewer. `setActiveFilter` is the only
  state change the filter buttons make. When the open photo is not in the
  new filter, no index is current and "prev" is hidden. When the filtered
  list is non-empty, "next" is offered and opens its first photo; when it is
  empty, "next" is hidden too (`Navigation.StaleActiveAfterFilter`,
  `Gallery.StaleViewerScenario`).
- Loading does not refresh the open viewer. A photo opened while the
  metadata is still loading is the placeholder record, whose `equipment` is
  `null`. Storing the merged list leaves `active` alone, so that viewer still
  shows no equipment line. Only a later next/prev, or closing and reopening,
  picks the merged record (`Gallery.ViewerOpenedWhileLoading`).
- Camera-name normalisation is not idempotent. Only the first "NIKON " is
  removed (`Exif.NormalisingTwiceDiffers`).
- A `q` parameter that `decodeURIComponent` rejects makes `applyDeepLink`
  throw (`DeepLink.Outcome.Throws`). The call at src/index.js:18 runs at
  module top level and nothing catches the error, so no history replacement
  happens and the render at src/index.js:20-25 never runs: the site stays
  blank. `URLSearchParams.get` has already
  percent-decoded `q` once, so this happens even for a `q` that was encoded
  correctly, for example when the decoded text contains a lone `%`.

## Model

| member | source | states |
|---|---|---|
| JsString.IndexOfFromSpec | src/App.js:504 | `indexOf` from a position within the string gives the first occurrence at or after it, and -1 exactly when there is none |
| JsString.NoMatchWithoutChar | src/App.js:504 | a pattern holding a character the string lacks is not found |
| JsString.IndexOfFromSkip | src/App.js:504 | the search passes a position whose character differs from the pattern's first |
| JsString.ReplaceFirstSpec | src/App.js:504 | `replace` with a string pattern leaves the string unchanged when the pattern is absent, and otherwise substitutes only the first occurrence |
| JsString.SkipLeading | src/App.js:504 | the start of the trimmed text lies between the given index and the end |
| JsString.SkipLeadingSpec | src/App.js:504 | everything skipped at the front is whitespace, and the scan stops at a non-whitespace character |
| JsString.SkipTrailing | src/App.js:504 | the end of the trimmed text lies between its start and the given index |
| JsString.SkipTrailingSpec | src/App.js:504 | everything skipped at the back is whitespace, and the scan stops after a non-whitespace character |
| JsString.TrimSpec | src/App.js:504 | `trim` gives a slice of the input with only whitespace cut on either side; a non-empty result starts and ends with non-whitespace; the result is empty exactly when the input is all whitespace |
| JsString.ReplaceFirst | src/App.js:504 | `replace` with a string pattern; its meaning is stated by ReplaceFirstSpec |
| JsString.Trim | src/App.js:504 | `trim`; its meaning is stated by TrimSpec and TrimNoop |
| JsString.TrimNoop | src/App.js:504 | a string without leading or trailing whitespace is unchanged by `trim` |
| JsString.Join | src/App.js:520 | joining no terms gives the empty string, one term gives that term, and a longer join starts with its first term (JoinPush gives each further term) |
| JsString.JoinPush | src/App.js:513-520 | pushing a term and joining appends the separator and the term to the previous join |
| Exif.CameraName | src/App.js:503-504 | the camera term is never empty: it is the normalised model, or "Unknown Camera" when that is empty |
| Exif.CameraNameTrimmed | src/App.js:504 | the camera term has no leading or trailing whitespace |
| Exif.BlankModelIsUnknown | src/App.js:503-504 | a missing, empty or all-whitespace model gives "Unknown Camera" |
| Exif.Terms | src/App.js:513-518 | the term list has one to five entries and starts with the camera term |
| Exif.Equipment | src/App.js:494-525 | the sentinel line when reading throws; otherwise a line that starts with the camera term; never empty |
| Exif.JoinPushIf | src/App.js:515-520 | a conditional push followed by the join adds " " + term exactly when the value is truthy |
| Exif.EquipmentIsText | src/App.js:513-520 | the line is the camera followed by focal length, aperture, exposure + "s" and "ISO " + iso, each present only when its value is non-empty and each preceded by one space |
| Exif.SplitAtIso | src/App.js:509-520 | the line is camera, focal length, aperture and exposure, then " ISO " + iso exactly when iso is non-empty |
| Exif.IsoTermInLine | src/App.js:509-520 | the line ends with " ISO " + the `ISOSpeedRatings` value when that is non-empty, else with " ISO " + the `ISO` value when that is non-empty, and has no ISO term when both are empty |
| Exif.LineBeforeIso | src/App.js:513-517 | the line up to the ISO term; its meaning is stated by SplitAtIso and IsoTermInLine |
| Exif.EquipmentText | src/App.js:513-520 | the line written out term by term; EquipmentIsText states that it equals the push-and-join construction |
| Exif.CameraOnly | src/App.js:513-520 | with no optional tags the line is the camera term alone |
| Exif.ApertureAndExposureOnly | src/App.js:503-520 | `{FNumber: "f/3.5", ExposureTime: "1/200"}` gives "Unknown Camera f/3.5 1/200s" |
| Exif.ApertureAndExposureTerms | src/App.js:503-518 | the term list of that example is ["Unknown Camera", "f/3.5", "1/200s"] |
| Exif.ApertureAndExposureJoined | src/App.js:520 | those three terms joined with single spaces give "Unknown Camera f/3.5 1/200s" |
| Exif.NikonZ50II | src/App.js:504 | the model "NIKON Z50_2" reads as "Z50II" |
| Exif.StripsNikon | src/App.js:504 | the model "NIKON Z50" reads as "Z50" |
| Exif.KeepsNikonZ50 | src/App.js:504 | "NIKON Z50" contains no "Z50_2", so the rename leaves it unchanged |
| Exif.DropFirstNikon | src/App.js:504 | removing "NIKON " from "NIKON NIKON Z50" removes only the first one |
| Exif.StripsFirstNikonOnly | src/App.js:504 | the model "NIKON NIKON Z50" reads as "NIKON Z50" |
| Exif.NormalisingTwiceDiffers | src/App.js:504 | normalising a camera name a second time can change it: the normalisation is not idempotent |
| Exif.ExtractEquipment | src/App.js:494-525 | building `params` by successive pushes and joining them with spaces yields exactly `Equipment`, and the sentinel when reading throws |
| Photos.Ids | src/App.js:53-55 | the id list has one entry per photo, in order |
| Photos.Filter | src/App.js:552 | the filtered list is no longer than the input, and every photo in it has the chosen category |
| Photos.FilterMembers | src/App.js:552 | a photo is in the filtered list exactly when it is in the input and has the chosen category |
| Photos.FilterMultiplicity | src/App.js:552 | every photo of the chosen category keeps its multiplicity, and every other photo is dropped |
| Photos.FilterIsSubsequence | src/App.js:552 | the filtered list is an order-preserving subsequence of the input |
| Photos.FilterKeepsUniqueIds | src/App.js:552 | filtering a list with distinct ids keeps the ids distinct |
| Photos.VisibleSpec | src/App.js:550-552 | the visible list holds exactly the photos of the list that pass the active filter ("all" passes every photo), in their original order |
| Photos.SourcePhotos | src/App.js:52-56 | the three built-in photos: ids 1, 2, 3 in categories street, nature, street, with no equipment; SourcePhotosFiltered states what the page shows of them |
| Photos.CategoryCount | src/App.js:678 | a badge count never exceeds the number of photos |
| Photos.CategoryCountIsOccurrences | src/App.js:678 | a badge counts exactly the photos of that category |
| Photos.BadgesAddUp | src/App.js:654-691 | when every photo is nature, portrait or street, the three category badges add up to the "All" badge |
| Photos.FindIndexById | src/App.js:568 | `findIndex` by id gives the first photo with that id, and -1 exactly when no photo has it |
| Photos.FindIndexFrom | src/App.js:568 | the search from a position gives the first match at or after it, and -1 exactly when there is none |
| Photos.FindOwnIndex | src/App.js:568 | in a list with distinct ids, each photo is found at its own index |
| Photos.MergeMetadata | src/App.js:530-538 | loading gives one record per placeholder, in order, equal to the placeholder except that `equipment` is the extracted line |
| Photos.MergeKeepsFilteredIds | src/App.js:530-538 | the merge changes no id or category, so every filter shows the same ids and every badge keeps its count |
| Photos.MergeKeepsUniqueIds | src/App.js:530-538 | the merge keeps ids distinct |
| Photos.MarkImageError | src/App.js:490-492 | after an image error, that id's entry is true and every other entry is unchanged |
| Photos.MarkImageErrorTiles | src/App.js:702 | a tile shows the placeholder after the error exactly when it is that photo's tile or already showed one |
| Photos.MarkImageErrorIdempotent | src/App.js:490-492 | reporting the same error twice equals reporting it once |
| Photos.MarkImageErrorCommutes | src/App.js:490-492 | errors for two photos give the same map in either order |
| Photos.ShowsPlaceholderTile | src/App.js:702 | a tile shows the placeholder exactly when the photo's error entry is true; MarkImageErrorTiles states how an error changes it |
| Photos.LightboxShown | src/App.js:115 | the viewer renders only for an active photo with a non-empty `src`; Close states that closing hides it |
| Photos.EquipmentShown | src/App.js:152 | the equipment line shows only for a non-null, non-empty value; MergedEquipmentShown and SourcePhotosShowNoEquipment state when it does |
| Photos.MergedEquipmentShown | src/App.js:530-538 | every merged record carries a non-empty equipment line, so the viewer shows one for any merged record it is opened on |
| Photos.SourcePhotosShowNoEquipment | src/App.js:53-55 | before loading, no built-in photo's viewer shows an equipment line |
| Photos.SourcePhotosFiltered | src/App.js:53-55 | the built-in list has distinct ids; "street" shows photos 1 and 3; the nature badge is 1, the portrait badge 0, and "all" shows 3 photos |
| Navigation.CurrentIndex | src/App.js:568 | the current index is -1 without an active photo; otherwise it is the first filtered index with the active photo's id, and -1 exactly when there is none |
| Navigation.HasNext | src/App.js:569 | `hasNext`; ButtonsAtIndex and NotInFiltered state when it holds |
| Navigation.HasPrev | src/App.js:570 | `hasPrev`; ButtonsAtIndex and NotInFiltered state when it holds |
| Navigation.AfterNext | src/App.js:569-576 | "next" opens a filtered photo when `hasNext` holds, and otherwise leaves the active photo unchanged |
| Navigation.AfterPrev | src/App.js:578-582 | "prev" opens a filtered photo when `hasPrev` holds, and otherwise leaves the active photo unchanged |
| Navigation.NavigationStaysInFiltered | src/App.js:568-582 | an active photo that is in the filtered list is still in it after next or prev |
| Navigation.ButtonsAtIndex | src/App.js:568-570 | with distinct ids, the photo at index k is current at k; "next" is offered exactly when k is not last, and "prev" exactly when k is not first |
| Navigation.NextMovesByOne | src/App.js:572-576 | with distinct ids, "next" moves from index k to k + 1 |
| Navigation.PrevMovesByOne | src/App.js:578-582 | with distinct ids, "prev" moves from index k to k - 1 |
| Navigation.NoWrapAround | src/App.js:568-582 | at the last photo "next" changes nothing, and at the first photo "prev" changes nothing |
| Navigation.NextPrevRoundTrip | src/App.js:568-582 | next then prev, and prev then next, return to the photo at index k |
| Navigation.NotInFiltered | src/App.js:568-574 | an active photo outside the filtered list (or none) has index -1; "prev" is not offered; "next" is offered exactly when the list is non-empty and opens the first filtered photo |
| Navigation.PrevMovesIffOffered | src/App.js:578-582 | "prev" changes the active photo exactly when `hasPrev` holds |
| Navigation.NextMovesIffOffered | src/App.js:569-576 | with distinct ids, "next" changes the active photo exactly when `hasNext` holds |
| Navigation.StaleActiveAfterFilter | src/App.js:568-574 | with photo 2 open and the "street" filter chosen, the viewer still shows photo 2, no index is current, "prev" is hidden, and "next" opens photo 1 |
| Gallery.PhotosPage.AllPhotosMatchPlaceholders | src/App.js:530-547 | at any point in loading, the page lists as many photos as the placeholders, with the same ids in every filter, the same badges and distinct ids when the placeholders have them |
| Gallery.PhotosPage.AllPhotos | src/App.js:547 | `allPhotos`; AllPhotosMatchPlaceholders states that it always lists the placeholders' photos |
| Gallery.PhotosPage.FilteredPhotos | src/App.js:550-552 | `filteredPhotos`, the shown tiles; VisibleSpec states which photos they are |
| Gallery.PhotosPage.Index | src/App.js:568 | `currentIndex`; CurrentIndex states its value |
| Gallery.PhotosPage.Badge | src/App.js:678 | a category badge; AllPhotosMatchPlaceholders and CompleteLoad state that it does not depend on loading or on the filter |
| Gallery.PhotosPage.AllBadge | src/App.js:687 | the "All" badge; AllPhotosMatchPlaceholders states that it is the number of placeholders |
| Gallery.PhotosPage.constructor | src/App.js:481-485 | the page starts with no active photo, no image errors, no merged list, loading on and filter "all", so it shows the placeholders |
| Gallery.PhotosPage.BeginLoad | src/App.js:529 | loading turns the spinner flag on and changes nothing else |
| Gallery.PhotosPage.CompleteLoad | src/App.js:530-541 | when loading ends, the merged list is stored and the spinner is off; the active photo, filter and image errors are untouched, and every badge keeps its value |
| Gallery.PhotosPage.SetActiveFilter | src/App.js:662 | a filter button changes only the filter: the shown photos become that filter's photos, the photo list is unchanged, and the active photo stays |
| Gallery.PhotosPage.Open | src/App.js:700 | a tile click opens that tile's photo, which is then current at the tile's index when ids are distinct |
| Gallery.PhotosPage.Close | src/App.js:836 | closing clears the active photo, hides the viewer and resets the index to -1 |
| Gallery.PhotosPage.Next | src/App.js:568-576 | the next-button handler sets the active photo to `AfterNext` of the shown photos, which is a shown photo when `hasNext` held |
| Gallery.PhotosPage.Prev | src/App.js:578-582 | the prev-button handler sets the active photo to `AfterPrev` of the shown photos, which is a shown photo when `hasPrev` held |
| Gallery.PhotosPage.HandleImageError | src/App.js:490-492 | an image error marks only that photo's tile as a placeholder tile |
| Gallery.ViewerOpenedWhileLoading | src/App.js:527-545 | a photo opened between the start and the end of loading stays the placeholder record, so the open viewer shows no equipment line while the merged copy of the same photo carries one |
| Gallery.StaleViewerScenario | src/App.js:572-576 | on the real page, opening photo 2 and then choosing "street" leaves the viewer showing photo 2, and "next" then opens photo 1 |
| Theme.ReloadRestoresTheme | src/App.js:60-70 | the page starts from the stored theme when it is non-empty and from "light" otherwise; taking as given the write of every reached theme at src/App.js:69 (itself not modelled), reading it back on the next visit restores that theme |
| Theme.ThemeAfter | src/App.js:60-70 | every theme the page holds is non-empty, and after at least one toggle it is light or dark |
| Theme.ThemeAlternates | src/App.js:268 | once toggled, each press switches the theme, and two presses return to it |
| Theme.NextTheme | src/App.js:268 | the toggle always gives light or dark, and gives dark exactly when the theme is light |
| Theme.ToggleTwice | src/App.js:268 | toggling twice from light or dark returns to the start |
| Theme.ToggleSettles | src/App.js:268 | after one toggle the theme cycles between light and dark; any other stored value is never reached again |
| Theme.FreshVisit | src/App.js:60 | with nothing stored the page starts light, and the first toggle makes it dark |
| DeepLink.ApplyDeepLink | src/index.js:7-17 | no replacement exactly when `p` is absent or empty; a throw from decoding exactly when a non-empty `q` fails to decode; otherwise the address starts with `p` and ends with the fragment |
| DeepLink.QueryBeforeHash | src/index.js:12-14 | `?` and the decoded query sit right after `p` and before the fragment, never after it |
| DeepLink.NoQuery | src/index.js:13-14 | without a non-empty `q` the address is `p` followed by the fragment |
| DeepLink.PathOnly | src/index.js:13-14 | with neither a query nor a fragment the address is exactly `p` |
| DeepLink.HashDefaultsToEmpty | src/index.js:13 | a missing fragment acts like an empty one |
| DeepLink.PhotosDeepLink | src/index.js:9-15 | `p` = `/photos`, a `q` value of `tab%3Dstreet` (the address carries `q=tab%253Dstreet`) decoding to `tab=street`, and fragment `#top` restore `/photos?tab=street#top` |

## Left out

- JSX and CSS rendering, the header and menu, the hero section, and the static profile text are presentation only. The viewer's rules are kept as predicates: it renders only with an active photo whose `src` is truthy, the equipment line shows only when it is truthy, and "prev"/"next" show only when offered.
- `fetch`, `arrayBuffer` and `ExifReader.load` are foreign I/O and library calls. They are one abstract input `Option<TagMap>`. ExifReader's descriptions are taken to be strings.
- The concurrency inside `Promise.all` is not modelled: all per-photo results arrive together in `CompleteLoad`, which is what the page can observe, since it stores nothing before every request has settled. User actions can still run between `BeginLoad` and `CompleteLoad`. The order in which the individual requests finish is not modelled.
- `console.log` calls.
- DOM, browser and storage effects are not modelled: writing to `localStorage` (Theme.ReloadRestoresTheme takes that write as given), the `classList` toggling of the `dark` class, scrolling to a hash, the IntersectionObserver/`setTimeout` reveal animation, and event `stopPropagation`/`preventDefault`.
- The commented-out pagination is not live code.
- `window.history.replaceState`, `URLSearchParams` parsing and `ReactDOM.createRoot` are not modelled. The model states only whether `replaceState` is called, and with which address.
- DeepLink.ApplyDeepLink: `Replace(t)` means `replaceState` is called with `t`. It does not promise that the call succeeds. The browser throws a `SecurityError` for a `t` on another origin (for example `p` = `//other.example/x`), and the model does not represent that. Any throw from `applyDeepLink` is uncaught at src/index.js:18, so the application never mounts.
- `$` substitution patterns in `replace` are not modelled. The calls here pass literal replacements.
- JsString.ReplaceFirst, JsString.Trim, Exif.NormalisedModel, Exif.LineBeforeIso and Exif.EquipmentText carry no `ensures` of their own. Their properties are stated in the lemmas beside them (`ReplaceFirstSpec`, `TrimSpec`, `CameraName`, `SplitAtIso`, `EquipmentIsText`). Keeping the verifier from unfolding those quantified facts at every use keeps the proofs small.
- Gallery.PhotosPage.Open: takes the tile's index in the shown list, rather than a photo object, since only shown tiles can be clicked.
