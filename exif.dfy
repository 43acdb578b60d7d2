/**
 * The equipment line of a photo, built from the EXIF tags of its image file
 * (`extractMetadataFromUrl` in src/App.js).
 */
module Exif {
  import opened Wrappers
  import opened JsString

  /** The tags ExifReader reports: tag name to its `description`. */
  type TagMap = map<string, string>

  /** The fallback line when fetching, reading or parsing the file throws. */
  const Sentinel: string := "Equipment information not available"
  const UnknownCamera: string := "Unknown Camera"

  /**
   * `tags.Name?.description`, where a missing tag and an empty description are
   * alike: both are falsy, and every use below tests truthiness.
   */
  function Description(tags: TagMap, name: string): (d: string)
    ensures name !in tags ==> d == ""
    ensures name in tags ==> d == tags[name]
  {
    if name in tags then tags[name] else ""
  }

  /** `tags.ISOSpeedRatings?.description || tags.ISO?.description`. */
  function IsoOf(tags: TagMap): (iso: string)
    ensures Description(tags, "ISOSpeedRatings") != "" ==> iso == tags["ISOSpeedRatings"]
    ensures Description(tags, "ISOSpeedRatings") == "" ==> iso == Description(tags, "ISO")
  {
    var rated := Description(tags, "ISOSpeedRatings");
    if rated != "" then rated else Description(tags, "ISO")
  }

  /** The model with the first "NIKON " removed and the first "Z50_2" renamed, trimmed. */
  function NormalisedModel(model: string): string {
    Trim(ReplaceFirst(ReplaceFirst(model, "NIKON ", ""), "Z50_2", "Z50II"))
  }

  /** The camera term: the normalised model, or "Unknown Camera" when that is empty. */
  function CameraName(model: string): (camera: string)
    ensures camera != ""
    ensures NormalisedModel(model) != "" ==> camera == NormalisedModel(model)
    ensures NormalisedModel(model) == "" ==> camera == UnknownCamera
  {
    var c := NormalisedModel(model);
    if c != "" then c else UnknownCamera
  }

  /** A camera name never carries leading or trailing whitespace. */
  lemma CameraNameTrimmed(model: string)
    ensures var camera := CameraName(model);
      !IsWhitespace(camera[0]) && !IsWhitespace(camera[|camera| - 1])
  {
    TrimSpec(ReplaceFirst(ReplaceFirst(model, "NIKON ", ""), "Z50_2", "Z50II"));
  }

  /** A missing or all-whitespace model reads as "Unknown Camera". */
  lemma BlankModelIsUnknown(model: string)
    requires forall k :: 0 <= k < |model| ==> IsWhitespace(model[k])
    ensures CameraName(model) == UnknownCamera
  {
    NoMatchWithoutChar(model, "NIKON ", 'N');
    NoMatchWithoutChar(model, "Z50_2", 'Z');
    TrimSpec(model);
  }

  /** `params` after the successive pushes: `term` is pushed only when `value` is truthy. */
  function PushIf(params: seq<string>, value: string, term: string): (r: seq<string>)
    ensures value == "" ==> r == params
    ensures value != "" ==> r == params + [term]
  {
    if value != "" then params + [term] else params
  }

  /** The terms of the line, in the fixed order camera, focal length, aperture, exposure, ISO. */
  function Terms(tags: TagMap): (params: seq<string>)
    ensures 1 <= |params| <= 5 && params[0] == CameraName(Description(tags, "Model"))
  {
    var focalLength := Description(tags, "FocalLength");
    var aperture := Description(tags, "FNumber");
    var iso := IsoOf(tags);
    var shutterSpeed := Description(tags, "ExposureTime");
    var p0 := [CameraName(Description(tags, "Model"))];
    var p1 := PushIf(p0, focalLength, focalLength);
    var p2 := PushIf(p1, aperture, aperture);
    var p3 := PushIf(p2, shutterSpeed, shutterSpeed + "s");
    PushIf(p3, iso, "ISO " + iso)
  }

  /**
   * The equipment line: `None` stands for any exception thrown by `fetch`,
   * `arrayBuffer` or `ExifReader.load`, which the `catch` turns into the sentinel.
   */
  function Equipment(read: Option<TagMap>): (line: string)
    ensures read.None? ==> line == Sentinel
    ensures read.Some? ==> var camera := CameraName(Description(read.value, "Model"));
      |camera| <= |line| && line[..|camera|] == camera
    ensures line != ""
  {
    match read
    case None => Sentinel
    case Some(tags) => Join(Terms(tags), " ")
  }

  /** " " + term when `value` is truthy, else nothing. */
  function Part(value: string, term: string): string {
    if value != "" then " " + term else ""
  }

  /** Camera, focal length, aperture and exposure: the line up to the ISO term. */
  function LineBeforeIso(tags: TagMap): string {
    CameraName(Description(tags, "Model"))
      + Part(Description(tags, "FocalLength"), Description(tags, "FocalLength"))
      + Part(Description(tags, "FNumber"), Description(tags, "FNumber"))
      + Part(Description(tags, "ExposureTime"), Description(tags, "ExposureTime") + "s")
  }

  /**
   * The same line written out without a term list: camera, then each present
   * term preceded by one space, in the fixed order.
   */
  function EquipmentText(tags: TagMap): string {
    var iso := IsoOf(tags);
    LineBeforeIso(tags) + Part(iso, "ISO " + iso)
  }

  /** Pushing a term under PushIf and joining adds exactly Part(value, term). */
  lemma JoinPushIf(params: seq<string>, value: string, term: string)
    requires params != []
    ensures Join(PushIf(params, value, term), " ") == Join(params, " ") + Part(value, term)
  {
    if value != "" { JoinPush(params, term, " "); }
  }

  /** The joined term list is the written-out line: terms in fixed order, one space apart. */
  lemma EquipmentIsText(tags: TagMap)
    ensures Equipment(Some(tags)) == EquipmentText(tags)
  {
    var focalLength := Description(tags, "FocalLength");
    var aperture := Description(tags, "FNumber");
    var iso := IsoOf(tags);
    var shutterSpeed := Description(tags, "ExposureTime");
    var p0 := [CameraName(Description(tags, "Model"))];
    var p1 := PushIf(p0, focalLength, focalLength);
    var p2 := PushIf(p1, aperture, aperture);
    var p3 := PushIf(p2, shutterSpeed, shutterSpeed + "s");
    JoinPushIf(p0, focalLength, focalLength);
    JoinPushIf(p1, aperture, aperture);
    JoinPushIf(p2, shutterSpeed, shutterSpeed + "s");
    JoinPushIf(p3, iso, "ISO " + iso);
  }

  /** The line is the part before the ISO term, then " ISO " + iso when iso is non-empty. */
  lemma SplitAtIso(tags: TagMap)
    ensures IsoOf(tags) != "" ==> Equipment(Some(tags)) == LineBeforeIso(tags) + (" ISO " + IsoOf(tags))
    ensures IsoOf(tags) == "" ==> Equipment(Some(tags)) == LineBeforeIso(tags)
  {
    EquipmentIsText(tags);
    IsoPart(LineBeforeIso(tags), IsoOf(tags));
  }

  /** Appending the ISO part adds " ISO " + iso when iso is non-empty, and nothing otherwise. */
  lemma IsoPart(before: string, iso: string)
    ensures iso != "" ==> before + Part(iso, "ISO " + iso) == before + (" ISO " + iso)
    ensures iso == "" ==> before + Part(iso, "ISO " + iso) == before
  {
    if iso == "" {
      assert before + "" == before;
    } else {
      assert " " + "ISO " == " ISO ";
      assert " " + ("ISO " + iso) == (" " + "ISO ") + iso;
    }
  }

  /** `t` is the tail of `head + t`. */
  lemma TailOfConcat(head: string, t: string)
    ensures |t| <= |head + t| && (head + t)[|head + t| - |t|..] == t
  {
  }

  /**
   * The line ends with the ISO term taken from `ISOSpeedRatings` when that is
   * non-empty, from `ISO` otherwise, and carries no ISO term when both are empty.
   */
  lemma IsoTermInLine(tags: TagMap)
    ensures var line := Equipment(Some(tags)); var t := " ISO " + Description(tags, "ISOSpeedRatings");
      Description(tags, "ISOSpeedRatings") != "" ==> |t| <= |line| && line[|line| - |t|..] == t
    ensures var line := Equipment(Some(tags)); var t := " ISO " + Description(tags, "ISO");
      Description(tags, "ISOSpeedRatings") == "" && Description(tags, "ISO") != ""
      ==> |t| <= |line| && line[|line| - |t|..] == t
    ensures Description(tags, "ISOSpeedRatings") == "" && Description(tags, "ISO") == ""
      ==> Equipment(Some(tags)) == LineBeforeIso(tags)
  {
    SplitAtIso(tags);
    TailOfConcat(LineBeforeIso(tags), " ISO " + IsoOf(tags));
  }

  /** Only the camera is there when none of the optional tags has a value. */
  lemma CameraOnly(tags: TagMap)
    requires Description(tags, "FocalLength") == "" && Description(tags, "FNumber") == ""
    requires Description(tags, "ExposureTime") == "" && IsoOf(tags) == ""
    ensures Equipment(Some(tags)) == CameraName(Description(tags, "Model"))
  {
    EquipmentIsText(tags);
  }

  /** `{FNumber: "f/3.5", ExposureTime: "1/200"}` gives "Unknown Camera f/3.5 1/200s". */
  lemma ApertureAndExposureOnly()
    ensures Equipment(Some(map["FNumber" := "f/3.5", "ExposureTime" := "1/200"]))
            == "Unknown Camera f/3.5 1/200s"
  {
    ApertureAndExposureTerms();
    ApertureAndExposureJoined();
  }

  lemma ApertureAndExposureJoined()
    ensures Join([UnknownCamera, "f/3.5", "1/200s"], " ") == "Unknown Camera f/3.5 1/200s"
  {
    JoinPush([UnknownCamera], "f/3.5", " ");
    assert [UnknownCamera, "f/3.5"] + ["1/200s"] == [UnknownCamera, "f/3.5", "1/200s"];
    JoinPush([UnknownCamera, "f/3.5"], "1/200s", " ");
  }

  lemma ApertureAndExposureTerms()
    ensures Terms(map["FNumber" := "f/3.5", "ExposureTime" := "1/200"]) == [UnknownCamera, "f/3.5", "1/200s"]
  {
    var tags := map["FNumber" := "f/3.5", "ExposureTime" := "1/200"];
    assert Description(tags, "Model") == "" && Description(tags, "FocalLength") == "";
    assert Description(tags, "FNumber") == "f/3.5" && Description(tags, "ExposureTime") == "1/200";
    assert IsoOf(tags) == "";
    BlankModelIsUnknown("");
    assert "1/200" + "s" == "1/200s";
  }

  /** "NIKON Z50_2" reads as the public name "Z50II". */
  lemma NikonZ50II()
    ensures CameraName("NIKON Z50_2") == "Z50II"
  {
    assert OccursAt("NIKON Z50_2", "NIKON ", 0);
    assert ReplaceFirst("NIKON Z50_2", "NIKON ", "") == "Z50_2";
    assert OccursAt("Z50_2", "Z50_2", 0);
    assert ReplaceFirst("Z50_2", "Z50_2", "Z50II") == "Z50II";
    TrimNoop("Z50II");
  }

  /** Only the first "NIKON " of "NIKON NIKON Z50" goes. */
  lemma StripsFirstNikonOnly()
    ensures CameraName("NIKON NIKON Z50") == "NIKON Z50"
  {
    DropFirstNikon();
    KeepsNikonZ50();
    TrimNoop("NIKON Z50");
  }

  /** "NIKON Z50" has no "Z50_2" to rename. */
  lemma KeepsNikonZ50()
    ensures ReplaceFirst("NIKON Z50", "Z50_2", "Z50II") == "NIKON Z50"
  {
    var s := "NIKON Z50";
    IndexOfFromSkip(s, "Z50_2", 0);
    IndexOfFromSkip(s, "Z50_2", 1);
    IndexOfFromSkip(s, "Z50_2", 2);
    IndexOfFromSkip(s, "Z50_2", 3);
    IndexOfFromSkip(s, "Z50_2", 4);
  }

  /** Removing the first "NIKON " of "NIKON NIKON Z50" leaves "NIKON Z50". */
  lemma DropFirstNikon()
    ensures ReplaceFirst("NIKON NIKON Z50", "NIKON ", "") == "NIKON Z50"
  {
    var model := "NIKON NIKON Z50";
    assert OccursAt(model, "NIKON ", 0);
    assert model[6..] == "NIKON Z50";
  }

  /** "NIKON Z50" reads as "Z50". */
  lemma StripsNikon()
    ensures CameraName("NIKON Z50") == "Z50"
  {
    assert OccursAt("NIKON Z50", "NIKON ", 0);
    assert ReplaceFirst("NIKON Z50", "NIKON ", "") == "Z50";
    assert ReplaceFirst("Z50", "Z50_2", "Z50II") == "Z50";
    TrimNoop("Z50");
  }

  /**
   * Normalising is not idempotent: only the first "NIKON " goes, so a second
   * pass over "NIKON NIKON Z50" removes another one.
   */
  lemma NormalisingTwiceDiffers()
    ensures CameraName(CameraName("NIKON NIKON Z50")) != CameraName("NIKON NIKON Z50")
  {
    StripsFirstNikonOnly();
    StripsNikon();
  }

  /**
   * The line the gallery stores, built as the source builds it: successive
   * pushes onto `params`, then `params.join(' ')`.
   */
  method ExtractEquipment(read: Option<TagMap>) returns (equipment: string)
    ensures equipment == Equipment(read)
  {
    if read.None? {
      return Sentinel;
    }
    var tags := read.value;
    var camera := CameraName(Description(tags, "Model"));
    var focalLength := Description(tags, "FocalLength");
    var aperture := Description(tags, "FNumber");
    var iso := IsoOf(tags);
    var shutterSpeed := Description(tags, "ExposureTime");
    var params: seq<string> := [camera];
    params := PushIf(params, focalLength, focalLength);
    params := PushIf(params, aperture, aperture);
    params := PushIf(params, shutterSpeed, shutterSpeed + "s");
    params := PushIf(params, iso, "ISO " + iso);
    equipment := Join(params, " ");
  }
}
