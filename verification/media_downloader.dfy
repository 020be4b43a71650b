/**
  MediaDownloader::download up to the point where the network would take
  over: the checks on the data file and the output directory, parsing, and
  the collection of the profile's media into m_dlList.
 */
module Downloader {
  import opened Common
  import opened QJson
  import opened Host
  import opened Media

  /** The messages download emits through dlError. */
  datatype DlError =
    | DataFileMissing(dataFile: string)
    | CannotCreatePath(dataFile: string)   // the message names the data file, not the output path
    | CannotOpenFile(dataFile: string)
    | JsonParseError(offset: int)
    | BadDataNode
    | NoPagesFound

  /** The dlError emitted, if any, and m_dlList afterwards. */
  datatype DownloadResult = DownloadResult(error: Option<DlError>, dlList: seq<MediaObject>)

  /** The profile keys CHK_AND_APPEND tries, in order. */
  const ProfileKeys: seq<string> := ["Avatar", "Cover", "Backcover"]

  /** The object a profile contributes for `key`: one with id -1 when `key` holds a non-empty string, none otherwise. */
  function Entry(profile: JsonObject, key: string, outPath: string): seq<MediaObject> {
    if HasNonEmptyString(profile, key) then [MediaObject(-1, profile[key].s, outPath)] else []
  }

  /** The media the profile names under `keys`, in the order of `keys`, each with id -1 and `outPath`. */
  function ProfileMedia(profile: JsonObject, keys: seq<string>, outPath: string): (media: seq<MediaObject>)
    ensures |media| <= |keys|
    ensures forall m :: m in media ==> m.id == -1 && m.path == outPath && m.uri != ""
    decreases |keys|
  {
    if |keys| == 0 then []
    else Entry(profile, keys[0], outPath) + ProfileMedia(profile, keys[1..], outPath)
  }

  /** APPEND_OBJ: a default MediaObject given the id, the output path and the URI, appended. */
  function AppendObj(list: seq<MediaObject>, id: int32, str: string, outPath: string): seq<MediaObject> {
    list + [SetUri(SetPath(SetId(Default(), id), outPath), str)]
  }

  /** CHK_AND_APPEND: append the object only when `key` holds a non-null, non-empty string. */
  function CheckAndAppend(list: seq<MediaObject>, obj: JsonObject, key: string, id: int32, outPath: string): (r: seq<MediaObject>)
    ensures list <= r && |r| <= |list| + 1
    ensures |r| == |list| + 1 <==> HasNonEmptyString(obj, key)
    ensures |r| == |list| + 1 ==> r[|list|] == MediaObject(id, obj[key].s, outPath)
  {
    var str := ToQString(Get(obj, key));
    if str.Some? && str.value != "" then
      SettersBuildObject(id, str.value, outPath);
      AppendObj(list, id, str.value, outPath)
    else list
  }

  /** CHK_AND_APPEND for each key of `keys`, in order. */
  function CheckAndAppendAll(list: seq<MediaObject>, obj: JsonObject, keys: seq<string>, outPath: string): (r: seq<MediaObject>)
    ensures r == list + ProfileMedia(obj, keys, outPath)
    decreases |keys|
  {
    if |keys| == 0 then list
    else
      var next := CheckAndAppend(list, obj, keys[0], -1, outPath);
      CheckAndAppendIsEntry(list, obj, keys[0], outPath);
      var rest := ProfileMedia(obj, keys[1..], outPath);
      assert list + ProfileMedia(obj, keys, outPath) == next + rest by {
        ConcatAssoc(list, Entry(obj, keys[0], outPath), rest);
      }
      CheckAndAppendAll(next, obj, keys[1..], outPath)
  }

  /** CHK_AND_APPEND with id -1 appends exactly the key's entry. */
  lemma CheckAndAppendIsEntry(list: seq<MediaObject>, obj: JsonObject, key: string, outPath: string)
    ensures CheckAndAppend(list, obj, key, -1, outPath) == list + Entry(obj, key, outPath)
  {
    var r := CheckAndAppend(list, obj, key, -1, outPath);
    if HasNonEmptyString(obj, key) {
      assert r == r[..|list|] + [r[|list|]];
    } else {
      assert r == list;
    }
  }

  /** An empty profile names no media. */
  lemma {:induction false} EmptyProfileHasNoMedia(keys: seq<string>, outPath: string)
    ensures ProfileMedia(map[], keys, outPath) == []
    decreases |keys|
  {
    if |keys| > 0 {
      EmptyProfileHasNoMedia(keys[1..], outPath);
    }
  }

  /** The `Profile` block of download: CHK_AND_APPEND on Avatar, Cover and Backcover, skipped for an empty profile. */
  function CollectProfile(list: seq<MediaObject>, profile: JsonObject, outPath: string): (r: seq<MediaObject>)
    ensures r == list + ProfileMedia(profile, ProfileKeys, outPath)
    ensures |r| <= |list| + 3
  {
    if |profile| == 0 then
      EmptyProfileHasNoMedia(ProfileKeys, outPath);
      list
    else CheckAndAppendAll(list, profile, ProfileKeys, outPath)
  }

  /** The checks and parsing that come before the 'data' node is inspected: the parsed document, or the error. */
  datatype Opened = Document(doc: Value) | Rejected(error: DlError)

  function OpenDataFile(disk: Disk, dataFile: string, outPath: string): (r: Opened)
    ensures r.Document? <==>
              && dataFile != "" && disk.fileExists(dataFile)
              && (disk.dirExists(QDirPath(outPath)) || disk.makePath(outPath))
              && disk.canOpen(dataFile) && disk.parse(dataFile).Parsed?
    ensures r.Document? ==> r.doc == disk.parse(dataFile).doc
    // each failing check sends its own message, in the order the checks are made
    ensures dataFile == "" || !disk.fileExists(dataFile) ==> r == Rejected(DataFileMissing(dataFile))
    ensures dataFile != "" && disk.fileExists(dataFile)
            && !disk.dirExists(QDirPath(outPath)) && !disk.makePath(outPath) ==>
              r == Rejected(CannotCreatePath(dataFile))
    ensures dataFile != "" && disk.fileExists(dataFile)
            && (disk.dirExists(QDirPath(outPath)) || disk.makePath(outPath))
            && !disk.canOpen(dataFile) ==>
              r == Rejected(CannotOpenFile(dataFile))
    ensures dataFile != "" && disk.fileExists(dataFile)
            && (disk.dirExists(QDirPath(outPath)) || disk.makePath(outPath))
            && disk.canOpen(dataFile) && disk.parse(dataFile).SyntaxError? ==>
              r == Rejected(JsonParseError(disk.parse(dataFile).offset))
  {
    if dataFile == "" || !disk.fileExists(dataFile) then Rejected(DataFileMissing(dataFile))
    else if !disk.dirExists(QDirPath(outPath)) && !disk.makePath(outPath) then Rejected(CannotCreatePath(dataFile))
    else if !disk.canOpen(dataFile) then Rejected(CannotOpenFile(dataFile))
    else match disk.parse(dataFile)
      case SyntaxError(offset) => Rejected(JsonParseError(offset))
      case Parsed(doc) => Document(doc)
  }

  /**
    download as written: the test on the 'data' node is inverted, so a
    non-empty data node is reported as an error and an empty one goes on to
    the profile and the pages.
   */
  function DownloadAsWritten(disk: Disk, dlList: seq<MediaObject>, dataFile: string, outPath: string): (r: DownloadResult)
    ensures OpenDataFile(disk, dataFile, outPath).Rejected? ==>
              r.error == Some(OpenDataFile(disk, dataFile, outPath).error)
    ensures r.error.Some?
    ensures r.dlList == dlList
  {
    match OpenDataFile(disk, dataFile, outPath)
    case Rejected(e) => DownloadResult(Some(e), dlList)
    case Document(doc) =>
      var data := ToObject(Get(ToObject(doc), "data"));
      if |data| != 0 then DownloadResult(Some(BadDataNode), dlList)
      else
        var list := CollectProfile(dlList, ToObject(Get(data, "Profile")), outPath);
        if |ToArray(Get(data, "Pages"))| == 0 then DownloadResult(Some(NoPagesFound), list)
        else DownloadResult(None, list)
  }

  /** Which error the as-written download reports once parsing has succeeded. */
  lemma AsWrittenRejectsEveryDocument(disk: Disk, dlList: seq<MediaObject>, dataFile: string, outPath: string)
    requires OpenDataFile(disk, dataFile, outPath).Document?
    ensures var doc := disk.parse(dataFile).doc;
            var r := DownloadAsWritten(disk, dlList, dataFile, outPath);
            r.error == Some(if HasNonEmptyObject(ToObject(doc), "data") then BadDataNode else NoPagesFound)
  {
    ObjectMember(ToObject(disk.parse(dataFile).doc), "data");
  }

  /** The document shape download is meant to accept: a non-empty data node with a non-empty Pages array. */
  predicate IsDownloadableManifest(doc: Value) {
    && doc.Object?
    && HasNonEmptyObject(doc.members, "data")
    && HasNonEmptyArray(doc.members["data"].members, "Pages")
  }

  /** The profile object of a document's data node (empty when absent). */
  function ProfileOf(doc: Value): JsonObject {
    ToObject(Get(ToObject(Get(ToObject(doc), "data")), "Profile"))
  }

  /**
    download with the test on the 'data' node the right way round: an empty
    data node is the error, and a non-empty one has its profile media
    collected before the pages are checked.
   */
  function Download(disk: Disk, dlList: seq<MediaObject>, dataFile: string, outPath: string): (r: DownloadResult)
    ensures OpenDataFile(disk, dataFile, outPath).Rejected? ==>
              r == DownloadResult(Some(OpenDataFile(disk, dataFile, outPath).error), dlList)
    ensures r.error.None? <==>
              OpenDataFile(disk, dataFile, outPath).Document? && IsDownloadableManifest(disk.parse(dataFile).doc)
    // once parsed: an empty data node is the error and nothing is collected;
    // a non-empty one has its profile media appended, and then only the pages decide
    ensures OpenDataFile(disk, dataFile, outPath).Document? ==>
              var root := ToObject(disk.parse(dataFile).doc);
              && (r.error == Some(BadDataNode) <==> !HasNonEmptyObject(root, "data"))
              && (r.error == Some(NoPagesFound) <==>
                    HasNonEmptyObject(root, "data") && !HasNonEmptyArray(root["data"].members, "Pages"))
              && (!HasNonEmptyObject(root, "data") ==> r.dlList == dlList)
              && (HasNonEmptyObject(root, "data") ==>
                    r.dlList == dlList + ProfileMedia(ProfileOf(disk.parse(dataFile).doc), ProfileKeys, outPath))
  {
    match OpenDataFile(disk, dataFile, outPath)
    case Rejected(e) => DownloadResult(Some(e), dlList)
    case Document(doc) =>
      ObjectMember(ToObject(doc), "data");
      var data := ToObject(Get(ToObject(doc), "data"));
      if |data| == 0 then DownloadResult(Some(BadDataNode), dlList)
      else
        ArrayMember(data, "Pages");
        var list := CollectProfile(dlList, ToObject(Get(data, "Profile")), outPath);
        if |ToArray(Get(data, "Pages"))| == 0 then DownloadResult(Some(NoPagesFound), list)
        else DownloadResult(None, list)
  }

  lemma ProfileKeysSpelled()
    ensures ProfileKeys == ["Avatar"] + (["Cover"] + (["Backcover"] + []))
  {
  }

  lemma ProfileMediaCons(profile: JsonObject, key: string, keys: seq<string>, outPath: string)
    ensures ProfileMedia(profile, [key] + keys, outPath)
            == Entry(profile, key, outPath) + ProfileMedia(profile, keys, outPath)
  {
    assert ([key] + keys)[1..] == keys;
  }

  /** The profile contributes at most one object per key, in the order Avatar, Cover, Backcover. */
  lemma ProfileMediaOrder(profile: JsonObject, outPath: string)
    ensures ProfileMedia(profile, ProfileKeys, outPath)
            == Entry(profile, "Avatar", outPath) + Entry(profile, "Cover", outPath) + Entry(profile, "Backcover", outPath)
  {
    ProfileKeysSpelled();
    ProfileMediaCons(profile, "Backcover", [], outPath);
    ProfileMediaCons(profile, "Cover", ["Backcover"] + [], outPath);
    ProfileMediaCons(profile, "Avatar", ["Cover"] + (["Backcover"] + []), outPath);
  }

  /** A data file whose data node has one page: meant to be accepted, rejected as written. */
  function SamplePageDoc(): Value {
    Object(map["data" := Object(map["Pages" := Array([Object(map[])])])])
  }

  function SampleDisk(): Disk {
    Disk(p => true, p => true, p => true, p => true, p => Parsed(SamplePageDoc()), p => false)
  }

  /** The inverted check rejects a data file the corrected download accepts. */
  lemma InvertedDataCheckRejectsValidFile()
    ensures DownloadAsWritten(SampleDisk(), [], "data.json", "out").error == Some(BadDataNode)
    ensures Download(SampleDisk(), [], "data.json", "out").error == None
  {
    var doc := SamplePageDoc();
    assert HasNonEmptyObject(doc.members, "data");
    assert HasNonEmptyArray(doc.members["data"].members, "Pages");
  }
}
