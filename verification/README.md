# yqzd preview core in Dafny

A model of the two working pieces of the yearbook previewer's C++/Qt code:

- **PreviewWidget**: `load` checks the manifest file and the media directory, parses the JSON, and fills `m_mediaPath`, `m_pageSize` (through `parseProperty`) and `m_pages`. On the first successful load it also creates the magenta-filled scene image and its painter. `drawPage` picks a page, sets `m_curID` from its `ID`, and has `drawBackground` paint the page's background image. That image is found through the `tag` lambda and the `GET_FILE` macro: `mediaPath/curID/md5hex(uri).ext`.
- **MediaDownloader**: the `MediaObject` value type (defaults, setters, `==`/`!=`, copying and assignment). It also covers the part of `download` that runs before the network: the checks on the data file and output directory, JSON parsing, and the collection of the profile's Avatar/Cover/Backcover media into `m_dlList` with `APPEND_OBJ`/`CHK_AND_APPEND`.

The widget and the downloader are values. Each operation is a pure function from the old state, and from the answers of the disk, to the result and the new state.

Modules:

| file | module | contents |
|---|---|---|
| common.dfy | `Common` | `Option`, `int32` (C++ `int`), `byte` |
| qjson.dfy | `QJson` | JSON values and Qt's total conversions (`toObject`, `toArray`, `toInt`, `toString`) with Qt's defaults |
| host.dfy | `Host` | `Disk`: file existence, directory existence, `mkpath`, `open` and `fromJson` results, and `QImage::load`, each as a function of the path |
| text.dfy | `Text` | `lastIndexOf`, the decimal rendering of an `int`, `QByteArray::toHex` |
| qt_arg.dfy | `QtArg` | `QString::arg` place-marker substitution |
| asset_path.dfy | `AssetPath` | `tag`, `GET_FILE` as written and as intended |
| preview_widget.dfy | `Preview` | `PageSize`, canvas, widget, `parseProperty`, `load`, `drawPage`, `drawBackground`, and sequences of calls |
| media_object.dfy | `Media` | `MediaObject` |
| media_downloader.dfy | `Downloader` | `download` as written and corrected, `CHK_AND_APPEND` |

Parameters that stand in for what the model does not compute:

- `md5: string -> seq<byte>` is the MD5 of a string's UTF-8 bytes.
- A `Disk` holds the file-system answers and the parser's result for each path.
- A page's drawing is recorded as `DrawImage(file)` on the canvas; no pixels are modelled.

Details of Qt that the model follows:

- `QJsonArray::at` returns Undefined outside the array. So `drawPage(size)`, which the `pgNum > size` guard lets through, and negative page numbers both read an empty page. That sets `m_curID` to -1 and paints nothing.
- `QJsonValue::toInt(d)` gives `d` unless the value is a number that fits an `int`.
- `QDir("")` denotes the current directory, so `download` does not reject an empty output path.
- A `QImage` with a non-positive side is null, and filling or painting on it does nothing.
- `m_pageSize` has no initialiser, so a fresh widget (`Preview.Initial`) takes an arbitrary page size.

Behaviour of the code worth knowing, which the model follows:

- A missing or empty `PageSize` makes `parseProperty`, and so `load`, fail; no other sub-configuration is read.
- `load` reports only success or failure. `Preview.LoadFailure` names which check failed, for the model's own statements.
- `load` does not resolve `Profile.Avatar`; only `download` reads the profile.

## Model

| member | source | states |
|---|---|---|
| Text.LastIndexOf | PreviewWidget.cpp:141 | -1 exactly when the character does not occur; otherwise the index holds it and no later position does |
| AssetPath.Tag | PreviewWidget.cpp:140-145 | empty when the URI has no '.'; otherwise dot-free, and the URI is some prefix, a '.', then the tag |
| AssetPath.TagOfJoin | PreviewWidget.cpp:141-142 | for any prefix and dot-free t, the tag of prefix + "." + t is t (the inverse of splitting at the last dot) |
| Text.HexRoundTrip | PreviewWidget.cpp:152 | the hex digest (two lower-case digits per byte) decodes back to the digest bytes |
| Text.DecimalRoundTrip | PreviewWidget.cpp:150 | the decimal digits of a number read back as that number |
| Text.IntToStringInjective | PreviewWidget.cpp:150 | distinct page ids are rendered as distinct strings |
| Text.IntToStringSign | PreviewWidget.cpp:150 | a rendered page id starts with '-' exactly when the id is negative |
| QtArg.ArgPlainPrefix | PreviewWidget.cpp:148-153 | `.arg` leaves text without '%' in front of the markers unchanged and substitutes in the rest |
| AssetPath.FileTemplateSpelling | PreviewWidget.cpp:148 | the template assembled from its pieces is the format string "%1/%2/%3.%4" |
| AssetPath.TemplateArgs | PreviewWidget.cpp:148-153 | each `.arg` of the chain replaces the lowest marker left in the template, %1 then %2, %3 and %4, with its argument |
| AssetPath.GetFileKeepsExtension | PreviewWidget.cpp:147-153 | the asset path the macro is meant to build (each argument in its own field) has the same extension as the URI |
| AssetPath.GetFileEndsWithTag | PreviewWidget.cpp:147-153 | the intended asset path ends in "." followed by the URI's extension |
| AssetPath.GetFileSeparatesPages | PreviewWidget.cpp:148-150 | in the intended asset path, the same URI on two different page ids gives two different paths |
| AssetPath.AsWrittenAgreesWithoutPercent | PreviewWidget.cpp:147-153 | when the media path has no '%', the macro's four chained `.arg` calls give exactly mediaPath/curID/md5hex.tag |
| AssetPath.PercentPathChain | PreviewWidget.cpp:147-153 | for a media path that is the marker "%2", every page id, digest and tag without '%', the chain writes the page id in place of the media path too |
| AssetPath.AsWrittenMisplacesPercentPath | PreviewWidget.cpp:147-153 | media path "%2" and page 7 give "7/7/md5hex.tag", not "%2/7/md5hex.tag" |
| AssetPath.PercentOneChain | PreviewWidget.cpp:147-153 | for a media path that is the marker "%1" and any page id and digest without '%', the chain gives id/hex/tag followed by ".%4": the media directory is lost and the last marker stays unfilled |
| AssetPath.AsWrittenDropsMediaPath | PreviewWidget.cpp:147-153 | as written, media path "%1" gives curID/md5hex/tag.%4, whose extension is "%4" whatever the URI's |
| Preview.ParseProperty | PreviewWidget.cpp:123-137 | succeeds exactly when the object and its PageSize member are non-empty objects; on failure the page size is unchanged; on success each field is the member's int value, or 0 when it is missing or not an int |
| Preview.ReadsPageSizeUnique | PreviewWidget.cpp:129-133 | the PageSize members determine the five page-size fields read from them |
| Preview.NewCanvas | PreviewWidget.cpp:86-89 | the scene image is PageWidth x PageHeight, has no paints, and carries the magenta fill exactly when it is not null |
| Preview.Load | PreviewWidget.cpp:32-95 | true exactly when every check passes; failures before line 47 leave the widget unchanged, later ones leave the media path set; once parseProperty succeeds, m_pageSize is read from PageSize and m_pages becomes the Pages array, or empty when Pages is missing or empty, and the only failure left is the empty-pages one; before that, pages and page size are kept; m_curID is never touched; the canvas is created only by the first successful load and never replaced |
| Preview.LoadStatusIgnoresWidget | PreviewWidget.cpp:32-95 | the value load returns, and the check that fails, depend only on the files and paths, not on the widget's earlier state |
| Preview.LoadIsIdempotent | PreviewWidget.cpp:32-95 | loading the same files a second time gives the same answer and the same widget |
| Preview.LoadKeepsCanvasReady | PreviewWidget.cpp:81-92 | load never installs pages without a canvas existing afterwards |
| Preview.DrawBackground | PreviewWidget.cpp:156-170 | paints the resolved background file exactly when Property and Background are non-empty and the image loads; otherwise the widget is unchanged; the painter is dereferenced while missing exactly when such an image loads before any canvas exists |
| Preview.DrawPage | PreviewWidget.cpp:97-108 | a page number above the page count changes nothing; otherwise m_curID becomes the page's ID, or -1; at most one paint, of that page's background, is appended; pages, media path, page size and canvas size are kept; with pages only alongside a canvas it never reaches the null painter |
| Preview.RunNeverDereferencesNullPainter | PreviewWidget.cpp:86-108 | from any widget whose pages come with a canvas, no sequence of load and drawPage calls dereferences the null painter |
| Preview.FreshWidgetIsSafe | PreviewWidget.h:39-47 | a newly constructed widget, whatever its uninitialised page size, is safe for every sequence of calls |
| Preview.CanvasIsCreatedOnce | PreviewWidget.cpp:86-92 | once the canvas exists, every later sequence of calls runs without reaching the null painter, keeps the canvas size and fill, and only appends paints, so it is never cleared |
| Media.Default | MediaDownloader.cpp:19-23 | a default object has id -1, empty uri and empty path |
| Media.Equals | MediaDownloader.cpp:56-62 | `==` holds exactly when id, path and uri all agree, that is, for structurally equal objects |
| Media.NotEquals | MediaDownloader.cpp:64-67 | `!=` holds exactly when the objects differ |
| Media.EqualsIsEquivalence | MediaDownloader.cpp:56-62 | `==` is reflexive, symmetric and transitive |
| Media.SetUri | MediaDownloader.cpp:79-82 | sets the uri; id and path are unchanged |
| Media.SetId | MediaDownloader.cpp:89-92 | sets the id; uri and path are unchanged |
| Media.SetPath | MediaDownloader.cpp:99-102 | sets the path; id and uri are unchanged |
| Media.SetterLaws | MediaDownloader.cpp:79-102 | setting a field to its own value is a no-op, and a second set of the same field overrides the first |
| Media.Copy | MediaDownloader.cpp:42-46 | a copy compares equal to its source |
| Media.Assign | MediaDownloader.cpp:48-54 | after assignment the target compares equal to the source; self-assignment leaves the object as it was |
| Media.SettersBuildObject | MediaDownloader.cpp:152-159 | APPEND_OBJ's three setters on a default object build exactly {id, uri, path}, leaving no default behind |
| Downloader.OpenDataFile | MediaDownloader.cpp:123-143 | reaches a parsed document exactly when the data file is named and exists, the output directory exists or can be created, the file opens and the JSON parses; otherwise the first failing check names the error: data file missing, path not creatable (naming the data file), file not openable, or the JSON error with its offset |
| Downloader.CheckAndAppend | MediaDownloader.cpp:161-167 | keeps the list as a prefix; appends one object exactly when the key holds a non-empty string, and that object is {id, the string, outPath} |
| Downloader.CheckAndAppendIsEntry | MediaDownloader.cpp:161-167 | CHK_AND_APPEND with id -1 appends exactly the key's entry: one object for a non-empty string, nothing otherwise |
| Downloader.CheckAndAppendAll | MediaDownloader.cpp:175-177 | CHK_AND_APPEND over a list of keys appends the profile's media for those keys, in order, after the existing list |
| Downloader.EmptyProfileHasNoMedia | MediaDownloader.cpp:172-174 | an empty profile names no media, so skipping it appends the same as checking every key |
| Downloader.ProfileMedia | MediaDownloader.cpp:170-178 | at most one object per key, each with id -1, the output path and a non-empty uri |
| Downloader.CollectProfile | MediaDownloader.cpp:170-179 | appends exactly the profile's media for Avatar, Cover, Backcover, at most three |
| Downloader.ProfileMediaOrder | MediaDownloader.cpp:175-177 | the appended uris are the non-empty Avatar, Cover and Backcover strings, in that order |
| Downloader.DownloadAsWritten | MediaDownloader.cpp:121-185 | as written, a file rejected before parsing emits that check's error, and every call emits some dlError and leaves m_dlList unchanged |
| Downloader.AsWrittenRejectsEveryDocument | MediaDownloader.cpp:145-185 | once parsing succeeds, the as-written code reports "Parse 'data' node error!" for a non-empty data node and "No pages found!!" otherwise |
| Downloader.InvertedDataCheckRejectsValidFile | MediaDownloader.cpp:146-150 | a data file with one page is rejected as written and accepted by the corrected check |
| Downloader.Download | MediaDownloader.cpp:145-185 | a rejection before parsing emits that error and keeps the list; there is no error exactly when the file passes those checks and has a non-empty data node with non-empty Pages; once parsed, the data-node error comes exactly for an empty data node and leaves the list alone, the no-pages error exactly for a non-empty data node without pages, and a non-empty data node always has the profile's media appended, whatever the pages |

## Findings

| source | as written | input that shows it | evidently intended | confidence | as-written member | corrected member |
|---|---|---|---|---|---|---|
| MediaDownloader.cpp:147 | `if (!data.isEmpty())` reports an error when the data node is present | a data file `{"data":{"Pages":[{}]}}` that exists, opens and parses | `if (data.isEmpty())`: an absent or empty data node is the error | high, not executed | Downloader.DownloadAsWritten (shown by Downloader.InvertedDataCheckRejectsValidFile) | Downloader.Download |
| PreviewWidget.cpp:147-153 | four chained `.arg` calls: each rescans the text substituted before it, so place markers inside `m_mediaPath` are replaced too | `m_mediaPath` = "%2", `m_curID` = 7 gives "7/7/md5hex.tag"; `m_mediaPath` = "%1" gives "curID/md5hex/tag.%4", losing the media directory and the extension | "%2/7/md5hex.tag" and "%1/curID/md5hex.tag", as the multi-argument `arg(a, b, c, d)` would give | medium, not executed | AssetPath.GetFileAsWritten (shown by AssetPath.AsWrittenMisplacesPercentPath and AssetPath.AsWrittenDropsMediaPath) | AssetPath.GetFile |

`Preview.DrawBackground` and `Preview.DrawPage` resolve files with the corrected `AssetPath.GetFile`. `AssetPath.AsWrittenAgreesWithoutPercent` shows that the two paths coincide for every media path without '%'.

## Left out

- `PreviewWidget::paintEvent`, QPainter/QImage pixel operations and `update()`: each paint is recorded as an abstract `DrawImage` event.
- MD5 (RFC 1321) and the UTF-8 encoding of the URI: the digest is a parameter. Its hex rendering is modelled.
- File-system checks, `QDir::mkpath`, `QFile::open`, `QJsonDocument::fromJson` and `QImage::load` are answers supplied by `Host.Disk`. The directory `mkpath` creates is not recorded, because nothing later in `download` looks at it.
- Allocation failure of a very large scene image: only a non-positive side makes the canvas null.
- JSON numbers with a fractional part: `QJson.Value` holds integral numbers only.
- AssetPath.GetFileKeepsExtension: states the property of the corrected path only. As written, a media path holding a place marker can change the extension (`AssetPath.AsWrittenDropsMediaPath`).
- AssetPath.GetFileEndsWithTag: states the property of the corrected path only. As written, media path "%1" gives a path that ends in ".%4".
- AssetPath.GetFileSeparatesPages: states the property of the corrected path only. As written it carries over only to media paths without '%' (`AssetPath.AsWrittenAgreesWithoutPercent`).
- Preview.DrawBackground: looks the image up under the corrected path. For a media path holding a place marker, the widget as written looks under the path `AssetPath.GetFileAsWritten` gives; the two agree for every media path without '%'.
- Preview.DrawPage: paints the file found under the corrected path, for the same reason as `Preview.DrawBackground`.
- QtArg.Arg: does not model the `%L` locale marker or field widths. The chain's own template uses neither, but a media path is rescanned by the later calls: Qt reads "%L2" in a media path as marker 2, while `AssetPath.GetFileAsWritten` keeps it as plain text.
- The `qDebug` and `qWarning` diagnostics.
- The network part of `MediaDownloader`: `m_networkMgr`, `m_replyList`, `m_workingMap`, `processDownload` (declared without a body) and whatever `download` would do after the pages check (the body is empty there).
- `drawElement` and `drawTemplateElement` (declared without bodies), and the page-type renderers, pagination, QR codes and card grids, which have no code.
- The other structs of PropertyData.h (Pagination, DividingLine, font groups), which the modelled code never fills.
- `parseProperty` is virtual. A subclass could override it, but none exists.
- MainWindow and main.cpp: window layout, signal wiring, file dialogs and font registration.
