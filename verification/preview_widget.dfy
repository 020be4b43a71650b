/**
  PreviewWidget: loading a manifest (`load`, `parseProperty`) and drawing a
  page's background (`drawPage`, `drawBackground`). The widget is a value;
  each operation maps the old widget (and the answers of the disk) to the
  new one.
 */
module Preview {
  import opened Common
  import opened QJson
  import opened Host
  import AssetPath

  /** The PageSize struct: five C++ ints. */
  datatype PageSize = PageSize(
    pageHeight: int32,
    pageWidth: int32,
    feedPageHeight: int32,
    feedPageWidth: int32,
    subjectPageWidth: int32)

  /** One drawing on the scene image: a decoded image file placed at the top-left corner. */
  datatype Paint = DrawImage(file: string)

  /**
    The scene image and its painter, created together. Pixels are not
    modelled: the canvas records its size, whether the magenta sentinel fill
    took place, and the paints made on it in order.
   */
  datatype Canvas = Canvas(width: int32, height: int32, sentinelFilled: bool, paints: seq<Paint>) {

    /** A QImage with a non-positive side is null: filling and painting on it do nothing. */
    predicate IsNull() {
      width <= 0 || height <= 0
    }
  }

  /** The widget's fields that load and drawPage read and write. */
  datatype Widget = Widget(
    canvas: Option<Canvas>,   // m_sceneImg together with m_scenePainter
    curId: int32,             // m_curID
    mediaPath: string,        // m_mediaPath
    pageSize: PageSize,       // m_pageSize
    pages: seq<Value>)        // m_pages

  /** A freshly constructed widget. m_pageSize has no initialiser, so its value is whatever `ps` is. */
  function Initial(ps: PageSize): Widget {
    Widget(None, -1, "", ps, [])
  }

  /** `new QImage(PageWidth, PageHeight, ARGB32)` filled magenta. */
  function NewCanvas(ps: PageSize): (c: Canvas)
    ensures c.width == ps.pageWidth && c.height == ps.pageHeight
    ensures c.sentinelFilled <==> !c.IsNull()
    ensures c.paints == []
  {
    var c := Canvas(ps.pageWidth, ps.pageHeight, false, []);
    c.(sentinelFilled := !c.IsNull())
  }

  /** `drawImage(rect().topLeft(), img)` with the painter on this canvas. */
  function PaintImage(c: Canvas, file: string): Canvas {
    if c.IsNull() then c else c.(paints := c.paints + [DrawImage(file)])
  }

  // ---- parseProperty ---------------------------------------------------------

  /**
    What `toInt()` makes of member `key` of `obj`: the number when the key
    holds one that fits a C++ int, and 0 for a missing key or any other value.
   */
  predicate ReadsInt(obj: JsonObject, key: string, v: int32) {
    if key in obj && obj[key].Number? && InInt32Range(obj[key].n) then v as int == obj[key].n
    else v == 0
  }

  /** `ps` holds the five PageSize members of `obj`. */
  predicate ReadsPageSize(obj: JsonObject, ps: PageSize) {
    && ReadsInt(obj, "PageHeight", ps.pageHeight)
    && ReadsInt(obj, "PageWidth", ps.pageWidth)
    && ReadsInt(obj, "FeedPageHeight", ps.feedPageHeight)
    && ReadsInt(obj, "FeedPageWidth", ps.feedPageWidth)
    && ReadsInt(obj, "SubjectPageWidth", ps.subjectPageWidth)
  }

  /** parseProperty's return value and the m_pageSize it leaves behind. */
  datatype PropertyResult = PropertyResult(ok: bool, pageSize: PageSize)

  function ParseProperty(obj: JsonObject, current: PageSize): (r: PropertyResult)
    ensures r.ok <==> |obj| > 0 && HasNonEmptyObject(obj, "PageSize")
    ensures !r.ok ==> r.pageSize == current
    ensures r.ok ==> ReadsPageSize(obj["PageSize"].members, r.pageSize)
  {
    ObjectMember(obj, "PageSize");
    if |obj| == 0 then PropertyResult(false, current)
    else
      var pageSize := ToObject(Get(obj, "PageSize"));
      if |pageSize| == 0 then PropertyResult(false, current)
      else PropertyResult(true, PageSize(
        pageHeight := ToInt(Get(pageSize, "PageHeight"), 0),
        pageWidth := ToInt(Get(pageSize, "PageWidth"), 0),
        feedPageHeight := ToInt(Get(pageSize, "FeedPageHeight"), 0),
        feedPageWidth := ToInt(Get(pageSize, "FeedPageWidth"), 0),
        subjectPageWidth := ToInt(Get(pageSize, "SubjectPageWidth"), 0)))
  }

  // ---- load ------------------------------------------------------------------

  /** Which `return false` of load was taken. */
  datatype LoadFailure =
    | InvalidJsonFile     // empty or missing json path
    | EmptyMediaPath
    | MissingMediaDir
    | CannotOpen
    | ParseError
    | EmptyData           // no non-empty "data" object
    | MissingProperty     // no non-empty "Property" object
    | BadProperty         // parseProperty failed
    | NoPages             // no non-empty "Pages" array

  datatype LoadStatus = Loaded | Failed(reason: LoadFailure)

  datatype LoadResult = LoadResult(status: LoadStatus, widget: Widget)

  /** The document has data{Property{PageSize{..}}}, each object non-empty. */
  predicate HasPageSizeSection(doc: Value) {
    && doc.Object?
    && HasNonEmptyObject(doc.members, "data")
    && HasNonEmptyObject(doc.members["data"].members, "Property")
    && HasNonEmptyObject(doc.members["data"].members["Property"].members, "PageSize")
  }

  function PageSizeSection(doc: Value): JsonObject
    requires HasPageSizeSection(doc)
  {
    doc.members["data"].members["Property"].members["PageSize"].members
  }

  /** The manifest shape load accepts: data{Property{PageSize{..}, ..}, Pages[..]}, each non-empty. */
  predicate IsLoadableManifest(doc: Value) {
    && HasPageSizeSection(doc)
    && HasNonEmptyArray(doc.members["data"].members, "Pages")
  }

  /** The checks load makes before it first writes the widget (m_mediaPath). */
  predicate PathsUsable(disk: Disk, jsonPath: string, mediaPath: string) {
    && jsonPath != "" && disk.fileExists(jsonPath)
    && mediaPath != "" && disk.dirExists(mediaPath)
  }

  /** Everything load needs in order to return true. */
  predicate Loadable(disk: Disk, jsonPath: string, mediaPath: string) {
    && PathsUsable(disk, jsonPath, mediaPath)
    && disk.canOpen(jsonPath)
    && disk.parse(jsonPath).Parsed?
    && IsLoadableManifest(disk.parse(jsonPath).doc)
  }

  /**
    load gets past parseProperty: the paths and the file pass the checks and
    the manifest has data{Property{PageSize{..}}}, each non-empty. From here
    on m_pageSize and m_pages are written, whatever Pages holds.
   */
  predicate ReachesPages(disk: Disk, jsonPath: string, mediaPath: string) {
    && PathsUsable(disk, jsonPath, mediaPath)
    && disk.canOpen(jsonPath)
    && disk.parse(jsonPath).Parsed?
    && HasPageSizeSection(disk.parse(jsonPath).doc)
  }

  /** What `data.value("Pages").toArray()` gives: the array's items, or none when Pages is missing, empty or not an array. */
  function PagesOf(doc: Value): seq<Value>
    requires HasPageSizeSection(doc)
  {
    var data := doc.members["data"].members;
    if HasNonEmptyArray(data, "Pages") then data["Pages"].items else []
  }

  /** The "data" object of a parsed document, as load reads it. */
  function DataOf(doc: Value): JsonObject {
    ToObject(Get(ToObject(doc), "data"))
  }

  function Load(w: Widget, jsonPath: string, mediaPath: string, disk: Disk): (r: LoadResult)
    // returns true exactly when every check passes
    ensures r.status.Loaded? <==> Loadable(disk, jsonPath, mediaPath)
    // the checks before m_mediaPath is written leave the widget as it was
    ensures !PathsUsable(disk, jsonPath, mediaPath) ==> r.widget == w
    ensures PathsUsable(disk, jsonPath, mediaPath) ==> r.widget.mediaPath == mediaPath
    ensures r.widget.curId == w.curId
    // the only failure after parseProperty is an empty or missing Pages
    ensures r.status == Failed(NoPages) <==>
              ReachesPages(disk, jsonPath, mediaPath) && PagesOf(disk.parse(jsonPath).doc) == []
    // past parseProperty, m_pageSize and m_pages are overwritten, even when the pages turn out empty
    ensures ReachesPages(disk, jsonPath, mediaPath) ==>
              var doc := disk.parse(jsonPath).doc;
              && r.widget.pages == PagesOf(doc)
              && ReadsPageSize(PageSizeSection(doc), r.widget.pageSize)
    // any earlier failure leaves the pages and the page size alone
    ensures !ReachesPages(disk, jsonPath, mediaPath) ==>
              r.widget.pages == w.pages && r.widget.pageSize == w.pageSize
    // the canvas is created once, at the first successful load, and never replaced
    ensures w.canvas.Some? ==> r.widget.canvas == w.canvas
    ensures w.canvas.None? && r.status.Failed? ==> r.widget.canvas.None?
    ensures w.canvas.None? && r.status.Loaded? ==> r.widget.canvas == Some(NewCanvas(r.widget.pageSize))
  {
    if jsonPath == "" || !disk.fileExists(jsonPath) then LoadResult(Failed(InvalidJsonFile), w)
    else if mediaPath == "" then LoadResult(Failed(EmptyMediaPath), w)
    else if !disk.dirExists(mediaPath) then LoadResult(Failed(MissingMediaDir), w)
    else
      var w1 := w.(mediaPath := mediaPath);
      if !disk.canOpen(jsonPath) then LoadResult(Failed(CannotOpen), w1)
      else match disk.parse(jsonPath)
        case SyntaxError(_) => LoadResult(Failed(ParseError), w1)
        case Parsed(doc) =>
          ObjectMember(ToObject(doc), "data");
          var data := DataOf(doc);
          if |data| == 0 then LoadResult(Failed(EmptyData), w1)
          else
            ObjectMember(data, "Property");
            ArrayMember(data, "Pages");
            var property := ToObject(Get(data, "Property"));
            if |property| == 0 then LoadResult(Failed(MissingProperty), w1)
            else
              var parsed := ParseProperty(property, w1.pageSize);
              if !parsed.ok then LoadResult(Failed(BadProperty), w1)
              else
                var w2 := w1.(pageSize := parsed.pageSize, pages := ToArray(Get(data, "Pages")));
                if |w2.pages| == 0 then LoadResult(Failed(NoPages), w2)
                else if w2.canvas.Some? then LoadResult(Loaded, w2)
                else LoadResult(Loaded, w2.(canvas := Some(NewCanvas(w2.pageSize))))
  }

  /** The PageSize members determine the page size read from them. */
  lemma ReadsPageSizeUnique(obj: JsonObject, a: PageSize, b: PageSize)
    requires ReadsPageSize(obj, a) && ReadsPageSize(obj, b)
    ensures a == b
  {
  }

  /** Whether load succeeds, and which check fails, depends on the files and not on the widget. */
  lemma LoadStatusIgnoresWidget(w1: Widget, w2: Widget, jsonPath: string, mediaPath: string, disk: Disk)
    ensures Load(w1, jsonPath, mediaPath, disk).status == Load(w2, jsonPath, mediaPath, disk).status
  {
  }

  /** Loading the same files again changes nothing more: the second load gives the same answer and the same widget. */
  lemma LoadIsIdempotent(w: Widget, jsonPath: string, mediaPath: string, disk: Disk)
    ensures var first := Load(w, jsonPath, mediaPath, disk);
            Load(first.widget, jsonPath, mediaPath, disk) == first
  {
    var first := Load(w, jsonPath, mediaPath, disk);
    var second := Load(first.widget, jsonPath, mediaPath, disk);
    LoadStatusIgnoresWidget(w, first.widget, jsonPath, mediaPath, disk);
    if ReachesPages(disk, jsonPath, mediaPath) {
      ReadsPageSizeUnique(PageSizeSection(disk.parse(jsonPath).doc), first.widget.pageSize, second.widget.pageSize);
    }
  }

  // ---- drawPage / drawBackground -------------------------------------------------

  /** QJsonArray::at: the element, or Undefined for an index outside the array. */
  function At(pages: seq<Value>, i: int): Value {
    if 0 <= i < |pages| then pages[i] else Undefined
  }

  /** The page's background image URI, when it has a non-empty Property with a non-empty Background. */
  function BackgroundUri(page: Value): Option<string> {
    if page.Object? && HasNonEmptyObject(page.members, "Property")
       && HasNonEmptyObject(page.members["Property"].members, "Background")
    then
      var background := page.members["Property"].members["Background"].members;
      Some(if "ImageUrl" in background && background["ImageUrl"].String? then background["ImageUrl"].s else "")
    else None
  }

  /** The page's "ID" when it is an int, and -1 otherwise (also for a missing page). */
  predicate HasPageId(page: Value, id: int32) {
    if page.Object? && "ID" in page.members && page.members["ID"].Number?
       && InInt32Range(page.members["ID"].n)
    then id as int == page.members["ID"].n
    else id == -1
  }

  /**
    Outcome of drawing: the new widget, or `NullPainter` when drawBackground
    would call drawImage through m_scenePainter before any load created it.
   */
  datatype DrawResult = Drawn(widget: Widget) | NullPainter

  function DrawBackground(w: Widget, root: JsonObject, disk: Disk, md5: AssetPath.Digest): (r: DrawResult)
    ensures var uri := BackgroundUri(Object(root));
            var file := AssetPath.GetFile(w.mediaPath, w.curId, uri.GetOr(""), md5);
            var loads := uri.Some? && disk.imageLoads(file);
            && (r.NullPainter? <==> loads && w.canvas.None?)
            && (r.Drawn? && !loads ==> r.widget == w)
            && (r.Drawn? && loads ==> r.widget == w.(canvas := Some(PaintImage(w.canvas.value, file))))
  {
    ObjectMember(root, "Property");
    ObjectMember(ToObject(Get(root, "Property")), "Background");
    var property := ToObject(Get(root, "Property"));
    if |property| == 0 then Drawn(w)
    else
      var background := ToObject(Get(property, "Background"));
      if |background| == 0 then Drawn(w)
      else
        var uri := ToText(Get(background, "ImageUrl"));
        var file := AssetPath.GetFile(w.mediaPath, w.curId, uri, md5);
        if !disk.imageLoads(file) then Drawn(w)
        else if w.canvas.None? then NullPainter
        else Drawn(w.(canvas := Some(PaintImage(w.canvas.value, file))))
  }

  /** A drawPage call may paint only when some load has produced pages, and then the canvas exists. */
  predicate CanvasReady(w: Widget) {
    |w.pages| > 0 ==> w.canvas.Some?
  }

  function DrawPage(w: Widget, pgNum: int32, disk: Disk, md5: AssetPath.Digest): (r: DrawResult)
    // the guard lets pgNum == size through; larger numbers change nothing
    ensures pgNum as int > |w.pages| ==> r == Drawn(w)
    // the painter is never needed before it exists
    ensures CanvasReady(w) ==> r.Drawn?
    ensures r.Drawn? ==>
              var w' := r.widget;
              && w'.pages == w.pages && w'.mediaPath == w.mediaPath && w'.pageSize == w.pageSize
              && (w'.canvas.Some? <==> w.canvas.Some?)
    ensures r.Drawn? && pgNum as int <= |w.pages| ==> HasPageId(At(w.pages, pgNum as int), r.widget.curId)
    // exactly one paint, of the page's background file, when it has one that loads; the canvas keeps the rest
    ensures r.Drawn? && w.canvas.Some? ==>
              var c, c' := w.canvas.value, r.widget.canvas.value;
              var uri := BackgroundUri(At(w.pages, pgNum as int));
              && c'.width == c.width && c'.height == c.height && c'.sentinelFilled == c.sentinelFilled
              && if pgNum as int <= |w.pages| && uri.Some? && !c.IsNull()
                    && disk.imageLoads(AssetPath.GetFile(w.mediaPath, r.widget.curId, uri.value, md5))
                 then c'.paints == c.paints + [DrawImage(AssetPath.GetFile(w.mediaPath, r.widget.curId, uri.value, md5))]
                 else c'.paints == c.paints
  {
    if pgNum as int > |w.pages| then Drawn(w)
    else
      var page := At(w.pages, pgNum as int);
      var root := ToObject(page);
      var w1 := w.(curId := ToInt(Get(root, "ID"), -1));
      ObjectMember(root, "Property");
      ObjectMember(ToObject(Get(root, "Property")), "Background");
      DrawBackground(w1, root, disk, md5)
  }

  // ---- sequences of calls ------------------------------------------------------

  /** A call a client makes on the widget. */
  datatype Call = LoadCall(jsonPath: string, mediaPath: string) | DrawPageCall(pgNum: int32)

  /** The widget after `calls`, in order; None when one of them dereferenced the null painter. */
  function Run(w: Widget, calls: seq<Call>, disk: Disk, md5: AssetPath.Digest): Option<Widget>
    decreases |calls|
  {
    if |calls| == 0 then Some(w)
    else match calls[0]
      case LoadCall(jsonPath, mediaPath) => Run(Load(w, jsonPath, mediaPath, disk).widget, calls[1..], disk, md5)
      case DrawPageCall(pgNum) =>
        match DrawPage(w, pgNum, disk, md5)
        case NullPainter => None
        case Drawn(w') => Run(w', calls[1..], disk, md5)
  }

  /** load keeps the invariant: pages are only installed together with a canvas. */
  lemma LoadKeepsCanvasReady(w: Widget, jsonPath: string, mediaPath: string, disk: Disk)
    requires CanvasReady(w)
    ensures CanvasReady(Load(w, jsonPath, mediaPath, disk).widget)
  {
  }

  /**
    From a widget whose pages come with a canvas, no sequence of load and
    drawPage calls reaches the null painter, and the invariant still holds
    at the end.
   */
  lemma {:induction false} RunNeverDereferencesNullPainter(w: Widget, calls: seq<Call>, disk: Disk, md5: AssetPath.Digest)
    requires CanvasReady(w)
    ensures Run(w, calls, disk, md5).Some?
    ensures CanvasReady(Run(w, calls, disk, md5).value)
    decreases |calls|
  {
    if |calls| > 0 {
      match calls[0]
      case LoadCall(jsonPath, mediaPath) =>
        LoadKeepsCanvasReady(w, jsonPath, mediaPath, disk);
        RunNeverDereferencesNullPainter(Load(w, jsonPath, mediaPath, disk).widget, calls[1..], disk, md5);
      case DrawPageCall(pgNum) =>
        RunNeverDereferencesNullPainter(DrawPage(w, pgNum, disk, md5).widget, calls[1..], disk, md5);
    }
  }

  /** A freshly constructed widget is safe for every sequence of calls, whatever its uninitialised page size. */
  lemma FreshWidgetIsSafe(ps: PageSize, calls: seq<Call>, disk: Disk, md5: AssetPath.Digest)
    ensures Run(Initial(ps), calls, disk, md5).Some?
  {
    RunNeverDereferencesNullPainter(Initial(ps), calls, disk, md5);
  }

  /**
    Once the canvas exists no later call recreates or resizes it, and it is
    never cleared: the paints made so far stay, and later ones are appended.
   */
  lemma {:induction false} CanvasIsCreatedOnce(w: Widget, calls: seq<Call>, disk: Disk, md5: AssetPath.Digest)
    requires w.canvas.Some?
    ensures Run(w, calls, disk, md5).Some?
    ensures var c, c' := w.canvas.value, Run(w, calls, disk, md5).value.canvas;
            && c'.Some?
            && c'.value.width == c.width && c'.value.height == c.height
            && c'.value.sentinelFilled == c.sentinelFilled
            && c.paints <= c'.value.paints
    decreases |calls|
  {
    RunNeverDereferencesNullPainter(w, calls, disk, md5);
    if |calls| > 0 {
      match calls[0]
      case LoadCall(jsonPath, mediaPath) =>
        CanvasIsCreatedOnce(Load(w, jsonPath, mediaPath, disk).widget, calls[1..], disk, md5);
      case DrawPageCall(pgNum) =>
        var w' := DrawPage(w, pgNum, disk, md5).widget;
        CanvasIsCreatedOnce(w', calls[1..], disk, md5);
        assert w.canvas.value.paints <= w'.canvas.value.paints;
    }
  }
}
