/**
  What the widget and the downloader ask of the file system and of the JSON
  parser. Each query is a total function of the path it is asked about, so a
  `Disk` value fixes the answers of one run.
 */
module Host {
  import QJson

  /** Outcome of QJsonDocument::fromJson on a file's bytes. */
  datatype ParseResult =
    | Parsed(doc: QJson.Value)
    | SyntaxError(offset: int)

  datatype Disk = Disk(
    fileExists: string -> bool,     // QFile::exists
    dirExists: string -> bool,      // QDir::exists
    makePath: string -> bool,       // QDir::mkpath succeeds
    canOpen: string -> bool,        // QFile::open(QIODevice::ReadOnly) succeeds
    parse: string -> ParseResult,   // QJsonDocument::fromJson(file.readAll())
    imageLoads: string -> bool)     // QImage::load succeeds

  /** The directory a QDir built from `path` denotes: an empty path means the current directory. */
  function QDirPath(path: string): string {
    if path == "" then "." else path
  }
}
