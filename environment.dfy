/**
 * What the two handlers read and call: the configuration they consult, the
 * outcomes of the calls they make into the URL parser, the HTTP client, the
 * file system, the cipher helpers and the object-store uploader, and the
 * record of which of those effects a run attempted.
 */
module Environment {
  import opened Wrappers
  import opened BackupNaming
  import opened Messages

  newtype byte = x: int | 0 <= x < 256

  type Bytes = seq<byte>

  /** The settings of `system.GetConfiguration()` that the handlers read. */
  datatype Config = Config(
    dialect: string,      // Database.Dialect
    dsn: string,          // Database.DSN
    backupEnabled: bool,  // Backup.Enabled
    backupKey: Bytes,     // Backup.BackupKey, as the bytes of the Go string
    qiniuEnabled: bool,   // Qiniu.Enabled
    bucket: string,       // Qiniu.Bucket, the scope of the upload policy
    fileServer: string)   // Qiniu.FileServer, the trusted base URL of restores

  /** `url.Parse`: an error, or the (lower-cased) scheme and the path. */
  datatype ParsedUrl = ParseError(msg: string) | Parsed(scheme: string, path: string)

  /** `client.Get`: a transport error, or a status code and the outcome of reading the body. */
  datatype FetchOutcome =
    | TransportError(msg: string)
    | Response(status: int, body: Result<Bytes, string>)

  /**
   * The outcome of every call the handlers make, as a function of its
   * arguments; an `Option<string>` is a Go `error` (`None` is nil).
   */
  datatype World = World(
    parseUrl: string -> ParsedUrl,                         // url.Parse
    joinPath: (string, string) -> Result<string, string>,  // url.JoinPath
    get: string -> FetchOutcome,                           // http.Client.Get, ioutil.ReadAll
    decrypt: (Bytes, Bytes) -> Result<Bytes, string>,      // helpers.Decrypt(data, key)
    writeFile: (string, Bytes) -> Option<string>,          // ioutil.WriteFile
    pathExists: string -> bool,                            // helpers.PathExists
    readFile: string -> Result<Bytes, string>,             // ioutil.ReadFile
    encrypt: (Bytes, Bytes) -> Result<Bytes, string>,      // helpers.Encrypt(data, key)
    put: (string, string, Bytes, int) -> Option<string>,   // FormUploader.Put(scope, name, data, size)
    now: DateTime)                                         // helpers.GetCurrentTime()

  /** An effect a handler attempted, in the order attempted. */
  datatype Effect =
    | Get(url: string)
    | ReadBody
    | Decrypt(data: Bytes, key: Bytes)
    | WriteFile(name: string, data: Bytes)
    | Stat(path: string)
    | ReadFile(path: string)
    | Encrypt(data: Bytes, key: Bytes)
    | Upload(scope: string, name: string, data: Bytes, size: int)

  /**
   * The `gin.H` reply: the "message" key when present (its text is
   * `MessageText`), and whether "succeed" was set (always to true).
   */
  datatype JsonBody = JsonBody(message: Option<Message>, succeed: bool)

  const EMPTY_BODY := JsonBody(None, false)

  /** The policy gate both handlers apply, in their order: dialect first, then the two flags. */
  function CheckPolicy(cfg: Config): (r: Option<Message>)
    ensures r == None <==> cfg.dialect == "sqlite" && cfg.backupEnabled && cfg.qiniuEnabled
    ensures cfg.dialect != "sqlite" ==> r == Some(UnsupportedDialect)
    ensures cfg.dialect == "sqlite" && !(cfg.backupEnabled && cfg.qiniuEnabled) ==> r == Some(NotEnabled)
  {
    if cfg.dialect != "sqlite" then Some(UnsupportedDialect)
    else if !cfg.backupEnabled || !cfg.qiniuEnabled then Some(NotEnabled)
    else None
  }
}
