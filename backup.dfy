/**
 * `Backup` and `BackupPost` of controllers/backup.go: apply the policy gate,
 * take the database path from the DSN, check that the file exists, read it,
 * encrypt it when a key is set, name it from the current time and upload it
 * once.  Each step that fails stops the run and its error is the result.
 */
module BackupPipeline {
  import opened Wrappers
  import opened FileNameGate
  import opened BackupNaming
  import opened Messages
  import opened Environment

  /** How `Backup` ends: its returned error (`None` is nil) and the effects it attempted. */
  datatype BackupRun = BackupRun(err: Option<Message>, trace: seq<Effect>)

  /** The database bytes ready to upload, or the error that stopped the run before the upload. */
  datatype Snapshot =
    | Aborted(err: Message, trace: seq<Effect>)
    | Payload(data: Bytes, trace: seq<Effect>)

  /** Lines 145-168: locate, check, read and, when a key is set, encrypt the database file. */
  function PrepareSnapshot(cfg: Config, w: World): Snapshot
  {
    match w.parseUrl(cfg.dsn)
    case ParseError(m) => Aborted(ErrorText(m), [])
    case Parsed(_, path) =>
      if !w.pathExists(path) then Aborted(MissingDatabase, [Stat(path)])
      else match w.readFile(path)
        case Failure(m) => Aborted(ErrorText(m), [Stat(path), ReadFile(path)])
        case Success(plain) =>
          if |cfg.backupKey| > 0 then
            match w.encrypt(plain, cfg.backupKey)
            case Failure(m) => Aborted(ErrorText(m), [Stat(path), ReadFile(path), Encrypt(plain, cfg.backupKey)])
            case Success(cipher) => Payload(cipher, [Stat(path), ReadFile(path), Encrypt(plain, cfg.backupKey)])
          else Payload(plain, [Stat(path), ReadFile(path)])
  }

  /** The upload of line 179: one `Put` of the data under the generated name, with its exact length. */
  function UploadEffect(cfg: Config, w: World, data: Bytes): Effect
  {
    Upload(cfg.bucket, BackupFileName(w.now), data, |data|)
  }

  /** `Backup()`. */
  function BackupResult(cfg: Config, w: World): BackupRun
  {
    match CheckPolicy(cfg)
    case Some(m) => BackupRun(Some(m), [])
    case None =>
      match PrepareSnapshot(cfg, w)
      case Aborted(m, t) => BackupRun(Some(m), t)
      case Payload(data, t) =>
        var put := w.put(cfg.bucket, BackupFileName(w.now), data, |data|);
        BackupRun(if put.Some? then Some(ErrorText(put.value)) else None, t + [UploadEffect(cfg, w, data)])
  }

  /** Lines 145-168 step by step, `bodyBytes` reassigned by the encryption. */
  method ReadDatabase(cfg: Config, w: World) returns (snapshot: Snapshot)
    ensures snapshot == PrepareSnapshot(cfg, w)
  {
    var u := w.parseUrl(cfg.dsn);
    if u.ParseError? {
      return Aborted(ErrorText(u.msg), []);
    }
    var trace := [Stat(u.path)];
    var exist := w.pathExists(u.path);
    if !exist {
      return Aborted(MissingDatabase, trace);
    }
    trace := trace + [ReadFile(u.path)];
    var read := w.readFile(u.path);
    if read.Failure? {
      return Aborted(ErrorText(read.error), trace);
    }
    var bodyBytes := read.value;
    if |cfg.backupKey| > 0 {
      trace := trace + [Encrypt(bodyBytes, cfg.backupKey)];
      var encrypted := w.encrypt(bodyBytes, cfg.backupKey);
      if encrypted.Failure? {
        return Aborted(ErrorText(encrypted.error), trace);
      }
      bodyBytes := encrypted.value;
    }
    snapshot := Payload(bodyBytes, trace);
  }

  /** `Backup()`, step by step with early returns. */
  method Backup(cfg: Config, w: World) returns (err: Option<Message>, trace: seq<Effect>)
    ensures BackupRun(err, trace) == BackupResult(cfg, w)
  {
    trace := [];
    if cfg.dialect != "sqlite" {
      return Some(UnsupportedDialect), trace;
    }
    if !cfg.backupEnabled || !cfg.qiniuEnabled {
      return Some(NotEnabled), trace;
    }
    var snapshot := ReadDatabase(cfg, w);
    trace := snapshot.trace;
    if snapshot.Aborted? {
      return Some(snapshot.err), trace;
    }
    var bodyBytes := snapshot.data;
    var fileName := BackupFileName(w.now);
    trace := trace + [Upload(cfg.bucket, fileName, bodyBytes, |bodyBytes|)];
    var putErr := w.put(cfg.bucket, fileName, bodyBytes, |bodyBytes|);
    if putErr.Some? {
      return Some(ErrorText(putErr.value)), trace;
    }
    err := None;
  }

  /** `BackupPost`: "succeed" exactly when `Backup` returns nil, its error as "message" otherwise. */
  method BackupPost(cfg: Config, w: World) returns (res: JsonBody, trace: seq<Effect>)
    ensures trace == BackupResult(cfg, w).trace
    ensures res.succeed <==> BackupResult(cfg, w).err == None
    ensures res.message == BackupResult(cfg, w).err
  {
    res := EMPTY_BODY;
    var err;
    err, trace := Backup(cfg, w);
    if err.Some? {
      res := res.(message := err);
      return;
    }
    res := res.(succeed := true);
  }

  /** A closed policy gate stops the backup with its message before any effect. */
  lemma BackupPolicyGate(cfg: Config, w: World)
    requires CheckPolicy(cfg).Some?
    ensures BackupResult(cfg, w) == BackupRun(CheckPolicy(cfg), [])
  {
  }

  /**
   * The prepared snapshot's effects: existence is checked before the read,
   * and encryption follows a successful read; nothing is uploaded here.
   */
  lemma PrepareSnapshotOrder(cfg: Config, w: World)
    ensures var t := PrepareSnapshot(cfg, w).trace;
      (t != [] ==> w.parseUrl(cfg.dsn).Parsed? && t[0] == Stat(w.parseUrl(cfg.dsn).path)) &&
      (|t| >= 2 ==> w.pathExists(w.parseUrl(cfg.dsn).path) && t[1] == ReadFile(w.parseUrl(cfg.dsn).path)) &&
      (|t| >= 3 ==>
         |cfg.backupKey| > 0 && w.readFile(w.parseUrl(cfg.dsn).path).Success? &&
         t[2] == Encrypt(w.readFile(w.parseUrl(cfg.dsn).path).value, cfg.backupKey)) &&
      |t| <= 3 && (forall e :: e in t ==> !e.Upload?)
  {
  }

  /**
   * Once the file is read: Encrypt is attempted exactly when the key is
   * non-empty; without a key the file's bytes are the payload unchanged; an
   * encryption error stops the run with that error and nothing is uploaded.
   */
  lemma BackupEncryptsExactlyWhenKeyed(cfg: Config, w: World, path: string, plain: Bytes)
    requires CheckPolicy(cfg) == None
    requires w.parseUrl(cfg.dsn).Parsed? && w.parseUrl(cfg.dsn).path == path
    requires w.pathExists(path) && w.readFile(path) == Success(plain)
    ensures Encrypt(plain, cfg.backupKey) in BackupResult(cfg, w).trace <==> |cfg.backupKey| > 0
    ensures |cfg.backupKey| == 0 ==>
      BackupResult(cfg, w).trace == [Stat(path), ReadFile(path), UploadEffect(cfg, w, plain)]
    ensures |cfg.backupKey| > 0 && w.encrypt(plain, cfg.backupKey).Failure? ==>
      BackupResult(cfg, w) ==
        BackupRun(Some(ErrorText(w.encrypt(plain, cfg.backupKey).error)),
                  [Stat(path), ReadFile(path), Encrypt(plain, cfg.backupKey)])
    ensures |cfg.backupKey| > 0 && w.encrypt(plain, cfg.backupKey).Success? ==>
      BackupResult(cfg, w).trace ==
        [Stat(path), ReadFile(path), Encrypt(plain, cfg.backupKey),
         UploadEffect(cfg, w, w.encrypt(plain, cfg.backupKey).value)]
  {
    assert PrepareSnapshot(cfg, w).trace[..2] == [Stat(path), ReadFile(path)];
  }

  /** The backup's effects: those of the prepared snapshot, then its upload when it is ready. */
  lemma BackupTrace(cfg: Config, w: World)
    ensures var s := PrepareSnapshot(cfg, w);
      BackupResult(cfg, w).trace ==
        if CheckPolicy(cfg).Some? then []
        else if s.Aborted? then s.trace
        else s.trace + [UploadEffect(cfg, w, s.data)]
  {
  }

  /** At most one upload, and only as the last effect. */
  lemma BackupUploadsAtMostOnce(cfg: Config, w: World)
    ensures var t := BackupResult(cfg, w).trace;
      forall i :: 0 <= i < |t| - 1 ==> !t[i].Upload?
  {
    PrepareSnapshotOrder(cfg, w);
    BackupTrace(cfg, w);
    var t := BackupResult(cfg, w).trace;
    var s := PrepareSnapshot(cfg, w);
    if CheckPolicy(cfg) == None && s.Payload? {
      forall i | 0 <= i < |t| - 1 ensures !t[i].Upload? {
        assert t[i] == s.trace[i];
        assert s.trace[i] in s.trace;
      }
    }
  }

  /** The upload carries the configured bucket, the generated name and the exact length of its data. */
  lemma BackupUploadShape(cfg: Config, w: World)
    ensures forall e :: e in BackupResult(cfg, w).trace && e.Upload? ==>
      e.scope == cfg.bucket && e.name == BackupFileName(w.now) && e.size == |e.data|
  {
    PrepareSnapshotOrder(cfg, w);
    BackupTrace(cfg, w);
    var t := BackupResult(cfg, w).trace;
    var s := PrepareSnapshot(cfg, w);
    if CheckPolicy(cfg) == None && s.Payload? {
      assert forall e :: e in t ==> e in s.trace || e == UploadEffect(cfg, w, s.data);
    }
  }

  /** Whatever name a backup uploads under, a restore of that name passes the filename gate. */
  lemma BackupNameRestorable(cfg: Config, w: World)
    ensures forall e :: e in BackupResult(cfg, w).trace && e.Upload? ==> ValidateFileName(e.name) == None
  {
    BackupUploadShape(cfg, w);
    BackupFileNamePassesGate(w.now);
  }

  /** The backup returns nil exactly when its last effect is an upload and that upload returned nil. */
  lemma BackupSucceedsExactlyOnUpload(cfg: Config, w: World)
    ensures var r := BackupResult(cfg, w);
      r.err == None <==>
        r.trace != [] && r.trace[|r.trace| - 1].Upload? &&
        w.put(cfg.bucket, BackupFileName(w.now), r.trace[|r.trace| - 1].data, |r.trace[|r.trace| - 1].data|) == None
  {
    PrepareSnapshotOrder(cfg, w);
    BackupTrace(cfg, w);
    var s := PrepareSnapshot(cfg, w);
    if s.Aborted? && s.trace != [] {
      assert s.trace[|s.trace| - 1] in s.trace;
    }
  }

  /**
   * Without a key, a readable database file is uploaded byte for byte under
   * `wblog_` + 14 digits + `.db`, and the backup reports success when the
   * upload does.
   */
  lemma BackupPlaintextScenario(cfg: Config, w: World, path: string, data: Bytes)
    requires CheckPolicy(cfg) == None && cfg.backupKey == []
    requires w.parseUrl(cfg.dsn).Parsed? && w.parseUrl(cfg.dsn).path == path
    requires w.pathExists(path) && w.readFile(path) == Success(data)
    requires w.put(cfg.bucket, BackupFileName(w.now), data, |data|) == None
    requires WellFormed(w.now)
    ensures BackupResult(cfg, w) ==
      BackupRun(None, [Stat(path), ReadFile(path), Upload(cfg.bucket, BackupFileName(w.now), data, |data|)])
    ensures var name := BackupFileName(w.now);
      |name| == 23 && name[..6] == "wblog_" && GoFormat.AllDigits(name[6..20]) && name[20..] == ".db"
  {
    BackupFileNameRoundTrip(w.now);
  }
}
