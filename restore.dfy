/**
 * `RestorePost` of controllers/backup.go: validate the requested name, apply
 * the policy gate, check the trusted base URL and join the name to it, GET
 * it, require status 200, read the body, decrypt it when a key is set, and
 * write it over the local file of that name.  Each step that fails stops the
 * run with its message.  The final step is modelled as written, with its
 * inverted error check (`RestoreAsWritten`), and as evidently intended
 * (`RestoreCorrected`).
 */
module Restore {
  import opened Wrappers
  import opened GoFormat
  import opened GoFilePath
  import opened FileNameGate
  import opened Messages
  import opened Environment

  const STATUS_OK := 200

  /** `err == nil && parsedBaseURL.Scheme == "https"`. */
  predicate SecureBase(p: ParsedUrl)
  {
    p.Parsed? && p.scheme == "https"
  }

  /** How a run of the handler ends: its reply, the effects it attempted, and whether it panicked. */
  datatype Outcome = Outcome(res: JsonBody, trace: seq<Effect>, panicked: bool)

  /** A run up to the final write: stopped with a message, or holding the bytes to write. */
  datatype Stage =
    | Stopped(message: Message, trace: seq<Effect>)
    | ReadyToWrite(data: Bytes, trace: seq<Effect>)

  /** The checks before any effect: the filename gate, the policy gate and the base URL's scheme. */
  function RestoreChecks(fileName: string, cfg: Config, w: World): Option<Message>
  {
    if ValidateFileName(fileName).Some? then ValidateFileName(fileName)
    else if CheckPolicy(cfg).Some? then CheckPolicy(cfg)
    else if !SecureBase(w.parseUrl(cfg.fileServer)) then Some(BaseUrlConfigError)
    else None
  }

  /** From the GET of `url` to the decrypted body: the steps with effects before the write. */
  function FetchStage(url: string, key: Bytes, w: World): Stage
  {
    match w.get(url)
    case TransportError(m) => Stopped(ErrorText(m), [Get(url)])
    case Response(status, body) =>
      if status != STATUS_OK then Stopped(FetchStatus(status), [Get(url)])
      else match body
        case Failure(m) => Stopped(ErrorText(m), [Get(url), ReadBody])
        case Success(bytes) =>
          if |key| > 0 then
            match w.decrypt(bytes, key)
            case Failure(m) => Stopped(ErrorText(m), [Get(url), ReadBody, Decrypt(bytes, key)])
            case Success(plain) => ReadyToWrite(plain, [Get(url), ReadBody, Decrypt(bytes, key)])
          else ReadyToWrite(bytes, [Get(url), ReadBody])
  }

  /** Every step of the handler before `ioutil.WriteFile`. */
  function RestoreBeforeWrite(fileName: string, cfg: Config, w: World): Stage
  {
    match RestoreChecks(fileName, cfg, w)
    case Some(m) => Stopped(m, [])
    case None =>
      match w.joinPath(cfg.fileServer, fileName)
      case Failure(_) => Stopped(UrlJoinError, [])
      case Success(url) => FetchStage(url, cfg.backupKey, w)
  }

  function StoppedOutcome(message: Message, trace: seq<Effect>): Outcome
  {
    Outcome(JsonBody(Some(message), false), trace, false)
  }

  /**
   * The handler as written: a write that fails sets "succeed", and a write
   * that succeeds calls `Error()` on a nil error, which panics.
   */
  function RestoreAsWritten(fileName: string, cfg: Config, w: World): Outcome
  {
    match RestoreBeforeWrite(fileName, cfg, w)
    case Stopped(m, t) => StoppedOutcome(m, t)
    case ReadyToWrite(data, t) =>
      var trace := t + [WriteFile(fileName, data)];
      if w.writeFile(fileName, data).None? then Outcome(EMPTY_BODY, trace, true)
      else Outcome(JsonBody(None, true), trace, false)
  }

  /** The handler with the write's own error taken as authoritative. */
  function RestoreCorrected(fileName: string, cfg: Config, w: World): Outcome
  {
    match RestoreBeforeWrite(fileName, cfg, w)
    case Stopped(m, t) => StoppedOutcome(m, t)
    case ReadyToWrite(data, t) =>
      var trace := t + [WriteFile(fileName, data)];
      match w.writeFile(fileName, data)
      case Some(e) => StoppedOutcome(ErrorText(e), trace)
      case None => Outcome(JsonBody(None, true), trace, false)
  }

  /** Lines 86-111 of the handler: GET, status check, body read and optional decryption. */
  method Fetch(url: string, key: Bytes, w: World) returns (stage: Stage)
    ensures stage == FetchStage(url, key, w)
  {
    var trace := [Get(url)];
    var resp := w.get(url);
    if resp.TransportError? {
      return Stopped(ErrorText(resp.msg), trace);
    }
    if resp.status != STATUS_OK {
      return Stopped(FetchStatus(resp.status), trace);
    }
    trace := trace + [ReadBody];
    if resp.body.Failure? {
      return Stopped(ErrorText(resp.body.error), trace);
    }
    var bodyBytes := resp.body.value;
    if |key| > 0 {
      trace := trace + [Decrypt(bodyBytes, key)];
      var decrypted := w.decrypt(bodyBytes, key);
      if decrypted.Failure? {
        return Stopped(ErrorText(decrypted.error), trace);
      }
      bodyBytes := decrypted.value;
    }
    stage := ReadyToWrite(bodyBytes, trace);
  }

  /** `RestorePost`, step by step with early returns, as the source runs it. */
  method RestorePost(fileName: string, cfg: Config, w: World)
    returns (res: JsonBody, trace: seq<Effect>, panicked: bool)
    ensures Outcome(res, trace, panicked) == RestoreAsWritten(fileName, cfg, w)
  {
    res, trace, panicked := EMPTY_BODY, [], false;
    if fileName == "" {
      res := res.(message := Some(EmptyFileName));
      return;
    }
    if !IsValidFileName(fileName) {
      res := res.(message := Some(BadFileNameFormat));
      return;
    }
    var baseName := Base(fileName);
    if baseName != fileName {
      res := res.(message := Some(PathTraversal));
      return;
    }
    if cfg.dialect != "sqlite" {
      res := res.(message := Some(UnsupportedDialect));
      return;
    }
    if !cfg.backupEnabled || !cfg.qiniuEnabled {
      res := res.(message := Some(NotEnabled));
      return;
    }
    var parsedBaseUrl := w.parseUrl(cfg.fileServer);
    if parsedBaseUrl.ParseError? || parsedBaseUrl.scheme != "https" {
      res := res.(message := Some(BaseUrlConfigError));
      return;
    }
    var finalUrl := w.joinPath(cfg.fileServer, baseName);
    if finalUrl.Failure? {
      res := res.(message := Some(UrlJoinError));
      return;
    }
    var stage := Fetch(finalUrl.value, cfg.backupKey, w);
    trace := stage.trace;
    if stage.Stopped? {
      res := res.(message := Some(stage.message));
      return;
    }
    var bodyBytes := stage.data;
    trace := trace + [WriteFile(fileName, bodyBytes)];
    var err := w.writeFile(fileName, bodyBytes);
    if err.None? {
      // the handler's res["message"] = err.Error() on a nil error: a panic
      panicked := true;
      return;
    }
    res := res.(succeed := true);
  }

  /** A name the gate refuses stops the run with that check's message before any effect. */
  lemma RestoreValidatesBeforeAnyEffect(fileName: string, cfg: Config, w: World)
    requires ValidateFileName(fileName).Some?
    ensures RestoreAsWritten(fileName, cfg, w) == StoppedOutcome(ValidateFileName(fileName).value, [])
    ensures fileName == "" ==> RestoreAsWritten(fileName, cfg, w).res.message == Some(EmptyFileName)
    ensures fileName != "" ==> RestoreAsWritten(fileName, cfg, w).res.message == Some(BadFileNameFormat)
  {
    ValidateAcceptsExactlyClassNames(fileName);
  }

  /** A traversal attempt: refused by the character class, no GET is made. */
  lemma RestoreRefusesTraversalName(cfg: Config, w: World)
    ensures RestoreAsWritten("../x.db", cfg, w) == StoppedOutcome(BadFileNameFormat, [])
  {
    GateRejectsExamples();
  }

  /** With an accepted name, a closed policy gate stops the run with its message before any effect. */
  lemma RestorePolicyGate(fileName: string, cfg: Config, w: World)
    requires ValidateFileName(fileName) == None
    requires CheckPolicy(cfg).Some?
    ensures RestoreAsWritten(fileName, cfg, w) == StoppedOutcome(CheckPolicy(cfg).value, [])
    ensures !RestoreAsWritten(fileName, cfg, w).res.succeed
  {
  }

  /** A base URL that does not parse, or whose scheme is not "https", stops the run before any GET. */
  lemma RestoreSchemeGate(fileName: string, cfg: Config, w: World)
    requires ValidateFileName(fileName) == None && CheckPolicy(cfg) == None
    requires !SecureBase(w.parseUrl(cfg.fileServer))
    ensures RestoreAsWritten(fileName, cfg, w) == StoppedOutcome(BaseUrlConfigError, [])
  {
  }

  /** The checks before any effect pass exactly when the three gates do. */
  lemma RestoreChecksPass(fileName: string, cfg: Config, w: World)
    ensures RestoreChecks(fileName, cfg, w) == None <==>
      ValidateFileName(fileName) == None && CheckPolicy(cfg) == None && SecureBase(w.parseUrl(cfg.fileServer))
  {
  }

  /** Every run of the fetch stage starts with the GET of its URL and writes nothing. */
  lemma FetchStageStartsWithGet(url: string, key: Bytes, w: World)
    ensures FetchStage(url, key, w).trace != [] && FetchStage(url, key, w).trace[0] == Get(url)
    ensures forall e :: e in FetchStage(url, key, w).trace ==> !e.WriteFile?
  {
  }

  /**
   * An effect is attempted exactly when every gate passes and the URL is
   * built; the first one is then the GET of the joined URL of the requested
   * name, and every write goes to that validated name.
   */
  lemma RestoreGetsOnlyAfterGates(fileName: string, cfg: Config, w: World)
    ensures var o := RestoreAsWritten(fileName, cfg, w);
      o.trace != [] <==> RestoreChecks(fileName, cfg, w) == None && w.joinPath(cfg.fileServer, fileName).Success?
    ensures RestoreAsWritten(fileName, cfg, w).trace != [] <==>
      ValidateFileName(fileName) == None && CheckPolicy(cfg) == None && SecureBase(w.parseUrl(cfg.fileServer)) &&
      w.joinPath(cfg.fileServer, fileName).Success?
    ensures var o := RestoreAsWritten(fileName, cfg, w);
      o.trace != [] ==> o.trace[0] == Get(w.joinPath(cfg.fileServer, fileName).value)
    ensures forall e :: e in RestoreAsWritten(fileName, cfg, w).trace && e.WriteFile? ==>
      e.name == fileName && IsValidFileName(e.name) && SEPARATOR !in e.name
  {
    var o := RestoreAsWritten(fileName, cfg, w);
    RestoreChecksPass(fileName, cfg, w);
    if RestoreChecks(fileName, cfg, w) == None && w.joinPath(cfg.fileServer, fileName).Success? {
      var url := w.joinPath(cfg.fileServer, fileName).value;
      FetchStageStartsWithGet(url, cfg.backupKey, w);
      assert ValidateFileName(fileName) == None;
      ValidateAcceptsExactlyClassNames(fileName);
      ValidNameHasNoSeparator(fileName);
      var st := FetchStage(url, cfg.backupKey, w);
      assert RestoreBeforeWrite(fileName, cfg, w) == st;
      if st.ReadyToWrite? {
        assert o.trace == st.trace + [WriteFile(fileName, st.data)];
        assert o.trace[0] == st.trace[0];
      }
    } else {
      assert o.trace == [];
    }
  }

  /** Once the URL is built: its GET is the only effect when it fails or returns a status other than 200. */
  lemma RestoreFetchFailures(fileName: string, cfg: Config, w: World, url: string)
    requires RestoreChecks(fileName, cfg, w) == None
    requires w.joinPath(cfg.fileServer, fileName) == Success(url)
    ensures w.get(url).TransportError? ==>
      RestoreAsWritten(fileName, cfg, w) == StoppedOutcome(ErrorText(w.get(url).msg), [Get(url)])
    ensures w.get(url).Response? && w.get(url).status != STATUS_OK ==>
      RestoreAsWritten(fileName, cfg, w) == StoppedOutcome(FetchStatus(w.get(url).status), [Get(url)])
    ensures w.get(url).Response? && w.get(url).status == STATUS_OK && w.get(url).body.Failure? ==>
      RestoreAsWritten(fileName, cfg, w) == StoppedOutcome(ErrorText(w.get(url).body.error), [Get(url), ReadBody])
  {
  }

  /**
   * Once a 200 body is read: Decrypt is attempted exactly when the key is
   * non-empty; without a key the body goes to the write unchanged; a
   * decryption error stops the run before the write.
   */
  lemma FetchDecryptsExactlyWhenKeyed(url: string, key: Bytes, w: World, body: Bytes)
    requires w.get(url) == Response(STATUS_OK, Success(body))
    ensures Decrypt(body, key) in FetchStage(url, key, w).trace <==> |key| > 0
    ensures |key| == 0 ==> FetchStage(url, key, w) == ReadyToWrite(body, [Get(url), ReadBody])
    ensures |key| > 0 && w.decrypt(body, key).Failure? ==>
      FetchStage(url, key, w) == Stopped(ErrorText(w.decrypt(body, key).error), [Get(url), ReadBody, Decrypt(body, key)])
    ensures |key| > 0 && w.decrypt(body, key).Success? ==>
      FetchStage(url, key, w) == ReadyToWrite(w.decrypt(body, key).value, [Get(url), ReadBody, Decrypt(body, key)])
  {
  }

  /** The same, for the whole handler: a run the gates let through to a 200 body. */
  lemma RestoreDecryptsExactlyWhenKeyed(fileName: string, cfg: Config, w: World, url: string, body: Bytes)
    requires RestoreChecks(fileName, cfg, w) == None
    requires w.joinPath(cfg.fileServer, fileName) == Success(url)
    requires w.get(url) == Response(STATUS_OK, Success(body))
    ensures RestoreBeforeWrite(fileName, cfg, w) == FetchStage(url, cfg.backupKey, w)
    ensures Decrypt(body, cfg.backupKey) in RestoreAsWritten(fileName, cfg, w).trace <==> |cfg.backupKey| > 0
    ensures |cfg.backupKey| > 0 && w.decrypt(body, cfg.backupKey).Failure? ==>
      RestoreAsWritten(fileName, cfg, w) ==
        StoppedOutcome(ErrorText(w.decrypt(body, cfg.backupKey).error), [Get(url), ReadBody, Decrypt(body, cfg.backupKey)])
  {
    var key := cfg.backupKey;
    FetchDecryptsExactlyWhenKeyed(url, key, w, body);
    var st := FetchStage(url, key, w);
    assert RestoreBeforeWrite(fileName, cfg, w) == st;
    if st.ReadyToWrite? {
      assert RestoreAsWritten(fileName, cfg, w).trace == st.trace + [WriteFile(fileName, st.data)];
    }
  }

  /**
   * The inverted check as written: the write is attempted last; a failed
   * write is reported as success, and a successful write panics with an
   * empty reply.
   */
  lemma RestoreWriteCheckInverted(fileName: string, cfg: Config, w: World)
    requires RestoreBeforeWrite(fileName, cfg, w).ReadyToWrite?
    ensures var st := RestoreBeforeWrite(fileName, cfg, w);
      var o := RestoreAsWritten(fileName, cfg, w);
      o.trace == st.trace + [WriteFile(fileName, st.data)] &&
      (w.writeFile(fileName, st.data).Some? ==> o == Outcome(JsonBody(None, true), o.trace, false)) &&
      (w.writeFile(fileName, st.data).None? ==> o == Outcome(EMPTY_BODY, o.trace, true))
  {
  }

  /** As written, "succeed" is set exactly when the final write returned an error. */
  lemma RestoreSucceedsOnlyOnFailedWrite(fileName: string, cfg: Config, w: World)
    ensures var st := RestoreBeforeWrite(fileName, cfg, w);
      RestoreAsWritten(fileName, cfg, w).res.succeed <==>
        st.ReadyToWrite? && w.writeFile(fileName, st.data).Some?
  {
  }

  /** A concrete run: the write succeeds, yet the handler panics without a reply. */
  lemma RestoreSuccessfulWritePanics(fileName: string, cfg: Config, w: World, url: string, body: Bytes)
    requires RestoreChecks(fileName, cfg, w) == None && cfg.backupKey == []
    requires w.joinPath(cfg.fileServer, fileName) == Success(url)
    requires w.get(url) == Response(STATUS_OK, Success(body))
    requires w.writeFile(fileName, body) == None
    ensures RestoreAsWritten(fileName, cfg, w) ==
      Outcome(EMPTY_BODY, [Get(url), ReadBody, WriteFile(fileName, body)], true)
  {
    FetchDecryptsExactlyWhenKeyed(url, cfg.backupKey, w, body);
    assert RestoreBeforeWrite(fileName, cfg, w) == ReadyToWrite(body, [Get(url), ReadBody]);
  }

  /**
   * Corrected: never panics, sets "succeed" exactly when the write returned
   * no error, reports the write's error otherwise, and agrees with the
   * handler as written on every run that stops before the write.
   */
  lemma RestoreCorrectedReportsWrite(fileName: string, cfg: Config, w: World)
    ensures var st := RestoreBeforeWrite(fileName, cfg, w);
      var o := RestoreCorrected(fileName, cfg, w);
      !o.panicked &&
      (o.res.succeed <==> st.ReadyToWrite? && w.writeFile(fileName, st.data).None?) &&
      (st.ReadyToWrite? && w.writeFile(fileName, st.data).Some? ==>
        o.res.message == Some(ErrorText(w.writeFile(fileName, st.data).value))) &&
      (st.Stopped? ==> o == RestoreAsWritten(fileName, cfg, w)) &&
      (o.res.succeed <==> o.res.message.None?)
  {
  }
}
