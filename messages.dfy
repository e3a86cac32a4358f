/**
 * The messages the two handlers put in their replies or return as errors.
 * A run's message is a `Message`; `MessageText` gives its exact wording.
 */
module Messages {
  import opened GoFormat

  datatype Message =
    | EmptyFileName       // restore: no fileName field
    | BadFileNameFormat   // restore: isValidFileName refused the name
    | PathTraversal       // restore: the name differs from its base name
    | UnsupportedDialect  // both: the dialect is not sqlite
    | NotEnabled          // both: backup or Qiniu disabled
    | BaseUrlConfigError  // restore: base URL unparsable or not https
    | UrlJoinError        // restore: url.JoinPath failed
    | FetchStatus(status: int)  // restore: the GET answered with a status other than 200
    | MissingDatabase     // backup: the database file does not exist
    | ErrorText(text: string)   // the Error() text of an error a collaborator returned

  const STATUS_PREFIX := "Failed to fetch file (server returned "
  const STATUS_SUFFIX := ")."

  function MessageText(m: Message): string
  {
    match m
    case EmptyFileName => "fileName cannot be empty."
    case BadFileNameFormat => "Invalid fileName format. Only alphanumeric, ., -, _ are allowed."
    case PathTraversal => "Invalid fileName: path traversal is not allowed."
    case UnsupportedDialect => "only support sqlite dialect"
    case NotEnabled => "backup or quniu not enabled"
    case BaseUrlConfigError => "Internal server configuration error."
    case UrlJoinError => "Internal error constructing URL."
    case FetchStatus(status) => STATUS_PREFIX + FormatDecimal(status) + STATUS_SUFFIX
    case MissingDatabase => "database file doesn't exists."
    case ErrorText(text) => text
  }

  /** The status message names the status: it is read back from between the fixed texts. */
  lemma StatusMessageCarriesStatus(status: int)
    ensures var m := MessageText(FetchStatus(status));
      |m| > |STATUS_PREFIX| + |STATUS_SUFFIX| &&
      m[..|STATUS_PREFIX|] == STATUS_PREFIX && m[|m| - |STATUS_SUFFIX|..] == STATUS_SUFFIX &&
      SignedValue(m[|STATUS_PREFIX|..|m| - |STATUS_SUFFIX|]) == status
  {
    var m := MessageText(FetchStatus(status));
    assert m[|STATUS_PREFIX|..|m| - |STATUS_SUFFIX|] == FormatDecimal(status);
  }

  lemma StatusMessageExample()
    ensures MessageText(FetchStatus(404)) == "Failed to fetch file (server returned 404)."
  {
    assert Decimal(404) == "404";
  }
}
