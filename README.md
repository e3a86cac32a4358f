# wblog snapshot backup and restore, modelled in Dafny

This project models the two snapshot handlers of the wblog blog engine, in
`controllers/backup.go`:

- **`BackupPost` / `Backup`**:
  - apply the policy gate: the sqlite dialect, with backup and Qiniu both enabled;
  - take the database path from the DSN and check that the file exists;
  - read the file, and encrypt it when a backup key is configured;
  - name it `wblog_` + the current time in layout `20060102150405` + `.db`;
  - upload it once to the configured Qiniu bucket.
- **`RestorePost`**:
  - validate the requested file name (non-empty, the character class `[a-zA-Z0-9._-]+`, equal to its own `filepath.Base`);
  - apply the same policy gate;
  - require the trusted file-server URL to parse with scheme `https`, then join the name to it;
  - GET it and require status 200;
  - read the body, decrypt it when a key is configured, and write it over the local file of that name.

Every call into the outside world is a field of the `World` datatype, a total function from the call's arguments to its outcome. This covers URL parsing, the HTTP client, the file system, the cipher helpers, the uploader and the clock (module `Environment`).

Each handler has two parts:

- A pure specification function: `Restore.RestoreAsWritten` and `BackupPipeline.BackupResult`.
- A method that runs the steps one by one with early returns, as the Go code does: `Restore.RestorePost`, `BackupPipeline.Backup` and `BackupPipeline.BackupPost`. Each method's postcondition ties its result to the specification function.

A run's observable result has three parts:

- the JSON reply: an optional "message" and whether "succeed" was set;
- the sequence of effects it attempted;
- for restore, whether it panicked.

The reply texts are the constructors of `Messages.Message`; `Messages.MessageText` gives the exact wording of each.

Supporting modules:

- `GoFilePath`: Go's `filepath.Base`, with `/` as the only separator.
- `GoFormat`: the integer formatting that Go's time layout uses (`appendInt` with a width) and `%d`, together with the readers that invert them.
- `BackupNaming`: the generated backup name and its parser.
- `FileNameGate`: `isValidFileName` and the restore handler's three name checks.

Files: `wrappers.dfy`, `go_format.dfy`, `go_filepath.dfy`, `messages.dfy`,
`file_name_gate.dfy`, `backup_naming.dfy`, `environment.dfy`, `restore.dfy`,
`backup.dfy`, all verified together.

## Model

| member | source | states |
|---|---|---|
| FileNameGate.IsValidFileName | controllers/backup.go:120-125 | the pattern `^[a-zA-Z0-9._-]+$` matches exactly when the name is non-empty and every character is in the class (Go's `$` admits no trailing newline) |
| FileNameGate.ValidateFileName | controllers/backup.go:50-62 | definition (no ensures): the three name checks in the handler's order with their messages; characterised by `ValidateAcceptsExactlyClassNames`, `RejectedAt`, `DotNamesPass` and `GateRejectsExamples` |
| FileNameGate.ValidNameHasNoSeparator | controllers/backup.go:120-125 | a name that passes the character class holds no `/` |
| FileNameGate.ValidNameIsOwnBase | controllers/backup.go:54-59 | a name that passes the character class equals its own `filepath.Base` |
| FileNameGate.ValidateAcceptsExactlyClassNames | controllers/backup.go:50-62 | the three name checks let a name through exactly when it is a non-empty string of class characters; the path-traversal message can never be produced |
| FileNameGate.DotNamesPass | controllers/backup.go:50-62 | "." and ".." pass all three name checks |
| FileNameGate.ValidConcat | controllers/backup.go:120-125 | the concatenation of two valid names is a valid name |
| FileNameGate.RejectedAt | controllers/backup.go:54-57 | a name holding any character outside the class is refused with the format message |
| FileNameGate.GateRejectsExamples | controllers/backup.go:50-57 | "" gets the empty-name message; "../etc/passwd", "a/b.db", "..\\win.db", "../x.db" and a name with a trailing newline get the format message |
| GoFilePath.StripTrailingSlashes | controllers/backup.go:58 | the result is a prefix of the path that does not end in `/`, and only slashes were removed |
| GoFilePath.AfterLastSlash | controllers/backup.go:58 | the result is the longest suffix without `/`; when shorter than the path, it is preceded by `/` |
| GoFilePath.Base | controllers/backup.go:58 | `filepath.Base` is never empty, and it holds a `/` only when it is exactly "/" |
| GoFilePath.BaseOfPlainName | controllers/backup.go:58-59 | a non-empty path without `/` is its own base name |
| GoFilePath.BaseEqualityExcludesSeparators | controllers/backup.go:58-59 | a path holding `/` is its own base name exactly when it is "/" |
| GoFilePath.BaseIdempotent | controllers/backup.go:58 | the base name of a base name is itself |
| GoFilePath.BaseIsLastElement | controllers/backup.go:58 | the empty path gives "."; "/" exactly for a non-empty path of only slashes; otherwise a suffix of the path without its trailing slashes, namely the part after the last remaining `/` |
| Messages.StatusMessageCarriesStatus | controllers/backup.go:95-97 | the status message starts with "Failed to fetch file (server returned ", ends with ")." and the status reads back from between them |
| Messages.StatusMessageExample | controllers/backup.go:96 | status 404 gives "Failed to fetch file (server returned 404)." |
| Messages.MessageText | controllers/backup.go:51-152 | definition (no ensures): the exact reply and error texts of both handlers; characterised by `StatusMessageCarriesStatus` and `StatusMessageExample` |
| GoFormat.DigitChar | controllers/backup.go:178 | the character of a digit value is a digit with that value |
| GoFormat.DigitValue | controllers/backup.go:178 | the value of a digit character is below 10 and converts back to that character |
| GoFormat.Decimal | controllers/backup.go:96 | the decimal digits of a number are non-empty, all digits, and have no leading zero unless the number is 0 |
| GoFormat.DecimalRoundTrip | controllers/backup.go:96 | the decimal digits of a number read back as that number |
| GoFormat.DecimalLength | controllers/backup.go:178 | the digits of `n` fit in `k` characters exactly when `n < 10^k` |
| GoFormat.ZeroPad | controllers/backup.go:178 | zero padding gives digits only, of length the larger of the width and the number of digits |
| GoFormat.DigitsValueConcat | controllers/backup.go:178 | the value of `a + b` is `value(a) * 10^len(b) + value(b)` |
| GoFormat.LeadingZeros | controllers/backup.go:178 | leading zeros do not change a digit string's value |
| GoFormat.ZeroPadRoundTrip | controllers/backup.go:178 | zero padding reads back as the padded number |
| GoFormat.FormatInt | controllers/backup.go:178 | `appendInt` with a width writes only digits and `-` |
| GoFormat.FormatIntRoundTrip | controllers/backup.go:178 | `appendInt` with any width reads back as the signed number |
| GoFormat.FormatDecimal | controllers/backup.go:96 | `%d` of an integer reads back as that integer |
| BackupNaming.TwoDigits | controllers/backup.go:178 | a field below 100 prints as exactly two digits with its own value |
| BackupNaming.Timestamp | controllers/backup.go:178 | definition (no ensures): layout `20060102150405` as a four-wide year and two-wide month, day, hour, minute and second; characterised by `TimestampRoundTrip` and `TimestampIsValidName` |
| BackupNaming.BackupFileName | controllers/backup.go:178 | definition (no ensures): `wblog_` + timestamp + `.db`; characterised by `BackupFileNameRoundTrip`, `BackupFileNameInjective` and `BackupFileNamePassesGate` |
| BackupNaming.ParseFields | controllers/backup.go:178 | six digit fields of widths 4,2,2,2,2,2 are read back one by one from their concatenation |
| BackupNaming.TimestampRoundTrip | controllers/backup.go:178 | a time with a four-digit year prints in layout `20060102150405` as exactly 14 digits, from which it is read back |
| BackupNaming.BackupFileNameRoundTrip | controllers/backup.go:178 | the generated name is 23 characters: `wblog_`, 14 digits, `.db`; parsing it gives back the time |
| BackupNaming.BackupFileNameInjective | controllers/backup.go:178 | two times with four-digit years give the same name only when they are the same second |
| BackupNaming.NumeralIsValidName | controllers/backup.go:120-125 | a non-empty string of digits and `-` passes the character class |
| BackupNaming.TimestampIsValidName | controllers/backup.go:178 | every printed timestamp passes the character class |
| BackupNaming.BackupFileNamePassesGate | controllers/backup.go:178 | every generated name, for any time at all, passes the character class, equals its own base name and passes all three restore name checks |
| BackupNaming.YearExample | controllers/backup.go:178 | year 2024 prints as "2024" |
| BackupNaming.PadExamples | controllers/backup.go:178 | 0, 1 and 12 print as "00", "01" and "12" |
| BackupNaming.SnapshotExampleName | controllers/backup.go:178 | 2024-01-01 12:00:00 gives "wblog_20240101120000.db" |
| BackupNaming.GateAcceptsSnapshotExample | controllers/backup.go:50-62 | "wblog_20240101120000.db" passes the restore name checks |
| Environment.CheckPolicy | controllers/backup.go:136-143 | the policy gate lets a run through exactly when the dialect is "sqlite" and both flags are set; a wrong dialect gets the dialect message first, otherwise a disabled flag gets the not-enabled message |
| Restore.Fetch | controllers/backup.go:86-111 | the GET, the status check, the body read and the optional decryption, step by step, reach the outcome and effects of `FetchStage` |
| Restore.RestoreChecks | controllers/backup.go:50-78 | definition (no ensures): the name checks, the policy gate and the scheme check, first failure wins; characterised by `RestoreChecksPass` |
| Restore.FetchStage | controllers/backup.go:89-111 | definition (no ensures): GET, status check, body read and optional decryption up to the write; characterised by `FetchStageStartsWithGet` and `FetchDecryptsExactlyWhenKeyed` |
| Restore.RestoreBeforeWrite | controllers/backup.go:50-111 | definition (no ensures): every step before the write, including the URL join; characterised by `RestoreGetsOnlyAfterGates` and `RestoreDecryptsExactlyWhenKeyed` |
| Restore.RestoreAsWritten | controllers/backup.go:38-118 | definition (no ensures): the whole handler as written, inverted write check included; characterised by `RestoreValidatesBeforeAnyEffect`, `RestorePolicyGate`, `RestoreSchemeGate`, `RestoreGetsOnlyAfterGates`, `RestoreFetchFailures`, `RestoreWriteCheckInverted`, `RestoreSucceedsOnlyOnFailedWrite` and `RestoreSuccessfulWritePanics` |
| Restore.RestoreCorrected | controllers/backup.go:112-117 | definition (no ensures): the handler with the write's error taken as authoritative; characterised by `RestoreCorrectedReportsWrite` |
| Restore.RestorePost | controllers/backup.go:38-118 | the handler, run step by step with early returns, gives the reply, effects and panic flag of `RestoreAsWritten` |
| Restore.RestoreValidatesBeforeAnyEffect | controllers/backup.go:49-57 | a refused name stops the run with its own message (empty or format) and no effect at all |
| Restore.RestoreRefusesTraversalName | controllers/backup.go:54-57 | "../x.db" is refused with the format message and nothing is fetched or written |
| Restore.RestorePolicyGate | controllers/backup.go:64-71 | with an accepted name, a closed policy gate stops the run with the gate's message, no effect, and "succeed" unset |
| Restore.RestoreSchemeGate | controllers/backup.go:73-78 | a base URL that fails to parse, or whose scheme is not "https", gives "Internal server configuration error." before any GET |
| Restore.RestoreChecksPass | controllers/backup.go:50-78 | the checks before any effect pass exactly when the name checks, the policy gate and the scheme check all pass |
| Restore.FetchStageStartsWithGet | controllers/backup.go:89-111 | the fetch stage always starts with the GET of its URL and never writes |
| Restore.RestoreGetsOnlyAfterGates | controllers/backup.go:50-112 | some effect is attempted exactly when the name checks, the policy gate and the scheme check pass and the URL is built; the first effect is then the GET of the joined URL; every write goes to the validated name, which holds no `/` |
| Restore.RestoreFetchFailures | controllers/backup.go:89-104 | a transport error, a status other than 200 (with the status in its message) or a body-read error each stops the run; after a status other than 200, the GET is the only effect, so nothing is read, decrypted or written |
| Restore.FetchDecryptsExactlyWhenKeyed | controllers/backup.go:100-111 | Decrypt is attempted exactly when the key is non-empty; without a key the body passes unchanged to the write; a decryption error stops the run with its text |
| Restore.RestoreDecryptsExactlyWhenKeyed | controllers/backup.go:100-116 | the same for the whole handler: Decrypt is in the effects exactly when the key is non-empty, and its error stops the run before any write |
| Restore.RestoreWriteCheckInverted | controllers/backup.go:112-117 | as written: the write is the last effect; a failed write sets "succeed"; a successful write panics with an empty reply |
| Restore.RestoreSucceedsOnlyOnFailedWrite | controllers/backup.go:112-117 | as written, "succeed" is set exactly when the write returned an error |
| Restore.RestoreSuccessfulWritePanics | controllers/backup.go:112-116 | a concrete run: every check passes, the GET returns 200, no key, the write succeeds, and the handler panics with an empty reply |
| Restore.RestoreCorrectedReportsWrite | controllers/backup.go:112-117 | corrected: never panics; "succeed" is set exactly when the write returned no error, otherwise the write's error is the message; where the run stops before the write, it agrees with the handler as written |
| BackupPipeline.ReadDatabase | controllers/backup.go:145-168 | parsing the DSN, the existence check, the read and the optional encryption, step by step, reach the outcome and effects of `PrepareSnapshot` |
| BackupPipeline.PrepareSnapshot | controllers/backup.go:145-168 | definition (no ensures): DSN parse, existence check, read and optional encryption; characterised by `PrepareSnapshotOrder` and `BackupEncryptsExactlyWhenKeyed` |
| BackupPipeline.BackupResult | controllers/backup.go:127-186 | definition (no ensures): `Backup()` with its error and effects; characterised by `BackupPolicyGate`, `BackupTrace`, `BackupUploadsAtMostOnce`, `BackupUploadShape`, `BackupNameRestorable` and `BackupSucceedsExactlyOnUpload` |
| BackupPipeline.Backup | controllers/backup.go:127-186 | `Backup()`, step by step with early returns, gives the error and effects of `BackupResult` |
| BackupPipeline.BackupPost | controllers/backup.go:24-36 | "succeed" is set exactly when `Backup` returns nil; the message is `Backup`'s error; the effects are `Backup`'s |
| BackupPipeline.BackupPolicyGate | controllers/backup.go:136-143 | a closed policy gate returns the gate's message and attempts no effect |
| BackupPipeline.PrepareSnapshotOrder | controllers/backup.go:145-168 | existence is checked before the read, and encryption comes only after a successful read with a key; at most three effects, none an upload |
| BackupPipeline.BackupEncryptsExactlyWhenKeyed | controllers/backup.go:157-179 | once the file is read, Encrypt is attempted exactly when the key is non-empty; without a key the file's bytes are uploaded unchanged; an encryption error is returned and nothing is uploaded |
| BackupPipeline.BackupTrace | controllers/backup.go:136-179 | the effects are none after a closed gate, the snapshot's when it aborts, and otherwise the snapshot's followed by one upload |
| BackupPipeline.BackupUploadsAtMostOnce | controllers/backup.go:179 | no effect but the last is an upload |
| BackupPipeline.BackupUploadShape | controllers/backup.go:170-179 | every upload goes to the configured bucket under the generated name, with size equal to the exact length of its data |
| BackupPipeline.BackupNameRestorable | controllers/backup.go:178-179 | every name a backup uploads under passes the restore handler's name checks |
| BackupPipeline.BackupSucceedsExactlyOnUpload | controllers/backup.go:179-185 | `Backup` returns nil exactly when its last effect is an upload and that upload returned nil |
| BackupPipeline.BackupPlaintextScenario | controllers/backup.go:145-185 | without a key, a readable database file is uploaded byte for byte under a 23-character name `wblog_` + 14 digits + `.db`, and the run returns nil when the upload does |

## Left out

- `filepath.Base`: modelled with Go's actual Unix behaviour. The empty path gives ".", and a non-empty path made only of slashes gives "/", not "." (Go strips every trailing slash; when nothing is left, the path held only slashes and the result is "/"). This matters only for names holding `/`, which the character class refuses first.
- `url.Parse` and `url.JoinPath` are uninterpreted: a parse error, or a scheme and a path. The model does not capture their parsing and cleaning rules, nor Go's lower-casing of the scheme. So it does not prove that the joined URL stays under the trusted base. It also keeps the JoinPath error branch (lines 79-83) as reachable, though in Go it cannot fail once the base has parsed.
- The HTTP client's 30-second timeout and `resp.Body.Close` are left out. A GET is one outcome: a transport error, or a status together with the result of reading the body.
- `helpers.Encrypt`, `helpers.Decrypt`, `helpers.PathExists` and `helpers.GetCurrentTime` are uninterpreted functions of `World`. No round trip between encryption and decryption is claimed; helpers/ is not part of this model. The error `PathExists` returns is ignored by the source, so the model keeps only the boolean.
- The Qiniu SDK is reduced to one `put` outcome: `PutPolicy`, `qbox.NewMac`, `UploadToken`, `NewFormUploader`, `PutExtra` and the unused `PutRet` result. Only its arguments are recorded: the scope, the name, the bytes and the size.
- `ioutil.ReadFile` and `ioutil.WriteFile` keep only success or failure. File permissions (`os.ModePerm`) are not modelled.
- seelog logging is output only. gin's form parsing and `writeJSON` are framework plumbing: the reply is the `JsonBody` value.
- Concurrency between backup and restore, atomic rename and retries are not modelled; the code has none.
- Panics: a Go runtime panic is modelled as a flag in the outcome with an empty reply. How gin's recovery middleware then answers is not modelled.
- BackupNaming.TimestampRoundTrip: stated only for years 0..9999 with in-range fields. For other years Go prints more than four characters or a sign, and the name is not 14 digits; `BackupFileNamePassesGate` still covers every time.

## Findings

| source | as written | input that shows it | evidently intended | confidence | as-written member | corrected member |
|---|---|---|---|---|---|---|
| controllers/backup.go:112-117 | `if err == nil { res["message"] = err.Error(); return }` then `res["succeed"] = true`: the write-error check is inverted | any restore whose checks pass, GET returns 200, no key, and whose `ioutil.WriteFile` returns nil: the handler calls `Error()` on a nil error and panics; if the write fails instead, the reply says "succeed" | report the write's error as "message" when it fails, and set "succeed" only when it succeeds | not executed | Restore.RestoreAsWritten, Restore.RestoreSuccessfulWritePanics | Restore.RestoreCorrected, Restore.RestoreCorrectedReportsWrite |
