/**
 * The filename gate of the restore handler in controllers/backup.go:
 * `isValidFileName` (the pattern `^[a-zA-Z0-9._-]+$`) and the three
 * checks that run, in this order, before anything else is done with a
 * requested snapshot name.
 */
module FileNameGate {
  import opened Wrappers
  import opened GoFilePath
  import opened Messages

  /** The character class `[a-zA-Z0-9._-]`. */
  predicate InNameClass(c: char)
  {
    ('a' <= c <= 'z') || ('A' <= c <= 'Z') || ('0' <= c <= '9') || c == '.' || c == '_' || c == '-'
  }

  /**
   * `isValidFileName`: one class character followed by the match of the
   * rest, or the end of the text (Go's `$` does not admit a final newline).
   */
  function IsValidFileName(name: string): (r: bool)
    ensures r <==> |name| > 0 && forall i :: 0 <= i < |name| ==> InNameClass(name[i])
  {
    |name| > 0 && InNameClass(name[0]) && (|name| == 1 || IsValidFileName(name[1..]))
  }

  /**
   * The checks of the restore handler on the requested name, in the
   * handler's order; `None` lets the request through, `Some(m)` stops it
   * with message `m`.
   */
  function ValidateFileName(fileName: string): Option<Message>
  {
    if fileName == "" then Some(EmptyFileName)
    else if !IsValidFileName(fileName) then Some(BadFileNameFormat)
    else if Base(fileName) != fileName then Some(PathTraversal)
    else None
  }

  /** A name that passes the character class holds no separator. */
  lemma ValidNameHasNoSeparator(name: string)
    requires IsValidFileName(name)
    ensures SEPARATOR !in name
  {
  }

  /** A name that passes the character class is its own base name. */
  lemma ValidNameIsOwnBase(name: string)
    requires IsValidFileName(name)
    ensures Base(name) == name
  {
    ValidNameHasNoSeparator(name);
    BaseOfPlainName(name);
  }

  /**
   * The gate lets a name through exactly when it is a non-empty string of
   * class characters; the base-name comparison never decides on its own.
   */
  lemma ValidateAcceptsExactlyClassNames(fileName: string)
    ensures ValidateFileName(fileName) == None <==>
      |fileName| > 0 && forall i :: 0 <= i < |fileName| ==> InNameClass(fileName[i])
    ensures ValidateFileName(fileName) != Some(PathTraversal)
  {
    if IsValidFileName(fileName) {
      ValidNameIsOwnBase(fileName);
    }
  }

  /** The gate is not stronger than the source's: "." and ".." pass it. */
  lemma DotNamesPass()
    ensures ValidateFileName(".") == None
    ensures ValidateFileName("..") == None
  {
    ValidateAcceptsExactlyClassNames(".");
    ValidateAcceptsExactlyClassNames("..");
  }

  lemma ValidConcat(a: string, b: string)
    requires IsValidFileName(a) && IsValidFileName(b)
    ensures IsValidFileName(a + b)
  {
    assert forall i :: 0 <= i < |a + b| ==> (a + b)[i] == if i < |a| then a[i] else b[i - |a|];
  }

  /** A name holding a character outside the class stops at the second check. */
  lemma RejectedAt(name: string, i: nat)
    requires i < |name| && !InNameClass(name[i])
    ensures ValidateFileName(name) == Some(BadFileNameFormat)
  {
  }

  /** Separator, traversal and newline examples stop at the character class. */
  lemma GateRejectsExamples()
    ensures ValidateFileName("") == Some(EmptyFileName)
    ensures ValidateFileName("../etc/passwd") == Some(BadFileNameFormat)
    ensures ValidateFileName("a/b.db") == Some(BadFileNameFormat)
    ensures ValidateFileName("..\\win.db") == Some(BadFileNameFormat)
    ensures ValidateFileName("../x.db") == Some(BadFileNameFormat)
    ensures ValidateFileName("wblog.db\n") == Some(BadFileNameFormat)
  {
    RejectedAt("../etc/passwd", 2);
    RejectedAt("a/b.db", 1);
    RejectedAt("..\\win.db", 2);
    RejectedAt("../x.db", 2);
    RejectedAt("wblog.db\n", 8);
  }
}
