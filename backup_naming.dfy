/**
 * The name under which a backup is uploaded: `"wblog_"`, the current time in
 * Go's layout `20060102150405` (year, month, day, hour, minute, second) and
 * `".db"`.  `ParseBackupFileName` reads such a name back.
 */
module BackupNaming {
  import opened Wrappers
  import opened GoFormat
  import opened GoFilePath
  import opened FileNameGate

  const NAME_PREFIX := "wblog_"
  const NAME_SUFFIX := ".db"

  /** The calendar fields of a `time.Time` that the layout prints. */
  datatype DateTime = DateTime(year: int, month: nat, day: nat, hour: nat, minute: nat, second: nat)

  /** Field ranges of a `time.Time` whose year has at most four digits. */
  predicate WellFormed(t: DateTime)
  {
    0 <= t.year <= 9999 && 1 <= t.month <= 12 && 1 <= t.day <= 31 &&
    t.hour < 24 && t.minute < 60 && t.second < 60
  }

  /**
   * `t.Format("20060102150405")`: Go writes the year as `appendInt(year, 4)`
   * and each other field as `appendInt(field, 2)`.
   */
  function Timestamp(t: DateTime): string
  {
    FormatInt(t.year, 4) + ZeroPad(t.month, 2) + ZeroPad(t.day, 2) +
    ZeroPad(t.hour, 2) + ZeroPad(t.minute, 2) + ZeroPad(t.second, 2)
  }

  /** `fmt.Sprintf("wblog_%s.db", ...Format("20060102150405"))`. */
  function BackupFileName(t: DateTime): string
  {
    NAME_PREFIX + Timestamp(t) + NAME_SUFFIX
  }

  /** The fields of a 14-digit timestamp. */
  function ParseTimestamp(s: string): DateTime
    requires |s| == 14 && AllDigits(s)
  {
    DateTime(DigitsValue(s[0..4]), DigitsValue(s[4..6]), DigitsValue(s[6..8]),
             DigitsValue(s[8..10]), DigitsValue(s[10..12]), DigitsValue(s[12..14]))
  }

  /** The time a generated backup name stands for, if it has the generated shape. */
  function ParseBackupFileName(name: string): Option<DateTime>
  {
    if |name| == 23 && name[..6] == NAME_PREFIX && name[20..] == NAME_SUFFIX && AllDigits(name[6..20])
    then Some(ParseTimestamp(name[6..20]))
    else None
  }

  lemma TwoDigits(n: nat)
    requires n < 100
    ensures |ZeroPad(n, 2)| == 2 && DigitsValue(ZeroPad(n, 2)) == n
  {
    DecimalLength(n, 2);
    ZeroPadRoundTrip(n, 2);
  }

  /** Six digit fields of widths 4, 2, 2, 2, 2, 2 are read back one by one. */
  lemma ParseFields(y: string, mo: string, d: string, h: string, mi: string, s: string)
    requires |y| == 4 && |mo| == 2 && |d| == 2 && |h| == 2 && |mi| == 2 && |s| == 2
    requires AllDigits(y) && AllDigits(mo) && AllDigits(d) && AllDigits(h) && AllDigits(mi) && AllDigits(s)
    ensures var ts := y + mo + d + h + mi + s;
      |ts| == 14 && AllDigits(ts) &&
      ParseTimestamp(ts) ==
        DateTime(DigitsValue(y), DigitsValue(mo), DigitsValue(d), DigitsValue(h), DigitsValue(mi), DigitsValue(s))
  {
    var ts := y + mo + d + h + mi + s;
    assert ts[0..4] == y;
    assert ts[4..6] == mo;
    assert ts[6..8] == d;
    assert ts[8..10] == h;
    assert ts[10..12] == mi;
    assert ts[12..14] == s;
  }

  /** A well-formed time prints as exactly 14 digits, from which it is read back. */
  lemma TimestampRoundTrip(t: DateTime)
    requires WellFormed(t)
    ensures |Timestamp(t)| == 14 && AllDigits(Timestamp(t))
    ensures ParseTimestamp(Timestamp(t)) == t
  {
    DecimalLength(t.year, 4);
    ZeroPadRoundTrip(t.year, 4);
    TwoDigits(t.month);
    TwoDigits(t.day);
    TwoDigits(t.hour);
    TwoDigits(t.minute);
    TwoDigits(t.second);
    ParseFields(ZeroPad(t.year, 4), ZeroPad(t.month, 2), ZeroPad(t.day, 2),
                ZeroPad(t.hour, 2), ZeroPad(t.minute, 2), ZeroPad(t.second, 2));
  }

  /**
   * A well-formed time gives a 23-character name, `wblog_`, 14 digits and
   * `.db`, and the name determines the time.
   */
  lemma BackupFileNameRoundTrip(t: DateTime)
    requires WellFormed(t)
    ensures |BackupFileName(t)| == 23
    ensures BackupFileName(t)[..6] == NAME_PREFIX && BackupFileName(t)[20..] == NAME_SUFFIX
    ensures AllDigits(BackupFileName(t)[6..20])
    ensures ParseBackupFileName(BackupFileName(t)) == Some(t)
  {
    TimestampRoundTrip(t);
    var name := BackupFileName(t);
    assert name[6..20] == Timestamp(t);
  }

  /** Names of well-formed times collide only within the same second. */
  lemma BackupFileNameInjective(t1: DateTime, t2: DateTime)
    requires WellFormed(t1) && WellFormed(t2)
    requires BackupFileName(t1) == BackupFileName(t2)
    ensures t1 == t2
  {
    BackupFileNameRoundTrip(t1);
    BackupFileNameRoundTrip(t2);
  }

  /** Digits and `-` are class characters. */
  lemma NumeralIsValidName(s: string)
    requires |s| > 0 && forall i :: 0 <= i < |s| ==> IsDigit(s[i]) || s[i] == '-'
    ensures IsValidFileName(s)
  {
  }

  lemma TimestampIsValidName(t: DateTime)
    ensures IsValidFileName(Timestamp(t))
  {
    NumeralIsValidName(FormatInt(t.year, 4));
    NumeralIsValidName(ZeroPad(t.month, 2));
    NumeralIsValidName(ZeroPad(t.day, 2));
    NumeralIsValidName(ZeroPad(t.hour, 2));
    NumeralIsValidName(ZeroPad(t.minute, 2));
    NumeralIsValidName(ZeroPad(t.second, 2));
    var a := FormatInt(t.year, 4) + ZeroPad(t.month, 2);
    ValidConcat(FormatInt(t.year, 4), ZeroPad(t.month, 2));
    ValidConcat(a, ZeroPad(t.day, 2));
    ValidConcat(a + ZeroPad(t.day, 2), ZeroPad(t.hour, 2));
    ValidConcat(a + ZeroPad(t.day, 2) + ZeroPad(t.hour, 2), ZeroPad(t.minute, 2));
    ValidConcat(a + ZeroPad(t.day, 2) + ZeroPad(t.hour, 2) + ZeroPad(t.minute, 2), ZeroPad(t.second, 2));
  }

  /**
   * Every generated name, for any time at all (a negative or five-digit year
   * included), passes the restore handler's filename gate.
   */
  lemma BackupFileNamePassesGate(t: DateTime)
    ensures IsValidFileName(BackupFileName(t))
    ensures Base(BackupFileName(t)) == BackupFileName(t)
    ensures ValidateFileName(BackupFileName(t)) == None
  {
    var ts := Timestamp(t);
    TimestampIsValidName(t);
    assert IsValidFileName(NAME_PREFIX);
    assert IsValidFileName(NAME_SUFFIX);
    ValidConcat(NAME_PREFIX, ts);
    ValidConcat(NAME_PREFIX + ts, NAME_SUFFIX);
    ValidateAcceptsExactlyClassNames(BackupFileName(t));
    ValidNameIsOwnBase(BackupFileName(t));
  }

  lemma YearExample()
    ensures FormatInt(2024, 4) == "2024"
  {
    assert Decimal(2) == "2";
    assert Decimal(20) == "20";
    assert Decimal(202) == "202";
    assert Decimal(2024) == "2024";
  }

  lemma PadExamples()
    ensures ZeroPad(0, 2) == "00" && ZeroPad(1, 2) == "01" && ZeroPad(12, 2) == "12"
  {
    assert Zeros(1) == "0";
    assert Decimal(0) == "0";
    assert Decimal(1) == "1";
    assert Decimal(12) == "12";
  }

  lemma SnapshotExampleName()
    ensures BackupFileName(DateTime(2024, 1, 1, 12, 0, 0)) == "wblog_20240101120000.db"
  {
    YearExample();
    PadExamples();
    assert Timestamp(DateTime(2024, 1, 1, 12, 0, 0)) == "2024" + "01" + "01" + "12" + "00" + "00";
  }

  lemma GateAcceptsSnapshotExample()
    ensures ValidateFileName("wblog_20240101120000.db") == None
  {
    SnapshotExampleName();
    BackupFileNamePassesGate(DateTime(2024, 1, 1, 12, 0, 0));
  }
}
