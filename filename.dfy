/** The filename codec of elisa_viihde_fuse.py: a recording's leaf name is
    `"{name} {time}.mpg"`, where the time is either the catalog's
    `DD.MM.YYYY HH.MM` text verbatim (the formatted dialect) or its
    rearrangement `YYYY-MM-DD HH:MM` (the ISO dialect). The boolean
    `formatted` throughout is the adapter's `formatted_time` flag. */
module Filename {
  import opened Types
  import opened Decimal

  /** Length of either time token. */
  const TimeLength := 16
  /** Length of `" " + time + ".mpg"`, the part after the name group. */
  const SuffixLength := 21

  datatype DateTime = DateTime(year: nat, month: nat, day: nat, hour: nat, minute: nat)

  /** The two named groups of a successful filename match. */
  datatype FilenameMatch = FilenameMatch(name: string, time: string)

  datatype FileType = FolderType | ProgramType

  /** TIME_FORMATTED: `\d{2}\.\d{2}\.\d{4} \d{2}\.\d{2}`, position by position. */
  predicate FormattedShape(t: string) {
    && |t| == TimeLength
    && IsDigit(t[0]) && IsDigit(t[1]) && t[2] == '.'
    && IsDigit(t[3]) && IsDigit(t[4]) && t[5] == '.'
    && IsDigit(t[6]) && IsDigit(t[7]) && IsDigit(t[8]) && IsDigit(t[9]) && t[10] == ' '
    && IsDigit(t[11]) && IsDigit(t[12]) && t[13] == '.'
    && IsDigit(t[14]) && IsDigit(t[15])
  }

  /** TIME_ISO: `\d{4}-\d{2}-\d{2} \d{2}\:\d{2}`, position by position. */
  predicate IsoShape(t: string) {
    && |t| == TimeLength
    && IsDigit(t[0]) && IsDigit(t[1]) && IsDigit(t[2]) && IsDigit(t[3]) && t[4] == '-'
    && IsDigit(t[5]) && IsDigit(t[6]) && t[7] == '-'
    && IsDigit(t[8]) && IsDigit(t[9]) && t[10] == ' '
    && IsDigit(t[11]) && IsDigit(t[12]) && t[13] == ':'
    && IsDigit(t[14]) && IsDigit(t[15])
  }

  /** The time pattern of the active dialect. */
  predicate TimeShape(formatted: bool, t: string) {
    if formatted then FormattedShape(t) else IsoShape(t)
  }

  /** The value of a two-digit field. */
  function Two(a: char, b: char): nat
    requires IsDigit(a) && IsDigit(b)
  {
    DigitValue(a) * 10 + DigitValue(b)
  }

  /** The calendar fields that `%d.%m.%Y %H.%M` reads. */
  function FormattedFields(t: string): DateTime
    requires FormattedShape(t)
  {
    DateTime(Two(t[6], t[7]) * 100 + Two(t[8], t[9]), Two(t[3], t[4]), Two(t[0], t[1]),
             Two(t[11], t[12]), Two(t[14], t[15]))
  }

  /** The calendar fields that `%Y-%m-%d %H:%M` reads. */
  function IsoFields(t: string): DateTime
    requires IsoShape(t)
  {
    DateTime(Two(t[0], t[1]) * 100 + Two(t[2], t[3]), Two(t[5], t[6]), Two(t[8], t[9]),
             Two(t[11], t[12]), Two(t[14], t[15]))
  }

  predicate IsLeapYear(y: nat) {
    y % 4 == 0 && (y % 100 != 0 || y % 400 == 0)
  }

  function DaysInMonth(y: nat, m: nat): nat
    requires 1 <= m <= 12
  {
    if m == 2 then (if IsLeapYear(y) then 29 else 28)
    else if m == 4 || m == 6 || m == 9 || m == 11 then 30
    else 31
  }

  /** A date and time `strptime` accepts and `strftime('%Y')` renders with
      four digits. */
  predicate ValidDateTime(d: DateTime) {
    && 1000 <= d.year
    && 1 <= d.month <= 12
    && 1 <= d.day <= DaysInMonth(d.year, d.month)
    && d.hour <= 23
    && d.minute <= 59
  }

  /** A catalog start time that `strptime(t, '%d.%m.%Y %H.%M')` parses,
      restricted to two-digit fields. */
  predicate ValidFormattedTime(t: string) {
    FormattedShape(t) && ValidDateTime(FormattedFields(t))
  }

  /** `_get_iso_time`: `strftime('%Y-%m-%d %H:%M', strptime(t, '%d.%m.%Y %H.%M'))`,
      which on a time with two-digit fields moves the digits into ISO order. */
  function IsoTime(t: string): string
    requires ValidFormattedTime(t)
  {
    [t[6], t[7], t[8], t[9], '-', t[3], t[4], '-', t[0], t[1], ' ', t[11], t[12], ':', t[14], t[15]]
  }

  /** The result of `_get_iso_time` matches TIME_ISO and denotes the same
      date and time as its argument. */
  lemma IsoTimeMeaning(t: string)
    requires ValidFormattedTime(t)
    ensures IsoShape(IsoTime(t))
    ensures IsoFields(IsoTime(t)) == FormattedFields(t)
  {
  }

  /** The characters a formatted time is made of. */
  lemma FormattedAlphabet(t: string)
    requires FormattedShape(t)
    ensures forall i :: 0 <= i < |t| ==> IsDigit(t[i]) || t[i] == '.' || t[i] == ' '
  {
  }

  /** The characters an ISO time is made of. */
  lemma IsoAlphabet(t: string)
    requires IsoShape(t)
    ensures forall i :: 0 <= i < |t| ==> IsDigit(t[i]) || t[i] == '-' || t[i] == ' ' || t[i] == ':'
  {
  }

  /** `_get_iso_time` never maps two catalog start times to one token, so
      in the ISO dialect distinct start times give distinct filenames. */
  lemma IsoTimeInjective(a: string, b: string)
    requires ValidFormattedTime(a) && ValidFormattedTime(b)
    requires IsoTime(a) == IsoTime(b)
    ensures a == b
  {
    forall i | 0 <= i < TimeLength ensures a[i] == b[i] {
      if i < 2 { assert IsoTime(a)[i + 8] == IsoTime(b)[i + 8]; }
      else if 3 <= i < 5 { assert IsoTime(a)[i + 2] == IsoTime(b)[i + 2]; }
      else if 6 <= i < 10 { assert IsoTime(a)[i - 6] == IsoTime(b)[i - 6]; }
      else if 11 <= i < 13 || 14 <= i { assert IsoTime(a)[i] == IsoTime(b)[i]; }
    }
  }

  /** A recording the active dialect can turn into a filename: the ISO
      dialect parses the start time, the formatted one copies it. */
  predicate Encodable(formatted: bool, r: Recording) {
    formatted || ValidFormattedTime(r.startTime)
  }

  predicate AllEncodable(formatted: bool, recs: seq<Recording>) {
    forall i :: 0 <= i < |recs| ==> Encodable(formatted, recs[i])
  }

  /** The time token written into (and compared against) a filename: the
      start time itself in the formatted dialect, `_get_iso_time` of it in
      the ISO dialect. */
  function EncodedTime(formatted: bool, startTime: string): string
    requires formatted || ValidFormattedTime(startTime)
  {
    if formatted then startTime else IsoTime(startTime)
  }

  /** The token written for a well-formed start time matches the time
      pattern of the dialect that reads it back. */
  lemma EncodedTimeMatchesPattern(formatted: bool, startTime: string)
    requires FormattedShape(startTime) && (formatted || ValidFormattedTime(startTime))
    ensures TimeShape(formatted, EncodedTime(formatted, startTime))
    ensures formatted ==> EncodedTime(formatted, startTime) == startTime
  {
    if !formatted { IsoTimeMeaning(startTime); }
  }

  /** The (name, time) pair a recording's filename carries: what the
      recording scan of `_get_program_info` compares with the decoded
      groups. */
  function FilenameKey(formatted: bool, r: Recording): FilenameMatch
    requires Encodable(formatted, r)
  {
    FilenameMatch(r.name, EncodedTime(formatted, r.startTime))
  }

  /** `_create_filename`: the name, a space, the encoded start time and
      `.mpg`. */
  function CreateFilename(formatted: bool, r: Recording): (f: string)
    requires Encodable(formatted, r)
    ensures |f| == |r.name| + |EncodedTime(formatted, r.startTime)| + 5
    ensures f[..|r.name|] == r.name && f[|r.name|] == ' '
    ensures f[|r.name| + 1..|f| - 4] == EncodedTime(formatted, r.startTime)
    ensures EndsWithMpg(f)
  {
    var t := EncodedTime(formatted, r.startTime);
    var f := r.name + " " + t + ".mpg";
    assert f[..|r.name|] == r.name;
    assert f[|r.name| + 1..|f| - 4] == t;
    assert f[|f| - 4..] == ".mpg";
    f
  }

  /** `re.match` of FILENAME_FORMATTED / FILENAME_ISO succeeds with the name
      group ending at `k`: the greedy `.*` takes `s[..k]`, which holds no
      line feed (`.` does not match one); then a space, the time token and
      `.mpg` follow. Nothing is required after `.mpg`. */
  predicate MatchesAt(formatted: bool, s: string, k: int) {
    && 0 <= k && k + SuffixLength <= |s|
    && '\n' !in s[..k]
    && s[k] == ' '
    && TimeShape(formatted, s[k + 1..k + 1 + TimeLength])
    && s[k + 1 + TimeLength..k + SuffixLength] == ".mpg"
  }

  /** Backtracking of the greedy name group: the largest match end not
      above `k`. */
  function LastMatch(formatted: bool, s: string, k: int): (r: Option<nat>)
    ensures r.Some? ==> r.value <= k && MatchesAt(formatted, s, r.value)
    ensures r.Some? ==> forall j :: r.value < j <= k ==> !MatchesAt(formatted, s, j)
    ensures r.None? ==> forall j :: j <= k ==> !MatchesAt(formatted, s, j)
    decreases k + 1
  {
    if k < 0 then None
    else if MatchesAt(formatted, s, k) then Some(k)
    else LastMatch(formatted, s, k - 1)
  }

  /** `_parse_filename`: the match object of the active dialect's pattern,
      or `None`. A match exists exactly when some split point fits the
      pattern, and the name group is the longest that does. */
  function ParseFilename(formatted: bool, s: string): (r: Option<FilenameMatch>)
    ensures r.None? <==> forall k :: !MatchesAt(formatted, s, k)
    ensures r.Some? ==> exists k :: && MatchesAt(formatted, s, k)
                                    && r.value == FilenameMatch(s[..k], s[k + 1..k + 1 + TimeLength])
                                    && forall j :: k < j ==> !MatchesAt(formatted, s, j)
  {
    match LastMatch(formatted, s, |s| - SuffixLength)
    case None => None
    case Some(k) => Some(FilenameMatch(s[..k], s[k + 1..k + 1 + TimeLength]))
  }

  predicate EndsWithMpg(path: string) {
    |path| >= 4 && path[|path| - 4..] == ".mpg"
  }

  /** `_get_type`: a path is a program exactly when it ends with `.mpg`. */
  function GetType(path: string): (t: FileType)
    ensures t == ProgramType <==> EndsWithMpg(path)
  {
    if EndsWithMpg(path) then ProgramType else FolderType
  }

  /** A recording whose filename decodes back to its own name and time. */
  predicate RoundTrips(formatted: bool, r: Recording) {
    && '\n' !in r.name
    && FormattedShape(r.startTime)
    && (formatted || ValidFormattedTime(r.startTime))
  }

  /** Round trip of the codec in either dialect: decoding the filename of a
      recording gives back its name and its encoded start time (verbatim in
      the formatted dialect, `_get_iso_time` of it in the ISO dialect). */
  lemma {:induction false} ParseCreateRoundTrip(formatted: bool, r: Recording)
    requires RoundTrips(formatted, r)
    ensures ParseFilename(formatted, CreateFilename(formatted, r)) == Some(FilenameKey(formatted, r))
  {
    var t := EncodedTime(formatted, r.startTime);
    if !formatted { IsoTimeMeaning(r.startTime); }
    var s := CreateFilename(formatted, r);
    var n := |r.name|;
    assert s[..n] == r.name;
    assert s[n + 1..n + 1 + TimeLength] == t;
    assert s[n + 1 + TimeLength..n + SuffixLength] == ".mpg";
    assert MatchesAt(formatted, s, n);
    var m := ParseFilename(formatted, s);
    assert m.Some?;
    var k :| && MatchesAt(formatted, s, k)
             && m.value == FilenameMatch(s[..k], s[k + 1..k + 1 + TimeLength])
             && forall j :: k < j ==> !MatchesAt(formatted, s, j);
    assert k == n;
  }

  /** The converse limit of the round trip: a name holding a line feed never
      comes back, since the name group cannot span one. */
  lemma NewlineNameNeverDecodes(formatted: bool, r: Recording)
    requires Encodable(formatted, r)
    requires '\n' in r.name
    ensures var m := ParseFilename(formatted, CreateFilename(formatted, r));
            m.None? || m.value.name != r.name
  {
    var s := CreateFilename(formatted, r);
    var m := ParseFilename(formatted, s);
    if m.Some? {
      var k :| MatchesAt(formatted, s, k) && m.value == FilenameMatch(s[..k], s[k + 1..k + 1 + TimeLength]);
      assert '\n' !in s[..k];
    }
  }

  /** Characters after `.mpg` never make a successful match fail
      (`re.match` anchors at the start only). */
  lemma TrailingTextTolerated(formatted: bool, s: string, rest: string)
    requires ParseFilename(formatted, s).Some?
    ensures ParseFilename(formatted, s + rest).Some?
  {
    var k :| MatchesAt(formatted, s, k);
    var s' := s + rest;
    assert s'[..k] == s[..k];
    assert s'[k + 1..k + 1 + TimeLength] == s[k + 1..k + 1 + TimeLength];
    assert s'[k + 1 + TimeLength..k + SuffixLength] == s[k + 1 + TimeLength..k + SuffixLength];
    assert MatchesAt(formatted, s', k);
  }

  /** An ISO-dialect filename is not a recording in the formatted dialect,
      provided its name holds no `.`. */
  lemma IsoFilenameRejectedWhenFormatted(name: string, t: string)
    requires IsoShape(t) && '.' !in name
    ensures ParseFilename(true, name + " " + t + ".mpg").None?
  {
    var s := name + " " + t + ".mpg";
    IsoAlphabet(t);
    forall k ensures !MatchesAt(true, s, k) {
      if 0 <= k && k + SuffixLength <= |s| {
        // the window's first `.` would sit before the extension's, where s has none
        var j := k + 3;
        if j < |name| { assert s[j] == name[j]; }
        else if j > |name| { assert s[j] == t[j - |name| - 1]; }
        assert s[k + 1..k + 1 + TimeLength][2] == s[j] != '.';
      }
    }
  }

  /** A formatted-dialect filename is not a recording in the ISO dialect,
      provided its name holds no `:`. */
  lemma FormattedFilenameRejectedWhenIso(name: string, t: string)
    requires FormattedShape(t) && ':' !in name
    ensures ParseFilename(false, name + " " + t + ".mpg").None?
  {
    var s := name + " " + t + ".mpg";
    FormattedAlphabet(t);
    forall k ensures !MatchesAt(false, s, k) {
      if 0 <= k && k + SuffixLength <= |s| {
        // the window's `:` would have to be a character of s, which has none
        var j := k + 14;
        if j < |name| { assert s[j] == name[j]; }
        else if j > |name| { assert s[j] == t[j - |name| - 1]; }
        assert s[k + 1..k + 1 + TimeLength][13] == s[j] != ':';
      }
    }
  }

  /** Every filename the codec creates is classified as a program. */
  lemma CreatedFilenameIsProgram(formatted: bool, r: Recording)
    requires Encodable(formatted, r)
    ensures GetType(CreateFilename(formatted, r)) == ProgramType
  {
    var f := CreateFilename(formatted, r);
    assert f[|f| - 4..] == ".mpg";
  }

  /** A filename the codec creates holds no `/` when the name holds none,
      so it is a single path component. */
  lemma CreatedFilenameIsComponent(formatted: bool, r: Recording)
    requires RoundTrips(formatted, r) && '/' !in r.name
    ensures '/' !in CreateFilename(formatted, r)
  {
    var t := EncodedTime(formatted, r.startTime);
    if formatted { FormattedAlphabet(t); } else { IsoTimeMeaning(r.startTime); IsoAlphabet(t); }
    var f := CreateFilename(formatted, r);
    assert f == r.name + " " + t + ".mpg";
    forall j | 0 <= j < |f| ensures f[j] != '/' {
      var n := |r.name|;
      if j < n { assert f[j] == r.name[j]; }
      else if j == n { assert f[j] == ' '; }
      else if n < j < n + 1 + TimeLength { assert f[j] == t[j - n - 1]; }
      else if j >= n + 1 + TimeLength { assert f[j] == ".mpg"[j - n - 1 - TimeLength]; }
    }
  }
}
