/**
 * The history file: `save_data` (bmp280_x11_gui5.cpp:577-600) writes one line per
 * reading, oldest first, as `<temperature><d><pressure><d><timestamp>` where `<d>`
 * is the configured delimiter, to a temporary file that is then renamed over the
 * data file; `load_data` (bmp280_x11_gui5.cpp:602-626) reads such a file back line by
 * line, keeping the lines that pass its checks and reporting the others.
 *
 * The file system is a map from path to contents; the faults a save can meet are a
 * parameter.
 */
module Persistence {
  import opened Wrappers
  import opened Numeric
  import opened Lines
  import opened Samples
  import opened Errors

  /** `out << d.temperature << delim << d.pressure << delim << d.timestamp`. */
  function FormatLine(p: DataPoint, delim: char): string {
    FormatDecimal(p.temperature) + [delim] + FormatDecimal(p.pressure) + [delim] + FormatInt(p.timestamp)
  }

  function FormatLines(points: seq<DataPoint>, delim: char): (lines: seq<string>)
    ensures |lines| == |points|
    ensures forall k | 0 <= k < |points| :: lines[k] == FormatLine(points[k], delim)
  {
    seq(|points|, k requires 0 <= k < |points| => FormatLine(points[k], delim))
  }

  /** The text `save_data` writes for the history `points`, oldest first. */
  function Serialize(points: seq<DataPoint>, delim: char): string {
    JoinLines(FormatLines(points, delim))
  }

  /** Writing the readings one at a time: one more reading adds its line. */
  lemma SerializeStep(points: seq<DataPoint>, i: nat, delim: char)
    requires i < |points|
    ensures Serialize(points[..i + 1], delim) == Serialize(points[..i], delim) + FormatLine(points[i], delim) + "\n"
  {
    assert FormatLines(points[..i + 1], delim) == FormatLines(points[..i], delim) + [FormatLine(points[i], delim)];
    JoinAppend(FormatLines(points[..i], delim), FormatLine(points[i], delim));
  }

  /** `>> float`: leading white space is skipped, then a number is read. */
  function ReadDecimal(s: string): (r: Option<(Decimal, string)>)
    ensures r.Some? ==> |r.value.1| < |s|
  {
    var t := SkipSpaces(s);
    match ScanDecimal(t)
    case None => None
    case Some(v) => Some((v.0, t[v.1..]))
  }

  /** `>> char`: leading white space is skipped, then one character is read. */
  function ReadChar(s: string): (r: Option<(char, string)>)
    ensures r.Some? ==> |r.value.1| < |s| && !IsSpace(r.value.0)
  {
    var t := SkipSpaces(s);
    if t == [] then None else Some((t[0], t[1..]))
  }

  /** `>> time_t`: leading white space is skipped, then an integer is read. */
  function ReadInt(s: string): (r: Option<(int, string)>)
  {
    var t := SkipSpaces(s);
    match ScanInt(t)
    case None => None
    case Some(v) => Some((v.0, t[v.1..]))
  }

  /** The five values `iss >> t >> delim >> p >> delim >> ts` extracts, both delimiters kept. */
  datatype Fields = Fields(temperature: Decimal, first: char, pressure: Decimal, second: char, timestamp: int)

  /** The extraction, or None when one of the five extractions fails. */
  function Extract(line: string): Option<Fields> {
    match ReadDecimal(line)
    case None => None
    case Some(a) => ExtractAfterTemperature(a.0, a.1)
  }

  function ExtractAfterTemperature(t: Decimal, s: string): Option<Fields> {
    match ReadChar(s)
    case None => None
    case Some(b) =>
      match ReadDecimal(b.1)
      case None => None
      case Some(c) => ExtractAfterPressure(t, b.0, c.0, c.1)
  }

  function ExtractAfterPressure(t: Decimal, first: char, p: Decimal, s: string): Option<Fields> {
    match ReadChar(s)
    case None => None
    case Some(d) =>
      match ReadInt(d.1)
      case None => None
      case Some(e) => Some(Fields(t, first, p, d.0, e.0))
  }

  /**
   * The checks of `load_data` on the extracted values: the SECOND character must be
   * the configured delimiter (both are read into the same variable, so the first one
   * is never compared), both values must be in range and the timestamp must be
   * positive and not in the future.
   */
  function Accept(f: Fields, delim: char, now: int): (r: Option<DataPoint>)
    ensures r.Some? <==> f.second == delim && Loadable(DataPoint(f.temperature, f.pressure, f.timestamp), now)
    ensures r.Some? ==> r.value == DataPoint(f.temperature, f.pressure, f.timestamp)
  {
    if f.second == delim && TempInRange(f.temperature) && PressInRange(f.pressure) &&
       f.timestamp > 0 && f.timestamp <= now
    then Some(DataPoint(f.temperature, f.pressure, f.timestamp)) else None
  }

  /** One line of `load_data`; whatever follows the timestamp is ignored. */
  function ParseDataLine(line: string, delim: char, now: int): (r: Option<DataPoint>)
    ensures r.Some? ==> Loadable(r.value, now)
  {
    match Extract(line)
    case None => None
    case Some(f) => Accept(f, delim, now)
  }

  /**
   * A delimiter that a written line can be read back with: not part of a number
   * (`>> float` takes 'e' and 'E' as the start of an exponent), and not skipped as
   * white space.
   */
  predicate SafeDelimiter(delim: char) {
    !IsDigit(delim) && delim != '.' && delim != 'e' && delim != 'E' && !IsSpace(delim)
  }

  /** A reading `load_data` accepts at time `now`. */
  predicate Loadable(p: DataPoint, now: int) {
    InRange(p) && 0 < p.timestamp <= now
  }

  lemma ReadFormatDecimal(d: Decimal, rest: string)
    requires EndsNumber(rest)
    ensures ReadDecimal(FormatDecimal(d) + rest) == Some((d, rest))
  {
    var s := FormatDecimal(d) + rest;
    assert SkipSpaces(s) == s;
    ScanFormatDecimal(d, rest);
    assert s[|FormatDecimal(d)|..] == rest;
  }

  lemma ReadFormatInt(i: int)
    ensures ReadInt(FormatInt(i)) == Some((i, []))
  {
    var s := FormatInt(i);
    assert SkipSpaces(s) == s;
    ScanFormatInt(i, []);
    assert s + [] == s;
  }

  lemma ReadDelimiter(c: char, rest: string)
    requires !IsSpace(c)
    ensures ReadChar([c] + rest) == Some((c, rest))
  {
    assert SkipSpaces([c] + rest) == [c] + rest;
  }

  /** The values a written line yields, before any check. */
  lemma ExtractFormatLine(p: DataPoint, delim: char)
    requires SafeDelimiter(delim)
    ensures Extract(FormatLine(p, delim)) == Some(Fields(p.temperature, delim, p.pressure, delim, p.timestamp))
  {
    var ps, stamp := FormatDecimal(p.pressure), FormatInt(p.timestamp);
    var r1 := [delim] + (ps + ([delim] + stamp));
    assert FormatLine(p, delim) == FormatDecimal(p.temperature) + r1;
    ReadFormatDecimal(p.temperature, r1);
    ExtractFormatTail(p, delim);
  }

  lemma ExtractFormatTail(p: DataPoint, delim: char)
    requires SafeDelimiter(delim)
    ensures var ps, stamp := FormatDecimal(p.pressure), FormatInt(p.timestamp);
      ExtractAfterTemperature(p.temperature, [delim] + (ps + ([delim] + stamp))) ==
        Some(Fields(p.temperature, delim, p.pressure, delim, p.timestamp))
  {
    var ps, stamp := FormatDecimal(p.pressure), FormatInt(p.timestamp);
    ReadDelimiter(delim, ps + ([delim] + stamp));
    ReadFormatDecimal(p.pressure, [delim] + stamp);
    ExtractFormatStamp(p, delim);
  }

  lemma ExtractFormatStamp(p: DataPoint, delim: char)
    requires SafeDelimiter(delim)
    ensures ExtractAfterPressure(p.temperature, delim, p.pressure, [delim] + FormatInt(p.timestamp)) ==
      Some(Fields(p.temperature, delim, p.pressure, delim, p.timestamp))
  {
    ReadDelimiter(delim, FormatInt(p.timestamp));
    ReadFormatInt(p.timestamp);
  }

  /**
   * A written line is read back as the same reading exactly when that reading is one
   * `load_data` accepts; otherwise the line is reported and skipped.
   */
  lemma ParseFormatLine(p: DataPoint, delim: char, now: int)
    requires SafeDelimiter(delim)
    ensures ParseDataLine(FormatLine(p, delim), delim, now) == if Loadable(p, now) then Some(p) else None
  {
    ExtractFormatLine(p, delim);
  }

  /** A run of lines judged one at a time by `parse`: the readings kept and the errors, in order. */
  function LoadWith(lines: seq<string>, parse: string -> Option<DataPoint>): (seq<DataPoint>, seq<Error>) {
    if lines == [] then ([], [])
    else
      var before := LoadWith(lines[..|lines| - 1], parse);
      var line := lines[|lines| - 1];
      match parse(line)
      case Some(p) => (before.0 + [p], before.1)
      case None => (before.0, before.1 + [InvalidDataLine(line)])
  }

  /** What `load_data` keeps of the lines of a file, and the errors it reports, in order. */
  function LoadLines(lines: seq<string>, delim: char, now: int): (seq<DataPoint>, seq<Error>) {
    LoadWith(lines, line => ParseDataLine(line, delim, now))
  }

  /** Reading one more line keeps its reading or reports it. */
  lemma LoadLinesStep(lines: seq<string>, k: nat, delim: char, now: int)
    requires k < |lines|
    ensures var before := LoadLines(lines[..k], delim, now);
      LoadLines(lines[..k + 1], delim, now) ==
        match ParseDataLine(lines[k], delim, now)
        case Some(p) => (before.0 + [p], before.1)
        case None => (before.0, before.1 + [InvalidDataLine(lines[k])])
  {
    assert lines[..k + 1][..k] == lines[..k];
  }

  /**
   * Lines are judged one at a time: loading a file in two parts gives the readings
   * and the errors of each part, in order.
   */
  lemma {:induction false} LoadWithAppend(a: seq<string>, b: seq<string>, parse: string -> Option<DataPoint>)
    ensures LoadWith(a + b, parse).0 == LoadWith(a, parse).0 + LoadWith(b, parse).0
    ensures LoadWith(a + b, parse).1 == LoadWith(a, parse).1 + LoadWith(b, parse).1
  {
    if b == [] {
      assert a + b == a;
    } else {
      var init := b[..|b| - 1];
      LoadWithAppend(a, init, parse);
      assert (a + b)[..|a + b| - 1] == a + init;
      assert (a + b)[|a + b| - 1] == b[|b| - 1];
    }
  }

  /** Every line gives a reading that `parse` accepted or one error naming the line. */
  lemma {:induction false} LoadWithAccounts(lines: seq<string>, parse: string -> Option<DataPoint>)
    ensures |LoadWith(lines, parse).0| + |LoadWith(lines, parse).1| == |lines|
    ensures forall k | 0 <= k < |LoadWith(lines, parse).0| :: exists j | 0 <= j < |lines| :: parse(lines[j]) == Some(LoadWith(lines, parse).0[k])
    ensures forall e | e in LoadWith(lines, parse).1 :: exists j | 0 <= j < |lines| :: parse(lines[j]).None? && e == InvalidDataLine(lines[j])
  {
    if lines != [] {
      var n := |lines| - 1;
      LoadWithAccounts(lines[..n], parse);
      assert forall j | 0 <= j < n :: lines[..n][j] == lines[j];
    }
  }

  /** Every reading `load_data` keeps passed its checks. */
  lemma LoadedAreLoadable(lines: seq<string>, delim: char, now: int)
    ensures forall k | 0 <= k < |LoadLines(lines, delim, now).0| :: Loadable(LoadLines(lines, delim, now).0[k], now)
  {
    var parse := line => ParseDataLine(line, delim, now);
    LoadWithAccounts(lines, parse);
    forall k | 0 <= k < |LoadWith(lines, parse).0|
      ensures Loadable(LoadWith(lines, parse).0[k], now)
    {
      var j :| 0 <= j < |lines| && parse(lines[j]) == Some(LoadWith(lines, parse).0[k]);
    }
  }

  /** Lines that `parse` reads back as the given readings are all kept, in order, with no error. */
  lemma {:induction false} LoadWithAllKept(points: seq<DataPoint>, lines: seq<string>, parse: string -> Option<DataPoint>)
    requires |lines| == |points|
    requires forall k | 0 <= k < |points| :: parse(lines[k]) == Some(points[k])
    ensures LoadWith(lines, parse) == (points, [])
  {
    if points != [] {
      var n := |points| - 1;
      LoadWithAllKept(points[..n], lines[..n], parse);
      assert points[..n] + [points[n]] == points;
    }
  }

  /**
   * Reading back what `save_data` wrote, with the same delimiter, gives the same
   * readings in the same order and no error, when every reading is one `load_data`
   * accepts.
   */
  lemma LoadSerialized(points: seq<DataPoint>, delim: char, now: int)
    requires SafeDelimiter(delim)
    requires forall k | 0 <= k < |points| :: Loadable(points[k], now)
    ensures GetLines(Serialize(points, delim)) == FormatLines(points, delim)
    ensures LoadLines(GetLines(Serialize(points, delim)), delim, now) == (points, [])
  {
    LinesOfFormat(points, delim);
    GetLinesOfJoin(FormatLines(points, delim));
    var lines := FormatLines(points, delim);
    var parse := line => ParseDataLine(line, delim, now);
    forall k | 0 <= k < |points|
      ensures parse(lines[k]) == Some(points[k])
    {
      ParseFormatLine(points[k], delim, now);
    }
    LoadWithAllKept(points, lines, parse);
  }

  lemma LinesOfFormat(points: seq<DataPoint>, delim: char)
    requires SafeDelimiter(delim)
    ensures AllWithoutNewline(FormatLines(points, delim))
  {
    forall k | 0 <= k < |points|
      ensures NoNewline(FormatLine(points[k], delim))
    {
      FormatHasNoNewline(points[k], delim);
    }
  }

  lemma FormatHasNoNewline(p: DataPoint, delim: char)
    requires delim != '\n'
    ensures NoNewline(FormatLine(p, delim))
  {
    var line := FormatLine(p, delim);
    var ts, ps, stamp := FormatDecimal(p.temperature), FormatDecimal(p.pressure), FormatInt(p.timestamp);
    DecimalHasNoNewline(p.temperature);
    DecimalHasNoNewline(p.pressure);
    IntHasNoNewline(p.timestamp);
    forall i | 0 <= i < |line|
      ensures line[i] != '\n'
    {
      if i < |ts| {
        assert line[i] == ts[i];
      } else if i == |ts| {
        assert line[i] == delim;
      } else if i < |ts| + 1 + |ps| {
        assert line[i] == ps[i - |ts| - 1];
      } else if i == |ts| + 1 + |ps| {
        assert line[i] == delim;
      } else {
        assert line[i] == stamp[i - |ts| - |ps| - 2];
      }
    }
  }

  lemma DecimalHasNoNewline(d: Decimal)
    ensures NoNewline(FormatDecimal(d))
  {
    var m := Magnitude(d.mantissa);
    var sign: string := if d.mantissa < 0 then "-" else "";
    var ws := NatToDigits(DropDigits(m, d.scale));
    var fs: string := if d.scale == 0 then "" else "." + PadDigits(m, d.scale);
    assert FormatDecimal(d) == sign + ws + fs;
    forall i | 0 <= i < |FormatDecimal(d)|
      ensures FormatDecimal(d)[i] != '\n'
    {
      if i < |sign| {
      } else if i < |sign| + |ws| {
        assert FormatDecimal(d)[i] == ws[i - |sign|];
      } else {
        assert FormatDecimal(d)[i] == fs[i - |sign| - |ws|];
        if d.scale > 0 && i > |sign| + |ws| {
          assert fs[i - |sign| - |ws|] == PadDigits(m, d.scale)[i - |sign| - |ws| - 1];
        }
      }
    }
  }

  lemma IntHasNoNewline(i: int)
    ensures NoNewline(FormatInt(i))
  {
    var sign: string := if i < 0 then "-" else "";
    var ds := NatToDigits(if i < 0 then -i else i);
    assert FormatInt(i) == sign + ds;
    forall k | 0 <= k < |FormatInt(i)|
      ensures FormatInt(i)[k] != '\n'
    {
      if k >= |sign| {
        assert FormatInt(i)[k] == ds[k - |sign|];
      }
    }
  }

  /** `"logs/" + filename + ".tmp"`. */
  function TempPath(filename: string): string {
    "logs/" + filename + ".tmp"
  }

  /** `"logs/" + filename`. */
  function DataPath(filename: string): string {
    "logs/" + filename
  }

  lemma PathsDiffer(filename: string)
    ensures TempPath(filename) != DataPath(filename)
  {
    assert |TempPath(filename)| != |DataPath(filename)|;
  }

  /** What can go wrong while saving: the stream cannot open, fails while writing, or the rename throws. */
  datatype SaveFault = NoFault | OpenFails | WriteFails(written: string) | RenameFails(reason: string)

  /** The file system after `save_data` has written `text`, and the message it reports. */
  function SaveFiles(files: map<string, string>, filename: string, text: string, fault: SaveFault): (r: (map<string, string>, Error))
    ensures fault.NoFault? ==> r.1 == Saved(DataPath(filename))
    ensures fault.OpenFails? ==> r.1 == TempFileOpenFailed(TempPath(filename))
    ensures fault.WriteFails? ==> r.1 == TempFileWriteFailed
    ensures fault.RenameFails? ==> r.1 == RenameFailed(fault.reason)
  {
    var tmp, target := TempPath(filename), DataPath(filename);
    match fault
    case OpenFails => (files, TempFileOpenFailed(tmp))
    case WriteFails(written) => (files[tmp := written], TempFileWriteFailed)
    case RenameFails(reason) => (files[tmp := text], RenameFailed(reason))
    case NoFault => ((files - {tmp})[target := text], Saved(target))
  }

  /**
   * Saving is all or nothing for the data file: whatever fails, it ends up either
   * as it was or holding the complete new text, and it holds the new text exactly
   * when nothing failed. No file other than the temporary one and the data file is
   * touched.
   */
  lemma SaveAtomic(files: map<string, string>, filename: string, text: string, fault: SaveFault)
    ensures var after := SaveFiles(files, filename, text, fault).0;
      var target := DataPath(filename);
      (fault.NoFault? ==> target in after && after[target] == text && TempPath(filename) !in after) &&
      (!fault.NoFault? ==> (target in after <==> target in files) && (target in files ==> after[target] == files[target])) &&
      (forall f | f != target && f != TempPath(filename) :: (f in after <==> f in files) && (f in files ==> after[f] == files[f]))
  {
    PathsDiffer(filename);
  }
}
