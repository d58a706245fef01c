/**
 * Turning sensor text into readings: `parse_value` and `process_line`
 * (bmp280_x11_gui5.cpp:359-387), and the line reassembly of `read_serial`
 * (bmp280_x11_gui5.cpp:415-440) as a function of the bytes still pending from the
 * previous read and the bytes of this read.
 */
module Parser {
  import opened Wrappers
  import opened Numeric
  import opened Errors
  import opened Lines
  import opened Samples

  /** Whether `sub` occurs in `s` (`s.find(sub) != std::string::npos`), searching from the front. */
  predicate Contains(s: string, sub: string)
    decreases |s|
  {
    sub <= s || (s != [] && Contains(s[1..], sub))
  }

  /** `Contains` holds exactly when `sub` starts at some position of `s`. */
  lemma {:induction false} ContainsMeaning(s: string, sub: string)
    ensures Contains(s, sub) <==> exists i | 0 <= i <= |s| :: sub <= s[i..]
    decreases |s|
  {
    if s != [] {
      ContainsMeaning(s[1..], sub);
    }
    if Contains(s, sub) {
      if sub <= s {
        assert s[0..] == s;
      } else {
        var i :| 0 <= i <= |s| - 1 && sub <= s[1..][i..];
        assert s[1..][i..] == s[i + 1..];
      }
    }
    if i :| 0 <= i <= |s| && sub <= s[i..] {
      if i == 0 {
        assert s[0..] == s;
      } else {
        assert s[1..][i - 1..] == s[i..];
      }
    }
  }

  /** Position of the first '-' or digit in `s` (`find_first_of("-0123456789")`). */
  function NumberStart(s: string): (r: Option<nat>)
    ensures r.Some? ==> r.value < |s| && (s[r.value] == '-' || IsDigit(s[r.value]))
  {
    if s == [] then None
    else if s[0] == '-' || IsDigit(s[0]) then Some(0)
    else
      match NumberStart(s[1..])
      case None => None
      case Some(k) => Some(k + 1)
  }

  /** Nothing before the position found (before the end, when none is) is a '-' or a digit. */
  lemma {:induction false} NumberStartSkips(s: string)
    ensures var end := if NumberStart(s).Some? then NumberStart(s).value else |s|;
      forall i | 0 <= i < end :: s[i] != '-' && !IsDigit(s[i])
  {
    if s != [] && s[0] != '-' && !IsDigit(s[0]) {
      NumberStartSkips(s[1..]);
    }
  }

  /**
   * `parse_value`: the number that starts at the first '-' or digit of the line.
   * There is no second try: when that position does not start a number (a lone
   * '-', say) the line has no value, and neither has it when `std::stof` throws
   * `out_of_range` for a value no float holds.
   */
  function ParseValue(line: string): (r: Option<Decimal>)
    ensures r.Some? ==> FloatRange(r.value.Value())
  {
    match NumberStart(line)
    case None => None
    case Some(pos) =>
      match ScanDecimal(line[pos..])
      case None => None
      case Some(v) => if FloatRange(v.0.Value()) then Some(v.0) else None
  }

  /**
   * A prefix without numbers in front of a rendered value is read back as that
   * value, or as no value at all when no float holds it.
   */
  lemma ParseLabelledValue(prefix: string, d: Decimal, rest: string)
    requires forall i | 0 <= i < |prefix| :: prefix[i] != '-' && !IsDigit(prefix[i])
    requires EndsNumber(rest)
    ensures ParseValue(prefix + FormatDecimal(d) + rest) == if FloatRange(d.Value()) then Some(d) else None
  {
    var line := prefix + FormatDecimal(d) + rest;
    LabelSkipped(prefix, FormatDecimal(d) + rest);
    assert line == prefix + (FormatDecimal(d) + rest);
    assert line[|prefix|..] == FormatDecimal(d) + rest;
    ScanFormatDecimal(d, rest);
  }

  lemma {:induction false} LabelSkipped(prefix: string, s: string)
    requires forall i | 0 <= i < |prefix| :: prefix[i] != '-' && !IsDigit(prefix[i])
    requires 0 < |s| && (s[0] == '-' || IsDigit(s[0]))
    ensures NumberStart(prefix + s) == Some(|prefix|)
  {
    if prefix != [] {
      assert (prefix + s)[1..] == prefix[1..] + s;
      LabelSkipped(prefix[1..], s);
    } else {
      assert prefix + s == s;
    }
  }

  /** What the reading loop of `read_serial` has gathered so far from one read. */
  datatype Frame = Frame(temp: Decimal, press: Decimal, gotTemp: bool, gotPress: bool)

  const EmptyFrame := Frame(Whole(0), Whole(0), false, false)

  /** How `process_line` reads a line: as a temperature, a pressure, or neither. */
  datatype Reading = Temperature(value: Decimal) | Pressure(value: Decimal) | Unlabelled

  /**
   * A line that says "Temp" and has a value is a temperature, even when it also says
   * "Pres"; one that says "Temp" but has no value is still looked at for "Pres".
   */
  function Classify(line: string): (r: Reading)
    ensures r.Temperature? <==> Contains(line, "Temp") && ParseValue(line).Some?
    ensures r.Pressure? <==> !Contains(line, "Temp") && Contains(line, "Pres") && ParseValue(line).Some?
    ensures !r.Unlabelled? ==> Some(r.value) == ParseValue(line)
  {
    if Contains(line, "Temp") && ParseValue(line).Some? then Temperature(ParseValue(line).value)
    else if Contains(line, "Pres") && ParseValue(line).Some? then Pressure(ParseValue(line).value)
    else Unlabelled
  }

  predicate AcceptedTemp(r: Reading) {
    r.Temperature? && TempInRange(r.value)
  }

  predicate AcceptedPress(r: Reading) {
    r.Pressure? && PressInRange(r.value)
  }

  /** A labelled value out of its range: reported and otherwise ignored. */
  predicate Rejected(r: Reading) {
    (r.Temperature? && !TempInRange(r.value)) || (r.Pressure? && !PressInRange(r.value))
  }

  /** The effect of one classified line on the frame, and the error it reports. */
  function Step(r: Reading, f: Frame): (out: (Frame, Option<Error>))
    ensures out.0.gotTemp <==> f.gotTemp || AcceptedTemp(r)
    ensures out.0.gotPress <==> f.gotPress || AcceptedPress(r)
    ensures out.0.temp == if AcceptedTemp(r) then r.value else f.temp
    ensures out.0.press == if AcceptedPress(r) then r.value else f.press
    ensures out.1.Some? <==> Rejected(r)
    ensures out.1.Some? ==> out.0 == f
  {
    match r
    case Temperature(value) =>
      if TempInRange(value) then
        (f.(temp := value, gotTemp := true), None)
      else
        (f, Some(InvalidTemperature(value)))
    case Pressure(value) =>
      if PressInRange(value) then
        (f.(press := value, gotPress := true), None)
      else
        (f, Some(InvalidPressure(value)))
    case Unlabelled => (f, None)
  }

  /** `process_line`: the updated frame and the error it reports, if any. */
  function ProcessLine(line: string, f: Frame): (Frame, Option<Error>) {
    Step(Classify(line), f)
  }

  /** The error a line reports as a list of zero or one messages. */
  function LineErrors(r: (Frame, Option<Error>)): seq<Error> {
    if r.1.Some? then [r.1.value] else []
  }

  /** The classified lines of a read. */
  function Readings(lines: seq<string>): (rs: seq<Reading>)
    ensures |rs| == |lines| && forall k | 0 <= k < |lines| :: rs[k] == Classify(lines[k])
  {
    seq(|lines|, k requires 0 <= k < |lines| => Classify(lines[k]))
  }

  /** `Step` applied to classified lines in order, from a fresh frame. */
  function Fold(rs: seq<Reading>): (Frame, seq<Error>) {
    if rs == [] then (EmptyFrame, [])
    else
      var before := Fold(rs[..|rs| - 1]);
      var r := Step(rs[|rs| - 1], before.0);
      (r.0, before.1 + LineErrors(r))
  }

  /** `process_line` applied to each line of one read, in order, from a fresh frame. */
  function ProcessLines(lines: seq<string>): (Frame, seq<Error>) {
    if lines == [] then (EmptyFrame, [])
    else
      var before := ProcessLines(lines[..|lines| - 1]);
      var r := ProcessLine(lines[|lines| - 1], before.0);
      (r.0, before.1 + LineErrors(r))
  }

  /** Processing the lines is folding `Step` over their classifications. */
  lemma {:induction false} ProcessLinesFold(lines: seq<string>)
    ensures ProcessLines(lines) == Fold(Readings(lines))
  {
    if lines != [] {
      var n := |lines| - 1;
      ProcessLinesFold(lines[..n]);
      ReadingsSplit(lines);
    }
  }

  lemma ReadingsSplit(lines: seq<string>)
    requires lines != []
    ensures var n := |lines| - 1;
      Readings(lines)[..n] == Readings(lines[..n]) && Readings(lines)[n] == Classify(lines[n])
  {
    var n := |lines| - 1;
    assert forall k | 0 <= k < n :: Readings(lines)[..n][k] == Classify(lines[..n][k]);
  }

  /** Processing one more line continues from the frame the earlier lines left. */
  lemma ProcessLinesStep(lines: seq<string>, line: string)
    ensures var before := ProcessLines(lines);
      var r := ProcessLine(line, before.0);
      ProcessLines(lines + [line]) == (r.0, before.1 + LineErrors(r))
  {
    assert (lines + [line])[..|lines|] == lines;
  }

  /**
   * After a run of lines, a temperature has been taken exactly when some line was
   * an accepted temperature, and then it is the value of the last such line.
   */
  lemma {:induction false} LastTempWins(rs: seq<Reading>)
    ensures Fold(rs).0.gotTemp <==> exists k | 0 <= k < |rs| :: AcceptedTemp(rs[k])
    ensures Fold(rs).0.gotTemp ==>
      exists k | 0 <= k < |rs| ::
        AcceptedTemp(rs[k]) && Fold(rs).0.temp == rs[k].value &&
        forall j | k < j < |rs| :: !AcceptedTemp(rs[j])
  {
    if rs != [] {
      var n := |rs| - 1;
      var init := rs[..n];
      LastTempWins(init);
      assert forall k | 0 <= k < n :: init[k] == rs[k];
      var before := Fold(init).0;
      assert Fold(rs).0 == Step(rs[n], before).0;
      if !AcceptedTemp(rs[n]) {
        if exists k | 0 <= k < |rs| :: AcceptedTemp(rs[k]) {
          var k :| 0 <= k < |rs| && AcceptedTemp(rs[k]);
          assert k < n && AcceptedTemp(init[k]);
        }
        if before.gotTemp {
          var k :| 0 <= k < n && AcceptedTemp(init[k]) && before.temp == init[k].value &&
            forall j | k < j < n :: !AcceptedTemp(init[j]);
          assert forall j | k < j < |rs| :: !AcceptedTemp(rs[j]);
        }
      }
    }
  }

  /** The same for the pressure. */
  lemma {:induction false} LastPressWins(rs: seq<Reading>)
    ensures Fold(rs).0.gotPress <==> exists k | 0 <= k < |rs| :: AcceptedPress(rs[k])
    ensures Fold(rs).0.gotPress ==>
      exists k | 0 <= k < |rs| ::
        AcceptedPress(rs[k]) && Fold(rs).0.press == rs[k].value &&
        forall j | k < j < |rs| :: !AcceptedPress(rs[j])
  {
    if rs != [] {
      var n := |rs| - 1;
      var init := rs[..n];
      LastPressWins(init);
      assert forall k | 0 <= k < n :: init[k] == rs[k];
      var before := Fold(init).0;
      assert Fold(rs).0 == Step(rs[n], before).0;
      if !AcceptedPress(rs[n]) {
        if exists k | 0 <= k < |rs| :: AcceptedPress(rs[k]) {
          var k :| 0 <= k < |rs| && AcceptedPress(rs[k]);
          assert k < n && AcceptedPress(init[k]);
        }
        if before.gotPress {
          var k :| 0 <= k < n && AcceptedPress(init[k]) && before.press == init[k].value &&
            forall j | k < j < n :: !AcceptedPress(init[j]);
          assert forall j | k < j < |rs| :: !AcceptedPress(rs[j]);
        }
      }
    }
  }

  /** Positions of the rejected lines. */
  function RejectedAt(rs: seq<Reading>): set<nat> {
    set k: nat | k < |rs| && Rejected(rs[k])
  }

  /** One error is reported per rejected line, and none for any other line. */
  lemma {:induction false} ErrorsCountRejections(rs: seq<Reading>)
    ensures |Fold(rs).1| == |RejectedAt(rs)|
  {
    if rs != [] {
      var n := |rs| - 1;
      ErrorsCountRejections(rs[..n]);
      RejectedAtLast(rs);
    }
  }

  /** The positions rejected in a run: those of its first part, and the last one if it is rejected. */
  lemma RejectedAtLast(rs: seq<Reading>)
    requires rs != []
    ensures var n := |rs| - 1;
      |RejectedAt(rs)| == |RejectedAt(rs[..n])| + (if Rejected(rs[n]) then 1 else 0)
  {
    var n := |rs| - 1;
    var init := rs[..n];
    var extra: set<nat> := if Rejected(rs[n]) then {n} else {};
    forall k: nat
      ensures k in RejectedAt(rs) <==> k in RejectedAt(init) + extra
    {
      if k < n {
        assert init[k] == rs[k];
      }
    }
    assert RejectedAt(rs) == RejectedAt(init) + extra;
    assert n !in RejectedAt(init);
  }

  /** Size of `serial_buffer`; a read asks for at most `BufferSize - pending - 1` bytes. */
  const BufferSize: nat := 256

  /** The result of one read: its complete lines, what stays pending, and what they gave. */
  datatype Reassembly = Reassembly(lines: seq<string>, pending: string, frame: Frame, errors: seq<Error>)

  /**
   * The buffer half of `read_serial` for a read that returned bytes: the pending
   * bytes and the new ones are split into complete lines, which are processed in
   * order, and the bytes after the last newline stay pending.
   */
  function Reassemble(pending: string, chunk: string): Reassembly {
    var split := SplitLines(pending + chunk);
    var processed := ProcessLines(split.lines);
    Reassembly(split.lines, split.rest, processed.0, processed.1)
  }

  /**
   * The complete lines and the new pending bytes make up the old pending bytes and
   * the read, no line and not the pending bytes hold a newline, and the frame and
   * errors are those of processing the lines.
   */
  lemma ReassembleMeaning(pending: string, chunk: string)
    ensures var r := Reassemble(pending, chunk);
      JoinLines(r.lines) + r.pending == pending + chunk &&
      AllWithoutNewline(r.lines) && NoNewline(r.pending) &&
      (r.frame, r.errors) == ProcessLines(r.lines)
  {
    SplitLinesMeaning(pending + chunk);
  }

  /** The reading a read adds to the history: one when both fields were seen, else none. */
  function ChunkSample(r: Reassembly, now: int): Option<DataPoint> {
    if r.frame.gotTemp && r.frame.gotPress then Some(DataPoint(r.frame.temp, r.frame.press, now)) else None
  }

  /**
   * A read yields a reading exactly when its complete lines held an accepted
   * temperature and an accepted pressure; the reading is then in range and carries
   * the last accepted value of each.
   */
  lemma SampleNeedsBoth(pending: string, chunk: string, now: int)
    ensures var r := Reassemble(pending, chunk);
      ChunkSample(r, now).Some? <==>
        (exists k | 0 <= k < |r.lines| :: AcceptedTemp(Classify(r.lines[k]))) &&
        (exists k | 0 <= k < |r.lines| :: AcceptedPress(Classify(r.lines[k])))
    ensures var r := Reassemble(pending, chunk);
      ChunkSample(r, now).Some? ==> InRange(ChunkSample(r, now).value) && ChunkSample(r, now).value.timestamp == now
  {
    var r := Reassemble(pending, chunk);
    var rs := Readings(r.lines);
    ProcessLinesFold(r.lines);
    LastTempWins(rs);
    LastPressWins(rs);
  }

  /** The pending bytes never fill the buffer: `serial_buf_pos < BUFFER_SIZE`. */
  lemma PendingFits(pending: string, chunk: string)
    requires |pending| + |chunk| <= BufferSize - 1
    ensures |Reassemble(pending, chunk).pending| < BufferSize
  {
    var r := Reassemble(pending, chunk);
    ReassembleMeaning(pending, chunk);
    assert |JoinLines(r.lines) + r.pending| == |pending + chunk|;
  }

  /** How many bytes `read_serial` asks `read` for when `pending` bytes are buffered. */
  function ReadRoom(pendingLength: nat): int {
    BufferSize - pendingLength - 1
  }

  /**
   * As written, a line that grows to 255 bytes without a newline stays pending in
   * full, and the next read then asks for no bytes at all: `read` returns 0, which
   * `read_serial` takes as "nothing to do", so the buffer never drains.
   */
  lemma OverlongLineStalls(pending: string, chunk: string)
    requires NoNewline(pending) && NoNewline(chunk)
    requires |pending| + |chunk| == BufferSize - 1
    ensures Reassemble(pending, chunk).lines == []
    ensures Reassemble(pending, chunk).pending == pending + chunk
    ensures ReadRoom(|Reassemble(pending, chunk).pending|) == 0
  {
    var r := Reassemble(pending, chunk);
    assert NoNewline(pending + chunk) by {
      assert forall i | 0 <= i < |pending + chunk| ::
        (pending + chunk)[i] == if i < |pending| then pending[i] else chunk[i - |pending|];
    }
    SplitJoin([], pending + chunk);
    assert JoinLines([]) + (pending + chunk) == pending + chunk;
  }

  /**
   * Reassembly that drops the pending bytes once they fill the buffer without a
   * newline, so that the next read always has room for at least one byte.
   */
  function ReassembleBounded(pending: string, chunk: string): (r: Reassembly)
    requires |pending| + |chunk| <= BufferSize - 1
    ensures r.lines == Reassemble(pending, chunk).lines
    ensures r.frame == Reassemble(pending, chunk).frame && r.errors == Reassemble(pending, chunk).errors
    ensures r.pending == Reassemble(pending, chunk).pending || r.pending == ""
    ensures |Reassemble(pending, chunk).pending| < BufferSize - 1 ==> r.pending == Reassemble(pending, chunk).pending
    ensures ReadRoom(|r.pending|) >= 1
  {
    ReassembleMeaning(pending, chunk);
    var r := Reassemble(pending, chunk);
    assert |JoinLines(r.lines) + r.pending| == |pending + chunk|;
    if |r.pending| == BufferSize - 1 then r.(pending := "") else r
  }
}
