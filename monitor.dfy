/**
 * The state `BMP280Gui` keeps about the link, the readings, the settings and the
 * error lists, and the members that update it: `add_error`, `open_serial`,
 * `try_reconnect`, `process_line` and `read_serial`, `save_data`, `load_data`,
 * `create_default_config` and `load_config` (bmp280_x11_gui5.cpp:224-262, 1221, 298-440,
 * 577-626, 768-877). Each is proved against the function of its module that
 * describes its effect.
 *
 * The clock, the file system, the serial device and the streams' failures are
 * parameters: the time `now`, a map from path to contents, the event a read meets,
 * and the faults of a save or of writing the default configuration.
 */
module Monitor {
  import opened Wrappers
  import opened Errors
  import opened Lines
  import opened Samples
  import opened History
  import Parser
  import Persistence
  import Settings
  import Link

  /** What `select` and `read` report on the port at one call of `read_serial`. */
  datatype PortEvent =
    | SelectError(reason: string)
    | NothingReady
    | ReadError(reason: string)
    | WouldBlock
    | Arrived(incoming: string)

  /** How writing the default configuration file goes. */
  datatype CreateFault = Created | CreateOpenFails | CreateWriteFails(written: string)

  /** The bytes a `read` asking for `room` bytes returns of those waiting. */
  function Received(incoming: string, room: int): (r: string)
    ensures |r| <= |incoming| && (room >= 0 ==> |r| <= room)
    ensures r == incoming[..|r|]
  {
    if room <= 0 then [] else if |incoming| <= room then incoming else incoming[..room]
  }

  class Bmp280Gui {
    var fd: int
    var paused: bool
    var reconnectAttempts: int
    var lastReconnectAttempt: int
    var baudRate: int
    var errorMessages: seq<Error>
    var persistentErrors: seq<Error>
    var lastErrorTime: int
    const history: CircularBuffer
    const filename: string
    const serialBuffer: array<char>
    var serialBufPos: nat
    var saveInterval: int
    var csvDelimiter: char
    var tempRange: seq<real>
    var pressRange: seq<real>
    var defaultTempRange: seq<real>
    var defaultPressRange: seq<real>
    ghost const Repr: set<object>

    ghost predicate Valid()
      reads this, Repr
    {
      this in Repr && serialBuffer in Repr && history in Repr && history.Repr <= Repr &&
      this !in history.Repr && serialBuffer !in history.Repr &&
      history.Valid() &&
      serialBuffer.Length == Parser.BufferSize && serialBufPos < Parser.BufferSize &&
      NoNewline(serialBuffer[..serialBufPos]) &&
      Log().Valid() &&
      0 <= reconnectAttempts <= Link.MaxReconnectAttempts
    }

    /** The two error lists and the time of the last error. */
    function Log(): ErrorLog
      reads this
    {
      ErrorLog(errorMessages, persistentErrors, lastErrorTime)
    }

    /** The fields `try_reconnect` reads and writes. */
    function LinkOf(): Link.LinkState
      reads this
    {
      Link.LinkState(fd, reconnectAttempts, lastReconnectAttempt, baudRate, Log())
    }

    /** The bytes of an unfinished line kept in `serial_buffer` for the next read. */
    ghost function Pending(): string
      reads this, serialBuffer
      requires serialBufPos <= serialBuffer.Length
    {
      serialBuffer[..serialBufPos]
    }

    /**
     * The member initialisers (bmp280_x11_gui5.cpp:224-262) and `fd(-1)` from the
     * constructor's initialiser list (bmp280_x11_gui5.cpp:1221): no port, no readings,
     * no errors, the default settings.
     */
    constructor (name: string)
      ensures Valid() && fresh(Repr)
      ensures fd == Link.Closed && !paused && reconnectAttempts == 0 && lastReconnectAttempt == 0
      ensures baudRate == 9600 && saveInterval == 30 && csvDelimiter == ','
      ensures errorMessages == [] && persistentErrors == [] && lastErrorTime == 0
      ensures history.Contents() == [] && serialBufPos == 0 && filename == name
      ensures tempRange == [-40.0, 85.0] && pressRange == [300.0, 1100.0]
    {
      serialBuffer := new char[Parser.BufferSize];
      var h := new CircularBuffer();
      history := h;
      filename := name;
      fd := Link.Closed;
      paused := false;
      reconnectAttempts, lastReconnectAttempt := 0, 0;
      baudRate, saveInterval, csvDelimiter := 9600, 30, ',';
      errorMessages, persistentErrors, lastErrorTime := [], [], 0;
      serialBufPos := 0;
      tempRange, pressRange := [-40.0, 85.0], [300.0, 1100.0];
      defaultTempRange, defaultPressRange := [-40.0, 85.0], [300.0, 1100.0];
      Repr := {this, serialBuffer} + h.Repr;
      new;
      assert serialBuffer[..serialBufPos] == [];
      assert fresh(h.Repr) && fresh(serialBuffer);
    }

    /**
     * `add_error`: the message joins the transient list and, when persistent, the
     * persistent one, each keeping its five newest entries.
     */
    method AddError(msg: Error, persistent: bool, now: int)
      modifies this`errorMessages, this`persistentErrors, this`lastErrorTime
      ensures Log() == Add(old(Log()), msg, persistent, now)
    {
      if |errorMessages| >= MaxErrors {
        errorMessages := errorMessages[1..];
      }
      errorMessages := errorMessages + [msg];
      if persistent {
        if |persistentErrors| >= MaxErrors {
          persistentErrors := persistentErrors[1..];
        }
        persistentErrors := persistentErrors + [msg];
      }
      lastErrorTime := now;
    }

    /** `add_error` for a transient message, keeping the invariant. */
    method Report(msg: Error, now: int)
      requires Valid()
      modifies this`errorMessages, this`persistentErrors, this`lastErrorTime
      ensures Valid() && Log() == Add(old(Log()), msg, false, now)
    {
      AddError(msg, false, now);
    }

    /** `history.push`, keeping the invariant. */
    method Retain(p: DataPoint)
      requires Valid()
      modifies history.Repr
      ensures Valid() && history.Contents() == Retained(old(history.Contents()) + [p])
    {
      history.Push(p);
    }

    /** `open_serial`: true with the descriptor on success; the failure as a persistent error otherwise. */
    method OpenSerial(port: string, baud: int, outcome: Link.OpenOutcome, now: int) returns (ok: bool)
      modifies this`fd, this`errorMessages, this`persistentErrors, this`lastErrorTime
      ensures ok == outcome.Opened?
      ensures LinkOf() == Link.OpenStep(old(LinkOf()), port, baud, outcome, now)
    {
      if outcome.Opened? {
        fd := outcome.fd;
        return true;
      }
      AddError(Link.OpenError(outcome, port), true, now);
      fd := Link.Closed;
      return false;
    }

    /** `try_reconnect` at time `now`, with the devices that exist and what opening one does. */
    method TryReconnect(now: int, present: set<string>, open: (string, int) -> Link.OpenOutcome)
      modifies this`fd, this`reconnectAttempts, this`lastReconnectAttempt, this`baudRate
      modifies this`errorMessages, this`persistentErrors, this`lastErrorTime
      ensures LinkOf() == Link.ReconnectStep(old(LinkOf()), now, present, open)
    {
      if fd != Link.Closed || reconnectAttempts >= Link.MaxReconnectAttempts {
        return;
      }
      if now - lastReconnectAttempt < Link.ReconnectTimeout {
        return;
      }
      lastReconnectAttempt := now;
      reconnectAttempts := reconnectAttempts + 1;
      var port := Link.FindSerialPort(present);
      if port.None? {
        AddError(NoSerialPortAvailable, true, now);
        return;
      }
      var bauds := Link.ReconnectBauds;
      ghost var start := LinkOf();
      var k := 0;
      while k < |bauds|
        invariant 0 <= k <= |bauds| && fd == Link.Closed
        invariant Link.TryBauds(start, port.value, bauds, open, now) == Link.TryBauds(LinkOf(), port.value, bauds[k..], open, now)
      {
        assert bauds[k..][1..] == bauds[k + 1..];
        var ok := OpenSerial(port.value, bauds[k], open(port.value, bauds[k]), now);
        if ok {
          baudRate := bauds[k];
          persistentErrors := [];
          errorMessages := [];
          reconnectAttempts := 0;
          return;
        }
        k := k + 1;
      }
      AddError(ReconnectFailed(port.value), true, now);
    }

    /** `process_line`: the frame after the line, and the rejected value reported. */
    method ProcessLine(line: string, frame: Parser.Frame, now: int) returns (frame': Parser.Frame)
      modifies this`errorMessages, this`persistentErrors, this`lastErrorTime
      ensures frame' == Parser.ProcessLine(line, frame).0
      ensures Log() == if Parser.ProcessLine(line, frame).1.Some?
                       then Add(old(Log()), Parser.ProcessLine(line, frame).1.value, false, now)
                       else old(Log())
    {
      var r := Parser.ProcessLine(line, frame);
      frame' := r.0;
      if r.1.Some? {
        AddError(r.1.value, false, now);
      }
    }

    /**
     * The loop of `read_serial` over the buffered text: each complete line is
     * processed in order, and the position after the last newline is returned.
     */
    method ProcessBuffer(buf: string, now: int) returns (frame: Parser.Frame, pos: nat)
      modifies this`errorMessages, this`persistentErrors, this`lastErrorTime
      ensures pos <= |buf| && buf[pos..] == SplitLines(buf).rest
      ensures frame == Parser.ProcessLines(SplitLines(buf).lines).0
      ensures Log() == AddAll(old(Log()), Parser.ProcessLines(SplitLines(buf).lines).1, now)
    {
      ghost var log0 := Log();
      ghost var done: seq<string> := [];
      frame, pos := Parser.EmptyFrame, 0;
      while pos < |buf|
        invariant pos <= |buf|
        invariant done + SplitFrom(buf, pos).lines == SplitFrom(buf, 0).lines
        invariant SplitFrom(buf, pos).rest == SplitFrom(buf, 0).rest
        invariant frame == Parser.ProcessLines(done).0
        invariant Log() == AddAll(log0, Parser.ProcessLines(done).1, now)
      {
        var nl := FindFrom(buf, pos);
        if nl == |buf| {
          break;
        }
        var line := buf[pos..nl];
        SplitFromAdvance(buf, pos, nl, done);
        frame := ConsumeLine(done, line, frame, log0, now);
        done := done + [line];
        pos := nl + 1;
      }
      SplitFromEnd(buf, pos);
      assert done + [] == done;
    }

    /** Processing one more line of the read, and reporting what it rejects. */
    method ConsumeLine(ghost done: seq<string>, line: string, frame: Parser.Frame, ghost log0: ErrorLog, now: int)
      returns (frame': Parser.Frame)
      requires frame == Parser.ProcessLines(done).0 && Log() == AddAll(log0, Parser.ProcessLines(done).1, now)
      modifies this`errorMessages, this`persistentErrors, this`lastErrorTime
      ensures frame' == Parser.ProcessLines(done + [line]).0
      ensures Log() == AddAll(log0, Parser.ProcessLines(done + [line]).1, now)
    {
      Parser.ProcessLinesStep(done, line);
      ghost var errs := Parser.ProcessLines(done).1;
      ghost var r := Parser.ProcessLine(line, frame);
      frame' := ProcessLine(line, frame, now);
      if r.1.Some? {
        AddAllStep(log0, errs, r.1.value, now);
      } else {
        assert errs + Parser.LineErrors(r) == errs;
      }
    }

    /**
     * `read_serial` on an open, unpaused port: the bytes read are appended to the
     * pending ones, every complete line is processed, a reading with both values
     * joins the history, and what follows the last newline stays pending. A failed
     * `select` or `read` closes the port. Once 255 bytes without a newline are
     * pending, every read asks for no bytes, so nothing is read again and the
     * pending bytes and the history stay as they are.
     */
    method ReadSerial(event: PortEvent, now: int)
      requires Valid()
      modifies this`fd, this`serialBufPos, this`errorMessages, this`persistentErrors, this`lastErrorTime
      modifies serialBuffer, history.Repr
      ensures Valid()
      ensures old(fd) == Link.Closed || old(paused) || event.NothingReady? || event.WouldBlock? ==>
        fd == old(fd) && Pending() == old(Pending()) && Log() == old(Log()) && history.Contents() == old(history.Contents())
      ensures old(fd) != Link.Closed && !old(paused) && (event.SelectError? || event.ReadError?) ==>
        fd == Link.Closed && Pending() == old(Pending()) && history.Contents() == old(history.Contents()) &&
        Log() == Add(old(Log()), if event.SelectError? then SelectFailed(event.reason) else SerialReadFailed(event.reason), false, now)
      ensures old(fd) != Link.Closed && !old(paused) && event.Arrived? ==>
        var chunk := Received(event.incoming, Parser.ReadRoom(old(serialBufPos)));
        var r := Parser.Reassemble(old(Pending()), chunk);
        fd == old(fd) &&
        (chunk == [] ==> Pending() == old(Pending()) && Log() == old(Log()) && history.Contents() == old(history.Contents())) &&
        (chunk != [] ==>
          Pending() == r.pending && Log() == AddAll(old(Log()), r.errors, now) &&
          history.Contents() == match Parser.ChunkSample(r, now)
                                case Some(p) => Retained(old(history.Contents()) + [p])
                                case None => old(history.Contents()))
      ensures old(serialBufPos) == Parser.BufferSize - 1 ==>
        Pending() == old(Pending()) && history.Contents() == old(history.Contents()) &&
        (event.Arrived? ==> fd == old(fd) && Log() == old(Log()))
    {
      if fd == Link.Closed || paused {
        return;
      }
      match event {
        case SelectError(reason) =>
          AddError(SelectFailed(reason), false, now);
          fd := Link.Closed;
        case NothingReady =>
        case ReadError(reason) =>
          AddError(SerialReadFailed(reason), false, now);
          fd := Link.Closed;
        case WouldBlock =>
        case Arrived(incoming) =>
          var chunk := Received(incoming, Parser.ReadRoom(serialBufPos));
          if |chunk| > 0 {
            Take(chunk, now);
          }
      }
    }

    /** The part of `read_serial` after a read that returned bytes. */
    method Take(chunk: string, now: int)
      requires Valid() && 0 < |chunk| <= Parser.ReadRoom(serialBufPos)
      modifies this`serialBufPos, this`errorMessages, this`persistentErrors, this`lastErrorTime
      modifies serialBuffer, history.Repr
      ensures Valid()
      ensures var r := Parser.Reassemble(old(Pending()), chunk);
        Pending() == r.pending && Log() == AddAll(old(Log()), r.errors, now) &&
        history.Contents() == match Parser.ChunkSample(r, now)
                              case Some(p) => Retained(old(history.Contents()) + [p])
                              case None => old(history.Contents())
    {
      ghost var pending := Pending();
      var buf := Append(chunk);
      var frame, pos := ProcessBuffer(buf, now);
      TakeOutcome(pending, chunk, buf, pos);
      Record(frame, now);
      Keep(buf, pos);
    }

    /** A frame with both values becomes a reading of the history, stamped `now`. */
    method Record(frame: Parser.Frame, now: int)
      requires Valid()
      modifies history.Repr
      ensures Valid()
      ensures history.Contents() == if frame.gotTemp && frame.gotPress
                                    then Retained(old(history.Contents()) + [DataPoint(frame.temp, frame.press, now)])
                                    else old(history.Contents())
    {
      if frame.gotTemp && frame.gotPress {
        Retain(DataPoint(frame.temp, frame.press, now));
      }
    }

    /** The read bytes are stored after the pending ones and the text is terminated. */
    method Append(chunk: string) returns (buf: string)
      requires Valid() && serialBufPos + |chunk| < Parser.BufferSize
      modifies serialBuffer
      ensures Valid()
      ensures buf == old(serialBuffer[..serialBufPos]) + chunk
    {
      Store(serialBufPos, chunk);
      buf := serialBuffer[..serialBufPos + |chunk|];
      assert buf == serialBuffer[..serialBufPos] + serialBuffer[serialBufPos..serialBufPos + |chunk|];
    }

    /** `read` into `serial_buffer + start`, followed by the terminating NUL. */
    method Store(start: nat, chunk: string)
      requires serialBuffer.Length == Parser.BufferSize && start + |chunk| < Parser.BufferSize
      modifies serialBuffer
      ensures serialBuffer[..start] == old(serialBuffer[..start])
      ensures serialBuffer[start..start + |chunk|] == chunk
    {
      forall k | 0 <= k < |chunk| {
        serialBuffer[start + k] := chunk[k];
      }
      serialBuffer[start + |chunk|] := 0 as char;
    }

    /**
     * What follows the last newline is moved to the front of the buffer and stays
     * pending, however long it is.
     */
    method Keep(buf: string, pos: nat)
      requires Valid() && pos <= |buf| < Parser.BufferSize && NoNewline(buf[pos..])
      modifies serialBuffer, this`serialBufPos
      ensures Valid()
      ensures serialBuffer[..serialBufPos] == buf[pos..]
    {
      var rest := |buf| - pos;
      forall k | 0 <= k < rest {
        serialBuffer[k] := buf[pos + k];
      }
      if rest > 0 {
        serialBuffer[rest] := 0 as char;
      }
      serialBufPos := rest;
    }

    /** `save_data`: the history written as text, oldest first, through the temporary file. */
    method SaveData(files: map<string, string>, fault: Persistence.SaveFault, now: int) returns (files': map<string, string>)
      requires Valid()
      modifies this`errorMessages, this`persistentErrors, this`lastErrorTime
      ensures var saved := Persistence.SaveFiles(files, filename, Persistence.Serialize(history.Contents(), csvDelimiter), fault);
        files' == saved.0 && Log() == Add(old(Log()), saved.1, false, now)
    {
      var text := WriteHistory();
      files' := StoreText(files, text, fault, now);
    }

    /**
     * The file steps of `save_data`: open the temporary file, write the text, and
     * rename it over the data file, each failure reported and ending the save.
     */
    method StoreText(files: map<string, string>, text: string, fault: Persistence.SaveFault, now: int)
      returns (files': map<string, string>)
      modifies this`errorMessages, this`persistentErrors, this`lastErrorTime
      ensures var saved := Persistence.SaveFiles(files, filename, text, fault);
        files' == saved.0 && Log() == Add(old(Log()), saved.1, false, now)
    {
      var tmp, target := Persistence.TempPath(filename), Persistence.DataPath(filename);
      if fault.OpenFails? {
        AddError(TempFileOpenFailed(tmp), false, now);
        return files;
      }
      if fault.WriteFails? {
        AddError(TempFileWriteFailed, false, now);
        return files[tmp := fault.written];
      }
      files' := files[tmp := text];
      if fault.RenameFails? {
        AddError(RenameFailed(fault.reason), false, now);
        return;
      }
      files' := (files' - {tmp})[target := text];
      AddError(Saved(target), false, now);
    }

    /** The writing loop of `save_data`: one line per reading, oldest first. */
    method WriteHistory() returns (text: string)
      requires Valid()
      ensures text == Persistence.Serialize(history.Contents(), csvDelimiter)
    {
      ghost var points := history.Contents();
      text := "";
      var i := 0;
      while i < history.Size()
        invariant i <= |points| && text == Persistence.Serialize(points[..i], csvDelimiter)
      {
        var d := history.At(i).value;
        Persistence.SerializeStep(points, i, csvDelimiter);
        text := text + Persistence.FormatLine(d, csvDelimiter) + "\n";
        i := i + 1;
      }
      assert points[..i] == points;
    }

    /**
     * `load_data(path)`: false without touching anything when the file does not
     * exist; otherwise the history is emptied and refilled with the lines that pass
     * the checks, the others reported; true when some reading was kept.
     */
    method LoadData(path: string, files: map<string, string>, openFails: bool, now: int) returns (loaded: bool)
      requires Valid()
      modifies this`errorMessages, this`persistentErrors, this`lastErrorTime, history.Repr
      ensures Valid()
      ensures path !in files ==> !loaded && Log() == old(Log()) && history.Contents() == old(history.Contents())
      ensures path in files && openFails ==>
        !loaded && history.Contents() == [] && Log() == Add(old(Log()), DataFileOpenFailed(path), false, now)
      ensures path in files && !openFails ==>
        var r := Persistence.LoadLines(GetLines(files[path]), csvDelimiter, now);
        history.Contents() == Retained(r.0) && Log() == AddAll(old(Log()), r.1, now) && (loaded <==> r.0 != [])
    {
      if path !in files {
        return false;
      }
      history.Clear();
      if openFails {
        AddError(DataFileOpenFailed(path), false, now);
        return false;
      }
      var lines := GetLines(files[path]);
      ghost var log0 := Log();
      var k := 0;
      while k < |lines|
        invariant k <= |lines| && Valid()
        invariant history.Contents() == Retained(Persistence.LoadLines(lines[..k], csvDelimiter, now).0)
        invariant Log() == AddAll(log0, Persistence.LoadLines(lines[..k], csvDelimiter, now).1, now)
      {
        LoadLine(lines, k, log0, now);
        k := k + 1;
      }
      assert lines[..k] == lines;
      loaded := history.Size() > 0;
    }

    /** One line of `load_data`: a reading that passes the checks is kept, any other line is reported. */
    method LoadLine(lines: seq<string>, k: nat, ghost log0: ErrorLog, now: int)
      requires Valid() && k < |lines|
      requires history.Contents() == Retained(Persistence.LoadLines(lines[..k], csvDelimiter, now).0)
      requires Log() == AddAll(log0, Persistence.LoadLines(lines[..k], csvDelimiter, now).1, now)
      modifies this`errorMessages, this`persistentErrors, this`lastErrorTime, history.Repr
      ensures Valid()
      ensures history.Contents() == Retained(Persistence.LoadLines(lines[..k + 1], csvDelimiter, now).0)
      ensures Log() == AddAll(log0, Persistence.LoadLines(lines[..k + 1], csvDelimiter, now).1, now)
    {
      ghost var before := Persistence.LoadLines(lines[..k], csvDelimiter, now);
      Persistence.LoadLinesStep(lines, k, csvDelimiter, now);
      match Persistence.ParseDataLine(lines[k], csvDelimiter, now) {
        case Some(p) =>
          RetainedPush(before.0, p);
          Retain(p);
        case None =>
          AddAllStep(log0, before.1, InvalidDataLine(lines[k]), now);
          Report(InvalidDataLine(lines[k]), now);
      }
    }

    /** `create_default_config(path)`: the thirteen default lines, or the failure reported. */
    method CreateDefaultConfig(path: string, files: map<string, string>, fault: CreateFault, now: int)
      returns (files': map<string, string>)
      modifies this`errorMessages, this`persistentErrors, this`lastErrorTime
      ensures fault.Created? ==> files' == files[path := Settings.DefaultConfigText()] && Log() == old(Log())
      ensures fault.CreateOpenFails? ==> files' == files && Log() == Add(old(Log()), DefaultConfigCreateFailed(path), false, now)
      ensures fault.CreateWriteFails? ==>
        files' == files[path := fault.written] && Log() == Add(old(Log()), DefaultConfigWriteFailed(path), false, now)
    {
      match fault {
        case CreateOpenFails =>
          AddError(DefaultConfigCreateFailed(path), false, now);
          return files;
        case CreateWriteFails(written) =>
          AddError(DefaultConfigWriteFailed(path), false, now);
          return files[path := written];
        case Created =>
          return files[path := Settings.DefaultConfigText()];
      }
    }

    /**
     * `load_config(path)`: a missing file is first created with the defaults; a file
     * that still cannot be opened is reported and leaves the settings alone; the
     * lines are otherwise applied in order to the built-in defaults, each problem
     * reported, and the result becomes the settings in use.
     */
    method LoadConfig(path: string, files: map<string, string>, create: CreateFault, openFails: bool, now: int)
      returns (ok: bool, files': map<string, string>)
      requires Valid()
      modifies this`baudRate, this`saveInterval, this`csvDelimiter
      modifies this`tempRange, this`pressRange, this`defaultTempRange, this`defaultPressRange
      modifies this`errorMessages, this`persistentErrors, this`lastErrorTime
      ensures Valid()
      ensures path in files ==> files' == files
      ensures path !in files && create.Created? ==> files' == files[path := Settings.DefaultConfigText()]
      ensures path !in files && create.CreateOpenFails? ==> files' == files
      ensures path !in files && create.CreateWriteFails? ==> files' == files[path := create.written]
      ensures ok <==> path in files' && !openFails
      ensures !ok ==>
        baudRate == old(baudRate) && saveInterval == old(saveInterval) && csvDelimiter == old(csvDelimiter) &&
        tempRange == old(tempRange) && pressRange == old(pressRange) &&
        defaultTempRange == old(defaultTempRange) && defaultPressRange == old(defaultPressRange)
      ensures var created := if path in files || create.Created? then old(Log())
                             else Add(old(Log()), if create.CreateOpenFails? then DefaultConfigCreateFailed(path)
                                                  else DefaultConfigWriteFailed(path), false, now);
        Log() == if ok then AddAll(created, Settings.LoadConfigLines(GetLines(files'[path]), Settings.AsWritten).1, now)
                 else Add(created, ConfigOpenFailed(path), false, now)
      ensures ok ==>
        var r := Settings.LoadConfigLines(GetLines(files'[path]), Settings.AsWritten);
        baudRate == r.0.baudRate && saveInterval == r.0.saveInterval && csvDelimiter == r.0.csvDelimiter &&
        tempRange == defaultTempRange == [r.0.tempMin, r.0.tempMax] &&
        pressRange == defaultPressRange == [r.0.pressMin, r.0.pressMax] &&
        Settings.Sane(r.0)
    {
      files' := files;
      if path !in files {
        files' := CreateDefaultConfig(path, files, create, now);
      }
      if path !in files' || openFails {
        AddError(ConfigOpenFailed(path), false, now);
        return false, files';
      }
      ApplyConfigText(files'[path], now);
      return true, files';
    }

    /** The settings read from the text of the configuration file become the ones in use. */
    method ApplyConfigText(text: string, now: int)
      requires Valid()
      modifies this`baudRate, this`saveInterval, this`csvDelimiter
      modifies this`tempRange, this`pressRange, this`defaultTempRange, this`defaultPressRange
      modifies this`errorMessages, this`persistentErrors, this`lastErrorTime
      ensures Valid()
      ensures var r := Settings.LoadConfigLines(GetLines(text), Settings.AsWritten);
        Log() == AddAll(old(Log()), r.1, now) &&
        baudRate == r.0.baudRate && saveInterval == r.0.saveInterval && csvDelimiter == r.0.csvDelimiter &&
        tempRange == defaultTempRange == [r.0.tempMin, r.0.tempMax] &&
        pressRange == defaultPressRange == [r.0.pressMin, r.0.pressMax] &&
        Settings.Sane(r.0)
    {
      var config := ReadConfig(GetLines(text), now);
      UseConfig(config);
    }

    /** The settings read from the configuration file become the ones in use. */
    method UseConfig(config: Settings.Config)
      requires Valid()
      modifies this`baudRate, this`saveInterval, this`csvDelimiter
      modifies this`tempRange, this`pressRange, this`defaultTempRange, this`defaultPressRange
      ensures Valid()
      ensures baudRate == config.baudRate && saveInterval == config.saveInterval && csvDelimiter == config.csvDelimiter
      ensures tempRange == defaultTempRange == [config.tempMin, config.tempMax]
      ensures pressRange == defaultPressRange == [config.pressMin, config.pressMax]
    {
      baudRate, saveInterval, csvDelimiter := config.baudRate, config.saveInterval, config.csvDelimiter;
      tempRange, pressRange := [config.tempMin, config.tempMax], [config.pressMin, config.pressMax];
      defaultTempRange, defaultPressRange := tempRange, pressRange;
    }

    /** The reading loop of `load_config`: the lines applied in order to the defaults, each problem reported. */
    method ReadConfig(lines: seq<string>, now: int) returns (config: Settings.Config)
      requires Valid()
      modifies this`errorMessages, this`persistentErrors, this`lastErrorTime
      ensures Valid() && Settings.Sane(config)
      ensures config == Settings.LoadConfigLines(lines, Settings.AsWritten).0
      ensures Log() == AddAll(old(Log()), Settings.LoadConfigLines(lines, Settings.AsWritten).1, now)
    {
      config := Settings.DefaultConfig;
      ghost var log0 := Log();
      var k := 0;
      while k < |lines|
        invariant k <= |lines| && Valid()
        invariant config == Settings.LoadConfigLines(lines[..k], Settings.AsWritten).0
        invariant Log() == AddAll(log0, Settings.LoadConfigLines(lines[..k], Settings.AsWritten).1, now)
      {
        config := ConfigLine(lines, k, config, log0, now);
        k := k + 1;
      }
      assert lines[..k] == lines;
      Settings.LoadedConfigSane(lines, Settings.AsWritten);
    }

    /** One line of `load_config` applied, and its problem, if any, reported. */
    method ConfigLine(lines: seq<string>, k: nat, config: Settings.Config, ghost log0: ErrorLog, now: int)
      returns (config': Settings.Config)
      requires Valid() && k < |lines|
      requires config == Settings.LoadConfigLines(lines[..k], Settings.AsWritten).0
      requires Log() == AddAll(log0, Settings.LoadConfigLines(lines[..k], Settings.AsWritten).1, now)
      modifies this`errorMessages, this`persistentErrors, this`lastErrorTime
      ensures Valid()
      ensures config' == Settings.LoadConfigLines(lines[..k + 1], Settings.AsWritten).0
      ensures Log() == AddAll(log0, Settings.LoadConfigLines(lines[..k + 1], Settings.AsWritten).1, now)
    {
      ghost var errs := Settings.LoadConfigLines(lines[..k], Settings.AsWritten).1;
      Settings.LoadConfigStep(lines, k);
      var r := Settings.ApplyConfigLine(config, lines[k]);
      config' := r.0;
      if r.1.Some? {
        AddAllStep(log0, errs, r.1.value, now);
        Report(r.1.value, now);
      } else {
        assert errs + Settings.Reported(r.1) == errs;
      }
    }
  }

  /** What the steps of `read_serial` compute is the reassembly of the pending bytes and the read. */
  lemma TakeOutcome(pending: string, chunk: string, buf: string, pos: nat)
    requires buf == pending + chunk && |buf| < Parser.BufferSize && pos <= |buf|
    requires buf[pos..] == SplitLines(buf).rest
    ensures var r := Parser.Reassemble(pending, chunk);
      r.pending == buf[pos..] &&
      NoNewline(buf[pos..]) &&
      r.frame == Parser.ProcessLines(SplitLines(buf).lines).0 &&
      r.errors == Parser.ProcessLines(SplitLines(buf).lines).1
  {
    Parser.ReassembleMeaning(pending, chunk);
  }
}
