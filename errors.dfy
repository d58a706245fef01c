/**
 * The two on-screen error lists kept by `add_error` (bmp280_x11_gui5.cpp:298-308):
 * every message goes to the transient list, persistent ones also to the persistent
 * list, and each list holds at most five entries, dropping its oldest first.
 */
module Errors {
  import opened Numeric

  /** The messages the modelled code reports, one constructor per message text. */
  datatype Error =
    // process_line
    | InvalidTemperature(temperature: Decimal)
    | InvalidPressure(pressure: Decimal)
    // read_serial
    | SelectFailed(reason: string)
    | SerialReadFailed(reason: string)
    // try_reconnect and the SerialPort constructor reached through open_serial
    | NoSerialPortAvailable
    | ReconnectFailed(port: string)
    | OpenPortFailed(port: string)
    | GetAttributesFailed
    | SetAttributesFailed
    // save_data
    | TempFileOpenFailed(path: string)
    | TempFileWriteFailed
    | Saved(path: string)
    | RenameFailed(reason: string)
    // load_data
    | DataFileOpenFailed(path: string)
    | InvalidDataLine(line: string)
    // load_config and create_default_config
    | ConfigOpenFailed(path: string)
    | DefaultConfigCreateFailed(path: string)
    | DefaultConfigWriteFailed(path: string)
    | InvalidBaudRate(baud: int)
    | InvalidSaveInterval(interval: int)
    | InvalidTempMin(text: string)
    | InvalidTempMax(text: string)
    | InvalidPressMin(text: string)
    | InvalidPressMax(text: string)
    | InvalidConfigLine(line: string)

  /** Capacity of each error list. */
  const MaxErrors: nat := 5

  datatype ErrorLog = ErrorLog(messages: seq<Error>, persistent: seq<Error>, lastErrorTime: int)
  {
    predicate Valid() {
      |messages| <= MaxErrors && |persistent| <= MaxErrors
    }
  }

  const EmptyLog := ErrorLog([], [], 0)

  /** The last `n` entries of `s` (all of them when there are fewer). */
  function Newest<T>(s: seq<T>, n: nat): (r: seq<T>)
    ensures |r| == if |s| <= n then |s| else n
  {
    if |s| <= n then s else s[|s| - n..]
  }

  /** One list update of `add_error`: erase the front entry when full, then append. */
  function Append(list: seq<Error>, msg: Error): seq<Error> {
    (if |list| >= MaxErrors then list[1..] else list) + [msg]
  }

  /** Appending to a list of at most five keeps the five newest messages, in order. */
  lemma AppendKeepsNewest(list: seq<Error>, msg: Error)
    requires |list| <= MaxErrors
    ensures Append(list, msg) == Newest(list + [msg], MaxErrors)
  {
    if |list| == MaxErrors {
      assert (list + [msg])[1..] == list[1..] + [msg];
    }
  }

  lemma NewestAppend(s: seq<Error>, x: Error)
    ensures Newest(Newest(s, MaxErrors) + [x], MaxErrors) == Newest(s + [x], MaxErrors)
  {
    if |s| > MaxErrors {
      assert Newest(s, MaxErrors) + [x] == (s + [x])[|s| - MaxErrors..];
    }
  }

  /** `add_error(msg, persistent)` at time `now`. */
  function Add(log: ErrorLog, msg: Error, persistent: bool, now: int): (r: ErrorLog)
    ensures log.Valid() ==> r.Valid()
    ensures log.Valid() ==> r.messages == Newest(log.messages + [msg], MaxErrors)
    ensures log.Valid() ==>
      r.persistent == if persistent then Newest(log.persistent + [msg], MaxErrors) else log.persistent
    ensures r.lastErrorTime == now
  {
    var r := ErrorLog(Append(log.messages, msg),
                      if persistent then Append(log.persistent, msg) else log.persistent,
                      now);
    assert log.Valid() ==>
      (r.messages == Newest(log.messages + [msg], MaxErrors) &&
       Append(log.persistent, msg) == Newest(log.persistent + [msg], MaxErrors)) by {
      if log.Valid() {
        AppendKeepsNewest(log.messages, msg);
        AppendKeepsNewest(log.persistent, msg);
      }
    }
    r
  }

  /**
   * Transient messages reported one after the other at time `now`: the transient
   * list ends up with the five newest of all messages, oldest first.
   */
  function AddAll(log: ErrorLog, msgs: seq<Error>, now: int): (r: ErrorLog)
    ensures r.persistent == log.persistent
    ensures log.Valid() ==> r.Valid() && r.messages == Newest(log.messages + msgs, MaxErrors)
    ensures r.lastErrorTime == if msgs == [] then log.lastErrorTime else now
  {
    if msgs == [] then
      assert log.messages + msgs == log.messages;
      log
    else
      var init, last := msgs[..|msgs| - 1], msgs[|msgs| - 1];
      var before := AddAll(log, init, now);
      NewestAppend(log.messages + init, last);
      assert log.messages + init + [last] == log.messages + msgs;
      Add(before, last, false, now)
  }

  /** Reporting one more transient message after a run of them. */
  lemma AddAllStep(log: ErrorLog, msgs: seq<Error>, msg: Error, now: int)
    ensures AddAll(log, msgs + [msg], now) == Add(AddAll(log, msgs, now), msg, false, now)
  {
    assert (msgs + [msg])[..|msgs|] == msgs;
  }
}
