/**
 * The serial link: which device `find_serial_port` picks (bmp280_x11_gui5.cpp:310-319),
 * what `open_serial` makes of an attempt to open it (bmp280_x11_gui5.cpp:321-331,
 * with the failures of the `SerialPort` constructor, 90-119), and the retry policy
 * of `try_reconnect` (bmp280_x11_gui5.cpp:333-357): at most ten failed attempts in a
 * row, at least five seconds apart, each trying 9600 then 115200 baud.
 *
 * Which device files exist and what opening one does are parameters: the set of
 * existing paths and a function from (path, baud rate) to the outcome.
 */
module Link {
  import opened Wrappers
  import opened Numeric
  import opened Errors

  /** `max_reconnect_attempts`. */
  const MaxReconnectAttempts: int := 10

  /** `RECONNECT_TIMEOUT`, in seconds. */
  const ReconnectTimeout: int := 5

  /** The descriptor value that means "no port open". */
  const Closed: int := -1

  /** The two baud rates `try_reconnect` tries, in order. */
  const ReconnectBauds: seq<int> := [9600, 115200]

  /** The prefixes `find_serial_port` tries, in order. */
  const PortPrefixes: seq<string> := ["/dev/ttyACM", "/dev/ttyUSB"]

  /** The `i`-th device name tried: `prefix + std::to_string(n)` for n = 0..9 under each prefix. */
  function PortName(i: nat): string
    requires i < 20
  {
    PortPrefixes[i / 10] + FormatInt(i % 10)
  }

  /** The twenty device names in the order `find_serial_port` tries them. */
  function Candidates(): (r: seq<string>)
    ensures |r| == 20 && forall i | 0 <= i < 20 :: r[i] == PortName(i)
  {
    seq(20, i requires 0 <= i < 20 => PortName(i))
  }

  /** The first name of `names` that exists. */
  function FirstPresent(names: seq<string>, present: set<string>): Option<string> {
    if names == [] then None
    else if names[0] in present then Some(names[0])
    else FirstPresent(names[1..], present)
  }

  /**
   * The device picked is one that exists and every name tried before it does not;
   * no device is picked exactly when none of the twenty names exists.
   */
  lemma {:induction false} FirstPresentMeaning(names: seq<string>, present: set<string>)
    ensures FirstPresent(names, present).None? <==> forall k | 0 <= k < |names| :: names[k] !in present
    ensures FirstPresent(names, present).Some? ==>
      exists k | 0 <= k < |names| :: names[k] == FirstPresent(names, present).value && names[k] in present &&
        forall j | 0 <= j < k :: names[j] !in present
  {
    if names != [] && names[0] !in present {
      var rest := names[1..];
      FirstPresentMeaning(rest, present);
      assert forall k | 0 <= k < |rest| :: rest[k] == names[k + 1];
      if FirstPresent(rest, present).Some? {
        var k :| 0 <= k < |rest| && rest[k] == FirstPresent(rest, present).value && rest[k] in present &&
          forall j | 0 <= j < k :: rest[j] !in present;
        assert names[k + 1] == rest[k];
        assert forall j | 0 <= j < k + 1 :: names[j] !in present by {
          forall j | 0 <= j < k + 1
            ensures names[j] !in present
          {
            if j > 0 {
              assert names[j] == rest[j - 1];
            }
          }
        }
      } else {
        assert forall k | 0 <= k < |names| :: names[k] !in present by {
          forall k | 0 <= k < |names|
            ensures names[k] !in present
          {
            if k > 0 {
              assert names[k] == rest[k - 1];
            }
          }
        }
      }
    }
  }

  /** Skipping absent names does not change which name is found first. */
  lemma FirstPresentSkip(names: seq<string>, present: set<string>, k: nat)
    requires k < |names| && names[k] !in present
    ensures FirstPresent(names[k..], present) == FirstPresent(names[k + 1..], present)
  {
    assert names[k..][1..] == names[k + 1..];
  }

  /** `find_serial_port`: the two prefixes, each with the digits 0 to 9. */
  method FindSerialPort(present: set<string>) returns (port: Option<string>)
    ensures port == FirstPresent(Candidates(), present)
  {
    ghost var names := Candidates();
    var p := 0;
    while p < |PortPrefixes|
      invariant 0 <= p <= 2
      invariant FirstPresent(names, present) == FirstPresent(names[10 * p..], present)
    {
      var i := 0;
      while i < 10
        invariant 0 <= i <= 10
        invariant FirstPresent(names, present) == FirstPresent(names[10 * p + i..], present)
      {
        var name := PortPrefixes[p] + FormatInt(i);
        assert name == names[10 * p + i] by {
          assert (10 * p + i) / 10 == p && (10 * p + i) % 10 == i;
        }
        if name in present {
          return Some(name);
        }
        FirstPresentSkip(names, present, 10 * p + i);
        i := i + 1;
      }
      p := p + 1;
    }
    assert names[20..] == [];
    return None;
  }

  /** What opening a device at a baud rate does: a descriptor, or the step of the constructor that throws. */
  datatype OpenOutcome = Opened(fd: nat) | OpenFails | GetAttributesFails | SetAttributesFails

  /** The message `open_serial` reports for an outcome that is not a descriptor. */
  function OpenError(o: OpenOutcome, port: string): (e: Error)
    requires !o.Opened?
  {
    match o
    case OpenFails => OpenPortFailed(port)
    case GetAttributesFails => GetAttributesFailed
    case SetAttributesFails => SetAttributesFailed
  }

  /** The state `try_reconnect` reads and writes. */
  datatype LinkState = LinkState(fd: int, attempts: int, lastAttempt: int, baud: int, log: ErrorLog)

  /**
   * `open_serial(port, baud)`: the descriptor on success; on failure the exception's
   * message as a persistent error and no descriptor.
   */
  function OpenStep(s: LinkState, port: string, baud: int, o: OpenOutcome, now: int): (r: LinkState)
    ensures o.Opened? ==> r == s.(fd := o.fd)
    ensures !o.Opened? ==> r == s.(fd := Closed, log := Add(s.log, OpenError(o, port), true, now))
  {
    if o.Opened? then s.(fd := o.fd)
    else s.(fd := Closed, log := Add(s.log, OpenError(o, port), true, now))
  }

  /**
   * The loop over the baud rates: the first rate that opens is kept, both lists of
   * errors are cleared and the count of attempts starts again; when none opens, a
   * persistent error names the port.
   */
  function TryBauds(s: LinkState, port: string, bauds: seq<int>, open: (string, int) -> OpenOutcome, now: int): LinkState
    decreases |bauds|
  {
    if bauds == [] then s.(log := Add(s.log, ReconnectFailed(port), true, now))
    else
      var o := open(port, bauds[0]);
      var r := OpenStep(s, port, bauds[0], o, now);
      if o.Opened? then r.(baud := bauds[0], log := r.log.(messages := [], persistent := []), attempts := 0)
      else TryBauds(r, port, bauds[1..], open, now)
  }

  /**
   * `try_reconnect` at time `now`: nothing while a port is open, after ten failed
   * attempts, or within five seconds of the last attempt; otherwise one more attempt
   * on the first device found.
   */
  function ReconnectStep(s: LinkState, now: int, present: set<string>, open: (string, int) -> OpenOutcome): LinkState {
    if s.fd != Closed || s.attempts >= MaxReconnectAttempts then s
    else if now - s.lastAttempt < ReconnectTimeout then s
    else
      var t := s.(lastAttempt := now, attempts := s.attempts + 1);
      match FirstPresent(Candidates(), present)
      case None => t.(log := Add(t.log, NoSerialPortAvailable, true, now))
      case Some(port) => TryBauds(t, port, ReconnectBauds, open, now)
  }

  /** Whether `try_reconnect` does anything at time `now`. */
  predicate Attempts(s: LinkState, now: int) {
    s.fd == Closed && s.attempts < MaxReconnectAttempts && now - s.lastAttempt >= ReconnectTimeout
  }

  /** With a port open, after ten failures, or within five seconds of the last attempt, nothing changes. */
  lemma ReconnectIdle(s: LinkState, now: int, present: set<string>, open: (string, int) -> OpenOutcome)
    requires !Attempts(s, now)
    ensures ReconnectStep(s, now, present, open) == s
  {
  }

  /** The outcome of trying the rates in order: connected at the first rate that opens, else still closed. */
  lemma {:induction false} TryBaudsOutcome(s: LinkState, port: string, bauds: seq<int>, open: (string, int) -> OpenOutcome, now: int)
    requires s.fd == Closed
    ensures var r := TryBauds(s, port, bauds, open, now);
      (r.fd != Closed <==> exists k | 0 <= k < |bauds| :: open(port, bauds[k]).Opened?) &&
      (r.fd != Closed ==>
        (r.attempts == 0 && r.log.messages == [] && r.log.persistent == [] &&
         exists k | 0 <= k < |bauds| :: r.baud == bauds[k] && open(port, bauds[k]).Opened? && open(port, bauds[k]).fd == r.fd &&
           forall j | 0 <= j < k :: !open(port, bauds[j]).Opened?)) &&
      (r.fd == Closed ==>
        (r.attempts == s.attempts && r.baud == s.baud && r.lastAttempt == s.lastAttempt &&
         r.log.persistent != [] && r.log.persistent[|r.log.persistent| - 1] == ReconnectFailed(port)))
    decreases |bauds|
  {
    if bauds != [] {
      var o := open(port, bauds[0]);
      if !o.Opened? {
        var r := OpenStep(s, port, bauds[0], o, now);
        var rest := bauds[1..];
        TryBaudsOutcome(r, port, rest, open, now);
        assert forall k | 0 <= k < |rest| :: rest[k] == bauds[k + 1];
        var final := TryBauds(r, port, rest, open, now);
        if final.fd != Closed {
          var k :| 0 <= k < |rest| && final.baud == rest[k] && open(port, rest[k]).Opened? && open(port, rest[k]).fd == final.fd &&
            forall j | 0 <= j < k :: !open(port, rest[j]).Opened?;
          assert bauds[k + 1] == rest[k];
          assert forall j | 0 <= j < k + 1 :: !open(port, bauds[j]).Opened? by {
            forall j | 0 <= j < k + 1
              ensures !open(port, bauds[j]).Opened?
            {
              if j > 0 {
                assert bauds[j] == rest[j - 1];
              }
            }
          }
        } else {
          assert forall k | 0 <= k < |bauds| :: !open(port, bauds[k]).Opened? by {
            forall k | 0 <= k < |bauds|
              ensures !open(port, bauds[k]).Opened?
            {
              if k > 0 {
                assert bauds[k] == rest[k - 1];
              }
            }
          }
        }
      }
    }
  }

  /**
   * An attempt records its time. It connects exactly when a device exists and opens
   * at 9600 or at 115200 baud, preferring 9600; a connection clears both error lists
   * and the count of attempts. A failed attempt counts one more and leaves a
   * persistent error saying why.
   */
  lemma ReconnectAttempt(s: LinkState, now: int, present: set<string>, open: (string, int) -> OpenOutcome)
    requires Attempts(s, now)
    ensures var r := ReconnectStep(s, now, present, open);
      var port := FirstPresent(Candidates(), present);
      r.lastAttempt == now &&
      (r.fd != Closed <==> port.Some? && (open(port.value, 9600).Opened? || open(port.value, 115200).Opened?)) &&
      (r.fd != Closed ==>
        (r.attempts == 0 && r.log.messages == [] && r.log.persistent == [] &&
         (open(port.value, 9600).Opened? ==> r.baud == 9600 && r.fd == open(port.value, 9600).fd) &&
         (!open(port.value, 9600).Opened? ==> r.baud == 115200 && r.fd == open(port.value, 115200).fd))) &&
      (r.fd == Closed ==>
        (r.attempts == s.attempts + 1 && r.baud == s.baud && r.log.persistent != [] &&
         r.log.persistent[|r.log.persistent| - 1] == if port.None? then NoSerialPortAvailable else ReconnectFailed(port.value)))
  {
    var t := s.(lastAttempt := now, attempts := s.attempts + 1);
    var port := FirstPresent(Candidates(), present);
    if port.Some? {
      TryBaudsOutcome(t, port.value, ReconnectBauds, open, now);
      assert ReconnectBauds[0] == 9600 && ReconnectBauds[1] == 115200;
    }
  }

  /** The count of failed attempts stays between 0 and 10. */
  lemma ReconnectBounded(s: LinkState, now: int, present: set<string>, open: (string, int) -> OpenOutcome)
    requires 0 <= s.attempts <= MaxReconnectAttempts
    ensures 0 <= ReconnectStep(s, now, present, open).attempts <= MaxReconnectAttempts
  {
    if Attempts(s, now) {
      ReconnectAttempt(s, now, present, open);
    }
  }

  /** After ten failed attempts without a port, the link never tries again, whatever the time. */
  lemma {:induction false} ExhaustedForever(s: LinkState, times: seq<int>, present: set<string>, open: (string, int) -> OpenOutcome)
    requires s.fd == Closed && s.attempts >= MaxReconnectAttempts
    ensures ReconnectAll(s, times, present, open) == s
  {
    if times != [] {
      ExhaustedForever(s, times[..|times| - 1], present, open);
    }
  }

  /** `try_reconnect` called at each of the given times in turn. */
  function ReconnectAll(s: LinkState, times: seq<int>, present: set<string>, open: (string, int) -> OpenOutcome): LinkState {
    if times == [] then s
    else ReconnectStep(ReconnectAll(s, times[..|times| - 1], present, open), times[|times| - 1], present, open)
  }
}
