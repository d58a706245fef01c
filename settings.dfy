/**
 * The configuration file read by `load_config` (bmp280_x11_gui5.cpp:795-877) and the
 * default one written by `create_default_config` (bmp280_x11_gui5.cpp:770-793):
 * `key=value` lines, read in order into a `Config` that starts from the built-in
 * defaults, each recognised key with its own check and fallback.
 */
module Settings {
  import opened Wrappers
  import opened Numeric
  import opened Lines
  import opened Errors

  /** The four graph colours (`std::array<std::string, 4>`). */
  type Colors = s: seq<string> | |s| == 4 witness ["", "", "", ""]

  /** `struct Config`; the baud rate is kept as the number of bits per second. */
  datatype Config = Config(
    baudRate: int, saveInterval: int, csvDelimiter: char,
    tempMin: real, tempMax: real, pressMin: real, pressMax: real,
    menuBgColor: string, helpBgColor: string, graphColors: Colors)

  const DefaultConfig := Config(9600, 30, ',', -40.0, 85.0, 300.0, 1100.0,
                                "#808080", "#D3D3D3", ["blue", "red", "green", "yellow"])

  /** The range of a C++ `int`, outside which `std::stoi` throws `out_of_range`. */
  const IntMin: int := -0x8000_0000
  const IntMax: int := 0x7fff_ffff

  /** `std::stoi`: white space skipped, then a leading integer; None when it throws. */
  function Stoi(text: string): (r: Option<int>)
    ensures r.Some? ==> IntMin <= r.value <= IntMax
  {
    match ScanInt(SkipSpaces(text))
    case None => None
    case Some(v) => if IntMin <= v.0 <= IntMax then Some(v.0) else None
  }

  /**
   * `std::stof`: white space skipped, then a leading number; None when it throws,
   * either for want of a number or with `out_of_range` for a value no float holds.
   */
  function Stof(text: string): (r: Option<real>)
    ensures r.Some? ==> FloatRange(r.value)
  {
    match ScanDecimal(SkipSpaces(text))
    case None => None
    case Some(v) => if FloatRange(v.0.Value()) then Some(v.0.Value()) else None
  }

  predicate StartsWith(line: string, key: string) {
    key <= line
  }

  /**
   * The keys `load_config` tests with `line.find(key) == 0`, in the order it tests
   * them: nine settings, then the four graph colours.
   */
  const Keys: seq<string> := [
    "baud_rate=", "save_interval=", "temp_min=", "temp_max=", "press_min=", "press_max=",
    "csv_delimiter=", "menu_bg_color=", "help_bg_color=",
    "graph_color_temp_low=", "graph_color_temp_high=", "graph_color_press_low=", "graph_color_press_high="]

  /** The position of the first graph colour key in `Keys`. */
  const FirstColorKey: nat := 9

  /**
   * Whether the branch of key `k` takes the line: the line starts with the key, and
   * for `csv_delimiter=` (the only test with a second condition) something follows it.
   */
  predicate Takes(line: string, k: nat)
    requires k < |Keys|
  {
    StartsWith(line, Keys[k]) && (k != 6 || |line| > 14)
  }

  /** The first key from `k` on whose branch takes the line, or `|Keys|` when none does. */
  function KeyFrom(line: string, k: nat): (r: nat)
    requires k <= |Keys|
    ensures k <= r <= |Keys|
    ensures r < |Keys| ==> Takes(line, r)
    ensures forall j | k <= j < r :: !Takes(line, j)
    decreases |Keys| - k
  {
    if k == |Keys| then k
    else if Takes(line, k) then k
    else KeyFrom(line, k + 1)
  }

  /**
   * The two versions of the line handler: the code as written, and the code with
   * the colour values read after their '=' and the rejected save interval reported.
   */
  datatype Variant = AsWritten | Corrected

  /** What a configuration line sets, with the text its value is read from. */
  datatype Setting =
    | Skipped
    | Baud(text: string)
    | Interval(text: string)
    | TempMin(text: string)
    | TempMax(text: string)
    | PressMin(text: string)
    | PressMax(text: string)
    | Delimiter(delimiter: char)
    | MenuBg(text: string)
    | HelpBg(text: string)
    | Color(slot: nat, text: string)

  /**
   * The chain of prefix tests of `load_config`: comments and empty lines are
   * skipped, then the first key whose branch takes the line decides, and a line no
   * branch takes changes nothing.
   */
  function Classify(line: string, v: Variant): (r: Setting)
    ensures r.Color? ==> r.slot < 4
  {
    if line == "" || line[0] == '#' then Skipped
    else
      var k := KeyFrom(line, 0);
      if k == 0 then Baud(line[10..])
      else if k == 1 then Interval(line[14..])
      else if k == 2 then TempMin(line[9..])
      else if k == 3 then TempMax(line[9..])
      else if k == 4 then PressMin(line[10..])
      else if k == 5 then PressMax(line[10..])
      else if k == 6 then Delimiter(line[14])
      else if k == 7 then MenuBg(line[14..])
      else if k == 8 then HelpBg(line[14..])
      else if k == 9 then Color(0, line[if v.AsWritten? then 20 else 21..])
      else if k == 10 then Color(1, line[if v.AsWritten? then 21 else 22..])
      else if k == 11 then Color(2, line[if v.AsWritten? then 21 else 22..])
      else if k == 12 then Color(3, line[if v.AsWritten? then 22 else 23..])
      else Skipped
  }

  /** The `baud_rate` branch: only 9600 and 115200 are accepted, anything else gives 9600. */
  function SetBaud(c: Config, parsed: Option<int>, line: string): (r: (Config, Option<Error>))
    ensures parsed.None? ==> r == (c, Some(InvalidConfigLine(line)))
    ensures parsed.Some? ==> (r.0 == c.(baudRate := r.0.baudRate) && (r.0.baudRate == 9600 || r.0.baudRate == 115200) && (r.1.None? <==> r.0.baudRate == parsed.value))
    ensures parsed.Some? && parsed.value != 9600 && parsed.value != 115200 ==>
      r == (c.(baudRate := 9600), Some(InvalidBaudRate(parsed.value)))
  {
    match parsed
    case None => (c, Some(InvalidConfigLine(line)))
    case Some(baud) =>
      if baud == 9600 then (c.(baudRate := 9600), None)
      else if baud == 115200 then (c.(baudRate := 115200), None)
      else (c.(baudRate := 9600), Some(InvalidBaudRate(baud)))
  }

  /** The `save_interval` branch: accepted within [1, 3600], otherwise 30. */
  function SetInterval(c: Config, parsed: Option<int>, line: string, v: Variant): (r: (Config, Option<Error>))
    ensures parsed.None? ==> r == (c, Some(InvalidConfigLine(line)))
    ensures parsed.Some? ==> (r.0 == c.(saveInterval := r.0.saveInterval) && 1 <= r.0.saveInterval <= 3600 && (r.1.None? <==> r.0.saveInterval == parsed.value))
    ensures parsed.Some? && (parsed.value < 1 || parsed.value > 3600) ==>
      r == (c.(saveInterval := 30), Some(InvalidSaveInterval(if v.AsWritten? then 30 else parsed.value)))
  {
    match parsed
    case None => (c, Some(InvalidConfigLine(line)))
    case Some(n) =>
      if n < 1 || n > 3600 then (c.(saveInterval := 30), Some(InvalidSaveInterval(if v.AsWritten? then 30 else n)))
      else (c.(saveInterval := n), None)
  }

  /** The `temp_min` and `temp_max` branches: the minimum within the sensor range, the maximum above the minimum. */
  function SetTemp(c: Config, isMin: bool, parsed: Option<real>, text: string, line: string): (r: (Config, Option<Error>))
    ensures parsed.None? ==> r == (c, Some(InvalidConfigLine(line)))
    ensures parsed.Some? && isMin ==> (r.0 == c.(tempMin := r.0.tempMin) && -40.0 <= r.0.tempMin <= 85.0 && (r.1.None? <==> r.0.tempMin == parsed.value))
    ensures parsed.Some? && !isMin ==> (r.0 == c.(tempMax := r.0.tempMax) && r.0.tempMax <= 85.0 && (r.0.tempMax > c.tempMin || r.0.tempMax == 85.0) && (r.1.None? <==> r.0.tempMax == parsed.value && parsed.value > c.tempMin))
    ensures parsed.Some? && isMin && (parsed.value < -40.0 || parsed.value > 85.0) ==>
      r == (c.(tempMin := -40.0), Some(InvalidTempMin(text)))
    ensures parsed.Some? && !isMin && (parsed.value <= c.tempMin || parsed.value > 85.0) ==>
      r == (c.(tempMax := 85.0), Some(InvalidTempMax(text)))
  {
    match parsed
    case None => (c, Some(InvalidConfigLine(line)))
    case Some(t) =>
      if isMin then
        if t < -40.0 || t > 85.0 then (c.(tempMin := -40.0), Some(InvalidTempMin(text)))
        else (c.(tempMin := t), None)
      else
        if t <= c.tempMin || t > 85.0 then (c.(tempMax := 85.0), Some(InvalidTempMax(text)))
        else (c.(tempMax := t), None)
  }

  /** The `press_min` and `press_max` branches: the minimum within the sensor range, the maximum above the minimum. */
  function SetPress(c: Config, isMin: bool, parsed: Option<real>, text: string, line: string): (r: (Config, Option<Error>))
    ensures parsed.None? ==> r == (c, Some(InvalidConfigLine(line)))
    ensures parsed.Some? && isMin ==> (r.0 == c.(pressMin := r.0.pressMin) && 300.0 <= r.0.pressMin <= 1100.0 && (r.1.None? <==> r.0.pressMin == parsed.value))
    ensures parsed.Some? && !isMin ==> (r.0 == c.(pressMax := r.0.pressMax) && r.0.pressMax <= 1100.0 && (r.0.pressMax > c.pressMin || r.0.pressMax == 1100.0) && (r.1.None? <==> r.0.pressMax == parsed.value && parsed.value > c.pressMin))
    ensures parsed.Some? && isMin && (parsed.value < 300.0 || parsed.value > 1100.0) ==>
      r == (c.(pressMin := 300.0), Some(InvalidPressMin(text)))
    ensures parsed.Some? && !isMin && (parsed.value <= c.pressMin || parsed.value > 1100.0) ==>
      r == (c.(pressMax := 1100.0), Some(InvalidPressMax(text)))
  {
    match parsed
    case None => (c, Some(InvalidConfigLine(line)))
    case Some(p) =>
      if isMin then
        if p < 300.0 || p > 1100.0 then (c.(pressMin := 300.0), Some(InvalidPressMin(text)))
        else (c.(pressMin := p), None)
      else
        if p <= c.pressMin || p > 1100.0 then (c.(pressMax := 1100.0), Some(InvalidPressMax(text)))
        else (c.(pressMax := p), None)
  }

  /**
   * The body of each branch: the value is converted (a failed conversion is caught
   * as an invalid line and changes nothing), checked, and replaced by its default
   * when out of range.
   */
  function Update(c: Config, s: Setting, line: string, v: Variant): (Config, Option<Error>)
    requires s.Color? ==> s.slot < 4
  {
    match s
    case Skipped => (c, None)
    case Baud(text) => SetBaud(c, Stoi(text), line)
    case Interval(text) => SetInterval(c, Stoi(text), line, v)
    case TempMin(text) => SetTemp(c, true, Stof(text), text, line)
    case TempMax(text) => SetTemp(c, false, Stof(text), text, line)
    case PressMin(text) => SetPress(c, true, Stof(text), text, line)
    case PressMax(text) => SetPress(c, false, Stof(text), text, line)
    case Delimiter(d) => (c.(csvDelimiter := d), None)
    case MenuBg(text) => (c.(menuBgColor := text), None)
    case HelpBg(text) => (c.(helpBgColor := text), None)
    case Color(i, text) => (c.(graphColors := c.graphColors[i := text]), None)
  }

  /** One line of `load_config`: the updated configuration and the error it reports. */
  function Apply(c: Config, line: string, v: Variant): (Config, Option<Error>) {
    Update(c, Classify(line, v), line, v)
  }

  /** The line handler as written, the one `Monitor.Bmp280Gui` loads its settings with. */
  function ApplyConfigLine(c: Config, line: string): (Config, Option<Error>) {
    Apply(c, line, AsWritten)
  }

  /** The loop of `load_config` over the lines of the file, from the built-in defaults. */
  function LoadConfigLines(lines: seq<string>, v: Variant): (Config, seq<Error>) {
    if lines == [] then (DefaultConfig, [])
    else
      var before := LoadConfigLines(lines[..|lines| - 1], v);
      var r := Apply(before.0, lines[|lines| - 1], v);
      (r.0, before.1 + Reported(r.1))
  }

  /** The message a line adds to the error list, if any. */
  function Reported(e: Option<Error>): (r: seq<Error>)
    ensures e.None? ==> r == []
    ensures e.Some? ==> r == [e.value]
  {
    if e.Some? then [e.value] else []
  }

  lemma LoadStep(lines: seq<string>, line: string, v: Variant)
    ensures var before := LoadConfigLines(lines, v);
      var r := Apply(before.0, line, v);
      LoadConfigLines(lines + [line], v) == (r.0, before.1 + Reported(r.1))
  {
    assert (lines + [line])[..|lines|] == lines;
  }

  /** Reading one more line of the file, with the line handler as written. */
  lemma LoadConfigStep(lines: seq<string>, k: nat)
    requires k < |lines|
    ensures var before := LoadConfigLines(lines[..k], AsWritten);
      var r := ApplyConfigLine(before.0, lines[k]);
      LoadConfigLines(lines[..k + 1], AsWritten) == (r.0, before.1 + Reported(r.1))
  {
    assert lines[..k + 1] == lines[..k] + [lines[k]];
    LoadStep(lines[..k], lines[k], AsWritten);
  }

  /** The ranges `load_config` guarantees for the settings it hands on. */
  predicate Sane(c: Config) {
    (c.baudRate == 9600 || c.baudRate == 115200) &&
    1 <= c.saveInterval <= 3600 &&
    -40.0 <= c.tempMin <= 85.0 && -40.0 < c.tempMax <= 85.0 &&
    300.0 <= c.pressMin <= 1100.0 && 300.0 < c.pressMax <= 1100.0
  }

  /** Every line keeps the settings within their ranges, whatever it says. */
  lemma UpdateKeepsSane(c: Config, s: Setting, line: string, v: Variant)
    requires Sane(c)
    requires s.Color? ==> s.slot < 4
    ensures Sane(Update(c, s, line, v).0)
  {
  }

  lemma ApplyKeepsSane(c: Config, line: string, v: Variant)
    requires Sane(c)
    ensures Sane(Apply(c, line, v).0)
  {
    UpdateKeepsSane(c, Classify(line, v), line, v);
  }

  /**
   * Whatever the file holds, the loaded baud rate is 9600 or 115200, the save
   * interval is within [1, 3600], and each range bound is within its sensor range.
   */
  lemma {:induction false} LoadedConfigSane(lines: seq<string>, v: Variant)
    ensures Sane(LoadConfigLines(lines, v).0)
  {
    if lines != [] {
      LoadedConfigSane(lines[..|lines| - 1], v);
      ApplyKeepsSane(LoadConfigLines(lines[..|lines| - 1], v).0, lines[|lines| - 1], v);
    }
  }

  /**
   * `std::stof` reads back a number written in decimal notation, unless no float
   * holds it, when it throws.
   */
  lemma StofFormat(d: Decimal)
    ensures Stof(FormatDecimal(d)) == if FloatRange(d.Value()) then Some(d.Value()) else None
  {
    var text := FormatDecimal(d);
    assert SkipSpaces(text) == text by {
      assert !IsSpace(text[0]);
    }
    ScanFormatDecimal(d, []);
    assert text + [] == text;
  }

  /** `std::stoi` reads back an `int` written in decimal notation. */
  lemma StoiFormat(n: int)
    requires IntMin <= n <= IntMax
    ensures Stoi(FormatInt(n)) == Some(n)
  {
    var text := FormatInt(n);
    assert SkipSpaces(text) == text by {
      assert !IsSpace(text[0]);
    }
    ScanFormatInt(n, []);
    assert text + [] == text;
  }

  /**
   * A maximum is only checked against the minimum read before it: a `temp_min`
   * line after the `temp_max` line can leave the range inverted, with no error.
   */
  lemma RangeCanInvert(c: Config, hi: Decimal, lo: Decimal, v: Variant)
    requires c.tempMin < hi.Value() < lo.Value() <= 85.0 && -40.0 <= lo.Value()
    requires FloatRange(hi.Value()) && FloatRange(lo.Value())
    ensures var first := Apply(c, "temp_max=" + FormatDecimal(hi), v);
      var second := Apply(first.0, "temp_min=" + FormatDecimal(lo), v);
      first.1.None? && second.1.None? && second.0.tempMin == lo.Value() && second.0.tempMax == hi.Value() &&
      second.0.tempMin > second.0.tempMax
  {
    ClassifyTempMax(FormatDecimal(hi), v);
    ClassifyTempMin(FormatDecimal(lo), v);
    StofFormat(hi);
    StofFormat(lo);
  }

  /** A line that differs from key `k` at position `at` is not taken by its branch: the search moves on. */
  lemma Differs(line: string, k: nat, at: nat)
    requires k < |Keys| && at < |Keys[k]| && at < |line| && line[at] != Keys[k][at]
    ensures KeyFrom(line, k) == KeyFrom(line, k + 1)
  {
  }

  /** A key followed by its value starts with the key, and the value is what follows it. */
  lemma KeyPrefix(k: nat, text: string)
    requires k < |Keys|
    ensures StartsWith(Keys[k] + text, Keys[k]) && (Keys[k] + text)[|Keys[k]|..] == text
  {
    assert (Keys[k] + text)[..|Keys[k]|] == Keys[k];
  }

  lemma ClassifyBaud(text: string, v: Variant)
    ensures Classify("baud_rate=" + text, v) == Baud(text)
  {
    assert Keys[0] == "baud_rate=";
    KeyPrefix(0, text);
  }

  lemma ClassifyInterval(text: string, v: Variant)
    ensures Classify("save_interval=" + text, v) == Interval(text)
  {
    var line := "save_interval=" + text;
    assert Keys[1] == "save_interval=";
    KeyPrefix(1, text);
    Differs(line, 0, 0);
  }

  lemma ClassifyTempMin(text: string, v: Variant)
    ensures Classify("temp_min=" + text, v) == TempMin(text)
  {
    var line := "temp_min=" + text;
    assert Keys[2] == "temp_min=";
    KeyPrefix(2, text);
    Differs(line, 0, 0);
    Differs(line, 1, 0);
  }

  lemma ClassifyTempMax(text: string, v: Variant)
    ensures Classify("temp_max=" + text, v) == TempMax(text)
  {
    var line := "temp_max=" + text;
    assert Keys[3] == "temp_max=";
    KeyPrefix(3, text);
    Differs(line, 0, 0);
    Differs(line, 1, 0);
    Differs(line, 2, 6);
  }

  lemma ClassifyPressMin(text: string, v: Variant)
    ensures Classify("press_min=" + text, v) == PressMin(text)
  {
    var line := "press_min=" + text;
    assert Keys[4] == "press_min=";
    KeyPrefix(4, text);
    Differs(line, 0, 0);
    Differs(line, 1, 0);
    Differs(line, 2, 0);
    Differs(line, 3, 0);
  }

  lemma ClassifyPressMax(text: string, v: Variant)
    ensures Classify("press_max=" + text, v) == PressMax(text)
  {
    var line := "press_max=" + text;
    assert Keys[5] == "press_max=";
    KeyPrefix(5, text);
    Differs(line, 0, 0);
    Differs(line, 1, 0);
    Differs(line, 2, 0);
    Differs(line, 3, 0);
    Differs(line, 4, 7);
  }

  lemma ClassifyDelimiter(d: char, rest: string, v: Variant)
    ensures Classify("csv_delimiter=" + [d] + rest, v) == Delimiter(d)
  {
    var line := "csv_delimiter=" + [d] + rest;
    assert Keys[6] == "csv_delimiter=";
    assert line == Keys[6] + ([d] + rest);
    KeyPrefix(6, [d] + rest);
    SkipsFirstSix(line);
  }

  lemma ClassifyMenuBg(text: string, v: Variant)
    ensures Classify("menu_bg_color=" + text, v) == MenuBg(text)
  {
    var line := "menu_bg_color=" + text;
    assert Keys[7] == "menu_bg_color=";
    KeyPrefix(7, text);
    SkipsFirstSix(line);
    Differs(line, 6, 0);
  }

  lemma ClassifyHelpBg(text: string, v: Variant)
    ensures Classify("help_bg_color=" + text, v) == HelpBg(text)
  {
    var line := "help_bg_color=" + text;
    assert Keys[8] == "help_bg_color=";
    KeyPrefix(8, text);
    SkipsFirstSix(line);
    Differs(line, 6, 0);
    Differs(line, 7, 0);
  }

  /** The nine setting keys start with 'b', 's', 't', 'p', 'c', 'm' or 'h': none takes a colour line. */
  lemma SkipsSettingKeys(line: string)
    requires line != [] && line[0] == 'g'
    ensures KeyFrom(line, 0) == KeyFrom(line, FirstColorKey)
  {
    SkipsFirstSix(line);
    Differs(line, 6, 0);
    Differs(line, 7, 0);
    Differs(line, 8, 0);
  }

  /** The first six keys start with 'b', 's', 't' or 'p'. */
  lemma SkipsFirstSix(line: string)
    requires line != [] && line[0] !in "bstp"
    ensures KeyFrom(line, 0) == KeyFrom(line, 6)
  {
    Differs(line, 0, 0);
    Differs(line, 1, 0);
    Differs(line, 2, 0);
    Differs(line, 3, 0);
    Differs(line, 4, 0);
    Differs(line, 5, 0);
  }

  /** The `graph_color_*` line for colour `i` with value `value`. */
  function ColorLine(i: nat, value: string): string
    requires i < 4
  {
    Keys[FirstColorKey + i] + value
  }

  /** A colour line is taken by the branch of its own key. */
  lemma ColorLineKey(i: nat, value: string)
    requires i < 4
    ensures KeyFrom(ColorLine(i, value), 0) == FirstColorKey + i
  {
    var line := ColorLine(i, value);
    KeyPrefix(FirstColorKey + i, value);
    assert line[0] == 'g';
    SkipsSettingKeys(line);
    match i
    case 0 =>
    case 1 => Differs(line, 9, 17);
    case 2 => Differs(line, 9, 12); Differs(line, 10, 12);
    case 3 => Differs(line, 9, 12); Differs(line, 10, 12); Differs(line, 11, 18);
  }

  /** The text a colour line's value is stored as: with the '=' as written, without it corrected. */
  function ColorText(value: string, v: Variant): string {
    if v.AsWritten? then "=" + value else value
  }

  /**
   * A colour line sets colour `i`: as written, with the value read from one
   * character before the end of the key, so from its '='.
   */
  lemma ClassifyColor(i: nat, value: string, v: Variant)
    requires i < 4
    ensures Classify(ColorLine(i, value), v) == Color(i, ColorText(value, v))
  {
    ColorLineKey(i, value);
    match i
    case 0 =>
      assert Keys[9] == "graph_color_temp_low" + "=";
      AfterStem("graph_color_temp_low", value);
    case 1 =>
      assert Keys[10] == "graph_color_temp_high" + "=";
      AfterStem("graph_color_temp_high", value);
    case 2 =>
      assert Keys[11] == "graph_color_press_low" + "=";
      AfterStem("graph_color_press_low", value);
    case 3 =>
      assert Keys[12] == "graph_color_press_high" + "=";
      AfterStem("graph_color_press_high", value);
  }

  /** In `stem=value`, the text from the '=' on and the text after it. */
  lemma AfterStem(stem: string, value: string)
    ensures (stem + "=" + value)[|stem|..] == "=" + value
    ensures (stem + "=" + value)[|stem| + 1..] == value
  {
  }

  /** A colour line sets that one colour and reports nothing. */
  lemma ApplyColor(c: Config, i: nat, value: string, v: Variant)
    requires i < 4
    ensures Apply(c, ColorLine(i, value), v) == (c.(graphColors := c.graphColors[i := ColorText(value, v)]), None)
  {
    ClassifyColor(i, value, v);
    UpdateColor(c, i, ColorText(value, v), ColorLine(i, value), v);
  }

  lemma UpdateColor(c: Config, i: nat, text: string, line: string, v: Variant)
    requires i < 4
    ensures Update(c, Color(i, text), line, v) == (c.(graphColors := c.graphColors[i := text]), None)
  {
  }

  /**
   * As written, a colour line keeps the '=' of its key at the front of the value:
   * `graph_color_temp_low=blue` sets the colour to "=blue".
   */
  lemma ColorKeepsEquals(c: Config, i: nat, value: string)
    requires i < 4
    ensures Apply(c, ColorLine(i, value), AsWritten) == (c.(graphColors := c.graphColors[i := "=" + value]), None)
  {
    ApplyColor(c, i, value, AsWritten);
  }

  /** Corrected, a colour line sets that colour to exactly the text after the '='. */
  lemma ColorValueRead(c: Config, i: nat, value: string)
    requires i < 4
    ensures Apply(c, ColorLine(i, value), Corrected) == (c.(graphColors := c.graphColors[i := value]), None)
  {
    ApplyColor(c, i, value, Corrected);
  }

  /** The `save_interval` line for a number. */
  function IntervalLine(n: int): string {
    "save_interval=" + FormatInt(n)
  }

  /**
   * As written, a rejected save interval is reset to 30 before the message is
   * built, so the message reports 30 instead of the value in the file.
   */
  lemma IntervalMessageAsWritten(c: Config, n: int)
    requires IntMin <= n <= IntMax && (n < 1 || n > 3600)
    ensures Apply(c, IntervalLine(n), AsWritten) == (c.(saveInterval := 30), Some(InvalidSaveInterval(30)))
  {
    ClassifyInterval(FormatInt(n), AsWritten);
    StoiFormat(n);
  }

  /** Corrected, the message names the rejected value; the interval still falls back to 30. */
  lemma IntervalMessageNamesValue(c: Config, n: int)
    requires IntMin <= n <= IntMax
    ensures Apply(c, IntervalLine(n), Corrected) ==
      if 1 <= n <= 3600 then (c.(saveInterval := n), None)
      else (c.(saveInterval := 30), Some(InvalidSaveInterval(n)))
  {
    ClassifyInterval(FormatInt(n), Corrected);
    StoiFormat(n);
  }

  /** The lines `create_default_config` writes before the graph colours. */
  const DefaultSettingLines: seq<string> := [
    "baud_rate=9600", "save_interval=30", "temp_min=-40", "temp_max=85",
    "press_min=300", "press_max=1100", "csv_delimiter=,",
    "menu_bg_color=#808080", "help_bg_color=#D3D3D3"]

  /** One `graph_color_*` line per colour, in the order of the keys. */
  function ColorLines(names: Colors): (r: seq<string>)
    ensures |r| == 4 && forall i | 0 <= i < 4 :: r[i] == ColorLine(i, names[i])
  {
    seq(4, i requires 0 <= i < 4 => ColorLine(i, names[i]))
  }

  /** The thirteen lines `create_default_config` writes. */
  function DefaultConfigLines(): seq<string> {
    DefaultSettingLines + ColorLines(DefaultConfig.graphColors)
  }

  /** The text of the default configuration file, one line per setting. */
  function DefaultConfigText(): string {
    JoinLines(DefaultConfigLines())
  }

  /** A line with a recognised key and an acceptable value sets that setting without an error. */
  lemma BaudSets(c: Config, text: string, n: int, v: Variant)
    requires Stoi(text) == Some(n) && (n == 9600 || n == 115200)
    ensures Apply(c, "baud_rate=" + text, v) == (c.(baudRate := n), None)
  {
    ClassifyBaud(text, v);
  }

  lemma IntervalSets(c: Config, text: string, n: int, v: Variant)
    requires Stoi(text) == Some(n) && 1 <= n <= 3600
    ensures Apply(c, "save_interval=" + text, v) == (c.(saveInterval := n), None)
  {
    ClassifyInterval(text, v);
  }

  lemma TempMinSets(c: Config, text: string, value: real, v: Variant)
    requires Stof(text) == Some(value) && -40.0 <= value <= 85.0
    ensures Apply(c, "temp_min=" + text, v) == (c.(tempMin := value), None)
  {
    ClassifyTempMin(text, v);
  }

  lemma TempMaxSets(c: Config, text: string, value: real, v: Variant)
    requires Stof(text) == Some(value) && c.tempMin < value <= 85.0
    ensures Apply(c, "temp_max=" + text, v) == (c.(tempMax := value), None)
  {
    ClassifyTempMax(text, v);
  }

  lemma PressMinSets(c: Config, text: string, value: real, v: Variant)
    requires Stof(text) == Some(value) && 300.0 <= value <= 1100.0
    ensures Apply(c, "press_min=" + text, v) == (c.(pressMin := value), None)
  {
    ClassifyPressMin(text, v);
  }

  lemma PressMaxSets(c: Config, text: string, value: real, v: Variant)
    requires Stof(text) == Some(value) && c.pressMin < value <= 1100.0
    ensures Apply(c, "press_max=" + text, v) == (c.(pressMax := value), None)
  {
    ClassifyPressMax(text, v);
  }

  lemma DelimiterSets(c: Config, d: char, rest: string, v: Variant)
    ensures Apply(c, "csv_delimiter=" + [d] + rest, v) == (c.(csvDelimiter := d), None)
  {
    ClassifyDelimiter(d, rest, v);
  }

  lemma MenuBgSets(c: Config, text: string, v: Variant)
    ensures Apply(c, "menu_bg_color=" + text, v) == (c.(menuBgColor := text), None)
  {
    ClassifyMenuBg(text, v);
  }

  lemma HelpBgSets(c: Config, text: string, v: Variant)
    ensures Apply(c, "help_bg_color=" + text, v) == (c.(helpBgColor := text), None)
  {
    ClassifyHelpBg(text, v);
  }

  /** The numbers of the default file, read back. */
  lemma Stoi9600()
    ensures Stoi("9600") == Some(9600)
  {
    assert FormatInt(9600) == "9600";
    StoiFormat(9600);
  }

  lemma Stoi30()
    ensures Stoi("30") == Some(30)
  {
    assert FormatInt(30) == "30";
    StoiFormat(30);
  }

  lemma StofMinus40()
    ensures Stof("-40") == Some(-40.0)
  {
    assert FormatDecimal(Whole(-40)) == "-40";
    StofFormat(Whole(-40));
  }

  lemma Stof85()
    ensures Stof("85") == Some(85.0)
  {
    assert FormatDecimal(Whole(85)) == "85";
    StofFormat(Whole(85));
  }

  lemma Stof300()
    ensures Stof("300") == Some(300.0)
  {
    assert FormatDecimal(Whole(300)) == "300";
    StofFormat(Whole(300));
  }

  lemma Stof1100()
    ensures Stof("1100") == Some(1100.0)
  {
    assert FormatDecimal(Whole(1100)) == "1100";
    StofFormat(Whole(1100));
  }

  /** The first nine default lines each set their setting to the built-in default. */
  lemma DefaultBaudLine(v: Variant)
    ensures Apply(DefaultConfig, DefaultSettingLines[0], v) == (DefaultConfig, None)
  {
    assert DefaultSettingLines[0] == "baud_rate=" + "9600";
    Stoi9600();
    BaudSets(DefaultConfig, "9600", 9600, v);
  }

  lemma DefaultIntervalLine(v: Variant)
    ensures Apply(DefaultConfig, DefaultSettingLines[1], v) == (DefaultConfig, None)
  {
    assert DefaultSettingLines[1] == "save_interval=" + "30";
    Stoi30();
    IntervalSets(DefaultConfig, "30", 30, v);
  }

  lemma DefaultTempMinLine(v: Variant)
    ensures Apply(DefaultConfig, DefaultSettingLines[2], v) == (DefaultConfig, None)
  {
    assert DefaultSettingLines[2] == "temp_min=" + "-40";
    StofMinus40();
    TempMinSets(DefaultConfig, "-40", -40.0, v);
  }

  lemma DefaultTempMaxLine(v: Variant)
    ensures Apply(DefaultConfig, DefaultSettingLines[3], v) == (DefaultConfig, None)
  {
    assert DefaultSettingLines[3] == "temp_max=" + "85";
    Stof85();
    TempMaxSets(DefaultConfig, "85", 85.0, v);
  }

  lemma DefaultPressMinLine(v: Variant)
    ensures Apply(DefaultConfig, DefaultSettingLines[4], v) == (DefaultConfig, None)
  {
    assert DefaultSettingLines[4] == "press_min=" + "300";
    Stof300();
    PressMinSets(DefaultConfig, "300", 300.0, v);
  }

  lemma DefaultPressMaxLine(v: Variant)
    ensures Apply(DefaultConfig, DefaultSettingLines[5], v) == (DefaultConfig, None)
  {
    assert DefaultSettingLines[5] == "press_max=" + "1100";
    Stof1100();
    PressMaxSets(DefaultConfig, "1100", 1100.0, v);
  }

  lemma DefaultDelimiterLine(v: Variant)
    ensures Apply(DefaultConfig, DefaultSettingLines[6], v) == (DefaultConfig, None)
  {
    assert DefaultSettingLines[6] == "csv_delimiter=" + [','] + "";
    DelimiterSets(DefaultConfig, ',', "", v);
  }

  lemma DefaultMenuBgLine(v: Variant)
    ensures Apply(DefaultConfig, DefaultSettingLines[7], v) == (DefaultConfig, None)
  {
    assert DefaultSettingLines[7] == "menu_bg_color=" + "#808080";
    MenuBgSets(DefaultConfig, "#808080", v);
  }

  lemma DefaultHelpBgLine(v: Variant)
    ensures Apply(DefaultConfig, DefaultSettingLines[8], v) == (DefaultConfig, None)
  {
    assert DefaultSettingLines[8] == "help_bg_color=" + "#D3D3D3";
    HelpBgSets(DefaultConfig, "#D3D3D3", v);
  }

  /** Each of the first nine default lines sets its setting to the built-in default. */
  lemma DefaultLineKeeps(k: nat, v: Variant)
    requires k < 9
    ensures Apply(DefaultConfig, DefaultSettingLines[k], v) == (DefaultConfig, None)
  {
    match k
    case 0 => DefaultBaudLine(v);
    case 1 => DefaultIntervalLine(v);
    case 2 => DefaultTempMinLine(v);
    case 3 => DefaultTempMaxLine(v);
    case 4 => DefaultPressMinLine(v);
    case 5 => DefaultPressMaxLine(v);
    case 6 => DefaultDelimiterLine(v);
    case 7 => DefaultMenuBgLine(v);
    case 8 => DefaultHelpBgLine(v);
  }

  /** Lines that each leave the defaults as they are load as the defaults, without an error. */
  lemma {:induction false} NeutralLines(lines: seq<string>, v: Variant)
    requires forall k | 0 <= k < |lines| :: Apply(DefaultConfig, lines[k], v) == (DefaultConfig, None)
    ensures LoadConfigLines(lines, v) == (DefaultConfig, [])
  {
    if lines != [] {
      var init := lines[..|lines| - 1];
      assert forall k | 0 <= k < |init| :: init[k] == lines[k];
      NeutralLines(init, v);
      var last := lines[|lines| - 1];
      assert lines == init + [last];
      LoadStep(init, last, v);
      assert Apply(DefaultConfig, last, v) == (DefaultConfig, None);
      var errors: seq<Error> := [];
      assert errors + Reported(None) == [];
    }
  }

  /** The colours each version of the line handler reads from the colour lines. */
  function ColorsRead(names: Colors, v: Variant): (r: Colors)
    ensures forall i | 0 <= i < 4 :: r[i] == ColorText(names[i], v)
  {
    [ColorText(names[0], v), ColorText(names[1], v), ColorText(names[2], v), ColorText(names[3], v)]
  }

  /** Loading one more colour line sets that colour and adds no error. */
  lemma ColorStep(lines: seq<string>, i: nat, value: string, v: Variant)
    requires i < 4
    ensures var before := LoadConfigLines(lines, v);
      LoadConfigLines(lines + [ColorLine(i, value)], v) ==
        (before.0.(graphColors := before.0.graphColors[i := ColorText(value, v)]), before.1)
  {
    var before := LoadConfigLines(lines, v);
    LoadStep(lines, ColorLine(i, value), v);
    ApplyColor(before.0, i, value, v);
    assert before.1 + Reported(None) == before.1;
  }

  /** A colour line after lines that loaded as `c` without error. */
  lemma ColorStepFrom(lines: seq<string>, c: Config, i: nat, value: string, v: Variant)
    requires i < 4 && LoadConfigLines(lines, v) == (c, [])
    ensures LoadConfigLines(lines + [ColorLine(i, value)], v) == (c.(graphColors := c.graphColors[i := ColorText(value, v)]), [])
  {
    ColorStep(lines, i, value, v);
  }

  /** The colours after the first `j` colour lines: those read from the lines, the others as before. */
  function ColorsUpTo(colors: Colors, names: Colors, v: Variant, j: nat): (r: Colors)
    ensures forall i | 0 <= i < 4 :: r[i] == if i < j then ColorText(names[i], v) else colors[i]
  {
    seq(4, i requires 0 <= i < 4 => if i < j then ColorText(names[i], v) else colors[i])
  }

  /** Reading colour line `j` sets colour `j` to what it reads. */
  lemma ColorsUpToStep(colors: Colors, names: Colors, v: Variant, j: nat)
    requires j < 4
    ensures ColorsUpTo(colors, names, v, j + 1) == ColorsUpTo(colors, names, v, j)[j := ColorText(names[j], v)]
  {
  }

  /** The first `j` colour lines, after lines that loaded as `c` without error, set the first `j` colours. */
  lemma {:induction false} ColorPrefixLoad(base: seq<string>, c: Config, names: Colors, v: Variant, j: nat)
    requires j <= 4 && LoadConfigLines(base, v) == (c, [])
    ensures LoadConfigLines(base + ColorLines(names)[..j], v) == (c.(graphColors := ColorsUpTo(c.graphColors, names, v, j)), [])
  {
    var lines := ColorLines(names);
    if j == 0 {
      assert base + lines[..0] == base;
      assert ColorsUpTo(c.graphColors, names, v, 0) == c.graphColors;
    } else {
      var i := j - 1;
      ColorPrefixLoad(base, c, names, v, i);
      var before := c.(graphColors := ColorsUpTo(c.graphColors, names, v, i));
      ColorPrefixSplit(base, names, i);
      ColorStepFrom(base + lines[..i], before, i, names[i], v);
      ColorsUpToStep(c.graphColors, names, v, i);
    }
  }

  lemma ColorPrefixSplit(base: seq<string>, names: Colors, i: nat)
    requires i < 4
    ensures base + ColorLines(names)[..i + 1] == (base + ColorLines(names)[..i]) + [ColorLine(i, names[i])]
  {
    var lines := ColorLines(names);
    assert lines[..i + 1] == lines[..i] + [lines[i]];
  }

  /** After any lines without errors, the four colour lines set the four colours. */
  lemma ColorLinesLoad(base: seq<string>, c: Config, names: Colors, v: Variant)
    requires LoadConfigLines(base, v) == (c, [])
    ensures LoadConfigLines(base + ColorLines(names), v) == (c.(graphColors := ColorsRead(names, v)), [])
  {
    ColorPrefixLoad(base, c, names, v, 4);
    assert ColorLines(names)[..4] == ColorLines(names);
    assert ColorsUpTo(c.graphColors, names, v, 4) == ColorsRead(names, v);
  }

  /**
   * The file `create_default_config` writes loads without any error. Corrected, it
   * loads as the built-in defaults; as written, every graph colour keeps a leading '='.
   */
  lemma DefaultConfigLoads(v: Variant)
    ensures LoadConfigLines(DefaultConfigLines(), v) ==
      (DefaultConfig.(graphColors := ColorsRead(DefaultConfig.graphColors, v)), [])
    ensures v.Corrected? ==> LoadConfigLines(DefaultConfigLines(), v) == (DefaultConfig, [])
    ensures v.AsWritten? ==> LoadConfigLines(DefaultConfigLines(), v).0.graphColors == ["=blue", "=red", "=green", "=yellow"]
  {
    forall k | 0 <= k < |DefaultSettingLines|
      ensures Apply(DefaultConfig, DefaultSettingLines[k], v) == (DefaultConfig, None)
    {
      DefaultLineKeeps(k, v);
    }
    NeutralLines(DefaultSettingLines, v);
    ColorLinesLoad(DefaultSettingLines, DefaultConfig, DefaultConfig.graphColors, v);
    if v.AsWritten? {
      DefaultColorsAsWritten();
    }
  }

  lemma DefaultColorsAsWritten()
    ensures ColorsRead(DefaultConfig.graphColors, AsWritten) == ["=blue", "=red", "=green", "=yellow"]
  {
    assert "=" + "blue" == "=blue" && "=" + "red" == "=red";
    assert "=" + "green" == "=green" && "=" + "yellow" == "=yellow";
  }

  /** No line of the defaults holds a line break. */
  lemma SettingLinesOneLine()
    ensures AllWithoutNewline(DefaultSettingLines)
  {
    forall k | 0 <= k < |DefaultSettingLines|
      ensures NoNewline(DefaultSettingLines[k])
    {
      var line := DefaultSettingLines[k];
      assert line in DefaultSettingLines;
    }
  }

  lemma ConfigLinesOneLine(names: Colors)
    requires forall i | 0 <= i < 4 :: NoNewline(names[i])
    ensures AllWithoutNewline(DefaultSettingLines + ColorLines(names))
  {
    var ls := DefaultSettingLines + ColorLines(names);
    SettingLinesOneLine();
    forall k | 0 <= k < |ls|
      ensures NoNewline(ls[k])
    {
      if k < 9 {
        assert ls[k] == DefaultSettingLines[k];
      } else {
        var i := k - 9;
        assert ls[k] == Keys[FirstColorKey + i] + names[i];
        assert NoNewline(Keys[FirstColorKey + i]);
      }
    }
  }

  /** The default file, read back line by line, gives the thirteen lines written. */
  lemma DefaultTextLines()
    ensures GetLines(DefaultConfigText()) == DefaultConfigLines()
  {
    ConfigLinesOneLine(DefaultConfig.graphColors);
    GetLinesOfJoin(DefaultConfigLines());
  }
}
