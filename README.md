# BMP280 monitor: acquisition and retention core

This project models the part of the BMP280 X11 monitor (`bmp280_x11_gui5.cpp`) that
gets readings from the sensor and keeps them. It covers these parts:

- **the reading history**: `CircularBuffer`, a ring of 300 readings with lazily
  filled smoothing caches;
- **the serial link**: `find_serial_port`, `open_serial` and the retry policy of
  `try_reconnect`;
- **the line parser**: `parse_value` and `process_line`, plus the line reassembly
  of `read_serial`, which splits the pending bytes and the new ones into complete
  lines;
- **the error lists**: `add_error`, which keeps the five newest transient and
  persistent messages;
- **the statistics**: `calculate_statistics`, the extremes and means over the last
  300 seconds;
- **the history file**: `save_data`, which writes a temporary file and renames it
  over the data file, and `load_data`, which reads the file back line by line;
- **the configuration file**: `load_config` with `create_default_config`.

Each part that the program changes in place is a class or a method, and each is
proved against a pure function of its module:

- `History.CircularBuffer` is a class over three arrays. Its ghost state records
  every reading pushed since the start. Its invariant ties each slot to the logical
  entry it holds, and each non-zero cache entry to the smoothed value of its reading.
- `Monitor.Bmp280Gui` is a class holding the state of the program's `BMP280Gui`:
  - the descriptor;
  - the count and time of the reconnect attempts;
  - the two error lists;
  - the history;
  - the fixed `serial_buffer` array and its fill position;
  - the settings.

  Its methods are proved against `Errors.Add`, `Link.ReconnectStep`,
  `Parser.Reassemble`, `Persistence.SaveFiles`, `Persistence.LoadLines` and
  `Settings.LoadConfigLines`.
- The loops of `find_serial_port`, `calculate_statistics`, `read_serial`,
  `save_data`, `load_data` and `load_config` are `while` loops, each with the
  invariant that ties it to its function.

Values outside the program are parameters:
- the clock (`now`);
- the file system, a map from path to contents;
- the devices that exist, and what opening one at a baud rate does;
- what `select` and `read` report (`Monitor.PortEvent`);
- the failures of the output streams (`Persistence.SaveFault`, `Monitor.CreateFault`).

Readings are decimal literals (`Numeric.Decimal`, mantissa / 10^scale). A value read
from "23.5" is therefore exactly 23.5, and a line written by `save_data` can be read
back exactly.

Where the documented design and the code disagree, the model follows the code:

- `CircularBuffer::operator[]` throws only when the ring is empty. Any other index
  maps into the ring modulo 300; the code does not check it against `size`.
- `load_data` reads both delimiters into the same variable, so it compares only the
  second one with `csv_delimiter`.
- `load_data` checks its readings against the fixed sensor ranges (-40..85 °C,
  300..1100 hPa), not the configured ones.
- After ten failed reconnect attempts, `try_reconnect` stops without reporting
  anything further.
- A pending line that fills the serial buffer without a newline is not dropped,
  and reading then stalls for good; see "Findings".

The class runs the code as written, including the three defects under "Findings".
The corrected behaviour of each is a separate member, with its property proved.

## Model

| member | source | states |
|---|---|---|
| Errors.Newest | bmp280_x11_gui5.cpp:299-300 | a list cut to its newest n entries has length min(length, n) |
| Errors.AppendKeepsNewest | bmp280_x11_gui5.cpp:299-303 | erasing the front entry of a full list and appending keeps exactly the five newest messages, in order |
| Errors.NewestAppend | bmp280_x11_gui5.cpp:299-300 | keeping the five newest after each message equals keeping the five newest of the whole run |
| Errors.Add | bmp280_x11_gui5.cpp:298-305 | `add_error` keeps both lists at most five long; the transient list becomes the five newest messages including this one; the persistent list does the same only for a persistent message; the error time becomes `now` |
| Errors.AddAll | bmp280_x11_gui5.cpp:298-305 | reporting a run of transient messages leaves the persistent list alone and the transient list holding the five newest of all messages |
| Errors.AddAllStep | bmp280_x11_gui5.cpp:298-305 | reporting one more message after a run is one more `add_error` |
| History.RetainedPush | bmp280_x11_gui5.cpp:52-55 | pushing onto the retained readings keeps the newest 300 of the whole run, and the size grows by one up to 300 |
| History.SmoothedWithin | bmp280_x11_gui5.cpp:71-88 | a smoothed value lies within any range that holds every reading of its field |
| History.MeanWithin | bmp280_x11_gui5.cpp:76-84 | the mean of a non-empty window lies within any range holding its values |
| History.SmoothedNarrow | bmp280_x11_gui5.cpp:78-84 | with a window of -1, 0 or 1, the smoothed value is the entry's own value |
| History.CacheStore | bmp280_x11_gui5.cpp:84-86 | storing a freshly smoothed value keeps every non-zero cache entry equal to the smoothed value of its entry |
| History.ZeroCacheHolds | bmp280_x11_gui5.cpp:56-57 | a cache filled with 0.0 satisfies the cache invariant for any history |
| History.ContentsAfterPush | bmp280_x11_gui5.cpp:52-55 | the newest min(size+1, 300) readings after a push are the retained readings before it plus the new one |
| History.RingPush | bmp280_x11_gui5.cpp:53-55 | writing the slot at `head` and advancing `head` modulo 300 keeps every logical entry at its slot |
| History.SlotAfterPush | bmp280_x11_gui5.cpp:54-62 | after a push, each logical index maps to the slot of the next older index, or to the old `head` for the newest entry |
| History.CircularBuffer.constructor | bmp280_x11_gui5.cpp:51 | a new ring is empty, with head 0 and both caches all 0.0 |
| History.CircularBuffer.ZeroCaches | bmp280_x11_gui5.cpp:56-57 | the `std::fill` of both caches leaves every entry 0.0 |
| History.CircularBuffer.Push | bmp280_x11_gui5.cpp:52-58 | `push` keeps the newest 300 readings in order; size grows up to 300; head advances modulo 300; both caches are emptied |
| History.CircularBuffer.Record | bmp280_x11_gui5.cpp:53-55 | the ring half of `push` keeps the ring invariant and the newest 300 readings |
| History.CircularBuffer.Clear | bmp280_x11_gui5.cpp:65-70 | `clear` leaves no reading, head and size 0, and both caches empty |
| History.CircularBuffer.Size | bmp280_x11_gui5.cpp:59 | `get_size` is the number of retained readings, at most 300 |
| History.CircularBuffer.At | bmp280_x11_gui5.cpp:60-64 | `operator[]` fails exactly on an empty ring; it reads the slot the index maps to, which for an index below size is that oldest-first reading |
| History.CircularBuffer.SmoothValue | bmp280_x11_gui5.cpp:71-88 | `smooth_value` is 0 on an empty ring; otherwise, at the index clamped to the newest entry, it returns the cached value when non-zero, else the window mean; that value is then the entry of the field's cache, and the other cache is unchanged |
| History.CircularBuffer.SmoothAgain | bmp280_x11_gui5.cpp:71-88 | between two pushes or clears, a second `smooth_value` at the same index returns a non-zero first result unchanged, whatever window it asks for |
| History.CircularBuffer.LookupTemp | bmp280_x11_gui5.cpp:74-87 | the temperature cache entry is returned when non-zero and otherwise filled with the smoothed value; afterwards the cache holds the value returned at that index, nothing else in it changes, and the pressure cache is unchanged |
| History.CircularBuffer.LookupPress | bmp280_x11_gui5.cpp:74-87 | the pressure cache entry is returned when non-zero and otherwise filled with the smoothed value; afterwards the cache holds the value returned at that index, nothing else in it changes, and the temperature cache is unchanged |
| History.CircularBuffer.StoreTemp | bmp280_x11_gui5.cpp:84-85 | the temperature cache entry is updated and nothing else in the ring changes |
| History.CircularBuffer.StorePress | bmp280_x11_gui5.cpp:84-85 | the pressure cache entry is updated and nothing else in the ring changes |
| History.CircularBuffer.Average | bmp280_x11_gui5.cpp:76-85 | the uncached computation is the mean over the clipped window, or the entry's own value when the window is empty |
| History.CircularBuffer.SumRange | bmp280_x11_gui5.cpp:78-83 | the summing loop adds the field over entries lo..hi of the retained readings |
| History.CircularBuffer.ContentsAreNewest | bmp280_x11_gui5.cpp:43-58 | the ring holds the newest min(n, 300) of the n readings pushed since the last clear, oldest first |
| History.CircularBuffer.EntryAt | bmp280_x11_gui5.cpp:62-63 | the slot of logical index j holds the j-th oldest retained reading |
| History.SumExtend | bmp280_x11_gui5.cpp:80-82 | summing one more entry of a window adds its field |
| Lines.FindFrom | bmp280_x11_gui5.cpp:422 | `find('\n', pos)` returns a position at or after `pos` that holds '\n', or the end |
| Lines.FindFromSkips | bmp280_x11_gui5.cpp:422 | no position between `pos` and the one found holds '\n' |
| Lines.FindFromUnique | bmp280_x11_gui5.cpp:422 | the first '\n' from `pos` is the only position with none before it |
| Lines.JoinAppend | bmp280_x11_gui5.cpp:587 | writing one more line appends it and its '\n' |
| Lines.SplitFromJoin | bmp280_x11_gui5.cpp:421-427 | the lines found from `pos`, each with its '\n', followed by the rest, are the text from `pos` |
| Lines.LineThenRest | bmp280_x11_gui5.cpp:421-425 | one `find` step keeps the text from `pos` equal to the lines and the rest |
| Lines.SplitFromStep | bmp280_x11_gui5.cpp:422-425 | one `find` yields the line up to the '\n' and continues after it |
| Lines.SplitFromAdvance | bmp280_x11_gui5.cpp:421-426 | taking the line up to the next '\n' moves it from the lines still to be found to those already processed |
| Lines.SplitFromClean | bmp280_x11_gui5.cpp:421-427 | neither the lines found nor the rest hold a '\n' |
| Lines.SplitLinesMeaning | bmp280_x11_gui5.cpp:416-434 | splitting loses and adds nothing: the lines and the rest make up the buffer, and none holds a '\n' |
| Lines.SplitJoin | bmp280_x11_gui5.cpp:421-427 | text made of newline-free lines, each with its '\n', is split back into exactly those lines |
| Lines.SplitFromOfJoin | bmp280_x11_gui5.cpp:421-427 | scanning such text from `pos` finds exactly its lines |
| Lines.SplitFromEnd | bmp280_x11_gui5.cpp:423 | with no '\n' from `pos` on, all of the text from `pos` is pending |
| Lines.GetLinesOfJoin | bmp280_x11_gui5.cpp:612 | a `getline` loop over text written one line per '\n' yields the same lines |
| Link.Candidates | bmp280_x11_gui5.cpp:311-314 | the twenty names are `/dev/ttyACM0`..`9`, then `/dev/ttyUSB0`..`9` |
| Link.FirstPresentMeaning | bmp280_x11_gui5.cpp:312-318 | the device picked exists and no name tried before it does; no device is picked exactly when no name exists |
| Link.FirstPresentSkip | bmp280_x11_gui5.cpp:315 | an absent name does not change which device is found |
| Link.FindSerialPort | bmp280_x11_gui5.cpp:310-319 | the nested loop returns the first existing name of the twenty, in order |
| Link.OpenStep | bmp280_x11_gui5.cpp:321-331 | `open_serial` keeps the descriptor on success; on failure it leaves no descriptor and the exception's message as a persistent error |
| Link.ReconnectIdle | bmp280_x11_gui5.cpp:334-335 | with a port open, after ten failures, or within five seconds of the last attempt, `try_reconnect` changes nothing |
| Link.TryBaudsOutcome | bmp280_x11_gui5.cpp:345-356 | the baud loop connects exactly when some rate opens, at the first such rate, clearing both lists and the count; otherwise it leaves a persistent error naming the port |
| Link.ReconnectAttempt | bmp280_x11_gui5.cpp:333-357 | an attempt records its time; it connects exactly when a device exists and opens at 9600 or 115200 (9600 first), and then clears both lists and the count; a failure counts one more attempt and names its cause |
| Link.ReconnectBounded | bmp280_x11_gui5.cpp:334-352 | the count of failed attempts stays within 0..10 |
| Link.ExhaustedForever | bmp280_x11_gui5.cpp:334 | after ten failed attempts without a port, no later call does anything |
| Monitor.Received | bmp280_x11_gui5.cpp:406 | `read` returns a prefix of the waiting bytes, no longer than the room asked for |
| Monitor.Bmp280Gui.constructor | bmp280_x11_gui5.cpp:224-262 | the member initialisers, and `fd(-1)` from the initialiser list at line 1221: no port, attempts 0, 9600 baud, interval 30, ',' as delimiter, no errors, an empty history and buffer, the default ranges |
| Monitor.Bmp280Gui.AddError | bmp280_x11_gui5.cpp:298-305 | the error lists become `Errors.Add` of the old ones |
| Monitor.Bmp280Gui.Report | bmp280_x11_gui5.cpp:298-305 | a transient message is added and the object invariant is kept |
| Monitor.Bmp280Gui.Retain | bmp280_x11_gui5.cpp:430 | `history.push` keeps the newest 300 readings and the object invariant |
| Monitor.Bmp280Gui.OpenSerial | bmp280_x11_gui5.cpp:321-331 | returns true exactly on success, and the link state becomes `Link.OpenStep` |
| Monitor.Bmp280Gui.TryReconnect | bmp280_x11_gui5.cpp:333-357 | the link state becomes `Link.ReconnectStep` of the old one |
| Monitor.Bmp280Gui.ProcessLine | bmp280_x11_gui5.cpp:370-387 | the frame after the line is `Parser.ProcessLine`'s, and its rejected value, if any, is reported |
| Monitor.Bmp280Gui.ProcessBuffer | bmp280_x11_gui5.cpp:417-427 | the loop processes the complete lines of the buffer in order, reports their rejections, and stops just after the last '\n' |
| Monitor.Bmp280Gui.ConsumeLine | bmp280_x11_gui5.cpp:424-426 | processing one more line extends the frame and the reported errors as `Parser.ProcessLines` does |
| Monitor.Bmp280Gui.ReadSerial | bmp280_x11_gui5.cpp:389-440 | a closed or paused port, no data, or EAGAIN changes nothing; a `select` or `read` error closes the port and reports it; bytes read are reassembled, a reading with both values joins the history, and the unfinished line stays pending, however long; once 255 bytes are pending, every later call leaves the pending bytes and the history as they are |
| Monitor.Bmp280Gui.Take | bmp280_x11_gui5.cpp:415-440 | after a read that returned bytes, the pending text, errors and history are those of `Parser.Reassemble` |
| Monitor.Bmp280Gui.Record | bmp280_x11_gui5.cpp:429-430 | a frame with both values becomes a reading stamped `now` that joins the history; otherwise the history is unchanged |
| Monitor.Bmp280Gui.Append | bmp280_x11_gui5.cpp:406-416 | the buffered text is the old pending bytes followed by the bytes read |
| Monitor.Bmp280Gui.Store | bmp280_x11_gui5.cpp:406-415 | `read` into `serial_buffer + pos` writes the bytes after the pending ones and keeps those |
| Monitor.Bmp280Gui.Keep | bmp280_x11_gui5.cpp:434-440 | the text after the last '\n' moves to the front of the buffer as the new pending bytes, whatever its length |
| Monitor.Bmp280Gui.SaveData | bmp280_x11_gui5.cpp:577-600 | the files and the reported message are those of `Persistence.SaveFiles` for the history written oldest first |
| Monitor.Bmp280Gui.StoreText | bmp280_x11_gui5.cpp:579-599 | the open, write and rename steps produce `Persistence.SaveFiles`, each failure reported |
| Monitor.Bmp280Gui.WriteHistory | bmp280_x11_gui5.cpp:585-588 | the writing loop produces one line per retained reading, oldest first |
| Monitor.Bmp280Gui.LoadData | bmp280_x11_gui5.cpp:602-626 | a missing file changes nothing; a file that cannot be opened empties the history and is reported; otherwise the history holds the newest 300 accepted readings, every rejected line is reported, and the result is whether any reading was kept |
| Monitor.Bmp280Gui.LoadLine | bmp280_x11_gui5.cpp:612-623 | one line is pushed or reported as `Persistence.LoadLines` says |
| Monitor.Bmp280Gui.CreateDefaultConfig | bmp280_x11_gui5.cpp:770-793 | the default text is written, or the open or write failure is reported, leaving no file or a partial one |
| Monitor.Bmp280Gui.LoadConfig | bmp280_x11_gui5.cpp:795-877 | a missing file is first created (as the default text, not at all, or partly written); success means the file exists and opens; the settings in use are then those loaded from its lines, within range for every number the model reads; on failure the settings are unchanged; the error list gets the creation failure, if any, then either the open failure or each problem of the lines in order |
| Monitor.Bmp280Gui.ApplyConfigText | bmp280_x11_gui5.cpp:805-874 | the settings in use become those `Settings.LoadConfigLines` reads from the text with the handler as written, and each problem of the lines is reported in order |
| Monitor.Bmp280Gui.UseConfig | bmp280_x11_gui5.cpp:868-874 | baud rate, interval and delimiter are copied, and each range goes to both its current and its default copy |
| Monitor.Bmp280Gui.ReadConfig | bmp280_x11_gui5.cpp:805-866 | the loop applies the lines in order from the defaults with the handler as written, reports each problem, and ends with settings within range for every number the model reads |
| Monitor.Bmp280Gui.ConfigLine | bmp280_x11_gui5.cpp:807-865 | one line is applied with the handler as written, and its problem, if any, reported |
| Monitor.TakeOutcome | bmp280_x11_gui5.cpp:415-440 | the steps of `read_serial` after a read compute the reassembly of the pending bytes and the read, keeping everything after the last '\n' |
| Numeric.BetweenMeaning | bmp280_x11_gui5.cpp:373-380 | the whole-number range test of a decimal is the range test on its value |
| Numeric.NatToDigitsValue | bmp280_x11_gui5.cpp:314 | the digits of `to_string(n)` denote n |
| Numeric.LeadingDigits | bmp280_x11_gui5.cpp:363 | the digits a number scan takes are all digits and stop before a non-digit |
| Numeric.SkipSpaces | bmp280_x11_gui5.cpp:617 | an extractor skips exactly the leading white space |
| Numeric.ScanInt | bmp280_x11_gui5.cpp:811 | an integer is read exactly when a digit follows the optional sign, and the scan stops before a non-digit |
| Numeric.ScanDecimal | bmp280_x11_gui5.cpp:363 | a number is read exactly when a digit follows the optional sign, and the scan stops before a non-digit |
| Numeric.FormatInt | bmp280_x11_gui5.cpp:587 | an integer is written as an optional '-' and digits |
| Numeric.FormatDecimal | bmp280_x11_gui5.cpp:587 | a decimal is written starting with '-' or a digit |
| Numeric.ScanFormatInt | bmp280_x11_gui5.cpp:587-617 | reading back a written integer gives the same integer and stops at its end |
| Numeric.ScanFormatDecimal | bmp280_x11_gui5.cpp:587-617 | reading back a written decimal gives the same literal and stops at its end |
| Parser.ContainsMeaning | bmp280_x11_gui5.cpp:372-379 | `find(sub) != npos` holds exactly when `sub` starts at some position |
| Parser.NumberStart | bmp280_x11_gui5.cpp:360 | the position found holds '-' or a digit |
| Parser.NumberStartSkips | bmp280_x11_gui5.cpp:360 | no earlier position holds '-' or a digit |
| Parser.ParseValue | bmp280_x11_gui5.cpp:359-368 | `parse_value` yields only values a float holds; `std::stof`'s `out_of_range` gives no value |
| Parser.ParseLabelledValue | bmp280_x11_gui5.cpp:359-368 | a label free of digits and '-', followed by a written value, parses as that value, or as no value when `std::stof` throws `out_of_range` |
| Parser.LabelSkipped | bmp280_x11_gui5.cpp:360 | the search skips such a label |
| Parser.Classify | bmp280_x11_gui5.cpp:372-379 | a line is a temperature exactly when it says "Temp" and has a value; a pressure exactly when it has a value and says "Pres" but not "Temp"; the value is `parse_value`'s |
| Parser.Step | bmp280_x11_gui5.cpp:372-386 | an in-range value sets its field and flag; an out-of-range one is reported and changes nothing; any other line does nothing |
| Parser.Readings | bmp280_x11_gui5.cpp:421-426 | each line of a read is classified in place |
| Parser.ProcessLinesFold | bmp280_x11_gui5.cpp:421-427 | processing the lines is folding `Step` over their classifications |
| Parser.ProcessLinesStep | bmp280_x11_gui5.cpp:421-426 | one more line continues from the frame the earlier lines left |
| Parser.LastTempWins | bmp280_x11_gui5.cpp:372-378 | a temperature is taken exactly when some line has an accepted one, and it is the last such value |
| Parser.LastPressWins | bmp280_x11_gui5.cpp:379-385 | a pressure is taken exactly when some line has an accepted one, and it is the last such value |
| Parser.ErrorsCountRejections | bmp280_x11_gui5.cpp:377-384 | one error is reported per out-of-range line and none for any other |
| Parser.ReassembleMeaning | bmp280_x11_gui5.cpp:415-434 | the complete lines and the new pending bytes make up the old pending bytes plus the read; none holds a '\n'; the frame is that of processing the lines |
| Parser.SampleNeedsBoth | bmp280_x11_gui5.cpp:429-430 | a read yields a reading exactly when its lines held an accepted temperature and an accepted pressure; the reading is in range and stamped `now` |
| Parser.PendingFits | bmp280_x11_gui5.cpp:406-434 | the pending bytes left after a read fit in the buffer |
| Parser.OverlongLineStalls | bmp280_x11_gui5.cpp:406-437 | as written, 255 pending bytes without a newline stay pending in full, and the next read asks for 0 bytes |
| Parser.ReassembleBounded | bmp280_x11_gui5.cpp:434-440 | corrected reassembly: same lines, frame and errors; pending bytes kept unless they fill 255 bytes, then dropped; the next read always has room for at least one byte |
| Persistence.FormatLines | bmp280_x11_gui5.cpp:585-588 | one line per reading, in order |
| Persistence.SerializeStep | bmp280_x11_gui5.cpp:585-588 | writing one more reading appends its line and '\n' |
| Persistence.ReadDecimal | bmp280_x11_gui5.cpp:617 | `>> float` consumes at least one character when it succeeds |
| Persistence.ReadChar | bmp280_x11_gui5.cpp:617 | `>> char` yields a character that is not white space |
| Persistence.Accept | bmp280_x11_gui5.cpp:617-619 | a line is kept exactly when its second delimiter matches, both values are in range, and the timestamp is positive and not in the future |
| Persistence.ParseDataLine | bmp280_x11_gui5.cpp:613-619 | a reading accepted from a line passes all the checks |
| Persistence.ReadFormatDecimal | bmp280_x11_gui5.cpp:587-617 | `>> float` reads back a written decimal |
| Persistence.ReadFormatInt | bmp280_x11_gui5.cpp:587-617 | `>> time_t` reads back a written timestamp |
| Persistence.ReadDelimiter | bmp280_x11_gui5.cpp:617 | `>> char` reads back a delimiter that is not white space |
| Persistence.ExtractFormatLine | bmp280_x11_gui5.cpp:587-617 | a written line is extracted as its reading with both delimiters, for a delimiter that is not a digit, '.', 'e', 'E' or white space |
| Persistence.ParseFormatLine | bmp280_x11_gui5.cpp:587-619 | with such a delimiter, a written line is read back as the same reading exactly when `load_data` accepts that reading |
| Persistence.LoadLinesStep | bmp280_x11_gui5.cpp:612-623 | reading one more line keeps its reading or reports that line |
| Persistence.LoadWithAppend | bmp280_x11_gui5.cpp:612-624 | lines are judged independently: loading two parts gives each part's readings and errors, in order |
| Persistence.LoadWithAccounts | bmp280_x11_gui5.cpp:612-624 | every line gives an accepted reading or one error naming it |
| Persistence.LoadedAreLoadable | bmp280_x11_gui5.cpp:617-620 | every reading kept passed the checks |
| Persistence.LoadWithAllKept | bmp280_x11_gui5.cpp:612-620 | lines that each read back as a reading are all kept, in order, with no error |
| Persistence.LoadSerialized | bmp280_x11_gui5.cpp:585-620 | loading what `save_data` wrote, with the same delimiter, gives the same readings in the same order with no error, when every reading is acceptable and the delimiter cannot continue a number ('e' and 'E' can) |
| Persistence.LinesOfFormat | bmp280_x11_gui5.cpp:587 | no written line holds a '\n' |
| Persistence.FormatHasNoNewline | bmp280_x11_gui5.cpp:587 | a line written with a delimiter other than '\n' holds no '\n' |
| Persistence.PathsDiffer | bmp280_x11_gui5.cpp:579-595 | the temporary path differs from the data path |
| Persistence.SaveFiles | bmp280_x11_gui5.cpp:577-600 | each outcome reports its message: the open failure with the temp path, the write failure, the rename failure with its reason, or success with the data path |
| Persistence.SaveAtomic | bmp280_x11_gui5.cpp:577-600 | the data file ends up either unchanged or holding the complete new text, the latter exactly when nothing failed; no other file but the temporary one changes |
| Samples.InRangeMeaning | bmp280_x11_gui5.cpp:372-385 | the range tests compare the values the readings denote with -40..85 and 300..1100 |
| Samples.SumBounds | bmp280_x11_gui5.cpp:650-657 | a sum of n values within [lo, hi] lies within [n*lo, n*hi] |
| Settings.Stoi | bmp280_x11_gui5.cpp:811 | a `std::stoi` that does not throw yields an `int` |
| Settings.Stof | bmp280_x11_gui5.cpp:825 | a `std::stof` that does not throw yields zero or a magnitude from 2^-126 up to the largest that does not round to infinity |
| Settings.KeyFrom | bmp280_x11_gui5.cpp:810-862 | the key chosen is the first whose branch takes the line |
| Settings.SetBaud | bmp280_x11_gui5.cpp:810-817 | a conversion failure is an invalid line; otherwise the baud is 9600 or 115200, with an error exactly when it differs from the value read; any other value gives 9600 and `InvalidBaudRate` naming it |
| Settings.SetInterval | bmp280_x11_gui5.cpp:818-823 | the interval ends within 1..3600, with an error exactly when it differs from the value read; a value outside gives 30 and `InvalidSaveInterval`, which names 30 as written and the value when corrected |
| Settings.SetTemp | bmp280_x11_gui5.cpp:824-835 | the minimum ends within -40..85; the maximum ends above the minimum or at 85, and at most 85; an error exactly when the value is not accepted; a rejected minimum gives -40 with `InvalidTempMin(text)`, a rejected maximum 85 with `InvalidTempMax(text)` |
| Settings.SetPress | bmp280_x11_gui5.cpp:836-847 | the minimum ends within 300..1100; the maximum ends above the minimum or at 1100, and at most 1100; an error exactly when the value is not accepted; a rejected minimum gives 300 with `InvalidPressMin(text)`, a rejected maximum 1100 with `InvalidPressMax(text)` |
| Settings.LoadStep | bmp280_x11_gui5.cpp:807-866 | one more line continues from the settings the earlier lines left |
| Settings.LoadConfigStep | bmp280_x11_gui5.cpp:807-866 | line k continues from the settings of the lines before it |
| Settings.UpdateKeepsSane | bmp280_x11_gui5.cpp:809-865 | every branch keeps the settings within their ranges |
| Settings.ApplyKeepsSane | bmp280_x11_gui5.cpp:807-865 | every line keeps the settings within their ranges, whatever it says |
| Settings.LoadedConfigSane | bmp280_x11_gui5.cpp:805-866 | whatever the file holds, as long as its numbers are of the form the model reads, the loaded baud is 9600 or 115200, the interval is within 1..3600, and every bound is within its sensor range |
| Settings.StofFormat | bmp280_x11_gui5.cpp:825 | `std::stof` reads back a written decimal when a float holds it, and throws otherwise |
| Settings.StoiFormat | bmp280_x11_gui5.cpp:811 | `std::stoi` reads back a written `int` |
| Settings.RangeCanInvert | bmp280_x11_gui5.cpp:824-835 | a `temp_min` line after `temp_max` can leave the minimum above the maximum, with no error |
| Settings.ClassifyBaud | bmp280_x11_gui5.cpp:810-811 | a `baud_rate=` line is read from offset 10 |
| Settings.ClassifyInterval | bmp280_x11_gui5.cpp:818-819 | a `save_interval=` line is read from offset 14 |
| Settings.ClassifyTempMin | bmp280_x11_gui5.cpp:824-825 | a `temp_min=` line is read from offset 9 |
| Settings.ClassifyTempMax | bmp280_x11_gui5.cpp:830-831 | a `temp_max=` line is read from offset 9 |
| Settings.ClassifyPressMin | bmp280_x11_gui5.cpp:836-837 | a `press_min=` line is read from offset 10 |
| Settings.ClassifyPressMax | bmp280_x11_gui5.cpp:842-843 | a `press_max=` line is read from offset 10 |
| Settings.ClassifyDelimiter | bmp280_x11_gui5.cpp:848-849 | a `csv_delimiter=` line with a character sets that character |
| Settings.ClassifyMenuBg | bmp280_x11_gui5.cpp:850-851 | a `menu_bg_color=` line is read from offset 14 |
| Settings.ClassifyHelpBg | bmp280_x11_gui5.cpp:852-853 | a `help_bg_color=` line is read from offset 14 |
| Settings.SkipsSettingKeys | bmp280_x11_gui5.cpp:810-853 | no setting branch takes a line starting with 'g' |
| Settings.ColorLineKey | bmp280_x11_gui5.cpp:854-861 | a colour line is taken by the branch of its own key |
| Settings.ClassifyColor | bmp280_x11_gui5.cpp:854-861 | a colour line sets its colour from the text its variant reads |
| Settings.ApplyColor | bmp280_x11_gui5.cpp:854-861 | a colour line changes that one colour and reports nothing |
| Settings.UpdateColor | bmp280_x11_gui5.cpp:854-861 | a colour branch stores its text in that slot |
| Settings.ColorKeepsEquals | bmp280_x11_gui5.cpp:854-861 | as written, `graph_color_*=v` sets the colour to "=v" |
| Settings.ColorValueRead | bmp280_x11_gui5.cpp:854-861 | corrected, a colour line sets the colour to exactly the text after '=' |
| Settings.IntervalMessageAsWritten | bmp280_x11_gui5.cpp:820-822 | as written, a rejected interval is reported as 30 |
| Settings.IntervalMessageNamesValue | bmp280_x11_gui5.cpp:820-822 | corrected, the message names the rejected value; the interval still falls back to 30 |
| Settings.ColorLines | bmp280_x11_gui5.cpp:785-788 | the four colour lines, in key order |
| Settings.BaudSets | bmp280_x11_gui5.cpp:810-813 | an accepted baud is set without error |
| Settings.IntervalSets | bmp280_x11_gui5.cpp:818-820 | an accepted interval is set without error |
| Settings.TempMinSets | bmp280_x11_gui5.cpp:824-826 | an accepted `temp_min` is set without error |
| Settings.TempMaxSets | bmp280_x11_gui5.cpp:830-832 | an accepted `temp_max` is set without error |
| Settings.PressMinSets | bmp280_x11_gui5.cpp:836-838 | an accepted `press_min` is set without error |
| Settings.PressMaxSets | bmp280_x11_gui5.cpp:842-844 | an accepted `press_max` is set without error |
| Settings.DelimiterSets | bmp280_x11_gui5.cpp:848-849 | the first character after `csv_delimiter=` becomes the delimiter |
| Settings.MenuBgSets | bmp280_x11_gui5.cpp:850-851 | the menu colour text is set without error |
| Settings.HelpBgSets | bmp280_x11_gui5.cpp:852-853 | the help colour text is set without error |
| Settings.Stoi9600 | bmp280_x11_gui5.cpp:776 | "9600" reads as 9600 |
| Settings.Stoi30 | bmp280_x11_gui5.cpp:777 | "30" reads as 30 |
| Settings.StofMinus40 | bmp280_x11_gui5.cpp:778 | "-40" reads as -40 |
| Settings.Stof85 | bmp280_x11_gui5.cpp:779 | "85" reads as 85 |
| Settings.Stof300 | bmp280_x11_gui5.cpp:780 | "300" reads as 300 |
| Settings.Stof1100 | bmp280_x11_gui5.cpp:781 | "1100" reads as 1100 |
| Settings.DefaultBaudLine | bmp280_x11_gui5.cpp:776 | the default baud line keeps the default settings, without error |
| Settings.DefaultIntervalLine | bmp280_x11_gui5.cpp:777 | the default interval line keeps the default settings, without error |
| Settings.DefaultTempMinLine | bmp280_x11_gui5.cpp:778 | the default `temp_min` line keeps the default settings, without error |
| Settings.DefaultTempMaxLine | bmp280_x11_gui5.cpp:779 | the default `temp_max` line keeps the default settings, without error |
| Settings.DefaultPressMinLine | bmp280_x11_gui5.cpp:780 | the default `press_min` line keeps the default settings, without error |
| Settings.DefaultPressMaxLine | bmp280_x11_gui5.cpp:781 | the default `press_max` line keeps the default settings, without error |
| Settings.DefaultDelimiterLine | bmp280_x11_gui5.cpp:782 | the default delimiter line keeps the default settings, without error |
| Settings.DefaultMenuBgLine | bmp280_x11_gui5.cpp:783 | the default menu colour line keeps the default settings, without error |
| Settings.DefaultHelpBgLine | bmp280_x11_gui5.cpp:784 | the default help colour line keeps the default settings, without error |
| Settings.DefaultLineKeeps | bmp280_x11_gui5.cpp:776-784 | each of the first nine default lines keeps the default settings |
| Settings.NeutralLines | bmp280_x11_gui5.cpp:805-866 | lines that each keep the defaults load as the defaults, without error |
| Settings.ColorsRead | bmp280_x11_gui5.cpp:854-861 | each colour is the text its variant reads from its line |
| Settings.ColorStep | bmp280_x11_gui5.cpp:854-861 | one more colour line sets that colour and adds no error |
| Settings.ColorStepFrom | bmp280_x11_gui5.cpp:854-861 | a colour line after error-free lines sets its colour |
| Settings.ColorsUpTo | bmp280_x11_gui5.cpp:854-861 | after the first j colour lines, those colours are read and the others unchanged |
| Settings.ColorsUpToStep | bmp280_x11_gui5.cpp:854-861 | colour line j sets colour j |
| Settings.ColorPrefixLoad | bmp280_x11_gui5.cpp:854-861 | the first j colour lines set the first j colours |
| Settings.ColorLinesLoad | bmp280_x11_gui5.cpp:854-861 | the four colour lines after error-free lines set the four colours |
| Settings.DefaultConfigLoads | bmp280_x11_gui5.cpp:776-861 | the default file loads without error; corrected, it gives the built-in defaults; as written, the colours "=blue", "=red", "=green", "=yellow" |
| Settings.DefaultColorsAsWritten | bmp280_x11_gui5.cpp:854-861 | as written, the default colours read back with a leading '=' |
| Settings.SettingLinesOneLine | bmp280_x11_gui5.cpp:776-784 | no default setting line holds a line break |
| Settings.ConfigLinesOneLine | bmp280_x11_gui5.cpp:776-788 | no line of the default file holds a line break |
| Settings.DefaultTextLines | bmp280_x11_gui5.cpp:776-788 | reading the default file line by line gives back the thirteen lines written |
| Statistics.Recent | bmp280_x11_gui5.cpp:636-638 | the readings within the window are at most all the readings |
| Statistics.RecentMembers | bmp280_x11_gui5.cpp:636-638 | a reading is counted exactly when it is in the history and at most 300 s old |
| Statistics.ExtremaOf | bmp280_x11_gui5.cpp:640-649 | the minimum and maximum bound every value and are each taken by some reading |
| Statistics.StatsMeaning | bmp280_x11_gui5.cpp:628-660 | the count is the number of recent readings; with none, all values are 0; otherwise each extreme bounds the field of every recent reading and is taken by one of them, and each mean lies between its extremes |
| Statistics.StatsInRange | bmp280_x11_gui5.cpp:628-660 | readings within the sensor ranges give statistics within them |
| Statistics.RecentStep | bmp280_x11_gui5.cpp:636-638 | one more reading extends the recent run exactly when it is recent |
| Statistics.ExtendRun | bmp280_x11_gui5.cpp:640-652 | the loop body extends the extremes, count and sums as one more reading does |
| Statistics.CalculateStatistics | bmp280_x11_gui5.cpp:628-660 | `calculate_statistics` returns the statistics of the history at `now` |
| Statistics.Accumulate | bmp280_x11_gui5.cpp:633-653 | the loop yields the extremes, count and sums of the recent readings |
| Statistics.Take | bmp280_x11_gui5.cpp:637-652 | one recent reading is folded in as the loop body does |

## Left out

- The X11 window, drawing, fonts, themes, key and mouse handling, and the
  command-line parsing. `update_theme` (called at the end of `load_config`) is not
  part of this model; the colour settings it receives are modelled.
- `log_data` (stdout after each reading), the console message of `try_reconnect`, and
  the append to `logs/errors.log` inside `add_error`: these are output only.
- `std::filesystem::create_directory("logs")` in `save_data`: the file system is a
  map without directories.
- The `SerialPort` constructor's terminal settings (`tcgetattr`/`tcsetattr` flags):
  opening is a parameter that yields a descriptor or the step that failed.
- The clock: every call takes `now` as a parameter, and the two calls to `time` in
  `try_reconnect` and `load_data` are taken to return the same value.
- Floating point: readings are exact decimals and means are exact reals.
  - `float` rounding is not modelled.
  - `operator<<`'s six significant digits are not modelled.
  - `std::to_string(float)` in the messages is not modelled; messages carry the
    value itself.
- `Numeric.ScanDecimal` accepts an optional sign, digits and an optional fraction.
  It does not accept exponents, hexadecimal, "inf"/"nan", or forms like ".5" and
  "5." that `std::stof` and `>> float` also accept.
- `Settings.LoadedConfigSane`: the ranges are guaranteed only for numbers the
  model's grammar reads. `std::stof("nan")` returns NaN without throwing, and NaN
  fails both tests at lines 826 and 838, so `temp_min=nan` or `press_min=nan` is
  kept. A later maximum is then never rejected, since every comparison with NaN is
  false: `temp_min=nan` then `temp_max=-100` leaves the range {NaN, -100}. The same
  holds for the `LoadConfig` and `ReadConfig` rows.
- `Numeric.FloatRange`: `std::stof` throws `out_of_range` when `strtof` reports
  `ERANGE`. The model takes every non-zero magnitude below 2^-126 as such. glibc
  does not report the few values below 2^-126 that round to a float exactly, or
  round up to 2^-126.
- `Persistence.ReadDecimal`: `>> float` reports a value too large for a float as a
  failure; the model reads it exactly. `load_data` rejects such a value either way,
  because it is outside the sensor ranges.
- `Persistence.LoadSerialized`: the round trip is claimed only for delimiters that
  cannot continue a number. With 'e' or 'E', `>> float` reads the delimiter as the
  start of an exponent; the model, which reads no exponents, would stop there.
- `Numeric.FormatDecimal`: writes the literal's own digits, not `operator<<`'s
  rounding of a `float`.
- Error messages are datatype values, not the strings the program builds.
- `Monitor.Bmp280Gui.SaveData`: the history text is computed before the temporary
  file is opened; computing it has no effect, so the outcome is the same.
- `Monitor.Bmp280Gui.ReadSerial`: a `read` that returns 0 bytes is modelled as an
  `Arrived` event with no bytes.
- `Statistics.Recent`: its own contract states only the length bound; its meaning
  is stated by `Statistics.RecentMembers`.
- The baud rate is kept as its number of bits per second, not as the `speed_t`
  constants `B9600` and `B115200`.

## Findings

| source | as written | input that shows it | evidently intended | confidence | as-written member | corrected member |
|---|---|---|---|---|---|---|
| bmp280_x11_gui5.cpp:854-861 | each `graph_color_*` value is read with `substr` one character short, so it starts at the '=' | the line `graph_color_temp_low=blue`, or the default file itself, sets the colour to "=blue" | the text after '=', "blue" | high; not executed | Settings.ColorKeepsEquals | Settings.ColorValueRead |
| bmp280_x11_gui5.cpp:406-437 | a line that reaches 255 bytes without a newline stays pending in full, the next `read` asks for 0 bytes, the 0 it returns ends the call, and the buffer never drains | 255 bytes of sensor text with no '\n' | drop the over-long pending line so that reading can go on | medium; not executed | Parser.OverlongLineStalls | Parser.ReassembleBounded |
| bmp280_x11_gui5.cpp:820-822 | a rejected `save_interval` is reset to 30 before the message is built, so the message reports 30 | `save_interval=0` reports "Invalid save interval: 30" | the message names the rejected value, 0 | high; not executed | Settings.IntervalMessageAsWritten | Settings.IntervalMessageNamesValue |
