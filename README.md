# Victron VE.Direct reader and battery/grid relay control, in Dafny

This project models two parts of a solar controller for Arduino boards:

* **VictronVEDirect**. The VE.Direct text-protocol reader. `VEDirect::read(target)` polls a serial port for newline-terminated lines. Each line has the form `LABEL<TAB>VALUE`. The reader finds the first line whose label is that of the target field and decodes its value: `ON` gives 1, any other value starting with `O` (`OFF` among them) gives 0, and anything else is read with `%ld` as a base-10 `long`, the result staying 0 when no number is there. It gives up in three cases:
  * a line would overrun the buffer;
  * VED_MAX_READ_LINES lines not of interest have gone by;
  * the line has been silent for longer than `serial_timout` milliseconds.

  The inner loop also has a budget of VED_MAX_READ_LOOPS empty reads and carriage returns per line. When it runs out, the read does not give up: the unfinished line is judged like a complete one, in the code and in the model alike.

  In dump mode (`VE_DUMP`) each line is echoed to the console, and no line of a real VE.Direct field matches (`DumpPassesOver`); only a line labelled `Dump` would, and an empty line ends the read with a NULL label.
* **RelayControl**. A relay that switches a load between the battery and the grid. The relay can be driven by the battery voltage (two thresholds). It can also be driven by whether solar power exceeds the load, within a differential, with the thresholds taking precedence.

## How the model is built

* **Serial port** (`SerialLink.Link`). This is a class over a recorded stream of observations. Each observation is a received byte or -1, the empty read. The class also holds a recorded list of `millis()` readings. `available()` consumes an idle observation, that is, the moment passes. `read()` consumes one observation. `millis()` consumes one clock reading. A clock that is used up counts as a timeout. This bounds every read, and the model needs that bound to terminate.
* **The reader** (`VictronVEDirect.VEDirect`). This is a class with the fields of the C++ class. `Read` is imperative, like the source:
  * an outer `while` loop whose pass is `Poll`;
  * then `TakeLine` for a pass that finds a byte pending;
  * `ReadLine` is the inner loop over an `array` buffer;
  * `ParseLine` handles the NUL terminator and `strtok`/`strcmp_P`/`sscanf`.

  Each method is proved equal to a specification function:
  * `ScanLine` for the inner loop;
  * `TakeLineSpec`, `Decide`, `Expire` and `Round` for one pass;
  * `Run` for the outer loop;
  * `ReadSpec`, which is `Run` from the state `Start` that the read begins in.

  How the read ended and the console output (the list of lines printed) are ghost out-parameters, computed by the methods as they go.
* **C strings and `sscanf`** (`CString`). NUL-terminated buffers, `strtok` with a TAB delimiter, `strcmp`, and `%ld` (white space, optional sign, digits, truncated to 32 bits).
* **Properties** (`VEDirectProps`, `VEDirectReads`). Lemmas over the specification functions, stated for streams described as a list of arriving lines. Each line may come after idle polls within the timeout, and may hold empty reads and carriage returns anywhere before its newline:
  * the first line of interest wins, with its value and the position just after it;
  * fifty lines not of interest end the read empty;
  * silence times out;
  * an overlong line ends the read with 0;
  * a byte 0xFF is dropped;
  * the value decoder round-trips every 32-bit integer;
  * a worked example stream.
* **The relay** (`RelayControl.Relay`). This is a class with the C++ fields. The relay pin is a ghost field. Each decision method is proved against a pure transition function (`ByVoltage`, `PrioritizeSolar`), and the lemmas characterise those functions.

Integer widths follow the source: `uint8_t`, `uint16_t`, `uint32_t`, `int8_t` and `int32_t` are subset types of `int`. Wrap-around is written out where it happens:
* `millis()` differences;
* `int8_t b = read()`;
* `-1` passed as an unsigned default;
* `%ld` into an `int32_t`.

`int` is taken to be 32 bits wide, as on 32-bit boards. Where a 16-bit `int` (the ATmega boards) changes a result, the 16-bit variant is modelled beside it: `PvVerdictOn16BitInt` and `SettingsAsWrittenOn16BitInt`.

## Model

| member | source | states |
|---|---|---|
| `Ints.ToI32` | src/libraries/VictronVEDirectArduino/src/VEDirect.cpp:103 | storing a value into the int32_t `ret` keeps every value a 32-bit long can hold |
| `Ints.ToI8` | src/libraries/VictronVEDirectArduino/src/VEDirect.cpp:58-66 | no contract of its own: `int8_t b = VESerial.read()` keeps -1..127 and maps 128..255 to -128..-1; what that means for 0xFF is stated by ByteFFIsDropped |
| `Ints.ToI32Wraps` | src/libraries/VictronVEDirectArduino/src/VEDirect.cpp:103 | a conversion result outside 32 bits is kept modulo 2^32 (the truncation the model chooses for an overflowing `%ld`) |
| `Ints.SubU32` | src/libraries/VictronVEDirectArduino/src/VEDirect.cpp:114 | `millis() - serial_last_available` on uint32_t is the forward distance modulo 2^32, so the test survives the clock wrapping |
| `Ints.ToU32` | src/libraries/RelayControl/src/RelayControl.h:20-21 | the default -1 of a uint32_t parameter is 0xFFFFFFFF, and values in range are kept |
| `Ints.ToU16` | src/libraries/RelayControl/src/RelayControl.h:21 | the default -1 of a uint16_t parameter is 0xFFFF, and values in range are kept |
| `CString.CStrTerminated` | src/libraries/VictronVEDirectArduino/src/VEDirect.cpp:82 | writing NUL after the idx stored bytes makes the buffer hold exactly those bytes as a C string, whatever stale bytes follow |
| `CString.CStr` | src/libraries/VictronVEDirectArduino/src/VEDirect.cpp:82 | no contract of its own: a buffer read as a C string is the bytes before the first NUL; characterised by CStrFacts and CStrTerminated |
| `CString.CStrFacts` | src/libraries/VictronVEDirectArduino/src/VEDirect.cpp:82-87 | the C string a buffer holds (what `println` and `strtok` see) is a NUL-free prefix ended by the first NUL |
| `CString.SameStr` | src/libraries/VictronVEDirectArduino/src/VEDirect.cpp:92 | no contract of its own: `strcmp_P(...) == 0`, byte by byte; SameStrIsEqual states that it is string equality |
| `CString.SameStrIsEqual` | src/libraries/VictronVEDirectArduino/src/VEDirect.cpp:92 | `strcmp_P(label, ved_labels[target]) == 0` holds exactly when the two strings are equal |
| `CString.NextToken` | src/libraries/VictronVEDirectArduino/src/VEDirect.cpp:91-93 | no contract of its own: `strtok` with a TAB delimiter; characterised by LeadingTabsFacts, RunLengthFacts, NextTokenNull and NextTokenSplits |
| `CString.TokenAt` | src/libraries/VictronVEDirectArduino/src/VEDirect.cpp:91-93 | no contract of its own: the token at the head of a string that does not start with a TAB, and where strtok resumes; characterised by RunLengthFacts and NextTokenSplits |
| `CString.LeadingTabsFacts` | src/libraries/VictronVEDirectArduino/src/VEDirect.cpp:91 | strtok skips exactly the TABs the string starts with |
| `CString.RunLengthFacts` | src/libraries/VictronVEDirectArduino/src/VEDirect.cpp:91 | a token runs exactly up to the first TAB after it, or to the end |
| `CString.NextTokenNull` | src/libraries/VictronVEDirectArduino/src/VEDirect.cpp:91-93 | strtok returns NULL exactly when nothing but TABs remains |
| `CString.NextTokenSplits` | src/libraries/VictronVEDirectArduino/src/VEDirect.cpp:91-93 | a token strtok returns is non-empty and TAB-free, and the string is the skipped TABs, the token, then its TAB and the rest |
| `CString.LabelValueSplit` | src/libraries/VictronVEDirectArduino/src/VEDirect.cpp:91-93 | a line LABEL TAB VALUE with no other TAB gives exactly LABEL, then VALUE |
| `CString.ScanLong` | src/libraries/VictronVEDirectArduino/src/VEDirect.cpp:103 | no contract of its own: `sscanf(value_str, "%ld", &ret)` (white space, optional sign, digits, truncated to 32 bits); characterised by ScanLongFails, ScanLongOfDigits and ScanLongDecimal |
| `CString.LeadingSpaces` | src/libraries/VictronVEDirectArduino/src/VEDirect.cpp:103 | no contract of its own beyond its bound: the white space `%ld` skips first; used by ScanLong and its lemmas |
| `CString.DigitRun` | src/libraries/VictronVEDirectArduino/src/VEDirect.cpp:103 | no contract of its own beyond its bound: the digits `%ld` consumes; used by ScanLong, ScanLongFails and ScanLongOfDigits |
| `CString.ScanLongFails` | src/libraries/VictronVEDirectArduino/src/VEDirect.cpp:103 | `sscanf(value_str, "%ld", &ret)` fails, leaving `ret` alone, exactly when no digit follows the white space and an optional sign |
| `CString.ScanLongOfDigits` | src/libraries/VictronVEDirectArduino/src/VEDirect.cpp:103 | on a sign, a digit run and a non-digit tail, `%ld` yields the digits' value, negated after `-`, truncated to 32 bits |
| `CString.DigitsValueOfDigits` | src/libraries/VictronVEDirectArduino/src/VEDirect.cpp:103 | the decimal digits of m denote m again |
| `CString.ScanLongDecimal` | src/libraries/VictronVEDirectArduino/src/VEDirect.cpp:103 | round trip: `%ld` reads back every 32-bit value printed in decimal, stopping at the first non-digit |
| `VEDirectDefs.Index` | src/libraries/VictronVEDirectArduino/src/VEDirect.h:37-46 | the enum values are 0..6, below VE_LAST_LABEL, and only VE_DUMP is 0 |
| `VEDirectDefs.FieldAt` | src/libraries/VictronVEDirectArduino/src/VEDirect.h:37-46 | every enum value below VE_LAST_LABEL names exactly one field |
| `VEDirectDefs.IndexIsOneToOne` | src/libraries/VictronVEDirectArduino/src/VEDirect.h:37-46 | fields and enum values correspond one to one |
| `VEDirectDefs.Label` | src/libraries/VictronVEDirectArduino/src/VEDirect.cpp:92 | no contract of its own: the bytes of `ved_labels[target]` compared with the line's label; characterised by LabelFacts |
| `VEDirectDefs.LabelFacts` | src/libraries/VictronVEDirectArduino/src/VEDirect.h:29-56 | the table has VE_LAST_LABEL rows; every label is non-empty, has no TAB or NUL, and fits VED_MAX_LABEL_SIZE with its NUL |
| `VEDirectDefs.FieldLabels` | src/libraries/VictronVEDirectArduino/src/VEDirect.h:48-56 | SOC, V, P, PPV, I and Alarm are the labels of the six real fields |
| `VEDirectDefs.LabelsDistinct` | src/libraries/VictronVEDirectArduino/src/VEDirect.h:48-56 | no two rows hold the same label, so a line label names at most one target |
| `VEDirectDefs.DumpIsSentinel` | src/libraries/VictronVEDirectArduino/src/VEDirect.h:37-49 | VE_DUMP is 0, its row is "Dump", and that is the label of no real field |
| `VEDirectDefs.BudgetsFitCounters` | src/libraries/VictronVEDirectArduino/src/VEDirect.h:29-32 | 60000 fits the uint16_t `loops` and 50 the uint8_t `lines`; VED_LINE_SIZE fits the uint8_t `idx` |
| `SerialLink.Link.Available` | src/libraries/VictronVEDirectArduino/src/VEDirect.cpp:64 | `available()` reports whether a byte is pending; a poll that finds none lets that moment pass |
| `SerialLink.Link.Read` | src/libraries/VictronVEDirectArduino/src/VEDirect.cpp:66 | `read()` returns the pending byte or -1 and moves on by one observation |
| `SerialLink.Link.Millis` | src/libraries/VictronVEDirectArduino/src/VEDirect.cpp:61 | `millis()` returns the next recorded clock reading |
| `SerialLink.Link.TimedOut` | src/libraries/VictronVEDirectArduino/src/VEDirect.cpp:114 | the timeout test is `millis() - since > serial_timout` on uint32_t, and holds once the recorded clock is used up |
| `VictronVEDirect.ScanLine` | src/libraries/VictronVEDirectArduino/src/VEDirect.cpp:65-81 | the inner loop never stores more than VED_LINE_SIZE bytes |
| `VictronVEDirect.Kept` | src/libraries/VictronVEDirectArduino/src/VEDirect.cpp:66-75 | no contract of its own: the bytes the inner loop stores from a stretch of observations, that is, those that are neither an empty read nor a carriage return; ScanLineKeeps and ScanBody tie it to the loop |
| `VictronVEDirect.Skipped` | src/libraries/VictronVEDirectArduino/src/VEDirect.cpp:67 | no contract of its own: the test `b == -1 \|\| b == '\r'` that costs a loop; ScanLine and ScanBody use it |
| `VictronVEDirect.ByteAt` | src/libraries/VictronVEDirectArduino/src/VEDirect.cpp:58-66 | no contract of its own: `b = VESerial.read()` into the `int8_t b`, the observation narrowed to 8 bits (so 0xFF reads as -1); ByteFFIsDropped shows the consequence |
| `VictronVEDirect.SkippedCount` | src/libraries/VictronVEDirectArduino/src/VEDirect.cpp:66-68 | no contract of its own: how many observations of a stretch cost a loop; ScanLineSpends and ScanBody tie it to the loop |
| `VictronVEDirect.ScanLineEnds` | src/libraries/VictronVEDirectArduino/src/VEDirect.cpp:65-81 | the inner loop ends only at a newline, when the loop budget is used up, or at a data byte that finds the buffer full; it never moves back |
| `VictronVEDirect.ScanLineKeeps` | src/libraries/VictronVEDirectArduino/src/VEDirect.cpp:67-75 | the buffer receives exactly the observations that are not skipped, in order, up to the one that ends the loop |
| `VictronVEDirect.ScanLineSpends` | src/libraries/VictronVEDirectArduino/src/VEDirect.cpp:67-68 | each empty read or carriage return uses up exactly one unit of `loops`, and nothing else does |
| `VictronVEDirect.ScanLineClean` | src/libraries/VictronVEDirectArduino/src/VEDirect.cpp:67-75 | the buffer never holds -1, a carriage return or a newline |
| `VictronVEDirect.DecodeValue` | src/libraries/VictronVEDirectArduino/src/VEDirect.cpp:94-104 | no contract of its own: "ON" gives 1, other values starting with 'O' give 0, anything else is read with `%ld` into the initial 0; characterised by DecodeOn, DecodeOff, DecodeDecimal and DecodeNoNumber |
| `VictronVEDirect.Classify` | src/libraries/VictronVEDirectArduino/src/VEDirect.cpp:91-106 | no contract of its own: judges a line by its label against `ved_labels[target]` (NULL tokens, match with the decoded value, or not of interest); characterised by ClassifyLabelled, ClassifyMiss and DumpPassesOver |
| `VictronVEDirect.TakeLineSpec` | src/libraries/VictronVEDirectArduino/src/VEDirect.cpp:64-112 | a pass that reads a line not of interest leaves a state the loop can go on from and never moves the clock back |
| `VictronVEDirect.Decide` | src/libraries/VictronVEDirectArduino/src/VEDirect.cpp:85-112 | a line not of interest leaves the loop a state it can go on from, with the clock not moved back |
| `VictronVEDirect.Expire` | src/libraries/VictronVEDirectArduino/src/VEDirect.cpp:114-117 | the read goes on after the timeout test only when the clock has moved on |
| `VictronVEDirect.Round` | src/libraries/VictronVEDirectArduino/src/VEDirect.cpp:63-117 | every pass that goes on reads the clock at least once (the reason a read ends) |
| `VictronVEDirect.Run` | src/libraries/VictronVEDirectArduino/src/VEDirect.cpp:51-119 | no contract of its own: the outer loop from a loop head; characterised by RunFacts, FirstMatchWins, BudgetRunsOut and SilenceTimesOut |
| `VictronVEDirect.ReadSpec` | src/libraries/VictronVEDirectArduino/src/VEDirect.cpp:45-119 | no contract of its own: a whole read, Run from Start; characterised by ReadFacts, ReadFirstMatch, ReadBudget and ReadSilence, and implemented by VEDirect.Read |
| `VictronVEDirect.Start` | src/libraries/VictronVEDirectArduino/src/VEDirect.cpp:51-61 | no contract of its own: the state at the first loop head: `serial_last_available = millis()`, VED_MAX_READ_LINES lines left, nothing printed |
| `VictronVEDirect.VEDirect.constructor` | src/libraries/VictronVEDirectArduino/src/VEDirect.cpp:17-25 | corrected: the member `serial_timout` is set from the parameter, 5000 by default |
| `VictronVEDirect.VEDirect.AsWritten` | src/libraries/VictronVEDirectArduino/src/VEDirect.cpp:17-25 | as written: the self-assignment leaves the member `serial_timout` at 0 |
| `VictronVEDirect.VEDirect.Read` | src/libraries/VictronVEDirectArduino/src/VEDirect.cpp:45-120 | `read(target)` returns the value of ReadSpec, consumes the stream and the clock exactly as far as it does, leaves `serial_last_available` as it does, and reports how the read ended and what it printed, both computed as it goes |
| `VictronVEDirect.VEDirect.Poll` | src/libraries/VictronVEDirectArduino/src/VEDirect.cpp:63-117 | one pass through the body of the outer loop does what Round does: the value, the state it leaves, the lines discarded, and the console output, with the time-out notice appended when the test fires |
| `VictronVEDirect.VEDirect.TakeLine` | src/libraries/VictronVEDirectArduino/src/VEDirect.cpp:64-112 | reading and judging one line does what TakeLineSpec does: it echoes the line in dump mode (not after an overrun), ends with the outcome the line calls for, and after a line not of interest counts a discard and renews `serial_last_available` |
| `VictronVEDirect.VEDirect.ParseLine` | src/libraries/VictronVEDirectArduino/src/VEDirect.cpp:82-93 | terminating the buffer and splitting it with strtok judges the C string of the stored bytes |
| `VictronVEDirect.VEDirect.ReadLine` | src/libraries/VictronVEDirectArduino/src/VEDirect.cpp:65-81 | the inner loop stores what ScanLine says and stops where it says; idx stays at most VED_LINE_SIZE, inside a buffer of VED_LINE_SIZE + 1 |
| `VEDirectProps.LineAt` | src/libraries/VictronVEDirectArduino/src/VEDirect.cpp:64-81 | no contract of its own: what a line of the protocol is on the wire: a pending byte, then observations up to the first newline whose kept bytes are the line, free of NUL and short enough for the buffer, with fewer than VED_MAX_READ_LOOPS skipped |
| `VEDirectProps.Waits` | src/libraries/VictronVEDirectArduino/src/VEDirect.cpp:63-117 | no contract of its own: polls that find nothing pending while each timeout test still passes |
| `VEDirectProps.ScanData` | src/libraries/VictronVEDirectArduino/src/VEDirect.cpp:73-75 | data bytes go into the buffer one by one without using up any of the loop budget |
| `VEDirectProps.ScanBody` | src/libraries/VictronVEDirectArduino/src/VEDirect.cpp:65-75 | up to a newline the inner loop stores what Kept says and spends one loop per skipped observation, while the budget and the buffer last |
| `VEDirectProps.ScanLineAt` | src/libraries/VictronVEDirectArduino/src/VEDirect.cpp:65-81 | a line of the protocol (a pending byte, empty reads and carriage returns anywhere, a newline, fewer than VED_MAX_READ_LOOPS skips) is read whole: the loop stops right after its newline with the line in the buffer |
| `VEDirectProps.ScanFramed` | src/libraries/VictronVEDirectArduino/src/VEDirect.cpp:65-81 | a plain line (bytes 0x01..0x7F other than '\r' and '\n') of at most VED_LINE_SIZE bytes followed by "\r\n" is read whole, the carriage return costing one loop, and the loop stops right after the newline |
| `VEDirectProps.DataKept` | src/libraries/VictronVEDirectArduino/src/VEDirect.cpp:66-75 | plain bytes followed by a carriage return are stored whole, the carriage return costing one loop |
| `VEDirectProps.FramedLine` | src/libraries/VictronVEDirectArduino/src/VEDirect.cpp:64-81 | a plain line followed by "\r\n" is a line of the protocol taking its length plus two observations |
| `VEDirectProps.ScanOverlong` | src/libraries/VictronVEDirectArduino/src/VEDirect.cpp:65-77 | observations without a newline that keep VED_LINE_SIZE bytes within the loop budget, with empty reads and carriage returns anywhere among them, followed by one more data byte: the loop overflows right after that byte, consuming nothing further |
| `VEDirectProps.ByteFFIsDropped` | src/libraries/VictronVEDirectArduino/src/VEDirect.cpp:58-68 | a data byte 0xFF, read into the int8_t `b`, is taken for an empty read and skipped at the cost of a loop |
| `VEDirectProps.FramedStartsPending` | src/libraries/VictronVEDirectArduino/src/VEDirect.cpp:64 | a line arriving makes `available()` true |
| `VEDirectProps.TakeLineOf` | src/libraries/VictronVEDirectArduino/src/VEDirect.cpp:64-82 | a line of the protocol is read whole: the inner loop stops right after its newline with exactly the line stored, and its C string is the line |
| `VEDirectProps.HitTake` | src/libraries/VictronVEDirectArduino/src/VEDirect.cpp:85-104 | a line of interest read whole ends the pass with its decoded value, echoed in dump mode |
| `VEDirectProps.MissTake` | src/libraries/VictronVEDirectArduino/src/VEDirect.cpp:85-112 | a line not of interest read whole costs one line and one discard and renews `serial_last_available` from the clock |
| `VEDirectProps.WaitRun` | src/libraries/VictronVEDirectArduino/src/VEDirect.cpp:63-117 | idle polls that find the clock within the timeout of the last activity are passed over, one observation and one clock reading each |
| `VEDirectProps.HitRun` | src/libraries/VictronVEDirectArduino/src/VEDirect.cpp:63-104 | a line of interest arriving after idle polls within the timeout, with empty reads and carriage returns anywhere in it, ends the read with its decoded value right after its newline, echoed in dump mode |
| `VEDirectProps.MissLine` | src/libraries/VictronVEDirectArduino/src/VEDirect.cpp:63-117 | a line not of interest arriving after idle polls within the timeout, with empty reads and carriage returns anywhere in it, is consumed, costs one of `lines`, is counted as discarded, renews `serial_last_available`, and lets the read go on when the test after it passes |
| `VEDirectProps.Step` | src/libraries/VictronVEDirectArduino/src/VEDirect.cpp:106-117 | no contract of its own: the state after a line not of interest; MissLine shows Run goes on from it |
| `VEDirectProps.OverlongLine` | src/libraries/VictronVEDirectArduino/src/VEDirect.cpp:63-77 | an overlong line, with empty reads and carriage returns anywhere in it, ends the read with 0 and the outcome Overrun right after its first data byte that does not fit, printing nothing |
| `VEDirectProps.AfterLog` | src/libraries/VictronVEDirectArduino/src/VEDirect.cpp:85-89 | the lines not of interest are echoed, in order, in dump mode and not otherwise |
| `VEDirectProps.After` | src/libraries/VictronVEDirectArduino/src/VEDirect.cpp:63-117 | after lines not of interest the read is past all of them, their observations and idle polls, with one clock reading per idle poll and two per line used, and one line and one discard per line counted |
| `VEDirectProps.MissesThen` | src/libraries/VictronVEDirectArduino/src/VEDirect.cpp:63-117 | lines not of interest arriving on time, after idle polls and with skipped observations inside, are passed over one after the other |
| `VEDirectProps.FirstMatchWins` | src/libraries/VictronVEDirectArduino/src/VEDirect.cpp:63-117 | after lines not of interest, the first line of interest decides the read: its value, the position right after it, the clock readings used, the lines discarded, the echoes |
| `VEDirectProps.BudgetRunsOut` | src/libraries/VictronVEDirectArduino/src/VEDirect.cpp:63-119 | VED_MAX_READ_LINES lines not of interest, arriving on time after any idle polls, end the read with 0, nothing found, right after the last of them |
| `VEDirectProps.SilenceTimesOut` | src/libraries/VictronVEDirectArduino/src/VEDirect.cpp:112-117 | on a silent line the read ends with 0 and the notice, at the first test that finds more than `serial_timout` ms since the last activity, or when the recorded clock is used up |
| `VEDirectProps.IdleWithinTimeout` | src/libraries/VictronVEDirectArduino/src/VEDirect.cpp:114-117 | an idle poll within the timeout lets the read go on |
| `VEDirectProps.MaxTimeoutNeverExpires` | src/libraries/VictronVEDirectArduino/src/VEDirect.cpp:114 | with `serial_timout` at 0xFFFFFFFF the test `millis() - serial_last_available > serial_timout` never holds; only the end of the recorded clock stops a read |
| `VEDirectProps.TakeLineFacts` | src/libraries/VictronVEDirectArduino/src/VEDirect.cpp:64-112 | reading a line returns 0 unless it matched, never moves back, and in dump mode echoes exactly the C string the inner loop stored (nothing after an overrun); only a line not of interest renews `serial_last_available` |
| `VEDirectProps.DecideFacts` | src/libraries/VictronVEDirectArduino/src/VEDirect.cpp:85-112 | judging a line returns 0 unless it matched, costs one line and one discard and renews `serial_last_available` when it goes on, and in dump mode echoes exactly its text |
| `VEDirectProps.ExpireFacts` | src/libraries/VictronVEDirectArduino/src/VEDirect.cpp:114-117 | the timeout test ends the read with 0 and the notice, leaving the time of activity alone, or moves the clock on by one |
| `VEDirectProps.RoundFacts` | src/libraries/VictronVEDirectArduino/src/VEDirect.cpp:63-117 | one pass returns 0 unless it matched, never moves back, keeps `lines` plus the discards constant, and renews `serial_last_available` only with a discard |
| `VEDirectProps.RunFacts` | src/libraries/VictronVEDirectArduino/src/VEDirect.cpp:63-119 | every read returns 0 unless it matched, discards at most its line budget and all of it when nothing was found, prints the echoes and the time-out notice only, and leaves the time of activity alone unless it discards a line |
| `VEDirectReads.ClassifyLabelled` | src/libraries/VictronVEDirectArduino/src/VEDirect.cpp:91-104 | a line LABEL TAB VALUE with the label of row i yields the decoded value for target i and is not of interest to any other target |
| `VEDirectReads.ClassifyMiss` | src/libraries/VictronVEDirectArduino/src/VEDirect.cpp:91-106 | a line is not of interest exactly when it has a label token different from the target's label |
| `VEDirectReads.DumpPassesOver` | src/libraries/VictronVEDirectArduino/src/VEDirect.cpp:85-92 | in dump mode every line of a real field is not of interest |
| `VEDirectReads.DecodeOn` | src/libraries/VictronVEDirectArduino/src/VEDirect.cpp:94-97 | a value starting "ON" yields 1 |
| `VEDirectReads.DecodeOff` | src/libraries/VictronVEDirectArduino/src/VEDirect.cpp:98-100 | a value starting with 'O' whose second byte is not 'N' ("OFF", "Ox", "O") yields 0 |
| `VEDirectReads.DecodeDecimal` | src/libraries/VictronVEDirectArduino/src/VEDirect.cpp:102-104 | round trip: any 32-bit value sent in decimal yields itself |
| `VEDirectReads.DecodeNoNumber` | src/libraries/VictronVEDirectArduino/src/VEDirect.cpp:102-104 | a value that is neither ON/OFF nor a number yields the initial 0 |
| `VEDirectReads.DecodeOnOffText` | src/libraries/VictronVEDirectArduino/src/VEDirect.cpp:94-101 | "ON" yields 1 and "OFF" yields 0 |
| `VEDirectReads.DecodeVoltageText` | src/libraries/VictronVEDirectArduino/src/VEDirect.cpp:103 | "12950" yields 12950 |
| `VEDirectReads.DecodeCurrentText` | src/libraries/VictronVEDirectArduino/src/VEDirect.cpp:103 | "-1250" yields -1250 |
| `VEDirectReads.DecodeDashesText` | src/libraries/VictronVEDirectArduino/src/VEDirect.cpp:103 | "---" yields 0 |
| `VEDirectReads.ReadFacts` | src/libraries/VictronVEDirectArduino/src/VEDirect.cpp:45-120 | every read returns 0 unless a line matched, never moves back, discards at most 50 lines (all 50 when nothing is found), prints as RunFacts says, and keeps the entry time as the last activity unless a line is discarded |
| `VEDirectReads.ReadFirstMatch` | src/libraries/VictronVEDirectArduino/src/VEDirect.cpp:45-119 | a read for a field returns the decoded value of the first line labelled with its label, after lines not of interest arriving on time (idle polls, empty reads and carriage returns allowed), and consumes exactly up to the end of that line, with the clock readings, discards and echoes that takes |
| `VEDirectReads.ReadHit` | src/libraries/VictronVEDirectArduino/src/VEDirect.cpp:45-119 | a read after lines not of interest, arriving on time, ends as the first line the target matches ends it |
| `VEDirectReads.ReadBudget` | src/libraries/VictronVEDirectArduino/src/VEDirect.cpp:45-119 | 50 lines not of interest, arriving on time in the same general form, make a read return 0 having found nothing, after printing each of them in dump mode |
| `VEDirectReads.ReadSilence` | src/libraries/VictronVEDirectArduino/src/VEDirect.cpp:51-117 | a read on a silent line polls until the first test that finds more than `serial_timout` ms since the entry time (or the end of the recorded clock), every earlier test within it, then returns 0, prints only the time-out notice, and keeps the entry time as the last activity |
| `VEDirectReads.SilenceNeverEndsAtMaxTimeout` | src/libraries/VictronVEDirectArduino/src/VEDirect.cpp:112-117 | with `serial_timout` at 0xFFFFFFFF a read on a silent line polls once per clock reading there is: it never times out, so the source never returns |
| `VEDirectReads.ZeroTimeoutExpires` | src/libraries/VictronVEDirectArduino/src/VEDirect.cpp:24 | as written (`serial_timout` left at 0), the first idle poll after the clock has moved on ends the read with a time-out |
| `VEDirectReads.DefaultTimeoutWaits` | src/libraries/VictronVEDirectArduino/src/VEDirect.h:60 | with the timeout the constructor is given, 5000 ms by default, an idle poll within it lets the read go on |
| `VEDirectReads.TerminatorOverrunsAsWritten` | src/libraries/VictronVEDirectArduino/src/VEDirect.cpp:54-82 | a line of exactly VED_LINE_SIZE bytes leaves idx == VED_LINE_SIZE, so `line[idx] = '\0'` writes past `char line[VED_LINE_SIZE]` |
| `VEDirectReads.TerminatorFits` | src/libraries/VictronVEDirectArduino/src/VEDirect.cpp:82 | in a buffer of VED_LINE_SIZE + 1 the terminator always fits |
| `VEDirectReads.ReadVoltageExample` | src/libraries/VictronVEDirectArduino/src/VEDirect.cpp:45-120 | an idle poll, then "SOC\t42\r\nV\t12950\r\n", read for VE_BAT_VOLTAGE on a clock that stands still, whatever the timeout, passes over the idle poll and the SOC line and returns 12950 at the end of the V line |
| `RelayControl.SettingsAsWrittenIgnoreThresholds` | src/libraries/RelayControl/src/RelayControl.cpp:24-32 | as written, the thresholds passed are always replaced by 12700/13600 mV, and the differential passed is always taken |
| `RelayControl.SettingsAsWrittenExample` | src/libraries/RelayControl/src/RelayControl.cpp:30-32 | as written, `Relay(pin, 12000, 14400)` gets 12700/13600 mV and a differential of 65535 W, unlike the intended settings |
| `RelayControl.SettingsAsWritten` | src/libraries/RelayControl/src/RelayControl.cpp:24-32 | no contract of its own: the constructor's guards with a 32-bit `int`; characterised by SettingsAsWrittenIgnoreThresholds and SettingsAsWrittenExample |
| `RelayControl.SettingsAsWrittenOn16BitInt` | src/libraries/RelayControl/src/RelayControl.cpp:24-32 | no contract of its own: the same guards with a 16-bit `int`, where `watts_diff > -1` compares 5 with 65535u; characterised by SettingsOn16BitIntAreDefaults |
| `RelayControl.SettingsOn16BitIntAreDefaults` | src/libraries/RelayControl/src/RelayControl.cpp:24-32 | with a 16-bit `int` every parameter is dropped: the settings are 12700, 13600 and 5 whatever is passed, so a differential that is set is lost |
| `RelayControl.SettingsIntended` | src/libraries/RelayControl/src/RelayControl.h:20-30 | no contract of its own: each parameter that is not the "not set" marker replaces the header default; characterised by SettingsIntendedDefaults |
| `RelayControl.SettingsIntendedDefaults` | src/libraries/RelayControl/src/RelayControl.h:20-30 | the "not set" markers are -1 in the parameter types; with nothing set the settings are 12700, 13600 and 5, with a non-empty band; a setting given is kept |
| `RelayControl.PvVerdict` | src/libraries/RelayControl/src/RelayControl.cpp:149-163 | no contract of its own: `pvExceedsLoad` on a 32-bit `int`; characterised by PvVerdictBands, PvVerdictDifferential and PvVerdictMonotone |
| `RelayControl.PvVerdictOn16BitInt` | src/libraries/RelayControl/src/RelayControl.cpp:149-163 | no contract of its own: the same comparisons with a 16-bit `int`, where the sum and the difference wrap modulo 2^16; compared with PvVerdict by PvVerdictWidths |
| `RelayControl.PvVerdictWidths` | src/libraries/RelayControl/src/RelayControl.cpp:153-162 | the two widths agree while load + diff fits 16 bits and diff is at most load; no solar power, a load of 3 W and a differential of 5 W give 0 on a 16-bit `int` and 2 on a 32-bit one |
| `RelayControl.PvVerdictBands` | src/libraries/RelayControl/src/RelayControl.cpp:149-163 | `pvExceedsLoad` gives 1 when solar reaches load + diff, 0 when it is at most load - diff (and below load + diff), 2 strictly within the differential |
| `RelayControl.PvVerdictDifferential` | src/libraries/RelayControl/src/RelayControl.cpp:153-162 | with a zero differential the verdict is never 2; with a positive one equal powers give 2 |
| `RelayControl.PvVerdictMonotone` | src/libraries/RelayControl/src/RelayControl.cpp:153-162 | more solar power or less load never gives a lower verdict (0 < 2 < 1) |
| `RelayControl.ByVoltage` | src/libraries/RelayControl/src/RelayControl.cpp:81-93 | no contract of its own: `setRelay_ByBatVoltage` as a function of the settings, the outputs and the voltage; characterised by ByVoltageFacts and BoundariesInBand, implemented by Relay.SetRelayByBatVoltage |
| `RelayControl.PrioritizeSolar` | src/libraries/RelayControl/src/RelayControl.cpp:109-137 | no contract of its own: `setRelay_PrioritizeSolar` as a function; characterised by ThresholdsTakePrecedence, PrioritizeSolarInBand, ReturnIsRelayState and FallsBackToLastTrigger, implemented by Relay.SetRelayPrioritizeSolar |
| `RelayControl.ByVoltageFacts` | src/libraries/RelayControl/src/RelayControl.cpp:81-93 | returns 0 exactly below `bat_min_v` and 1 exactly when not below `bat_min_v` and above `bat_max_v`, with relay, pin and `base_state` following; otherwise 2 and nothing changes |
| `RelayControl.BoundariesInBand` | src/libraries/RelayControl/src/RelayControl.cpp:85-89 | voltages equal to `bat_min_v` or `bat_max_v` fall in the band |
| `RelayControl.ThresholdsTakePrecedence` | src/libraries/RelayControl/src/RelayControl.cpp:116-121 | outside the band `setRelay_PrioritizeSolar` does exactly what `setRelay_ByBatVoltage` does, `base_state` included |
| `RelayControl.PrioritizeSolarInBand` | src/libraries/RelayControl/src/RelayControl.cpp:122-136 | in the band `base_state` is kept; battery above the load, or short of it after a battery trigger; grid short of it otherwise; 2 and no change within the differential |
| `RelayControl.ReturnIsRelayState` | src/libraries/RelayControl/src/RelayControl.cpp:109-137 | when `setRelay_PrioritizeSolar` returns 0 or 1, `relay_state` and the pin agree with it |
| `RelayControl.DecisionsStayBinary` | src/libraries/RelayControl/src/RelayControl.h:24-25 | `relay_state` and `base_state` stay in {0, 1} and `pv_exceeds_load` in {0, 1, 2} |
| `RelayControl.FallsBackToLastTrigger` | src/libraries/RelayControl/src/RelayControl.cpp:127-133 | after a voltage trigger, solar power short of the load inside the band returns to what that trigger chose |
| `RelayControl.AsByte` | src/libraries/RelayControl/src/RelayControl.cpp:86-88 | a bool stored into a uint8_t is 1 for true and 0 for false |
| `RelayControl.Relay.constructor` | src/libraries/RelayControl/src/RelayControl.cpp:15-33 | corrected: pin LOW; each parameter that is set replaces the header default |
| `RelayControl.Relay.AsWritten` | src/libraries/RelayControl/src/RelayControl.cpp:15-33 | as written: pin LOW; the settings the guards compute (SettingsAsWritten) |
| `RelayControl.Relay.SetRelay` | src/libraries/RelayControl/src/RelayControl.cpp:35-46 | returns `state`; pin HIGH for 1, LOW for 0, untouched otherwise; `relay_state` never changes |
| `RelayControl.ToGrid` | src/libraries/RelayControl/src/RelayControl.cpp:53-57 | no contract of its own: the outputs switchToGrid leaves (pin LOW, `relay_state` 0), used by ByVoltage and PrioritizeSolar; Relay.SwitchToGrid has the same effect on the fields |
| `RelayControl.ToBattery` | src/libraries/RelayControl/src/RelayControl.cpp:63-67 | no contract of its own: the outputs switchToBattery leaves (pin HIGH, `relay_state` 1), used by ByVoltage and PrioritizeSolar; Relay.SwitchToBattery has the same effect on the fields |
| `RelayControl.Relay.SwitchToGrid` | src/libraries/RelayControl/src/RelayControl.cpp:53-57 | pin LOW, `relay_state` 0, returns false |
| `RelayControl.Relay.SwitchToBattery` | src/libraries/RelayControl/src/RelayControl.cpp:63-67 | pin HIGH, `relay_state` 1, returns true |
| `RelayControl.Relay.PvExceedsLoad` | src/libraries/RelayControl/src/RelayControl.cpp:149-163 | returns the verdict and stores it in `pv_exceeds_load` |
| `RelayControl.Relay.SetRelayByBatVoltage` | src/libraries/RelayControl/src/RelayControl.cpp:81-93 | changes the relay, pin and `base_state` and returns as ByVoltage says, keeping the invariant |
| `RelayControl.Relay.SetRelayPrioritizeSolar` | src/libraries/RelayControl/src/RelayControl.cpp:109-137 | changes the relay, pin, `base_state` and `pv_exceeds_load` and returns as PrioritizeSolar says, keeping the invariant |

## Left out

- `VEDirect::begin` (VEDirect.cpp:31-43): it opens the serial port at VED_BAUD_RATE and reports whether a byte arrives within 500 ms. It is not part of a read and its only logic is real-time waiting, so it is not modelled; the baud rate appears only as the constant `BaudRate`. The destructor holds no code.
- Hardware and time: `HardwareSerial`, `millis()` and the console are inputs, recorded as a stream of observations and a list of clock readings. A used-up clock is treated as a timeout. Real timing, interrupts and the UART buffer are not modelled.
- Console output: `Serial.println` is modelled as a ghost list of printed items. `TimeoutNotice` stands for the literal "VESerial Timeout". The text of the echoed line is kept as a C string.
- Pins: `pinMode` and `digitalWrite` are modelled as the ghost field `pinHigh`; the pin number is only stored.
- `strtok` writes NULs into the line buffer as it splits. The model splits a copy instead. Nothing reads the buffer afterwards, so the result is the same.
- `strtok` returning NULL: the C code then dereferences a null pointer (`strcmp_P(NULL, …)` or `value_str[0]`). That is undefined behaviour. The model ends the read with value 0 and the outcome `NullLabel` or `NullValue` instead.
- `sscanf` with `%ld`: a value too large for a `long` is undefined behaviour in C. The model truncates it to 32 bits.
- PROGMEM: the label table is in program memory and read with `strcmp_P`. The model uses the plain table.
- `VEDirect::read` with `target >= VE_LAST_LABEL` reads past `ved_labels`. The model requires a valid target.
- `RelayControl.Relay`: the class uses the 32-bit `int` functions (`PvVerdict`, `SettingsAsWritten`). On a 16-bit `int` the `uint16_t` operands promote to `unsigned int`, so the sum and difference in `pvExceedsLoad` wrap and `watts_diff > -1` never holds. This is modelled by the functions `PvVerdictOn16BitInt` and `SettingsAsWrittenOn16BitInt` and their lemmas, not by a second class. `battery_min_v > -1` and `battery_max_v > -1` never hold at either width, because `uint32_t` is then `unsigned long` and -1 still converts to 0xFFFFFFFF.
- `VEDirectProps.FirstMatchWins`, `HitRun`, `MissLine`, `MissesThen`, `BudgetRunsOut`, `VEDirectReads.ReadHit`, `ReadFirstMatch`, `ReadBudget`: a line must leave no NUL in the buffer, fit it, and spend fewer than VED_MAX_READ_LOOPS loops. Other lines (a NUL, an unfinished line) are covered only by the per-pass lemmas (`TakeLineFacts`, `DecideFacts`, `RoundFacts`, `RunFacts`) and by `OverlongLine`.
- A silent line with `serial_timout` at 0xFFFFFFFF: the source never returns. The model's recorded clock is finite, so its read stops when the recording runs out; `SilenceNeverEndsAtMaxTimeout` shows that this is the only way it stops.
- `RelayControl.Relay.AsWritten`: fields the constructor leaves untouched start at 0 in the model (`relay_state`, `base_state`, `pv_exceeds_load`). In the source they are whatever the object's storage held.
- The display and application files that use these two libraries, and any concurrency between them, are not part of this model.

## Findings

| source | as written | input that shows it | evidently intended | confidence | as-written member | corrected member |
|---|---|---|---|---|---|---|
| src/libraries/VictronVEDirectArduino/src/VEDirect.cpp:24 | `serial_timout = serial_timout;` assigns the parameter to itself, so the member keeps the value it had before the constructor ran: 0 for an object of static storage duration (such as a global reader), indeterminate for one on the stack | a global `VEDirect(Serial3)`, then a read when no byte is pending for 1 ms: it times out after 1 ms instead of 5000 | `this->serial_timout = serial_timout;` | high, not executed | `VictronVEDirect.VEDirect.AsWritten`, `VEDirectReads.ZeroTimeoutExpires` | `VictronVEDirect.VEDirect.constructor`, `VEDirectReads.DefaultTimeoutWaits` |
| src/libraries/VictronVEDirectArduino/src/VEDirect.cpp:54-82 | `char line[VED_LINE_SIZE]` holds 30 bytes. A line of exactly 30 data bytes leaves `idx == 30`. `line[idx] = '\0'` then writes one byte past the buffer | a line of 30 data bytes followed by `\r\n` | a buffer of `VED_LINE_SIZE + 1` bytes, or a limit of `VED_LINE_SIZE - 1` data bytes | high, not executed | `VEDirectReads.TerminatorOverrunsAsWritten` | `VictronVEDirect.VEDirect.ReadLine`, `VEDirectReads.TerminatorFits` |
| src/libraries/RelayControl/src/RelayControl.cpp:24-29 | `battery_min_v > -1` compares the `uint32_t` with 0xFFFFFFFF, with a 32-bit or a 16-bit `int` alike, which is never true, so the thresholds passed are never applied | `Relay(pin, 12000, 14400)` keeps 12700 and 13600 mV | apply a threshold when it is not the "not set" marker | high, not executed | `RelayControl.SettingsAsWrittenIgnoreThresholds` | `RelayControl.SettingsIntendedDefaults`, `RelayControl.Relay.constructor` |
| src/libraries/RelayControl/src/RelayControl.cpp:30-32 | the guard tests the member `this->watts_diff` (5) rather than the parameter. With a 32-bit `int`, 5 > -1 holds, so the parameter is always taken, including its "not set" default. With a 16-bit `int` it compares 5 with 65535u and never holds, so a differential that is passed is never taken | 32-bit `int`: `Relay(pin)` gets `watts_diff` 65535 W, so `pvExceedsLoad` almost always returns 2. 16-bit `int`: `Relay(pin, 12000, 14400, 10)` keeps 5 W | keep the default of 5 W unless a differential is passed | high, not executed | `RelayControl.SettingsAsWrittenExample`, `RelayControl.SettingsOn16BitIntAreDefaults` | `RelayControl.SettingsIntendedDefaults`, `RelayControl.Relay.constructor` |
