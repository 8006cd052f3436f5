# Servo controller service — a Dafny model

The service runs on a Raspberry Pi and drives one hobby servo. A phone talks
to it over an RFCOMM (Bluetooth) socket with newline-terminated text commands
(`PING`, `STATUS`, `CALIBRAR`, `SET_ANGLE:NN`, `GET_ANGLE`, `STOP`,
`SHUTDOWN`, `LIST`). A small HTTP server offers the same moves as JSON
routes. This project models the core of that service in Dafny and proves
properties of the model.

The model has these parts:

- **ServoControl** (`servo_control.dfy`) is the motion controller:
  - clamping;
  - the angle-to-duty-cycle conversion;
  - `set_angle` against a PWM driver whose writes may fail;
  - the sweep lifecycle (start, stop, the worker's run);
  - `cleanup`;
  - the constructor.
- **Sweep** (`sweep.dfy`) gives the exact list of targets the background
  sweep worker passes to `set_angle`, including cancellation at any of its
  event checks.
- **Utils** (`utils.dfy`) covers:
  - `validate_angle`;
  - the `SET_ANGLE` grammar (the regular expression as a parser, proved
    sound and complete);
  - `normalize_command`;
  - `is_valid_command`;
  - the filter-and-sort step of `list_flight_files`.
- **Service** (`service.dfy`) holds `process_command`, the dispatcher of
  `main.py`, one function per branch. It also has the calibration's
  completion and `shutdown`.
- **BluetoothServer** (`bluetooth_server.dfy`) holds the line-framing loop of
  `handle_client`. It is a fold over the reads `recv` returns and is generic
  over the callback's state. The module also keeps the connection
  bookkeeping of `close_client` and `stop`.
- **HttpServer** (`http_server.dfy`) gives the route decisions of `do_GET`
  and `do_POST`.
- The helper modules are **Common** (`Option`), **Numbers** (Python's
  `int()` on floats, decimal text), **Text** (`strip`, `upper`, `join`,
  splitting, string order) and **Sorting** (`sorted()` on strings).

Hardware, time and the outside world become parameters:

- whether a PWM duty write raises (`writeOk`, `moveOk`);
- what the flights directory lists;
- which reads arrive on the socket;
- at which event check a sweep sees its stop event.

The rest of the model uses the corrected controller of the "Findings" below.

Where the service's documented behaviour and its code disagree, the model
follows the code:

- **Reply framing.** A reply gets a newline only when it does not already end
  in one, so a reply may carry more than one newline. An empty reply sends
  nothing.
- **Line trimming.** A received line is stripped of all surrounding
  whitespace, not just a trailing carriage return.
- **GET_ANGLE and STOP.** These need only a servo object, initialized or not.
- **POST body.** The body is parsed before the path is looked at. Malformed
  JSON is a 400 on every path, unknown ones included.
- **POST /angle.** The range check applies to the integer `int()` produced,
  so -0.5 and 180.9 are accepted as 0 and 180. An angle of the wrong JSON
  type reaches the catch-all handler and is answered 500.

## Model

| member | source | states |
|---|---|---|
| Numbers.Truncate | service/main.py:266 | `int()` of a float rounds toward zero: for x ≥ 0 it is the floor, for x < 0 the ceiling |
| Numbers.NatToString | service/main.py:267 | the decimal text of a reply's integer is digits only, has no leading zero, and reads back as the number |
| Text.TrimStart | service/utils.py:151 | `lstrip` removes exactly a whitespace prefix and leaves text that does not start with whitespace |
| Text.TrimEnd | service/utils.py:151 | `rstrip` removes exactly a whitespace suffix and leaves text that does not end with whitespace |
| Text.StripIsTrims | service/utils.py:151 | `strip`, peeling whitespace off either end, is `lstrip` followed by `rstrip` |
| Text.StripEnds | service/utils.py:151 | stripped text is empty or neither starts nor ends with whitespace |
| Text.StripEmpty | service/utils.py:151 | text strips to the empty string exactly when it is all whitespace |
| Text.StripIdempotent | service/utils.py:151 | stripping stripped text changes nothing |
| Text.Upper | service/utils.py:151 | `upper` keeps the length and maps every character through the ASCII upper-casing |
| Text.SplitJoin | service/main.py:288 | a comma-joined list of comma-free names splits back into the same list |
| Text.LexLeTotal | service/utils.py:188 | Python's string order compares any two strings |
| Text.LexLeTransitive | service/utils.py:188 | Python's string order is transitive |
| Text.LexLeAntisymmetric | service/utils.py:188 | two strings each at most the other are equal |
| Sorting.Sort | service/utils.py:188 | `sorted()` returns an ordered permutation of its input |
| Sorting.SortedUnique | service/utils.py:188 | only one ordered permutation exists, so the sorted listing is determined by the names alone |
| Utils.ValidateAngle | service/utils.py:13-32 | accepted iff the value is a number in [0, 180], both bounds inclusive, and then returned unchanged with an empty message; a non-number gets the "not a number" message, a number out of range gets the range message, and no rejection carries an angle |
| Utils.ReadNumeral | service/utils.py:46 | what the numeral group `[0-9]+\.?[0-9]*` reads is well formed and spells the text exactly |
| Utils.ReadNumeralComplete | service/utils.py:46 | every well-formed numeral is read back from its own text |
| Utils.MatchSetAngle | service/utils.py:45-49 | a match is well formed (keyword in any case, whitespace around the colon, a numeral, an optional final newline) and reassembles to the command |
| Utils.MatchSetAngleComplete | service/utils.py:45-49 | every command the pattern describes is matched, with the same parts |
| Utils.ParseSetAngle | service/utils.py:35-53 | a rejection for format happens exactly when the pattern does not match; an accepted angle lies in [0, 180] with an empty message; every rejection carries the format or range message |
| Utils.ParseAcceptsUpTo180 | service/utils.py:45-53 | a command in the grammar is accepted iff its numeral's value is at most 180, then carries that value, and otherwise gets the range message |
| Utils.ParseRejectsMalformed | service/utils.py:46-50 | `SET_ANGLE:abc`, `SET_ANGLE:-5` and `SET_ANGLE:.5` are format errors |
| Utils.ParseAcceptsZero | service/utils.py:26-29 | `SET_ANGLE:0` is accepted as 0 |
| Utils.ParseAcceptsTop | service/utils.py:46-47 | `set_angle : 180` is accepted as 180: case-insensitive keyword, blanks around the colon, inclusive top |
| Utils.ParseRejectsPastTop | service/utils.py:26-27 | `SET_ANGLE:180.5` is a range error, not a format error |
| Utils.NormalizeIdempotent | service/utils.py:141-151 | normalising a normalised command changes nothing |
| Utils.IsValidCommand | service/utils.py:154-169 | a command is valid iff its normalised form is non-empty and uses only `A-Z 0-9 _ : .`; blank text is never valid |
| Utils.IsValidCommandNormalized | service/utils.py:154-169 | validity is invariant under case and surrounding whitespace: a command is valid iff its normalised form is |
| Utils.FilterFlightFiles | service/utils.py:187 | a name is kept iff it is listed and ends in `.json` or `.txt` |
| Utils.ListFlightFiles | service/utils.py:172-190 | a missing or unreadable directory gives no files; otherwise the result is sorted, holds exactly the `.json`/`.txt` names each as often as listed |
| ServoControl.Clamp | service/servo_control.py:131 | the clamped angle lies in [0, 180], equals the angle inside that range, and is the nearer bound outside it |
| ServoControl.AngleToDuty | service/servo_control.py:97-112 | angles at or below 0 give the minimum duty, at or above 180 the maximum, and every duty lies between them |
| ServoControl.DutyRoundTrip | service/servo_control.py:108-111 | on [0, 180] the conversion is invertible: the duty cycle gives back the angle |
| ServoControl.AngleToDutyMonotone | service/servo_control.py:108-111 | a larger angle never gives a smaller duty cycle |
| ServoControl.SetAngle | service/servo_control.py:114-156 | the move succeeds iff the controller is initialized, has a PWM and the write does not raise; on success the stored angle is the clamped angle; on failure nothing changes; the controller invariant is kept |
| ServoControl.SetAngleClampsExamples | service/servo_control.py:131 | -10 is stored as 0 and 999 as 180 |
| ServoControl.StopSweepAsWritten | service/servo_control.py:234-241 | a sweep on the internal event is stopped; one on a caller's event keeps running |
| ServoControl.StopSweep | service/servo_control.py:234-241 | no sweep runs afterwards, nothing else changes, and stopping an idle controller is a no-op |
| ServoControl.StartSweepAsWritten | service/servo_control.py:167-191 | an uninitialized controller ignores the call; otherwise the new worker runs, and a caller-event worker it failed to stop becomes a stray |
| ServoControl.StartSweep | service/servo_control.py:167-191 | an uninitialized controller ignores the call; otherwise exactly the new worker runs and the invariant is kept |
| ServoControl.StopMissesCallerSweep | service/servo_control.py:238-241 | as written, stopping a caller-event sweep leaves it running and the next sweep adds a stray worker |
| ServoControl.StopCancelsCallerSweep | service/servo_control.py:234-241 | corrected, the same sequence stops the sweep and leaves no stray worker |
| ServoControl.StopAgreesWithoutCallerSweep | service/servo_control.py:234-241 | the stop as written and the corrected stop agree exactly when the running sweep, if any, is not one that polls a caller's event |
| ServoControl.ApplyTargets | service/servo_control.py:199-220 | issuing the targets keeps initialization, PWM and the invariant, and moves nothing on a controller that cannot move |
| ServoControl.ApplyTargetsEndsAtLast | service/servo_control.py:207-209 | when the last write succeeds the controller ends at the clamped last target |
| ServoControl.RunWorker | service/servo_control.py:193-228 | after the worker's run no sweep is live, initialization is unchanged and the invariant is kept; without a worker nothing happens |
| ServoControl.SweepEndsAtTarget | service/servo_control.py:207-220 | an uncancelled sweep whose writes succeed ends at the clamped endpoint, whatever the step |
| ServoControl.Cleanup | service/servo_control.py:252-270 | corrected stop; afterwards the controller is uninitialized, no sweep runs, and the angle is kept |
| ServoControl.CleanupIsTerminal | service/servo_control.py:124-126 | after cleanup every move is refused and changes nothing, and no sweep starts |
| ServoControl.NewServoAsWritten | service/servo_control.py:51-74 | the controller reports 90 degrees, no sweep, and is initialized iff the PWM started |
| ServoControl.InitialMoveIsRefused | service/servo_control.py:62-67 | as written, a successful set-up reports 90 degrees while the PWM drives duty 0, breaking the controller invariant |
| ServoControl.NewServo | service/servo_control.py:51-74 | corrected, the controller satisfies its invariant (when initialized, the PWM drives the duty of its angle), reports 90 degrees, runs no sweep, and is initialized iff the set-up and the first write succeed |
| Sweep.SweepReachesEndpoint | service/servo_control.py:199-220 | an uncancelled sweep ends exactly at `to`; every earlier target is `from` moved by whole steps toward `to` without passing it, and one more step would pass it |
| Sweep.SweepCancelIsPrefix | service/servo_control.py:202-220 | a sweep that first sees its stop event at check k issues exactly the first k targets of the uncancelled sweep |
| Sweep.SweepExampleForcesEndpoint | service/servo_control.py:199-209 | 0 to 100 in steps of 30 visits 0, 30, 60, 90 and then the forced endpoint 100 |
| Sweep.SweepInPlace | service/servo_control.py:210-220 | a sweep to its own start issues the start and then the endpoint |
| BluetoothServer.WireText | service/bluetooth_server.py:186-191 | an empty reply sends nothing; otherwise the sent text starts with the reply, ends in a newline, and adds at most one character |
| BluetoothServer.WireTextIdempotent | service/bluetooth_server.py:188-189 | framing a framed reply adds nothing |
| BluetoothServer.HandleLine | service/bluetooth_server.py:175-199 | a blank line does nothing; otherwise the stripped line is the one command dispatched; without a callback nothing is sent |
| BluetoothServer.Drain | service/bluetooth_server.py:170-172 | no newline is left in the buffer, and without a callback nothing is sent |
| BluetoothServer.DrainIsSplit | service/bluetooth_server.py:170-178 | the loop dispatches the stripped non-blank pieces of `split('\n')` except the last, and keeps the last as the buffer |
| BluetoothServer.DrainAppend | service/bluetooth_server.py:165-172 | draining `x + y` is draining `x` and then the leftover followed by `y` |
| BluetoothServer.Feed | service/bluetooth_server.py:155-204 | a closed session ignores reads; an empty read or socket error ends it; an undecodable chunk empties the buffer and the connection goes on |
| BluetoothServer.FeedAppend | service/bluetooth_server.py:164-172 | two chunks received one after the other act as their concatenation |
| BluetoothServer.RunDependsOnConcatenation | service/bluetooth_server.py:155-172 | when every chunk decodes, everything dispatched, sent and kept depends only on the concatenated text, not on how `recv` split it |
| BluetoothServer.RunStopsAtClose | service/bluetooth_server.py:158-161 | after the client disconnects nothing more is read, dispatched or sent |
| BluetoothServer.DecodeErrorDiscardsPartialLine | service/bluetooth_server.py:201-204 | "PI", a bad chunk, then "NG\n" dispatches "NG": the decode error discards the partial line |
| BluetoothServer.FreshLineAnswered | service/bluetooth_server.py:175-197 | a trimmed line on a fresh connection is dispatched once and exactly its framed reply, or the internal-error line, goes back |
| BluetoothServer.NoCallbackSendsNothing | service/bluetooth_server.py:198-199 | with no callback set nothing is ever sent |
| BluetoothServer.RaisingCallbackReportsInternalError | service/bluetooth_server.py:193-197 | a raising callback makes exactly `ERR:INTERNAL_ERROR\n` go out and the connection stays open |
| BluetoothServer.CloseClient | service/bluetooth_server.py:217-229 | afterwards no client is connected; a connected client's address is cleared; with no client nothing changes |
| BluetoothServer.CloseClientIdempotent | service/bluetooth_server.py:217-229 | closing twice is closing once |
| BluetoothServer.Stop | service/bluetooth_server.py:257-276 | afterwards the server is not running, has no client and no listening socket |
| BluetoothServer.StopIdempotent | service/bluetooth_server.py:257-276 | stopping twice is stopping once |
| BluetoothServer.HandleClient | service/bluetooth_server.py:143-215 | with no client nothing happens; a session that ended has its client closed |
| Service.StatusJson | service/main.py:195-202 | the STATUS reply is a JSON object text whose comma-separated members are, in order, gps false, bluetooth "connected", the configured pin, the truncated angle (0 without a servo object) and the initialized flag (false without one) |
| Service.BoolText | service/utils.py:138 | a boolean is written as the JSON literal `true` exactly when it is true |
| Numbers.IntToString | service/utils.py:138 | the decimal text of an integer is non-empty, starts with `-` exactly when the integer is negative, and is otherwise all digits |
| Service.Status | service/main.py:194-202 | STATUS changes nothing; it reports the processing error exactly when the pin is not configured, otherwise the status JSON |
| Service.Calibrate | service/main.py:205-240 | corrected stop; without an initialized servo it answers not-initialized and changes nothing; otherwise it answers CALIBRACAO_OK with a caller-event sweep running and the angle unchanged |
| Service.SetAngleCommand | service/main.py:243-259 | without an initialized servo nothing happens; a rejected argument echoes the parser's message; an accepted one answers OK iff the write succeeds, and then the servo holds the parsed angle |
| Service.GetAngle | service/main.py:262-267 | GET_ANGLE changes nothing and answers not-initialized exactly when there is no servo object, otherwise the truncated angle |
| Service.StopCommand | service/main.py:270-275 | corrected stop; STOP answers not-initialized exactly when there is no servo object; otherwise no sweep runs and the angle is kept |
| Service.ListCommand | service/main.py:284-290 | LIST answers NO_FILES exactly when no flight file is listed; otherwise `FILES:` followed by names that split back into the sorted listing |
| Service.Dispatch | service/main.py:189-295 | corrected stop; every command changes at most the servo, keeps the servo invariant, and an unrecognised command answers ERR:UNKNOWN_COMMAND and changes nothing |
| Service.ProcessCommand | service/main.py:175-299 | corrected stop; the dispatcher's guarantees hold for every raw line after normalisation |
| Service.Routes | service/main.py:189-290 | each keyword reaches its own branch |
| Service.SetAngleRoute | service/main.py:243 | every command starting with SET_ANGLE reaches the SET_ANGLE branch |
| Service.DispatchIgnoresCaseAndPadding | service/main.py:186 | case and surrounding whitespace never change what a command does |
| Service.PaddedLowerPing | service/main.py:186-191 | a lower-case `ping` with whitespace on both sides normalises to PING |
| Service.UnknownExactlyWhenUnrecognized | service/main.py:292-295 | ERR:UNKNOWN_COMMAND is the reply iff the command is none of the known ones |
| Service.InitializationGuards | service/main.py:206-207 | CALIBRAR and SET_ANGLE need an initialized servo and otherwise touch nothing; GET_ANGLE and STOP need only the object |
| Service.SetThenGet | service/main.py:254-267 | after a successful SET_ANGLE, GET_ANGLE reads back the integer part of the angle |
| Service.SetZeroThenGet | service/main.py:248-267 | `SET_ANGLE:0` then `GET_ANGLE` reads `ANGLE:0` |
| Service.FinishCalibration | service/main.py:228-234 | once the calibration worker and its waiter finish, no sweep runs, only the servo changed, and the invariant is kept |
| Service.CalibrationEndsInMiddle | service/main.py:232-234 | a calibration whose last write succeeds leaves the servo at the middle of the configured range |
| Service.Shutdown | service/main.py:322-343 | corrected stop; a stopped service is left as it is; otherwise the radio is stopped, the servo released, and the service no longer runs |
| Service.ShutdownIdempotent | service/main.py:326-327 | shutting down twice is shutting down once |
| Service.NoMovesAfterShutdown | service/main.py:339-340 | after shutdown no CALIBRAR or SET_ANGLE command moves the servo |
| Service.AnsweredOverBluetooth | service/bluetooth_server.py:183-191 | over the radio a line is answered with the dispatcher's reply plus one newline, and the servo ends as the dispatcher leaves it |
| Service.PingOverBluetooth | service/main.py:190-191 | a line that normalises to PING is answered `PONG\n` and changes nothing |
| HttpServer.HandleGet | service/http_server.py:27-78 | GET never changes the servo and answers 404 exactly for unknown paths |
| HttpServer.Calibrate | service/http_server.py:97-108 | POST /calibrate leaves no sweep running, keeps the invariant, and ends at 90 degrees when the final write succeeds |
| HttpServer.SetAngleRoute | service/http_server.py:116-134 | POST /angle changes the servo only when it answers 200, and keeps the invariant |
| HttpServer.HandlePost | service/http_server.py:80-153 | POST keeps the servo object and its invariant and answers 200, 400, 404 or 500 |
| HttpServer.PostNotFoundExactly | service/http_server.py:145-146 | a body that parses lets the path decide: 404 exactly for unknown paths |
| HttpServer.MalformedJsonFirst | service/http_server.py:148-149 | malformed JSON is answered 400 on every path |
| HttpServer.GetAngleRoute | service/http_server.py:49-55 | GET /angle answers 500 iff there is no initialized servo, else the truncated angle |
| HttpServer.PostAngleChecksServoFirst | service/http_server.py:111-119 | POST /angle checks the servo before the body; with a servo a missing angle is 400 |
| HttpServer.PostAngleRange | service/http_server.py:122-125 | a number is refused with 400 iff its truncation lies outside [0, 180] |
| HttpServer.PostAngleRangeExamples | service/http_server.py:122-125 | 180.9 and -0.5 pass as 180 and 0; 181 and -1 are refused |
| HttpServer.PostAngleOutcome | service/http_server.py:127-131 | an in-range number is answered 200 with the integer iff the write succeeds, and the servo then holds it; otherwise 500 and nothing moves |
| HttpServer.PostAngleConversionErrors | service/http_server.py:133-134 | an unconvertible angle is 400 and a wrongly typed one 500 |
| HttpServer.CalibrationEndsAt90 | service/http_server.py:97-108 | a calibration whose final move succeeds answers 200 and leaves the servo idle at 90 degrees |
| HttpServer.StopNeedsOnlyServoObject | service/http_server.py:137-143 | POST /stop answers 200 iff a servo object exists, and then no sweep runs and the angle is kept |

## Left out

- Threads, the controller's lock, sleeps, the 2-second join timeout and the
  polling loops of `wait_for_sweep` and POST /calibrate are not modelled.
  A sweep worker's whole run is one step (`ServoControl.RunWorker`). The
  waiter's effect is `Service.FinishCalibration`. A stop is assumed to be
  seen within the join timeout.
- GPIO and PWM calls are not modelled. Each duty write's success is a
  parameter.
- Python floats are modelled as exact reals: no rounding of the duty cycle,
  the sweep steps or parsed numerals.
- ServoControl.RunWorker: requires a positive step. A zero or negative step
  makes the source's loop run forever, and calibration always uses 10.
- Utils.ValidateAngle: takes the result of `float()` (or its failure) rather
  than text. Signs, exponents, `inf` and `nan` in arbitrary strings are not
  parsed. Inside `parse_set_angle_command` the text is always a plain
  numeral, which `Utils.ReadNumeral` reads.
- Upper-casing and the case-insensitive keyword match are ASCII only.
  Python's `str.upper` also maps non-ASCII letters (and may lengthen text
  such as `ß`), and `re.IGNORECASE` also equates a few non-ASCII letters with
  ASCII ones (`ſ` with `s`, `ı` with `i`).
- Sockets, `accept_connection`, `run_forever`, `start` and `__init__` of the
  Bluetooth server are not modelled. A failed `send` of a reply is not
  modelled either. The source catches it (line 194) and tries to send
  `ERR:INTERNAL_ERROR` (line 197); only a failure of that second send
  reaches the `OSError` handler (line 206) and ends the connection. The
  UTF-8 decoder is an oracle that classifies each chunk.
- ServoControl.Cleanup: uses the corrected `stop_sweep`. As written
  (`service/servo_control.py:260`, which sets only the internal event), a
  sweep started by CALIBRAR on its own event survives cleanup;
  `ServoControl.StopAgreesWithoutCallerSweep` shows the two agree on every
  other state.
- Service.StopCommand: uses the corrected `stop_sweep`. As written
  (`service/main.py:274`), STOP after CALIBRAR leaves the calibration sweep
  running (`ServoControl.StopMissesCallerSweep`).
- Service.Calibrate: uses the corrected `stop_sweep`. As written
  (`service/main.py:210`), a second CALIBRAR while the first one's sweep
  runs leaves the old worker running beside the new one, so the servo
  invariant (no stray worker) is not kept (`ServoControl.StopMissesCallerSweep`).
- Service.Dispatch: keeps the servo invariant only with the corrected stop,
  because its CALIBRAR and STOP branches are `Service.Calibrate` and
  `Service.StopCommand`.
- Service.ProcessCommand: inherits the corrected stop from `Service.Dispatch`.
- Service.Shutdown: releases the servo through `ServoControl.Cleanup`, so it
  inherits the corrected stop in the same way.
- ServoControl.NewServo: a failed first write leaves the corrected
  controller uninitialized. That is a choice of the correction, not the
  source's behaviour: `set_angle` swallows the exception
  (`service/servo_control.py:154-156`), so no handler of `__init__` sees it.
  Doing the move after setting `is_initialized`, as the source's order
  suggests, would leave it initialized with the PWM at duty 0.
- Service.StatusJson: the key quoting and the member texts are fixed
  strings; `json.dumps` escaping is not modelled because no value here
  needs it.
- BluetoothServer.CloseClient: a stale address is kept when no socket is
  open, exactly as the source does.
- For HTTP, `urlparse`, the query string, a malformed Content-Length and
  `json.loads` are not modelled. The body arrives already classified. The
  root route's and every reply's JSON text are not modelled; replies are
  tagged by meaning. `main()` of the HTTP server is left out too.
- HttpServer.SetAngleRoute: folds `int()` raising OverflowError (JSON
  `Infinity`) into the wrongly typed case. Both reach the catch-all and get
  500.
- Exceptions inside `process_command` are not modelled, except the missing
  servo pin of STATUS.
- The YAML configuration loading (`load_config`), `initialize` and `run` of
  `main.py`, the signal handler, `logger.py`, the console client and the
  filesystem and system helpers of `utils.py` are left out. The helpers are
  `ensure_directory_exists`, `ensure_file_writable`, `get_system_info`,
  `get_bluetooth_mac_address` and the permission checks.
- `format_json_response` is modelled only as the compact STATUS text built
  by `Service.StatusJson`.

## Findings

| source | as written | input that shows it | evidently intended | confidence | as-written member | corrected member |
|---|---|---|---|---|---|---|
| service/servo_control.py:62-67 | the move to 90 degrees happens before `is_initialized` is set, so `set_angle` refuses it | any successful set-up, e.g. duty range 2.5 to 12.5: the controller reports 90 degrees while the PWM drives duty 0 instead of 7.5 (`ServoControl.InitialMoveIsRefused`) | the PWM is driven to the duty cycle of 90 degrees, so the reported angle matches the output | not executed | ServoControl.NewServoAsWritten | ServoControl.NewServo |
| service/servo_control.py:234-241 | `stop_sweep` sets only the internal event, but CALIBRAR (service/main.py:221-224) starts the sweep on its own event | CALIBRAR then STOP: the sweep keeps running; CALIBRAR again leaves the old worker running beside the new one (`ServoControl.StopMissesCallerSweep`; corrected: `ServoControl.StopCancelsCallerSweep`) | stopping cancels whichever event the running worker polls | not executed | ServoControl.StopSweepAsWritten | ServoControl.StopSweep |
