/**
  The command dispatcher of main.py: `process_command` maps one line
  received over Bluetooth to a reply and to the effect it has on the servo
  controller, and `shutdown` releases the Bluetooth server and the servo.

  The controller is the corrected one of module ServoControl; whether a PWM
  write raises is a parameter, and so is the directory listing the LIST
  command reads.
 */
module Service {
  import opened Common
  import opened Numbers
  import opened Text
  import opened Utils
  import opened ServoControl
  import BluetoothServer

  /** The parts of the configuration the dispatcher reads. */
  datatype Config = Config(
    servoPin: Option<int>,     // servo.pwm_pin; a missing key raises KeyError
    sweepFrom: Option<real>,   // calibration.sweep_angle_from, default 0
    sweepTo: Option<real>      // calibration.sweep_angle_to, default 180
  )

  /** The calibration sweep's endpoints with the defaults of lines 213-215. */
  function CalibrationFrom(c: Config): real {
    match c.sweepFrom case Some(a) => a case None => 0.0
  }

  function CalibrationTo(c: Config): real {
    match c.sweepTo case Some(a) => a case None => 180.0
  }

  /** The step every calibration sweep uses (line 224). */
  const CalibrationStep: real := 10.0

  datatype Service = Service(
    servo: Option<Servo>,
    config: Config,
    flightListing: Option<seq<string>>,   // what reading the flights directory yields
    running: bool,
    radio: Option<BluetoothServer.Server>
  )

  const Pong: string := "PONG"
  const CalibrationStarted: string := "CALIBRACAO_OK"
  const Ok: string := "OK"
  const Stopped: string := "STOPPED"
  const Denied: string := "DENIED"
  const NoFiles: string := "NO_FILES"
  const NotInitialized: string := "ERR:SERVO_NOT_INITIALIZED"
  const FailedToMove: string := "ERR:FAILED_TO_MOVE_SERVO"
  const UnknownCommand: string := "ERR:UNKNOWN_COMMAND"
  const ProcessingError: string := "ERR:PROCESSING_ERROR"

  /** The exact commands the dispatcher knows; SET_ANGLE is recognised by prefix. */
  const Keywords: set<string> := {"PING", "STATUS", "CALIBRAR", "GET_ANGLE", "STOP", "SHUTDOWN", "LIST"}

  predicate Recognized(cmd: string) {
    cmd in Keywords || StartsWith(cmd, "SET_ANGLE")
  }

  /** A servo object exists and finished its set-up. */
  predicate Ready(svc: Service) {
    svc.servo.Some? && svc.servo.value.initialized
  }

  /** The servo, when there is one, satisfies the controller's invariant. */
  predicate ServoValid(svc: Service) {
    svc.servo.Some? ==> Valid(svc.servo.value)
  }

  /** The JSON text of a boolean. */
  function BoolText(b: bool): (t: string)
    ensures t == "true" <==> b
    ensures ',' !in t
  {
    if b then "true" else "false"
  }

  /** One compact JSON member, `"key":value`. */
  function Member(key: string, value: string): string {
    "\"" + key + "\":" + value
  }

  /**
    The STATUS reply (lines 195-202): compact JSON, keys in insertion
    order, with the angle truncated to an integer and 0 and false when there
    is no servo object. Cutting the braces off and splitting on commas
    gives back the five members, so each value can be read off its own
    member.
   */
  function StatusJson(pin: int, servo: Option<Servo>): (j: string)
    ensures |j| >= 2 && j[0] == '{' && j[|j| - 1] == '}'
    ensures var ms := Split(j[1..|j| - 1], ',');
      && |ms| == 5
      && ms[0] == Member("gps", "false")
      && ms[1] == Member("bluetooth", "\"connected\"")
      && ms[2] == Member("servo_pin", IntToString(pin))
      && ms[3] == Member("servo_angle", IntToString(if servo.Some? then Truncate(servo.value.currentAngle) else 0))
      && ms[4] == Member("servo_initialized", BoolText(servo.Some? && servo.value.initialized))
  {
    var angle := if servo.Some? then Truncate(servo.value.currentAngle) else 0;
    var members := StatusMembers(pin, angle, servo.Some? && servo.value.initialized);
    StatusMembersCommaFree(pin, angle, servo.Some? && servo.value.initialized);
    StatusMembersInOrder(pin, angle, servo.Some? && servo.value.initialized);
    SplitJoin(members, ',');
    Braced(Join(members, ','));
    "{" + Join(members, ',') + "}"
  }

  /** The five `"key":value` members of the STATUS reply, in order. */
  function StatusMembers(pin: int, angle: int, initialized: bool): seq<string> {
    [ Member("gps", "false"),
      Member("bluetooth", "\"connected\""),
      Member("servo_pin", IntToString(pin)),
      Member("servo_angle", IntToString(angle)),
      Member("servo_initialized", BoolText(initialized)) ]
  }

  /** The members one by one. */
  lemma StatusMembersInOrder(pin: int, angle: int, initialized: bool)
    ensures var ms := StatusMembers(pin, angle, initialized);
      && |ms| == 5
      && ms[0] == Member("gps", "false")
      && ms[1] == Member("bluetooth", "\"connected\"")
      && ms[2] == Member("servo_pin", IntToString(pin))
      && ms[3] == Member("servo_angle", IntToString(angle))
      && ms[4] == Member("servo_initialized", BoolText(initialized))
  {
  }

  /** None of the STATUS members holds a comma. */
  lemma StatusMembersCommaFree(pin: int, angle: int, initialized: bool)
    ensures var ms := StatusMembers(pin, angle, initialized);
      forall k :: 0 <= k < |ms| ==> ',' !in ms[k]
  {
    CommaFreeMember("gps", "false");
    CommaFreeMember("bluetooth", "\"connected\"");
    CommaFreeMember("servo_pin", IntToString(pin));
    CommaFreeMember("servo_angle", IntToString(angle));
    CommaFreeMember("servo_initialized", BoolText(initialized));
    CommaFreeFive(
      Member("gps", "false"),
      Member("bluetooth", "\"connected\""),
      Member("servo_pin", IntToString(pin)),
      Member("servo_angle", IntToString(angle)),
      Member("servo_initialized", BoolText(initialized)));
  }

  /** Five comma-free texts make a list of comma-free texts. */
  lemma CommaFreeFive(a: string, b: string, c: string, d: string, e: string)
    requires ',' !in a && ',' !in b && ',' !in c && ',' !in d && ',' !in e
    ensures var xs := [a, b, c, d, e]; forall k :: 0 <= k < |xs| ==> ',' !in xs[k]
  {
  }

  /** Text in braces: the braces at the ends, the text between them. */
  lemma Braced(inner: string)
    ensures var j := "{" + inner + "}";
      |j| >= 2 && j[0] == '{' && j[|j| - 1] == '}' && j[1..|j| - 1] == inner
  {
  }

  /** A member is comma-free when its key and value are. */
  lemma CommaFreeMember(key: string, value: string)
    requires ',' !in key && ',' !in value
    ensures ',' !in Member(key, value)
  {
  }

  /** The reply and the service after one command. */
  datatype Handled = Handled(reply: string, service: Service)

  /** What a command may change: the servo, and nothing else. */
  predicate Confined(svc: Service, h: Handled) {
    && h.reply != ""
    && h.service == svc.(servo := h.service.servo)
    && (h.service.servo.Some? <==> svc.servo.Some?)
    && (ServoValid(svc) ==> ServoValid(h.service))
  }

  /** STATUS (lines 194-202); a missing pin key raises and the catch-all (lines 297-299) reports it. */
  function Status(svc: Service): (h: Handled)
    ensures Confined(svc, h) && h.service == svc
    ensures svc.config.servoPin.None? <==> h.reply == ProcessingError
    ensures svc.config.servoPin.Some? ==> h.reply == StatusJson(svc.config.servoPin.value, svc.servo)
  {
    match svc.config.servoPin
    case None => Handled(ProcessingError, svc)
    case Some(pin) =>
      var j := StatusJson(pin, svc.servo);
      assert j[0] != ProcessingError[0];
      Handled(j, svc)
  }

  /**
    CALIBRAR (lines 205-240) up to its reply: on an initialized servo it
    stops any sweep and starts one on a caller's event, leaving the angle
    where it was until the worker moves it.
   */
  function Calibrate(svc: Service): (h: Handled)
    ensures Confined(svc, h)
    ensures !Ready(svc) ==> h == Handled(NotInitialized, svc)
    ensures Ready(svc) ==>
      && h.reply == CalibrationStarted
      && h.service.servo.value.sweep == Running(CallerEvent)
      && h.service.servo.value.currentAngle == svc.servo.value.currentAngle
      && h.service.servo.value.initialized
      && h.service.servo.value.hasPwm == svc.servo.value.hasPwm
  {
    if !Ready(svc) then Handled(NotInitialized, svc)
    else Handled(CalibrationStarted, svc.(servo := Some(StartSweep(StopSweep(svc.servo.value), CallerEvent))))
  }

  /**
    SET_ANGLE (lines 243-259). Without an initialized servo nothing
    happens. A rejected argument is reported as ERR: and the parser's
    message and moves nothing; an accepted one is answered OK exactly when
    the PWM write went through, and then the servo reports the parsed angle.
   */
  function SetAngleCommand(svc: Service, cmd: string, writeOk: bool): (h: Handled)
    ensures Confined(svc, h)
    ensures !Ready(svc) ==> h == Handled(NotInitialized, svc)
    ensures Ready(svc) && !ParseSetAngle(cmd).Valid() ==> h == Handled("ERR:" + ParseSetAngle(cmd).message, svc)
    ensures Ready(svc) && ParseSetAngle(cmd).Valid() ==>
      && (h.reply == Ok <==> svc.servo.value.hasPwm && writeOk)
      && (h.reply == Ok || h.reply == FailedToMove)
      && (h.reply == Ok ==> h.service.servo.value.currentAngle == ParseSetAngle(cmd).angle)
      && (h.reply != Ok ==> h.service == svc)
  {
    if !Ready(svc) then Handled(NotInitialized, svc)
    else
      match ParseSetAngle(cmd)
      case Rejected(message) => Handled("ERR:" + message, svc)
      case Accepted(angle) =>
        var m := SetAngle(svc.servo.value, angle, writeOk);
        Handled(if m.ok then Ok else FailedToMove, svc.(servo := Some(m.servo)))
  }

  /** GET_ANGLE (lines 262-267): needs only a servo object, initialized or not. */
  function GetAngle(svc: Service): (h: Handled)
    ensures Confined(svc, h) && h.service == svc
    ensures svc.servo.None? <==> h.reply == NotInitialized
    ensures svc.servo.Some? ==> h.reply == "ANGLE:" + IntToString(Truncate(svc.servo.value.currentAngle))
  {
    if svc.servo.None? then Handled(NotInitialized, svc)
    else
      var r := "ANGLE:" + IntToString(Truncate(svc.servo.value.currentAngle));
      assert r[0] != NotInitialized[0];
      Handled(r, svc)
  }

  /** STOP (lines 270-275): needs only a servo object; the sweep is stopped and nothing moves. */
  function StopCommand(svc: Service): (h: Handled)
    ensures Confined(svc, h)
    ensures svc.servo.None? <==> h.reply == NotInitialized
    ensures svc.servo.None? ==> h.service == svc
    ensures svc.servo.Some? ==>
      && h.reply == Stopped && !IsSweeping(h.service.servo.value)
      && h.service.servo.value.currentAngle == svc.servo.value.currentAngle
  {
    if svc.servo.None? then Handled(NotInitialized, svc)
    else Handled(Stopped, svc.(servo := Some(StopSweep(svc.servo.value))))
  }

  /**
    LIST (lines 284-290): the flight files in sorted order. They come back
    from the reply by splitting at commas whenever no name holds a comma.
   */
  function ListCommand(svc: Service): (h: Handled)
    ensures Confined(svc, h) && h.service == svc
    ensures ListFlightFiles(svc.flightListing) == [] <==> h.reply == NoFiles
    ensures ListFlightFiles(svc.flightListing) != [] ==> StartsWith(h.reply, "FILES:")
    ensures var files := ListFlightFiles(svc.flightListing);
      files != [] && (forall k :: 0 <= k < |files| ==> ',' !in files[k]) ==> Split(h.reply[6..], ',') == files
  {
    var files := ListFlightFiles(svc.flightListing);
    if files == [] then Handled(NoFiles, svc)
    else
      var r := "FILES:" + Join(files, ',');
      assert r[6..] == Join(files, ',');
      assert r[0] != NoFiles[0];
      SplitJoinWhenCommaFree(files);
      Handled(r, svc)
  }

  /** Splitting the joined names gives them back when none holds a comma. */
  lemma SplitJoinWhenCommaFree(files: seq<string>)
    requires files != []
    ensures (forall k :: 0 <= k < |files| ==> ',' !in files[k]) ==> Split(Join(files, ','), ',') == files
  {
    if forall k :: 0 <= k < |files| ==> ',' !in files[k] {
      SplitJoin(files, ',');
    }
  }

  /**
    The branches of `process_command` (lines 189-295) on a normalised
    command, tried in the source's order.
   */
  function Dispatch(svc: Service, cmd: string, writeOk: bool): (h: Handled)
    ensures Confined(svc, h)
    ensures !Recognized(cmd) ==> h == Handled(UnknownCommand, svc)
  {
    if cmd == "PING" then Handled(Pong, svc)
    else if cmd == "STATUS" then Status(svc)
    else if cmd == "CALIBRAR" then Calibrate(svc)
    else if StartsWith(cmd, "SET_ANGLE") then SetAngleCommand(svc, cmd, writeOk)
    else if cmd == "GET_ANGLE" then GetAngle(svc)
    else if cmd == "STOP" then StopCommand(svc)
    else if cmd == "SHUTDOWN" then Handled(Denied, svc)
    else if cmd == "LIST" then ListCommand(svc)
    else Handled(UnknownCommand, svc)
  }

  /**
    `process_command` (lines 175-299): normalise, then dispatch. The only
    exception the model keeps is the missing servo pin of STATUS.
   */
  function ProcessCommand(svc: Service, raw: string, writeOk: bool): (h: Handled)
    ensures Confined(svc, h)
    ensures !Recognized(Normalize(raw)) ==> h == Handled(UnknownCommand, svc)
  {
    Dispatch(svc, Normalize(raw), writeOk)
  }

  /** Each keyword reaches its own branch. */
  lemma Routes(svc: Service, writeOk: bool)
    ensures Dispatch(svc, "PING", writeOk) == Handled(Pong, svc)
    ensures Dispatch(svc, "STATUS", writeOk) == Status(svc)
    ensures Dispatch(svc, "CALIBRAR", writeOk) == Calibrate(svc)
    ensures Dispatch(svc, "GET_ANGLE", writeOk) == GetAngle(svc)
    ensures Dispatch(svc, "STOP", writeOk) == StopCommand(svc)
    ensures Dispatch(svc, "SHUTDOWN", writeOk) == Handled(Denied, svc)
    ensures Dispatch(svc, "LIST", writeOk) == ListCommand(svc)
  {
    assert "GET_ANGLE"[..9][0] != "SET_ANGLE"[0];
  }

  /** Every command that starts with SET_ANGLE reaches the SET_ANGLE branch. */
  lemma SetAngleRoute(svc: Service, cmd: string, writeOk: bool)
    requires StartsWith(cmd, "SET_ANGLE")
    ensures Dispatch(svc, cmd, writeOk) == SetAngleCommand(svc, cmd, writeOk)
  {
    assert cmd[..9] == "SET_ANGLE";
    assert cmd != "PING" && cmd != "STATUS" && cmd != "CALIBRAR";
  }

  /** Case and surrounding whitespace never change what a command does. */
  lemma DispatchIgnoresCaseAndPadding(svc: Service, raw: string, writeOk: bool)
    ensures ProcessCommand(svc, raw, writeOk) == ProcessCommand(svc, Normalize(raw), writeOk)
  {
    NormalizeIdempotent(raw);
  }

  /** A command already in normal form: trimmed and without lower-case letters. */
  lemma NormalizeKeeps(cmd: string)
    requires cmd != [] && !IsSpace(cmd[0]) && !IsSpace(cmd[|cmd| - 1])
    requires forall i :: 0 <= i < |cmd| ==> !('a' <= cmd[i] <= 'z')
    ensures Normalize(cmd) == cmd
  {
    StripOfTrimmed(cmd);
    UpperKeeps(cmd);
  }

  lemma StripPaddedPing(c: char)
    requires IsSpace(c)
    ensures Strip([c] + "ping" + [c]) == "ping"
  {
    assert !IsSpace("ping"[0]) && !IsSpace("ping"[3]);
    StripOfPadded(c, "ping");
  }

  lemma UpperPing()
    ensures Upper("ping") == "PING"
  {
    var u := Upper("ping");
    assert |u| == 4 && u[0] == 'P' && u[1] == 'I' && u[2] == 'N' && u[3] == 'G';
  }

  /** Surrounding whitespace and lower case do not hide PING: " ping " is PING. */
  lemma PaddedLowerPing(c: char)
    requires IsSpace(c)
    ensures Normalize([c] + "ping" + [c]) == "PING"
  {
    StripPaddedPing(c);
    UpperPing();
  }

  /**
    ERR:UNKNOWN_COMMAND is the reply exactly when the normalised command is
    none of the known ones; in particular no command that starts with
    SET_ANGLE is ever unknown, however malformed its argument.
   */
  lemma UnknownExactlyWhenUnrecognized(svc: Service, cmd: string, writeOk: bool)
    ensures Dispatch(svc, cmd, writeOk).reply == UnknownCommand <==> !Recognized(cmd)
  {
    if StartsWith(cmd, "SET_ANGLE") {
      SetAngleNeverUnknown(svc, cmd, writeOk);
    } else if cmd in Keywords {
      KeywordNeverUnknown(svc, cmd, writeOk);
    }
  }

  /** The SET_ANGLE branch answers OK, a parse error or a servo error, never the unknown reply. */
  lemma SetAngleNeverUnknown(svc: Service, cmd: string, writeOk: bool)
    requires StartsWith(cmd, "SET_ANGLE")
    ensures Dispatch(svc, cmd, writeOk).reply != UnknownCommand
  {
    SetAngleRoute(svc, cmd, writeOk);
    if Ready(svc) && !ParseSetAngle(cmd).Valid() {
      var message := ParseSetAngle(cmd).message;
      assert message == FormatMessage || message == RangeMessage;
      assert ("ERR:" + message)[4] == message[0];
    }
  }

  /** No keyword's branch answers with the unknown reply. */
  lemma KeywordNeverUnknown(svc: Service, cmd: string, writeOk: bool)
    requires cmd in Keywords
    ensures Dispatch(svc, cmd, writeOk).reply != UnknownCommand
  {
    Routes(svc, writeOk);
    var h := Dispatch(svc, cmd, writeOk);
    if cmd == "STATUS" {
      assert h.reply == ProcessingError || h.reply[0] == '{';
    } else if cmd == "GET_ANGLE" {
      assert h.reply == NotInitialized || h.reply[0] == 'A';
    } else if cmd == "LIST" {
      assert h.reply == NoFiles || h.reply[0] == 'F';
    }
  }

  /**
    CALIBRAR and SET_ANGLE demand an initialized servo: without one they
    answer ERR:SERVO_NOT_INITIALIZED and touch nothing (lines 206-207,
    244-245). GET_ANGLE and STOP need only the servo object.
   */
  lemma InitializationGuards(svc: Service, cmd: string, writeOk: bool)
    requires !Ready(svc)
    requires cmd == "CALIBRAR" || StartsWith(cmd, "SET_ANGLE")
    ensures Dispatch(svc, cmd, writeOk) == Handled(NotInitialized, svc)
    ensures svc.servo.Some? ==> Dispatch(svc, "GET_ANGLE", writeOk).reply != NotInitialized
    ensures svc.servo.Some? ==> Dispatch(svc, "STOP", writeOk).reply == Stopped
  {
    Routes(svc, writeOk);
    if cmd != "CALIBRAR" {
      SetAngleRoute(svc, cmd, writeOk);
    }
  }

  /** After a successful SET_ANGLE, GET_ANGLE reads back the integer part of the angle. */
  lemma SetThenGet(svc: Service, cmd: string, angle: real)
    requires Ready(svc) && svc.servo.value.hasPwm
    requires StartsWith(cmd, "SET_ANGLE") && ParseSetAngle(cmd) == Accepted(angle)
    ensures var h := Dispatch(svc, cmd, true);
      h.reply == Ok && Dispatch(h.service, "GET_ANGLE", true).reply == "ANGLE:" + IntToString(Truncate(angle))
  {
    SetAngleRoute(svc, cmd, true);
    Routes(Dispatch(svc, cmd, true).service, true);
  }

  /** SET_ANGLE:0 followed by GET_ANGLE reads ANGLE:0. */
  lemma SetZeroThenGet(svc: Service)
    requires Ready(svc) && svc.servo.value.hasPwm
    ensures var h := Dispatch(svc, "SET_ANGLE:0", true);
      h.reply == Ok && Dispatch(h.service, "GET_ANGLE", true).reply == "ANGLE:0"
  {
    ParseAcceptsZero();
    assert StartsWith("SET_ANGLE:0", "SET_ANGLE");
    SetThenGet(svc, "SET_ANGLE:0", 0.0);
    ZeroText();
  }

  /** The text of the truncated angle 0. */
  lemma ZeroText()
    ensures "ANGLE:" + IntToString(Truncate(0.0)) == "ANGLE:0"
  {
    assert Truncate(0.0) == 0;
    assert IntToString(0) == "0";
  }

  /**
    What the sweep worker and `wait_for_sweep` (lines 224-238) do once
    CALIBRAR has returned: the sweep runs from the configured start to the
    configured end in steps of 10, cut short at check `cancel` when it is
    stopped, and then the servo is sent to the middle of the range.
   */
  function FinishCalibration(svc: Service, cancel: Option<nat>, writeOk: nat -> bool, finalOk: bool): (r: Service)
    requires svc.servo.Some?
    ensures r == svc.(servo := r.servo) && r.servo.Some?
    ensures !IsSweeping(r.servo.value)
    ensures ServoValid(svc) ==> ServoValid(r)
  {
    var from, to := CalibrationFrom(svc.config), CalibrationTo(svc.config);
    var swept := RunWorker(svc.servo.value, from, to, CalibrationStep, cancel, writeOk);
    svc.(servo := Some(SetAngle(swept, (from + to) / 2.0, finalOk).servo))
  }

  /** A calibration whose last write succeeds leaves the servo at the middle of the range. */
  lemma CalibrationEndsInMiddle(svc: Service, cancel: Option<nat>, writeOk: nat -> bool)
    requires Ready(svc) && svc.servo.value.hasPwm
    ensures var started := Calibrate(svc).service;
      var from, to := CalibrationFrom(svc.config), CalibrationTo(svc.config);
      FinishCalibration(started, cancel, writeOk, true).servo.value.currentAngle == Clamp((from + to) / 2.0)
  {
  }

  /**
    `shutdown` (lines 322-343): a service that is not running is left as it
    is; otherwise the Bluetooth server is stopped and the servo released.
   */
  function Shutdown(svc: Service): (r: Service)
    ensures !r.running
    ensures !svc.running ==> r == svc
    ensures svc.running ==> (
      && r.radio.Some? == svc.radio.Some?
      && (r.radio.Some? ==> !r.radio.value.running && !r.radio.value.clientConnected && !r.radio.value.listening))
    ensures svc.running ==> (
      && r.servo.Some? == svc.servo.Some?
      && (r.servo.Some? ==> !r.servo.value.initialized && !IsSweeping(r.servo.value)))
    ensures ServoValid(svc) ==> ServoValid(r)
  {
    if !svc.running then svc
    else
      svc.(
        running := false,
        radio := if svc.radio.Some? then Some(BluetoothServer.Stop(svc.radio.value)) else None,
        servo := if svc.servo.Some? then Some(Cleanup(svc.servo.value)) else None)
  }

  /** Shutting down twice is shutting down once. */
  lemma ShutdownIdempotent(svc: Service)
    ensures Shutdown(Shutdown(svc)) == Shutdown(svc)
  {
  }

  /** After shutdown no command can move the servo. */
  lemma NoMovesAfterShutdown(svc: Service, cmd: string, writeOk: bool)
    requires svc.running
    requires cmd == "CALIBRAR" || StartsWith(cmd, "SET_ANGLE")
    ensures var down := Shutdown(svc);
      Dispatch(down, cmd, writeOk) == Handled(NotInitialized, down)
  {
    InitializationGuards(Shutdown(svc), cmd, writeOk);
  }

  /**
    `process_command` as the Bluetooth server's callback; it never raises.
    One write outcome, `writeOk`, holds for every command of the session:
    a PWM that fails on one write and succeeds on the next is not modelled.
   */
  function Responder(writeOk: bool): BluetoothServer.Callback<Service> {
    (svc: Service, line: string) =>
      var h := ProcessCommand(svc, line, writeOk);
      (BluetoothServer.Answered(h.reply), h.service)
  }

  /**
    Over the radio, a line is answered with the dispatcher's reply and one
    newline, and the servo is left as the dispatcher leaves it.
   */
  lemma AnsweredOverBluetooth(svc: Service, writeOk: bool, line: string)
    requires line != [] && '\n' !in line
    requires !IsSpace(line[0]) && !IsSpace(line[|line| - 1])
    ensures var t := BluetoothServer.Feed(Some(Responder(writeOk)), BluetoothServer.NewSession(svc), BluetoothServer.Received(line + "\n"));
      var h := ProcessCommand(svc, line, writeOk);
      t.commands == [line] && t.sent == BluetoothServer.WireText(h.reply) && t.app == h.service
  {
    BluetoothServer.FreshLineAnswered(Responder(writeOk), svc, line);
  }

  /** A line that normalises to PING, such as "ping", is answered "PONG\n" and changes nothing. */
  lemma PingOverBluetooth(svc: Service, writeOk: bool, line: string)
    requires line != [] && '\n' !in line
    requires !IsSpace(line[0]) && !IsSpace(line[|line| - 1])
    requires Normalize(line) == "PING"
    ensures var t := BluetoothServer.Feed(Some(Responder(writeOk)), BluetoothServer.NewSession(svc), BluetoothServer.Received(line + "\n"));
      t.sent == "PONG\n" && t.app == svc
  {
    AnsweredOverBluetooth(svc, writeOk, line);
    PingAnswered(svc, writeOk, line);
    PongOnTheWire();
  }

  lemma PingAnswered(svc: Service, writeOk: bool, line: string)
    requires Normalize(line) == "PING"
    ensures ProcessCommand(svc, line, writeOk) == Handled(Pong, svc)
  {
    Routes(svc, writeOk);
  }

  lemma PongOnTheWire()
    ensures BluetoothServer.WireText(Pong) == "PONG\n"
  {
    assert Pong[|Pong| - 1] != '\n';
  }
}
