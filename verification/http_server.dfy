/**
  The route decisions of http_server.py: `do_GET` and `do_POST` map a path,
  the parsed request body and the servo controller to a status code, a
  payload and the controller afterwards. Reading the body, `json.loads`,
  `json.dumps` and the HTTP framework are abstracted into the tags below.
 */
module HttpServer {
  import opened Common
  import opened Numbers
  import opened ServoControl

  /** The GPIO pin the status route reports (line 44). */
  const ReportedPin: int := 4

  /** What `data.get('angle')` holds, classified by what `int()` does with it. */
  datatype AngleField =
    | Absent                 // no key, or JSON null
    | Number(x: real)        // a value `int()` turns into the truncation of `x`
    | NotConvertible         // `int()` raises ValueError (a non-numeric string)
    | WrongType              // `int()` raises TypeError (a list or an object)

  /** The request body after reading and `json.loads` (lines 87-89). */
  datatype Body =
    | Undecodable            // the bytes are not UTF-8: UnicodeDecodeError
    | MalformedJson          // json.JSONDecodeError
    | NotAnObject            // valid JSON without a `get` method, e.g. a list
    | Object(angle: AngleField)   // a JSON object; an empty body reads as `{}`

  /** The JSON payloads, by meaning. */
  datatype Payload =
    | PongInfo
    | StatusInfo(initialized: bool, angle: int, pin: int)
    | AngleInfo(angle: int)
    | ApiInfo
    | NotInitialized
    | NotFound
    | Calibrated
    | AngleRequired
    | OutOfRange
    | MoveFailed
    | InvalidAngle
    | MovementStopped
    | InvalidJson
    | InternalError

  datatype Reply = Reply(status: int, payload: Payload, servo: Option<Servo>)

  predicate Ready(servo: Option<Servo>) {
    servo.Some? && servo.value.initialized
  }

  predicate ServoValid(servo: Option<Servo>) {
    servo.Some? ==> Valid(servo.value)
  }

  /** The GET routes do not change the controller. */
  const GetPaths: set<string> := {"/ping", "/status", "/angle", "/"}
  const PostPaths: set<string> := {"/calibrate", "/angle", "/stop"}

  /** `do_GET` (lines 27-78); no route raises once the servo is abstracted. */
  function HandleGet(path: string, servo: Option<Servo>): (r: Reply)
    ensures r.servo == servo
    ensures r.status == 404 <==> path !in GetPaths
    ensures r.status in {200, 404, 500}
  {
    if path == "/ping" then Reply(200, PongInfo, servo)
    else if path == "/status" then
      var initialized := servo.Some? && servo.value.initialized;
      var angle := if servo.Some? then Truncate(servo.value.currentAngle) else 0;
      Reply(200, StatusInfo(initialized, angle, ReportedPin), servo)
    else if path == "/angle" then
      if !Ready(servo) then Reply(500, NotInitialized, servo)
      else Reply(200, AngleInfo(Truncate(servo.value.currentAngle)), servo)
    else if path == "/" then Reply(200, ApiInfo, servo)
    else Reply(404, NotFound, servo)
  }

  /**
    POST /calibrate on an initialized controller (lines 97-108): stop any
    sweep, sweep from 0 to 180 in steps of 10 on the internal event, wait
    for the worker to finish (nothing cancels it), then move to 90.
    `writeOk(i)` tells whether the sweep's `i`-th write succeeds and
    `moveOk` whether the final one does. The stop is the corrected one; the
    HTTP server builds its own controller (lines 191-201) and only ever
    starts sweeps on the internal event, where the stop as written agrees
    with it (`ServoControl.StopAgreesWithoutCallerSweep`).
   */
  function Calibrate(s: Servo, writeOk: nat -> bool, moveOk: bool): (r: Servo)
    requires s.initialized
    ensures r.initialized && r.hasPwm == s.hasPwm && !IsSweeping(r)
    ensures Valid(s) ==> Valid(r)
    ensures s.hasPwm && moveOk ==> r.currentAngle == 90.0
  {
    var started := StartSweep(StopSweep(s), InternalEvent);
    var swept := RunWorker(started, 0.0, 180.0, 10.0, None, writeOk);
    SetAngle(swept, 90.0, moveOk).servo
  }

  /**
    POST /angle on an initialized controller (lines 116-134): the field
    must be present and convert with `int()`; the integer must lie in
    [0, 180]; then the move is made and the integer echoed back.
   */
  function SetAngleRoute(s: Servo, field: AngleField, moveOk: bool): (r: Reply)
    requires s.initialized
    ensures r.servo.Some?
    ensures r.status != 200 ==> r.servo == Some(s)
    ensures Valid(s) ==> Valid(r.servo.value)
  {
    match field
    case Absent => Reply(400, AngleRequired, Some(s))
    case NotConvertible => Reply(400, InvalidAngle, Some(s))
    case WrongType => Reply(500, InternalError, Some(s))
    case Number(x) =>
      var n := Truncate(x);
      if n < 0 || n > 180 then Reply(400, OutOfRange, Some(s))
      else
        var m := SetAngle(s, n as real, moveOk);
        if m.ok then Reply(200, AngleInfo(n), Some(m.servo))
        else Reply(500, MoveFailed, Some(s))
  }

  /**
    `do_POST` (lines 80-153). The body is read and parsed before the path is
    looked at, so a body that fails to parse decides the reply whatever the
    path. POST /stop uses the corrected stop, which on this server's
    internal-event sweeps agrees with the stop as written
    (`ServoControl.StopAgreesWithoutCallerSweep`).
   */
  function HandlePost(path: string, body: Body, servo: Option<Servo>, writeOk: nat -> bool, moveOk: bool): (r: Reply)
    ensures r.servo.Some? <==> servo.Some?
    ensures ServoValid(servo) ==> ServoValid(r.servo)
    ensures r.status in {200, 400, 404, 500}
  {
    if body == MalformedJson then Reply(400, InvalidJson, servo)
    else if body == Undecodable then Reply(500, InternalError, servo)
    else if path == "/calibrate" then
      if !Ready(servo) then Reply(500, NotInitialized, servo)
      else Reply(200, Calibrated, Some(Calibrate(servo.value, writeOk, moveOk)))
    else if path == "/angle" then
      if !Ready(servo) then Reply(500, NotInitialized, servo)
      else if body.NotAnObject? then Reply(500, InternalError, servo)
      else SetAngleRoute(servo.value, body.angle, moveOk)
    else if path == "/stop" then
      if servo.None? then Reply(500, NotInitialized, servo)
      else Reply(200, MovementStopped, Some(StopSweep(servo.value)))
    else Reply(404, NotFound, servo)
  }

  /** A body that parses lets the path decide: unknown paths are 404, known ones never are. */
  lemma PostNotFoundExactly(path: string, body: Body, servo: Option<Servo>, writeOk: nat -> bool, moveOk: bool)
    requires body != MalformedJson && body != Undecodable
    ensures HandlePost(path, body, servo, writeOk, moveOk).status == 404 <==> path !in PostPaths
  {
  }

  /** Malformed JSON is a 400 on every path, known or not. */
  lemma MalformedJsonFirst(path: string, servo: Option<Servo>, writeOk: nat -> bool, moveOk: bool)
    ensures HandlePost(path, MalformedJson, servo, writeOk, moveOk) == Reply(400, InvalidJson, servo)
  {
  }

  /** GET /angle: 500 exactly when there is no initialized servo, else the truncated angle. */
  lemma GetAngleRoute(servo: Option<Servo>)
    ensures HandleGet("/angle", servo).status == 500 <==> !Ready(servo)
    ensures Ready(servo) ==> HandleGet("/angle", servo).payload == AngleInfo(Truncate(servo.value.currentAngle))
  {
  }

  /**
    POST /angle checks the controller before the body: without an
    initialized servo it is 500 whatever the field holds, and with one a
    missing field is 400.
   */
  lemma PostAngleChecksServoFirst(body: Body, servo: Option<Servo>, writeOk: nat -> bool, moveOk: bool)
    requires body != MalformedJson && body != Undecodable
    ensures !Ready(servo) ==> HandlePost("/angle", body, servo, writeOk, moveOk) == Reply(500, NotInitialized, servo)
    ensures Ready(servo) && body == Object(Absent) ==> HandlePost("/angle", body, servo, writeOk, moveOk).status == 400
  {
  }

  /**
    The range check is on the integer `int()` produced, with both bounds
    inclusive: a number is refused with 400 exactly when it truncates below
    0 or above 180.
   */
  lemma PostAngleRange(s: Servo, x: real, moveOk: bool)
    requires s.initialized
    ensures var r := HandlePost("/angle", Object(Number(x)), Some(s), (i: nat) => true, moveOk);
      (r.status == 400 <==> Truncate(x) < 0 || Truncate(x) > 180)
  {
  }

  /** Truncation decides the range: 180.9 and -0.5 pass as 180 and 0, 181 and -1 do not. */
  lemma PostAngleRangeExamples(s: Servo)
    requires s.initialized && s.hasPwm
    ensures SetAngleRoute(s, Number(180.9), true).payload == AngleInfo(180)
    ensures SetAngleRoute(s, Number(-0.5), true).payload == AngleInfo(0)
    ensures SetAngleRoute(s, Number(0.0), true).payload == AngleInfo(0)
    ensures SetAngleRoute(s, Number(181.0), true).status == 400
    ensures SetAngleRoute(s, Number(-1.0), true).status == 400
  {
    assert Truncate(180.9) == 180;
    assert Truncate(-0.5) == 0;
    assert Truncate(181.0) == 181;
    assert Truncate(-1.0) == -1;
  }

  /**
    A number in range is answered 200 with the integer echoed exactly when
    the write succeeds, and the controller then reports that integer;
    otherwise 500 and nothing moves.
   */
  lemma PostAngleOutcome(s: Servo, x: real, moveOk: bool)
    requires s.initialized && 0 <= Truncate(x) <= 180
    ensures var r := SetAngleRoute(s, Number(x), moveOk);
      && (r.status == 200 <==> s.hasPwm && moveOk)
      && (r.status == 200 ==> r.payload == AngleInfo(Truncate(x)) && r.servo.value.currentAngle == Truncate(x) as real)
      && (r.status != 200 ==> r.status == 500 && r.payload == MoveFailed && r.servo == Some(s))
  {
  }

  /** An unconvertible angle is 400 and one of the wrong type reaches the catch-all as 500. */
  lemma PostAngleConversionErrors(s: Servo, moveOk: bool)
    requires s.initialized
    ensures SetAngleRoute(s, NotConvertible, moveOk) == Reply(400, InvalidAngle, Some(s))
    ensures SetAngleRoute(s, WrongType, moveOk) == Reply(500, InternalError, Some(s))
  {
  }

  /** A completed calibration whose final move succeeds leaves the servo at 90 degrees, idle. */
  lemma CalibrationEndsAt90(body: Body, s: Servo, writeOk: nat -> bool)
    requires s.initialized && s.hasPwm
    requires body != MalformedJson && body != Undecodable
    ensures var r := HandlePost("/calibrate", body, Some(s), writeOk, true);
      r.status == 200 && r.servo.value.currentAngle == 90.0 && !IsSweeping(r.servo.value)
  {
  }

  /** POST /stop needs only a servo object, initialized or not, and leaves no sweep running. */
  lemma StopNeedsOnlyServoObject(body: Body, servo: Option<Servo>, writeOk: nat -> bool, moveOk: bool)
    requires body != MalformedJson && body != Undecodable
    ensures var r := HandlePost("/stop", body, servo, writeOk, moveOk);
      && (r.status == 200 <==> servo.Some?)
      && (servo.Some? ==> !IsSweeping(r.servo.value) && r.servo.value.currentAngle == servo.value.currentAngle)
  {
  }
}
