/**
 * What the three HTTP handlers of the web interface do to one valve entry,
 * as functions of the entry before the request and the parsed request.
 * The class in web_interface.dfy applies them in place to the table.
 */
module Handlers {
  import opened Wrappers
  import opened ValveMode
  import opened Valves

  /** A request body: text that is not JSON, or the parsed document. */
  datatype Body<R> = InvalidJson | Json(request: R)

  /**
   * How a handler ends: HTTP 200, HTTP 400, or a division by zero that stops
   * handleSet before it sends any reply.
   */
  datatype Reply = Ok | BadRequest | DivideByZero

  /** One call of the output driver `setSolenoidDuty(channel, duty)`. */
  datatype DutyCommand = DutyCommand(channel: int, duty: int)

  /**
   * A parsed /control document: the channel id and the fields that passed
   * their type test (`is<bool>()` for state, `is<int>()` for bpm).
   */
  datatype ControlRequest = ControlRequest(id: int, state: Option<bool>, bpm: Option<int>)

  /**
   * A parsed /set document: the channel id and the fields that passed their
   * type test (`is<const char*>()` for mode, `is<int>()` or `is<bool>()` for the others).
   */
  datatype SetRequest = SetRequest(
    id: int,
    mode: Option<string>,
    pwmValue: Option<int>,
    heartRate: Option<int>,
    manualPulseDuration: Option<int>,
    useDynamicPulse: Option<bool>)

  /** One element of the /status array. */
  datatype ValveStatus = ValveStatus(
    id: int,
    mode: string,
    pwmValue: int,
    heartRate: int,
    manualPulseDuration: int,
    useDynamicPulse: bool)

  /** The channel id test of both write handlers (WebInterface.h:468, WebInterface.h:530). */
  predicate ValidId(id: int, numValves: int)
  {
    0 <= id < numValves
  }

  // ---------------------------------------------------------------- /control

  /** A /control request carries a bpm that handleControl accepts. */
  predicate AcceptsBpm(req: ControlRequest, minBpm: int, maxBpm: int)
  {
    req.bpm.Some? && minBpm <= req.bpm.value <= maxBpm
  }

  /**
   * Driver calls of a /control request on entry `v` (WebInterface.h:474-481):
   * one call exactly when a state flag is present, driving the channel at its
   * stored PWM value when the flag is true and at 0 when it is false.
   */
  function ControlCommands(v: Valve, req: ControlRequest): (cmds: seq<DutyCommand>)
    ensures |cmds| == (if req.state.Some? then 1 else 0)
    ensures forall c :: c in cmds ==> c.channel == req.id
    ensures req.state == Some(true) ==> cmds == [DutyCommand(req.id, v.pwmValue)]
    ensures req.state == Some(false) ==> cmds == [DutyCommand(req.id, 0)]
  {
    match req.state
    case None => []
    case Some(on) => [DutyCommand(req.id, if on then v.pwmValue else 0)]
  }

  /**
   * Entry `v` after a /control request (WebInterface.h:483-490). Only an
   * accepted bpm changes it: then the heart rate becomes the bpm, the beat
   * interval is recomputed and the mode becomes the heart rhythm; the state
   * flag never changes an entry.
   */
  function ApplyControl(v: Valve, req: ControlRequest, minBpm: int, maxBpm: int): (v': Valve)
    requires 0 < minBpm
    ensures !AcceptsBpm(req, minBpm, maxBpm) ==> v' == v
    ensures AcceptsBpm(req, minBpm, maxBpm) ==>
      v'.heartRate == req.bpm.value && v'.mode == HeartRhythm && RateValid(v', minBpm, maxBpm)
    ensures v'.pwmValue == v.pwmValue && v'.manualPulseDuration == v.manualPulseDuration
      && v'.useDynamicPulse == v.useDynamicPulse
    ensures RateValid(v, minBpm, maxBpm) ==> RateValid(v', minBpm, maxBpm)
  {
    match req.bpm
    case Some(bpm) =>
      if minBpm <= bpm <= maxBpm
      then v.(heartRate := bpm, beatInterval := BeatInterval(bpm), mode := HeartRhythm)
      else v
    case None => v
  }

  /** Sending the same /control request twice leaves the entry as sending it once. */
  lemma ApplyControlIdempotent(v: Valve, req: ControlRequest, minBpm: int, maxBpm: int)
    requires 0 < minBpm
    ensures ApplyControl(ApplyControl(v, req, minBpm, maxBpm), req, minBpm, maxBpm)
         == ApplyControl(v, req, minBpm, maxBpm)
  {
  }

  // -------------------------------------------------------------------- /set

  /** handleSet divides by the request's heart rate unchecked (WebInterface.h:550). */
  predicate SetFaults(req: SetRequest)
  {
    req.heartRate == Some(0)
  }

  /** Entry `v` after the first write of handleSet, the mode (WebInterface.h:536-539). */
  function WithMode(v: Valve, req: SetRequest): Valve
  {
    if req.mode.Some? then v.(mode := DecodeMode(req.mode.value)) else v
  }

  /** Entry `v` after the pwmValue write of handleSet (WebInterface.h:541-542). */
  function WithPwm(v: Valve, req: SetRequest): Valve
  {
    if req.pwmValue.Some? then v.(pwmValue := req.pwmValue.value) else v
  }

  /** Entry `v` after the heartRate write of handleSet when it does not fault (WebInterface.h:548-551). */
  function WithRate(v: Valve, req: SetRequest): Valve
    requires !SetFaults(req)
  {
    if req.heartRate.Some?
    then v.(heartRate := req.heartRate.value, beatInterval := BeatInterval(req.heartRate.value))
    else v
  }

  /** Entry `v` after the manualPulseDuration write of handleSet (WebInterface.h:553-555). */
  function WithPulseDuration(v: Valve, req: SetRequest): Valve
  {
    if req.manualPulseDuration.Some? then v.(manualPulseDuration := req.manualPulseDuration.value) else v
  }

  /** Entry `v` after the useDynamicPulse write of handleSet (WebInterface.h:557-559). */
  function WithDynamicPulse(v: Valve, req: SetRequest): Valve
  {
    if req.useDynamicPulse.Some? then v.(useDynamicPulse := req.useDynamicPulse.value) else v
  }

  /**
   * Driver call of the pwmValue write on entry `v` (WebInterface.h:541-546):
   * the new PWM value goes to the driver when the entry's mode, at that
   * point, is manual PWM.
   */
  function PwmCommands(v: Valve, req: SetRequest): seq<DutyCommand>
  {
    if req.pwmValue.Some? && v.mode == ManualPwm then [DutyCommand(req.id, req.pwmValue.value)] else []
  }

  /**
   * Driver calls of a /set request on entry `v`: a PWM value is sent to the
   * driver exactly when the request carries one and the channel is in manual
   * PWM mode AFTER the request's own mode field has been applied.
   */
  function SetCommands(v: Valve, req: SetRequest): (cmds: seq<DutyCommand>)
    ensures cmds != [] <==>
      req.pwmValue.Some? &&
      (if req.mode.Some? then req.mode.value == "MANUAL_PWM" else v.mode == ManualPwm)
    ensures cmds != [] ==> cmds == [DutyCommand(req.id, req.pwmValue.value)]
  {
    PwmCommands(WithMode(v, req), req)
  }

  /**
   * Entry `v` after handleSet as written (WebInterface.h:536-559): the present
   * fields are written in the order mode, pwmValue, heartRate (with the beat
   * interval), manualPulseDuration, useDynamicPulse; a heart rate of 0 is
   * stored and then stops the handler in the division, before the beat
   * interval and the later fields are written.
   */
  function SetValve(v: Valve, req: SetRequest): (v': Valve)
    ensures !SetFaults(req) && RateConsistent(v) ==> RateConsistent(v')
  {
    var v2 := WithPwm(WithMode(v, req), req);
    if SetFaults(req) then v2.(heartRate := 0)
    else WithDynamicPulse(WithPulseDuration(WithRate(v2, req), req), req)
  }

  /**
   * The fields a /set request carries are written with its values and every
   * other field keeps its value; a fault at the heart rate leaves the beat
   * interval and the two later fields unwritten.
   */
  lemma SetValveFields(v: Valve, req: SetRequest)
    ensures var v' := SetValve(v, req);
      && v'.mode == (if req.mode.Some? then DecodeMode(req.mode.value) else v.mode)
      && v'.pwmValue == (if req.pwmValue.Some? then req.pwmValue.value else v.pwmValue)
      && v'.heartRate == (if req.heartRate.Some? then req.heartRate.value else v.heartRate)
      && v'.beatInterval ==
           (if req.heartRate.Some? && !SetFaults(req) then BeatInterval(req.heartRate.value)
            else v.beatInterval)
      && v'.manualPulseDuration ==
           (if req.manualPulseDuration.Some? && !SetFaults(req) then req.manualPulseDuration.value
            else v.manualPulseDuration)
      && v'.useDynamicPulse ==
           (if req.useDynamicPulse.Some? && !SetFaults(req) then req.useDynamicPulse.value
            else v.useDynamicPulse)
  {
  }

  /**
   * handleSet as written accepts a heart rate of 0: the request passes every
   * test the handler makes, the entry is left with heart rate 0 and a beat
   * interval that no longer matches it, and the division faults.
   */
  lemma SetZeroHeartRateFaults(v: Valve, id: int)
    requires RateConsistent(v)
    ensures var req := SetRequest(id, None, None, Some(0), None, None);
      SetFaults(req) && !RateConsistent(SetValve(v, req))
  {
  }

  /**
   * handleSet as written also stores any other heart rate outside the
   * accepted range, so the range invariant that handleControl keeps is lost.
   */
  lemma SetStoresRateOutOfRange(v: Valve, id: int, minBpm: int, maxBpm: int)
    requires 0 < minBpm <= maxBpm && RateValid(v, minBpm, maxBpm)
    ensures var req := SetRequest(id, None, None, Some(maxBpm + 1), None, None);
      !SetFaults(req) && !RateValid(SetValve(v, req), minBpm, maxBpm)
  {
  }

  /**
   * The /set request with its heart rate dropped unless it lies in the range
   * that handleControl accepts for bpm.
   */
  function CheckRate(req: SetRequest, minBpm: int, maxBpm: int): (req': SetRequest)
    requires 0 < minBpm
    ensures !SetFaults(req')
    ensures req'.heartRate.Some? ==> minBpm <= req'.heartRate.value <= maxBpm
    ensures req'.heartRate.None? ==>
      req.heartRate.None? || !(minBpm <= req.heartRate.value <= maxBpm)
    ensures req' == req.(heartRate := req'.heartRate)
  {
    if req.heartRate.Some? && !(minBpm <= req.heartRate.value <= maxBpm)
    then req.(heartRate := None)
    else req
  }

  /**
   * Entry `v` after the corrected handleSet, which ignores an out-of-range
   * heart rate: it never faults and it keeps the range invariant.
   */
  function SetValveChecked(v: Valve, req: SetRequest, minBpm: int, maxBpm: int): (v': Valve)
    requires 0 < minBpm
    ensures RateValid(v, minBpm, maxBpm) ==> RateValid(v', minBpm, maxBpm)
    ensures req.heartRate.Some? && minBpm <= req.heartRate.value <= maxBpm ==>
      v' == SetValve(v, req)
    ensures req.heartRate.None? || !(minBpm <= req.heartRate.value <= maxBpm) ==>
      v' == SetValve(v, req.(heartRate := None))
      && v'.heartRate == v.heartRate && v'.beatInterval == v.beatInterval
  {
    SetValveFields(v, CheckRate(req, minBpm, maxBpm));
    SetValve(v, CheckRate(req, minBpm, maxBpm))
  }

  /** Sending the same non-faulting /set request twice leaves the entry as sending it once. */
  lemma SetValveIdempotent(v: Valve, req: SetRequest)
    requires !SetFaults(req)
    ensures SetValve(SetValve(v, req), req) == SetValve(v, req)
  {
  }

  // ----------------------------------------------------------------- /status

  /**
   * `s` is the /status element for channel `id` holding entry `v`
   * (WebInterface.h:500-506): the id, the mode in its canonical text and the
   * four configuration fields; the beat interval is not reported.
   */
  predicate Reports(s: ValveStatus, id: int, v: Valve)
  {
    && s.id == id
    && (s.mode == "MANUAL_PWM" || s.mode == "HEART_RHYTHM")
    && DecodeMode(s.mode) == v.mode
    && s.pwmValue == v.pwmValue
    && s.heartRate == v.heartRate
    && s.manualPulseDuration == v.manualPulseDuration
    && s.useDynamicPulse == v.useDynamicPulse
  }

  /** Each entry has exactly one status element, so the report is a function of the table. */
  lemma ReportsUnique(s1: ValveStatus, s2: ValveStatus, id: int, v: Valve)
    requires Reports(s1, id, v) && Reports(s2, id, v)
    ensures s1 == s2
  {
    EncodeDecode(s1.mode);
    EncodeDecode(s2.mode);
  }

  /** The status report loses only the beat interval of an entry. */
  lemma ReportsDetermineEntry(s: ValveStatus, id: int, v: Valve, w: Valve)
    requires Reports(s, id, v) && Reports(s, id, w) && v.beatInterval == w.beatInterval
    ensures v == w
  {
  }

  /** After an accepted bpm, /status shows the heart-rhythm mode and the new rate. */
  lemma ControlThenStatus(s: ValveStatus, v: Valve, req: ControlRequest, minBpm: int, maxBpm: int)
    requires 0 < minBpm && AcceptsBpm(req, minBpm, maxBpm)
    requires Reports(s, req.id, ApplyControl(v, req, minBpm, maxBpm))
    ensures s.mode == "HEART_RHYTHM" && s.heartRate == req.bpm.value
  {
  }

  /** After a non-faulting /set naming a mode, /status shows that mode's canonical text. */
  lemma SetThenStatus(s: ValveStatus, v: Valve, req: SetRequest)
    requires !SetFaults(req) && req.mode.Some?
    requires Reports(s, req.id, SetValve(v, req))
    ensures s.mode == EncodeMode(DecodeMode(req.mode.value))
  {
    EncodeDecode(s.mode);
  }
}
