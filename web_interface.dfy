/**
 * The valve table and the three HTTP handlers that read and write it in
 * place: /control, /set and /status.
 */
module WebInterface {
  import opened ValveMode
  import opened Valves
  import opened Handlers

  class ValveTable {
    /** The firmware's table of valve entries; its length is the channel count. */
    const valves: array<Valve>
    /** The accepted heart-rate range, in beats per minute. */
    const minBpm: int
    const maxBpm: int
    /** Every call made to the output driver, oldest first. */
    ghost var dutyLog: seq<DutyCommand>

    ghost predicate Valid()
      reads this
    {
      0 < minBpm <= maxBpm
    }

    /** Every entry's beat interval matches its heart rate. */
    ghost predicate RatesConsistent()
      reads this, valves
    {
      forall i :: 0 <= i < valves.Length ==> RateConsistent(valves[i])
    }

    /** Every entry's heart rate is accepted and its beat interval matches it. */
    ghost predicate RatesValid()
      reads this, valves
    {
      forall i :: 0 <= i < valves.Length ==> RateValid(valves[i], minBpm, maxBpm)
    }

    constructor (initial: seq<Valve>, minBpm: int, maxBpm: int)
      requires 0 < minBpm <= maxBpm
      ensures Valid() && fresh(valves)
      ensures valves[..] == initial && dutyLog == []
      ensures this.minBpm == minBpm && this.maxBpm == maxBpm
    {
      this.minBpm := minBpm;
      this.maxBpm := maxBpm;
      valves := new Valve[|initial|](i requires 0 <= i < |initial| => initial[i]);
      dutyLog := [];
    }

    /** The output driver; the model records the call and nothing else. */
    method SetSolenoidDuty(channel: int, duty: int)
      modifies this`dutyLog
      ensures dutyLog == old(dutyLog) + [DutyCommand(channel, duty)]
    {
      dutyLog := dutyLog + [DutyCommand(channel, duty)];
    }

    /**
     * POST /control: reject a body that is not JSON or names no channel;
     * otherwise drive the channel on or off if a state flag is present, then
     * switch it to the heart rhythm at an accepted bpm.
     */
    method HandleControl(body: Body<ControlRequest>) returns (reply: Reply)
      requires Valid()
      modifies valves, this`dutyLog
      ensures Valid()
      ensures reply == Ok || reply == BadRequest
      ensures reply == Ok <==> body.Json? && ValidId(body.request.id, valves.Length)
      ensures reply == BadRequest ==> valves[..] == old(valves[..]) && dutyLog == old(dutyLog)
      ensures reply == Ok ==>
        var req := body.request;
        && valves[..] == old(valves[..])[req.id := ApplyControl(old(valves[req.id]), req, minBpm, maxBpm)]
        && dutyLog == old(dutyLog) + ControlCommands(old(valves[req.id]), req)
      ensures old(RatesValid()) ==> RatesValid()
      ensures old(RatesConsistent()) ==> RatesConsistent()
    {
      if body.InvalidJson? {
        return BadRequest;
      }
      var req := body.request;
      var id := req.id;
      if id < 0 || id >= valves.Length {
        return BadRequest;
      }

      if req.state.Some? {
        var state := req.state.value;
        if state {
          SetSolenoidDuty(id, valves[id].pwmValue);
        } else {
          SetSolenoidDuty(id, 0);
        }
      }

      if req.bpm.Some? {
        var bpm := req.bpm.value;
        if bpm >= minBpm && bpm <= maxBpm {
          valves[id] := valves[id].(heartRate := bpm);
          valves[id] := valves[id].(beatInterval := MsPerMinute / bpm);
          valves[id] := valves[id].(mode := HeartRhythm);
        }
      }

      return Ok;
    }

    /**
     * GET /status: the "valves" array of the reply, one element per channel
     * in channel order, each reporting its channel's entry.
     */
    method HandleStatus() returns (report: seq<ValveStatus>)
      ensures |report| == valves.Length
      ensures forall i :: 0 <= i < |report| ==> Reports(report[i], i, valves[i])
    {
      report := [];
      for i := 0 to valves.Length
        invariant |report| == i
        invariant forall k :: 0 <= k < i ==> Reports(report[k], k, valves[k])
      {
        var v := valves[i];
        report := report + [ValveStatus(
          i, EncodeMode(v.mode), v.pwmValue, v.heartRate, v.manualPulseDuration, v.useDynamicPulse)];
      }
    }

    /**
     * POST /set as written: reject a body that is not JSON or names no
     * channel; otherwise write the present fields in order. A heart rate of
     * 0 is stored and then divides by zero, which ends the handler.
     */
    method HandleSet(body: Body<SetRequest>) returns (reply: Reply)
      requires Valid()
      modifies valves, this`dutyLog
      ensures Valid()
      ensures reply == BadRequest <==> !(body.Json? && ValidId(body.request.id, valves.Length))
      ensures reply == DivideByZero <==>
        body.Json? && ValidId(body.request.id, valves.Length) && SetFaults(body.request)
      ensures reply == BadRequest ==> valves[..] == old(valves[..]) && dutyLog == old(dutyLog)
      ensures reply != BadRequest ==>
        var req := body.request;
        && valves[..] == old(valves[..])[req.id := SetValve(old(valves[req.id]), req)]
        && dutyLog == old(dutyLog) + SetCommands(old(valves[req.id]), req)
      ensures reply == Ok && old(RatesConsistent()) ==> RatesConsistent()
    {
      if body.InvalidJson? {
        return BadRequest;
      }
      var req := body.request;
      var id := req.id;
      if id < 0 || id >= valves.Length {
        return BadRequest;
      }

      WriteMode(id, req);
      WritePwmValue(id, req);
      var faulted := WriteHeartRate(id, req);
      if faulted {
        return DivideByZero;
      }
      WriteManualPulseDuration(id, req);
      WriteUseDynamicPulse(id, req);
      return Ok;
    }

    /**
     * POST /set corrected: as HandleSet, except that a heart rate outside
     * the accepted range is ignored, as /control ignores such a bpm. It
     * always replies and keeps every entry's rate valid.
     */
    method HandleSetChecked(body: Body<SetRequest>) returns (reply: Reply)
      requires Valid()
      modifies valves, this`dutyLog
      ensures Valid()
      ensures reply == Ok || reply == BadRequest
      ensures reply == Ok <==> body.Json? && ValidId(body.request.id, valves.Length)
      ensures reply == BadRequest ==> valves[..] == old(valves[..]) && dutyLog == old(dutyLog)
      ensures reply == Ok ==>
        var req := body.request;
        && valves[..] == old(valves[..])[req.id := SetValveChecked(old(valves[req.id]), req, minBpm, maxBpm)]
        && dutyLog == old(dutyLog) + SetCommands(old(valves[req.id]), req)
      ensures old(RatesValid()) ==> RatesValid()
    {
      if body.InvalidJson? {
        return BadRequest;
      }
      var req := body.request;
      var id := req.id;
      if id < 0 || id >= valves.Length {
        return BadRequest;
      }

      WriteMode(id, req);
      WritePwmValue(id, req);
      WriteHeartRateChecked(id, req);
      WriteManualPulseDuration(id, req);
      WriteUseDynamicPulse(id, req);
      return Ok;
    }

    /** The mode block of handleSet (WebInterface.h:536-539). */
    method WriteMode(id: int, req: SetRequest)
      requires 0 <= id < valves.Length
      modifies valves
      ensures valves[..] == old(valves[..])[id := WithMode(old(valves[id]), req)]
    {
      if req.mode.Some? {
        valves[id] := valves[id].(mode := DecodeMode(req.mode.value));
      }
    }

    /**
     * The pwmValue block of handleSet (WebInterface.h:541-546): store the
     * value, then drive the channel with it if the entry is in manual PWM mode.
     */
    method WritePwmValue(id: int, req: SetRequest)
      requires 0 <= id < valves.Length && id == req.id
      modifies valves, this`dutyLog
      ensures valves[..] == old(valves[..])[id := WithPwm(old(valves[id]), req)]
      ensures dutyLog == old(dutyLog) + PwmCommands(old(valves[id]), req)
    {
      if req.pwmValue.Some? {
        valves[id] := valves[id].(pwmValue := req.pwmValue.value);
        if valves[id].mode == ManualPwm {
          SetSolenoidDuty(id, valves[id].pwmValue);
        }
      }
    }

    /**
     * The heartRate block of handleSet as written (WebInterface.h:548-551):
     * store the rate, then divide by it; `faulted` reports the division by zero.
     */
    method WriteHeartRate(id: int, req: SetRequest) returns (faulted: bool)
      requires 0 <= id < valves.Length
      modifies valves
      ensures faulted == SetFaults(req)
      ensures faulted ==> valves[..] == old(valves[..])[id := old(valves[id]).(heartRate := 0)]
      ensures !faulted ==> valves[..] == old(valves[..])[id := WithRate(old(valves[id]), req)]
    {
      faulted := false;
      if req.heartRate.Some? {
        valves[id] := valves[id].(heartRate := req.heartRate.value);
        if valves[id].heartRate == 0 {
          return true;
        }
        valves[id] := valves[id].(beatInterval := MsPerMinute / valves[id].heartRate);
      }
    }

    /** The heartRate block of the corrected handleSet: an out-of-range rate is ignored. */
    method WriteHeartRateChecked(id: int, req: SetRequest)
      requires Valid() && 0 <= id < valves.Length
      modifies valves
      ensures valves[..] ==
        old(valves[..])[id := WithRate(old(valves[id]), CheckRate(req, minBpm, maxBpm))]
    {
      if req.heartRate.Some? {
        var rate := req.heartRate.value;
        if rate >= minBpm && rate <= maxBpm {
          valves[id] := valves[id].(heartRate := rate);
          valves[id] := valves[id].(beatInterval := MsPerMinute / rate);
        }
      }
    }

    /** The manualPulseDuration block of handleSet (WebInterface.h:553-555). */
    method WriteManualPulseDuration(id: int, req: SetRequest)
      requires 0 <= id < valves.Length
      modifies valves
      ensures valves[..] == old(valves[..])[id := WithPulseDuration(old(valves[id]), req)]
    {
      if req.manualPulseDuration.Some? {
        valves[id] := valves[id].(manualPulseDuration := req.manualPulseDuration.value);
      }
    }

    /** The useDynamicPulse block of handleSet (WebInterface.h:557-559). */
    method WriteUseDynamicPulse(id: int, req: SetRequest)
      requires 0 <= id < valves.Length
      modifies valves
      ensures valves[..] == old(valves[..])[id := WithDynamicPulse(old(valves[id]), req)]
    {
      if req.useDynamicPulse.Some? {
        valves[id] := valves[id].(useDynamicPulse := req.useDynamicPulse.value);
      }
    }
  }
}
