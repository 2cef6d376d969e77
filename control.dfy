/** The control law: maps the selected mode and the error to a heater power. */
module ControlLaw {
  import opened SimConstants

  /** The state the PID controller carries between ticks: the integral of the error and the last error. */
  datatype PidState = PidState(iSum: real, ePrev: real)

  /** What one controller call produces: the power and the PID state afterwards. */
  datatype Command = Command(power: real, next: PidState)

  /** `Math.max(0, Math.min(MAX_POWER, x))`: saturates a raw command to the heater's range. */
  function Clamp(x: real): (r: real)
    ensures 0.0 <= r <= MAX_POWER
    ensures 0.0 <= x <= MAX_POWER ==> r == x
    ensures x < 0.0 ==> r == 0.0
    ensures x > MAX_POWER ==> r == MAX_POWER
  {
    var capped := if x < MAX_POWER then x else MAX_POWER;
    if capped > 0.0 then capped else 0.0
  }

  /** PID bookkeeping: accumulate the error into the integral and remember it. */
  function PidUpdate(st: PidState, e: real): PidState
  {
    PidState(st.iSum + e * DT, e)
  }

  /** The unclamped PID command, given the already-updated integral and the previous error. */
  function PidRaw(kp: real, ki: real, kd: real, e: real, iSum: real, ePrev: real): real
  {
    kp * e + ki * iSum + kd * ((e - ePrev) / DT)
  }

  /**
   * One call of the controller. `temp` is the current plant temperature, which the
   * on/off branch reads directly; every other branch uses the error `e`.
   */
  function Law(mode: string, setpoint: real, kp: real, ki: real, kd: real,
               e: real, temp: real, st: PidState): (r: Command)
    ensures 0.0 <= r.power <= MAX_POWER
    ensures mode == "OFF" ==> r.power == 0.0
    ensures mode == "ONOFF" ==> (r.power == MAX_POWER <==> temp < setpoint - ONOFF_OFFSET)
    ensures mode == "ONOFF" ==> (r.power == 0.0 <==> temp >= setpoint - ONOFF_OFFSET)
    ensures mode == "P" && 0.0 <= kp * e <= MAX_POWER ==> r.power == kp * e
    ensures mode == "P" && kp * e < 0.0 ==> r.power == 0.0
    ensures mode == "P" && kp * e > MAX_POWER ==> r.power == MAX_POWER
    ensures mode == "PID" ==> r.next.iSum == st.iSum + e * DT && r.next.ePrev == e
    ensures mode == "PID" ==> r.power == Clamp(PidRaw(kp, ki, kd, e, r.next.iSum, st.ePrev))
    ensures mode != "PID" ==> r.next == st
    ensures mode != "ONOFF" && mode != "P" && mode != "PID" ==> r.power == 0.0
  {
    if mode == "OFF" then Command(0.0, st)
    else if mode == "ONOFF" then Command(if temp < setpoint - ONOFF_OFFSET then MAX_POWER else 0.0, st)
    else if mode == "P" then Command(Clamp(kp * e), st)
    else if mode == "PID" then
      var next := PidUpdate(st, e);
      Command(Clamp(PidRaw(kp, ki, kd, e, next.iSum, st.ePrev)), next)
    else Command(0.0, st)
  }

  /** The on/off branch ignores the error it is passed: only the temperature decides. */
  lemma OnOffIgnoresError(setpoint: real, kp: real, ki: real, kd: real,
                          e1: real, e2: real, temp: real, st: PidState)
    ensures Law("ONOFF", setpoint, kp, ki, kd, e1, temp, st)
         == Law("ONOFF", setpoint, kp, ki, kd, e2, temp, st)
  {
  }

  /**
   * When the error is computed from the same temperature, as a tick does, the on/off
   * controller is on exactly when the error exceeds the offset.
   */
  lemma OnOffThreshold(setpoint: real, kp: real, ki: real, kd: real, temp: real, st: PidState)
    ensures var r := Law("ONOFF", setpoint, kp, ki, kd, setpoint - temp, temp, st);
            r.power == if setpoint - temp > ONOFF_OFFSET then MAX_POWER else 0.0
  {
  }

  /** Sum of a sequence of errors. */
  function Sum(es: seq<real>): real
  {
    if es == [] then 0.0 else es[0] + Sum(es[1..])
  }

  /** A PID call of the controller advances its memory by exactly one `PidUpdate` step. */
  lemma PidCallUpdates(setpoint: real, kp: real, ki: real, kd: real, e: real, temp: real, st: PidState)
    ensures Law("PID", setpoint, kp, ki, kd, e, temp, st).next == PidUpdate(st, e)
  {
  }

  /** The PID state after a run of PID ticks with the errors `es`, oldest first. */
  function PidRun(st: PidState, es: seq<real>): PidState
    decreases |es|
  {
    if es == [] then st else PidRun(PidUpdate(st, es[0]), es[1..])
  }

  /**
   * Over any run of PID ticks the integral grows by exactly the sum of the errors
   * times DT, saturated or not (there is no anti-windup), and the remembered error is
   * the last one.
   */
  lemma {:induction false} PidRunAccumulates(st: PidState, es: seq<real>)
    ensures PidRun(st, es).iSum == st.iSum + Sum(es) * DT
    ensures es != [] ==> PidRun(st, es).ePrev == es[|es| - 1]
    ensures es == [] ==> PidRun(st, es) == st
    decreases |es|
  {
    if es != [] {
      PidRunAccumulates(PidUpdate(st, es[0]), es[1..]);
      if |es| > 1 {
        assert es[1..][|es[1..]| - 1] == es[|es| - 1];
      }
    }
  }
}
