/**
 * The simulation state and its tick: the global temperature, clock, PID memory and the
 * two parallel chart series, updated in place once per tick.
 */
module Simulation {
  import opened SimConstants
  import opened ControlLaw
  import opened ThermalPlant
  import opened HistoryBuffer

  class Simulator {
    /** Current temperature (°C). */
    var T: real
    /** Simulated time (s). */
    var time: real
    /** PID integral of the error. */
    var iSum: real
    /** PID error of the previous PID call. */
    var ePrev: real
    /** Chart x-values: the time of each kept point. */
    var labels: seq<real>
    /** Chart y-values: the temperature of each kept point. */
    var data: seq<real>

    /**
     * The series are parallel and within the limit, their times strictly increase and end
     * at the current time, their last temperature is the current one, and every
     * temperature lies between ambient and the full-power equilibrium.
     */
    ghost predicate Valid()
      reads this
    {
      && |labels| == |data| <= HISTORY_LIMIT
      && AMBIENT <= T <= MAX_TEMP
      && 0.0 <= time
      && (forall i, j :: 0 <= i < j < |labels| ==> labels[i] < labels[j])
      && (labels != [] ==> labels[|labels| - 1] == time && data[|data| - 1] == T)
      && (forall i :: 0 <= i < |data| ==> AMBIENT <= data[i] <= MAX_TEMP)
    }

    /** The PID memory as a value. */
    function Pid(): PidState
      reads this
    {
      PidState(iSum, ePrev)
    }

    constructor ()
      ensures Valid()
      ensures T == AMBIENT && time == 0.0 && Pid() == PidState(0.0, 0.0)
      ensures labels == [] && data == []
    {
      T := AMBIENT;
      time := 0.0;
      iSum := 0.0;
      ePrev := 0.0;
      labels := [];
      data := [];
    }

    /**
     * One controller call with error `e`. Only the PID branch writes the PID memory; the
     * on/off branch reads the current temperature rather than `e`.
     */
    method Control(setpoint: real, mode: string, kp: real, ki: real, kd: real, e: real)
      returns (u: real)
      modifies this`iSum, this`ePrev
      ensures Command(u, Pid()) == Law(mode, setpoint, kp, ki, kd, e, T, old(Pid()))
      ensures 0.0 <= u <= MAX_POWER
      ensures mode != "PID" ==> iSum == old(iSum) && ePrev == old(ePrev)
      ensures mode == "PID" ==> iSum == old(iSum) + e * DT && ePrev == e
    {
      if mode == "OFF" {
        return 0.0;
      }
      if mode == "ONOFF" {
        return if T < setpoint - ONOFF_OFFSET then MAX_POWER else 0.0;
      }
      if mode == "P" {
        return Clamp(kp * e);
      }
      if mode == "PID" {
        iSum := iSum + e * DT;
        var d := (e - ePrev) / DT;
        var raw := kp * e + ki * iSum + kd * d;
        ePrev := e;
        assert raw == PidRaw(kp, ki, kd, e, iSum, old(ePrev));
        return Clamp(raw);
      }
      return 0.0;
    }

    /**
     * One tick: the error from the current temperature, one controller call, one Euler
     * step of the plant, the clock advanced by DT, and one point pushed to the chart.
     */
    method Step(setpoint: real, mode: string, kp: real, ki: real, kd: real)
      requires Valid()
      modifies this
      ensures Valid()
      ensures var cmd := Law(mode, setpoint, kp, ki, kd, setpoint - old(T), old(T), old(Pid()));
              T == Advance(old(T), cmd.power) && Pid() == cmd.next
      ensures time == old(time) + DT
      ensures labels == Push(old(labels), time) && data == Push(old(data), T)
      ensures |labels| == |data|
                       == if |old(labels)| < HISTORY_LIMIT then |old(labels)| + 1 else HISTORY_LIMIT
      ensures labels[|labels| - 1] == time && data[|data| - 1] == T
    {
      var e := setpoint - T;
      var u := Control(setpoint, mode, kp, ki, kd, e);
      AdvanceStaysInBand(T, u);
      T := Advance(T, u);
      time := time + DT;
      labels := labels + [time];
      data := data + [T];
      if |labels| > HISTORY_LIMIT {
        labels := labels[1..];
        data := data[1..];
      }
    }
  }

  /** The first PID tick from rest saturates: 251.25 W is clamped to full power. */
  method PidFirstTick()
  {
    var sim := new Simulator();
    sim.Step(50.0, "PID", 10.0, 0.5, 0.0);
    assert sim.iSum == 2.5 && sim.ePrev == 25.0;
    assert sim.T == 25.04 && sim.time == 0.1;
    assert sim.labels == [0.1] && sim.data == [25.04];
  }

  /** A heater-off tick from ambient keeps the temperature at ambient. */
  method OffAtAmbient()
  {
    var sim := new Simulator();
    sim.Step(60.0, "OFF", 1.0, 1.0, 1.0);
    assert sim.T == AMBIENT && sim.Pid() == PidState(0.0, 0.0);
  }
}
