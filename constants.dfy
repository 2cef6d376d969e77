/** The fixed constants of the heater simulation. */
module SimConstants {
  /** Integration timestep in seconds (`dt`). */
  const DT: real := 0.1
  /** Ambient temperature in °C; also the temperature the simulation starts at. */
  const AMBIENT: real := 25.0
  /** Convective loss in W per °C above ambient. */
  const LOSS_COEFF: real := 5.0
  /** Thermal capacitance of the heated mass in J/°C. */
  const CAPACITY: real := 500.0
  /** Full heater power in W: the on/off "on" value and the upper clamp of P and PID. */
  const MAX_POWER: real := 200.0
  /** The on/off controller switches on below `setpoint - ONOFF_OFFSET`. */
  const ONOFF_OFFSET: real := 0.5
  /** The chart keeps at most this many points. */
  const HISTORY_LIMIT: nat := 200

  /** Equilibrium temperature at full power, where the convective loss equals MAX_POWER. */
  const MAX_TEMP: real := AMBIENT + MAX_POWER / LOSS_COEFF
  /** Per-tick factor by which the excess over ambient shrinks when the heater is off. */
  const DECAY: real := 1.0 - LOSS_COEFF * DT / CAPACITY
  /** Temperature gained per tick per watt of heater power. */
  const GAIN: real := DT / CAPACITY
}
