# Heater simulation: control law, thermal plant and chart history

A model of the computational core of the virtual heating lab in `app.js`: a heated
mass at temperature `T` loses heat to a 25 °C ambient, and a controller chosen by a
mode string (`OFF`, `ONOFF`, `P`, `PID`) sets the heater power every tick. One tick
computes the error `setpoint - T`, calls the controller, advances `T` by one
explicit-Euler step of `dT/dt = (u - 5·(T - 25)) / 500` with `dt = 0.1`, advances the
clock by `dt`, and pushes `(time, T)` onto the chart's two parallel series, dropping the
oldest point once there are more than 200.

Files:

- `constants.dfy` (`SimConstants`): `dt`, ambient, loss coefficient, capacitance, full
  power, the on/off offset, the history limit, and the derived full-power equilibrium
  (65 °C), per-tick decay factor (0.999) and per-watt gain.
- `control.dfy` (`ControlLaw`): the control law as a function `Law` from mode, gains,
  error, current temperature and PID memory to a power and the new PID memory; the
  clamp; the behaviour of the PID memory over a run of ticks.
- `plant.dfy` (`ThermalPlant`): the Euler step `Advance`, the band it keeps, and the
  heater-off dynamics over `n` ticks (`Coast`).
- `history.dfy` (`HistoryBuffer`): one push-then-shift of a series and the
  first-in first-out window it maintains over any number of pushes.
- `simulation.dfy` (`Simulation`): the class `Simulator` whose fields are the globals
  `T`, `time`, `iSum`, `ePrev` and the chart series `labels` and `data`; its methods
  `Control` and `Step` update them in place and are proved against `Law`, `Advance` and
  `Push`. Its invariant `Valid()` says the series are parallel, at most 200 long,
  strictly increasing in time and ending at the current time and temperature, and that
  the temperature and every plotted temperature stay between 25 °C and 65 °C (the
  power is always clamped to [0, 200] W). Two short client methods replay the first
  PID tick from rest and a heater-off tick at ambient.

Arithmetic is over `real`, so it is exact. The mode stays a string compared for
equality, as in `app.js`, so every unrecognised string takes the final `return 0`.
The on/off branch reads the current temperature `T` and ignores the error passed to it;
`Law` therefore takes the temperature as a separate argument, and `OnOffThreshold`
shows that with the error computed from that same temperature the switch point is
`e > 0.5`. `app.js` computes no rise-time, overshoot, settling-time or energy
metrics and never resets on a setpoint change; none of these are modelled.

## Model

| member | source | states |
|---|---|---|
| ControlLaw.Clamp | app.js:39 | the result lies in [0, 200]; it is the input when the input is in range, 0 below and 200 above |
| ControlLaw.Law | app.js:31-51 | power always in [0, 200]; OFF gives 0; ONOFF gives 200 exactly when `T < setpoint - 0.5` and 0 otherwise; P gives `kp*e` in range, 0 below, 200 above; PID adds `e*dt` to the integral and remembers `e` whether or not the output saturates, and outputs the clamped `kp*e + ki*iSum' + kd*(e - ePrev)/dt`; every mode but PID leaves the PID memory unchanged; unknown modes give 0 |
| ControlLaw.OnOffIgnoresError | app.js:34-36 | the on/off result does not depend on the error argument, only on the temperature and setpoint |
| ControlLaw.OnOffThreshold | app.js:35 | with the error computed from the same temperature, as a tick does, the on/off power is 200 exactly when the error exceeds 0.5 |
| ControlLaw.PidCallUpdates | app.js:42-47 | every PID call of the controller, whatever the gains, setpoint and temperature, updates the PID memory by exactly one `PidUpdate` step, so `PidRun` is the memory after a run of PID calls |
| ControlLaw.PidRunAccumulates | app.js:42-47 | over any run of PID calls the integral grows by exactly the sum of the errors times `dt` (no anti-windup) and the remembered error is the last one |
| ThermalPlant.Advance | app.js:66-69 | the excess over ambient is scaled by 0.999 and raised by `u*dt/500`; the temperature rises exactly when the power exceeds the convective loss and is unchanged exactly when they are equal; with the heater off it falls strictly toward ambient without reaching it, and stays at ambient if it starts there |
| ThermalPlant.AdvanceStaysInBand | app.js:67-69 | with power in [0, 200] a temperature in [25, 65] stays in [25, 65] |
| ThermalPlant.CoastClosedForm | app.js:67-69 | after `n` heater-off ticks the excess over ambient is the initial excess times 0.999^n |
| ThermalPlant.CoastApproachesAmbient | app.js:67-69 | starting above ambient with the heater off, every tick lowers the temperature and it stays above ambient |
| ThermalPlant.CoastAtAmbient | app.js:67-69 | ambient is a fixed point of the heater-off dynamics for any number of ticks |
| HistoryBuffer.Push | app.js:73-79 | below the limit the point is appended and nothing removed; at the limit exactly the oldest point is dropped and the rest keep their order; the length becomes `min(old length + 1, 200)` |
| HistoryBuffer.PushAllKeepsNewest | app.js:73-79 | from a series within the limit, any sequence of pushes leaves exactly the newest 200 points of everything pushed, oldest first |
| Simulation.Simulator.constructor | app.js:24-28 | the simulation starts at 25 °C, time 0, zero PID memory and empty chart series, satisfying the invariant |
| Simulation.Simulator.Control | app.js:31-51 | the returned power and new PID memory are those of `Law` with the current temperature; the power is in [0, 200]; only PID writes `iSum` and `ePrev`, and nothing else (temperature, time, series) changes |
| Simulation.Simulator.Step | app.js:63-79 | the error uses the pre-update temperature; the new temperature is one Euler step with the controller's power; time grows by exactly `dt`; both series get one push with the shift of `Push`, stay equal in length, end at the new time and temperature; the invariant is preserved |

## Left out

- Chart.js construction, `chart.update()` and rendering (app.js:1-21, 81): a foreign library.
- The DOM reads of setpoint, mode and gains and the write of the setpoint label (app.js:55-61): they become the parameters of `Step`.
- `setInterval` scheduling (app.js:85): `Step` is one tick; the caller decides when to call it.
- `time.toFixed(1)` (app.js:73): the labels hold the time value itself rather than its one-decimal string.
- IEEE-754 rounding, NaN and infinities (for example a gain field that does not parse as a number): arithmetic is over exact reals.
- Simulation.Simulator.Step: requires the class invariant `Valid()`, which the constructor establishes and every tick preserves; in `app.js` the chart series are only ever touched by `step`, so this excludes no reachable state.
