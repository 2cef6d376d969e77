/** The thermal plant: one explicit-Euler step of the heat balance of the heated mass. */
module ThermalPlant {
  import opened SimConstants

  /** Heat lost to ambient by convection, in W. */
  function Loss(temp: real): real
  {
    LOSS_COEFF * (temp - AMBIENT)
  }

  /** The temperature one tick later with heater power `u`. */
  function Advance(temp: real, u: real): (t: real)
    ensures t - AMBIENT == (temp - AMBIENT) * DECAY + u * GAIN
    ensures t > temp <==> u > Loss(temp)
    ensures t == temp <==> u == Loss(temp)
    ensures u == 0.0 && temp > AMBIENT ==> AMBIENT < t < temp
    ensures u == 0.0 && temp == AMBIENT ==> t == AMBIENT
  {
    var dTdt := (u - Loss(temp)) / CAPACITY;
    temp + dTdt * DT
  }

  /**
   * With a power command in the heater's range, a temperature between ambient and the
   * full-power equilibrium stays in that band.
   */
  lemma AdvanceStaysInBand(temp: real, u: real)
    requires AMBIENT <= temp <= MAX_TEMP && 0.0 <= u <= MAX_POWER
    ensures AMBIENT <= Advance(temp, u) <= MAX_TEMP
  {
  }

  /** The temperature after `n` ticks with the heater off. */
  function Coast(temp: real, n: nat): real
  {
    if n == 0 then temp else Advance(Coast(temp, n - 1), 0.0)
  }

  function Pow(x: real, n: nat): real
  {
    if n == 0 then 1.0 else x * Pow(x, n - 1)
  }

  /** One heater-off tick scales the excess over ambient by DECAY. */
  lemma AdvanceOff(temp: real)
    ensures Advance(temp, 0.0) - AMBIENT == (temp - AMBIENT) * DECAY
  {
  }

  lemma Reassociate(x: real, p: real, d: real)
    ensures (x * p) * d == x * (d * p)
  {
  }

  /** With the heater off the excess over ambient shrinks geometrically by DECAY per tick. */
  lemma {:induction false} CoastClosedForm(temp: real, n: nat)
    ensures Coast(temp, n) - AMBIENT == (temp - AMBIENT) * Pow(DECAY, n)
  {
    if n > 0 {
      CoastClosedForm(temp, n - 1);
      AdvanceOff(Coast(temp, n - 1));
      Reassociate(temp - AMBIENT, Pow(DECAY, n - 1), DECAY);
    }
  }

  /**
   * Starting above ambient with the heater off, the temperature falls strictly every
   * tick and never reaches ambient.
   */
  lemma {:induction false} CoastApproachesAmbient(temp: real, n: nat)
    requires temp > AMBIENT
    ensures AMBIENT < Coast(temp, n + 1) < Coast(temp, n) <= temp
  {
    if n > 0 {
      CoastApproachesAmbient(temp, n - 1);
    }
  }

  /** Ambient is a fixed point of the heater-off dynamics. */
  lemma {:induction false} CoastAtAmbient(n: nat)
    ensures Coast(AMBIENT, n) == AMBIENT
  {
    CoastClosedForm(AMBIENT, n);
  }
}
