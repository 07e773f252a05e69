/**
 The engine's fixed physical parameter set, built once when the engine is
 constructed (src/pitch_control/pitch_control.py, `PitchControl.__init__`).
 The two transcendental constants the derivation needs, ln 10 and pi/sqrt 3,
 are parameters of the model.
 */
module Parameters {

  datatype Params = Params(
    maxPlayerAccel: real,
    maxPlayerSpeed: real,
    reactionTime: real,
    ttiSigma: real,
    kappaDef: real,
    lambdaAtt: real,
    lambdaDef: real,
    lambdaGk: real,
    averageBallSpeed: real,
    timeToControlAtt: real,
    timeToControlDef: real,
    intDt: real,
    maxIntTime: real,
    modelConvergeTol: real,
    timeToControlVeto: real,
    piOverRoot3: real)

  /** The properties of the parameter set the rest of the engine relies on. */
  predicate Valid(p: Params)
  {
    && p.maxPlayerSpeed > 0.0
    && p.reactionTime >= 0.0
    && p.ttiSigma > 0.0
    && p.lambdaAtt > 0.0
    && p.lambdaDef > 0.0
    && p.lambdaGk > 0.0
    && p.averageBallSpeed > 0.0
    && p.timeToControlAtt > 0.0
    && p.timeToControlDef > 0.0
    && p.modelConvergeTol >= 0.0
    && p.piOverRoot3 > 0.0
  }

  /**
   The "time to control" cutoff of one side: the veto multiple of the time
   by which that side's control probability reaches 90%,
   `veto * ln(10) * (sqrt(3) * sigma / pi + 1 / lambda)`.
   */
  function Cutoff(veto: real, ln10: real, sigma: real, piOverRoot3: real, lambda: real): real
    requires piOverRoot3 != 0.0 && lambda != 0.0
  {
    veto * ln10 * (sigma / piOverRoot3 + 1.0 / lambda)
  }

  /** The constants and derived values the engine is constructed with. */
  function DefaultParams(ln10: real, piOverRoot3: real): Params
    requires piOverRoot3 != 0.0
  {
    var kappaDef := 1.0;
    var lambdaDef := 4.3 * kappaDef;
    Params(
      maxPlayerAccel := 7.0,
      maxPlayerSpeed := 5.0,
      reactionTime := 0.7,
      ttiSigma := 0.45,
      kappaDef := kappaDef,
      lambdaAtt := 4.3,
      lambdaDef := lambdaDef,
      lambdaGk := lambdaDef * 3.0,
      averageBallSpeed := 15.0,
      timeToControlAtt := Cutoff(3.0, ln10, 0.45, piOverRoot3, 4.3),
      timeToControlDef := Cutoff(3.0, ln10, 0.45, piOverRoot3, lambdaDef),
      intDt := 0.04,
      maxIntTime := 50.0,
      modelConvergeTol := 0.01,
      timeToControlVeto := 3.0,
      piOverRoot3 := piOverRoot3)
  }

  lemma CutoffPositive(veto: real, ln10: real, sigma: real, piOverRoot3: real, lambda: real)
    requires veto > 0.0 && ln10 > 0.0 && sigma >= 0.0 && piOverRoot3 > 0.0 && lambda > 0.0
    ensures Cutoff(veto, ln10, sigma, piOverRoot3, lambda) > 0.0
  {
    var a := sigma / piOverRoot3;
    var b := 1.0 / lambda;
    assert a >= 0.0 && b > 0.0;
    var k := veto * ln10;
    assert k > 0.0;
    assert k * (a + b) > 0.0;
  }

  /** With the source's constants (and positive ln 10, pi/sqrt 3) the parameter set is valid. */
  lemma DefaultParamsValid(ln10: real, piOverRoot3: real)
    requires ln10 > 0.0 && piOverRoot3 > 0.0
    ensures Valid(DefaultParams(ln10, piOverRoot3))
  {
    CutoffPositive(3.0, ln10, 0.45, piOverRoot3, 4.3);
  }

  /** A larger rate constant gives a shorter cutoff: control "locks in" sooner. */
  lemma CutoffShrinksWithLambda(veto: real, ln10: real, sigma: real, piOverRoot3: real, l1: real, l2: real)
    requires veto > 0.0 && ln10 > 0.0 && piOverRoot3 > 0.0 && 0.0 < l1 < l2
    ensures Cutoff(veto, ln10, sigma, piOverRoot3, l2) < Cutoff(veto, ln10, sigma, piOverRoot3, l1)
  {
    assert 1.0 / l2 < 1.0 / l1;
    var k := veto * ln10;
    assert k > 0.0;
    var a := sigma / piOverRoot3;
    assert k * (a + 1.0 / l2) < k * (a + 1.0 / l1);
  }

  /**
   With `kappa_def = 1` the defending rate equals the attacking one, so the
   two cutoffs the engine derives coincide, and the goalkeeper's rate is three
   times the outfield defending rate.
   */
  lemma DefaultCutoffsCoincide(ln10: real, piOverRoot3: real)
    requires piOverRoot3 != 0.0
    ensures DefaultParams(ln10, piOverRoot3).timeToControlAtt == DefaultParams(ln10, piOverRoot3).timeToControlDef
    ensures DefaultParams(ln10, piOverRoot3).lambdaGk == 3.0 * DefaultParams(ln10, piOverRoot3).lambdaDef
  {
  }
}
