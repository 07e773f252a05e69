/**
 One player of the kinematic pitch-control model (src/pitch_control/player.py):
 its fixed model constants, its running contribution accumulators, its state
 in the current frame, and its per-cell scratch values.
 */
module PlayerModel {

  import opened Common
  import opened Parameters

  /**
   The running contribution accumulators: the total and its split into the
   three thirds while attacking and while defending. They are zeroed when the
   player is created and only ever grow from then on, across every frame.
   */
  datatype Contribution = Contribution(
    total: real,
    attFirst: real, attSecond: real, attThird: real,
    defFirst: real, defSecond: real, defThird: real)
  {
    /** The bucket for a possession role and a (team-relative) third. */
    function Bucket(role: Role, zone: Zone): real
    {
      match role
      case Attacking => (match zone case First => attFirst case Second => attSecond case Third => attThird)
      case Defending => (match zone case First => defFirst case Second => defSecond case Third => defThird)
    }

    function BucketSum(): real
    {
      attFirst + attSecond + attThird + defFirst + defSecond + defThird
    }
  }

  const NoContribution := Contribution(0.0, 0.0, 0.0, 0.0, 0.0, 0.0, 0.0)

  lemma NoContributionIsZero()
    ensures NoContribution.total == 0.0 && NoContribution.BucketSum() == 0.0
    ensures forall role, zone :: NoContribution.Bucket(role, zone) == 0.0
  {
    forall role, zone ensures NoContribution.Bucket(role, zone) == 0.0 {
      match role
      case Attacking =>
      case Defending =>
    }
  }

  datatype Player = Player(
    id: string,                  // jersey number, as text
    team: string,                // "home" or "away"
    isGk: bool,
    vmax: real,
    reactionTime: real,
    ttiSigma: real,
    lambdaAtt: real,
    lambdaDef: real,
    constantValue: real,         // -pi / sqrt(3) / tti_sigma
    contribution: Contribution,  // running accumulators
    ppcf: real,                  // contribution to the cell being solved
    position: Coords,
    velocity: Vec2,
    inframe: bool,
    timeToIntercept: Option<real>)  // None when the position is missing (NaN)
  {
    /** The prefix of this player's columns in the tracking table, e.g. "home_7_". */
    function TagName(): string
    {
      team + "_" + id + "_"
    }
  }

  /**
   Builds a player from the engine's parameters. With individual velocities the
   player's top speed is looked up in the per-player table (a missing row is a
   KeyError); otherwise it is the global maximum speed.
   */
  function NewPlayer(pid: string, teamName: string, params: Params, isGk: bool,
                     includeIndividualVelocities: bool, individualVelocities: map<string, real>): (r: Result<Player>)
    requires Valid(params)
    ensures r.Err? <==> includeIndividualVelocities && pid !in individualVelocities
    ensures r.Err? ==> r.error == KeyNotFound
    ensures r.Ok? ==> r.value.id == pid && r.value.team == teamName && r.value.isGk == isGk
    ensures r.Ok? ==> r.value.vmax == (if includeIndividualVelocities then individualVelocities[pid] else params.maxPlayerSpeed)
    ensures r.Ok? ==> r.value.lambdaAtt == params.lambdaAtt
    ensures r.Ok? ==> r.value.lambdaDef == (if isGk then params.lambdaGk else params.lambdaDef)
    ensures r.Ok? ==> r.value.constantValue < 0.0
    ensures r.Ok? ==> r.value.contribution == NoContribution
  {
    if includeIndividualVelocities && pid !in individualVelocities then Err(KeyNotFound)
    else
      var vmax := if includeIndividualVelocities then individualVelocities[pid] else params.maxPlayerSpeed;
      var c := -params.piOverRoot3 / params.ttiSigma;
      NegQuotient(params.piOverRoot3, params.ttiSigma);
      Ok(Player(
        id := pid,
        team := teamName,
        isGk := isGk,
        vmax := vmax,
        reactionTime := params.reactionTime,
        ttiSigma := params.ttiSigma,
        lambdaAtt := params.lambdaAtt,
        lambdaDef := if isGk then params.lambdaGk else params.lambdaDef,
        constantValue := c,
        contribution := NoContribution,
        ppcf := 0.0,
        position := Coords(None, None),
        velocity := Vec2(0.0, 0.0),
        inframe := false,
        timeToIntercept := None))
  }

  /** A new player has contributed nothing yet: the total and all six buckets are zero. */
  lemma NewPlayerStartsAtZero(pid: string, teamName: string, params: Params, isGk: bool,
                              includeIndividualVelocities: bool, individualVelocities: map<string, real>)
    requires Valid(params)
    requires !includeIndividualVelocities || pid in individualVelocities
    ensures var p := NewPlayer(pid, teamName, params, isGk, includeIndividualVelocities, individualVelocities).value;
            p.contribution.total == 0.0 && p.contribution.BucketSum() == 0.0
            && forall role, zone :: p.contribution.Bucket(role, zone) == 0.0
  {
    var r := NewPlayer(pid, teamName, params, isGk, includeIndividualVelocities, individualVelocities);
    assert r.value.contribution == NoContribution;
    NoContributionIsZero();
  }

  /** The frame holds the four columns `update_player` reads for this player. */
  predicate HasKinematics(f: Frame, p: Player)
  {
    && p.TagName() + "x" in f.values
    && p.TagName() + "y" in f.values
    && p.TagName() + "vx" in f.values
    && p.TagName() + "vy" in f.values
  }

  /**
   Reads the player's position and velocity from the frame. The player is in
   frame exactly when neither position coordinate is missing; a velocity with a
   missing component is replaced by zero as a whole.
   */
  function UpdatePlayer(p: Player, f: Frame): (r: Player)
    requires HasKinematics(f, p)
    ensures r.position == Coords(f.values[p.TagName() + "x"], f.values[p.TagName() + "y"])
    ensures r.inframe <==> r.position.x.Some? && r.position.y.Some?
    ensures var vx := f.values[p.TagName() + "vx"];
            var vy := f.values[p.TagName() + "vy"];
            if vx.Some? && vy.Some? then r.velocity == Vec2(vx.value, vy.value) else r.velocity == Vec2(0.0, 0.0)
    ensures r.(position := p.position, velocity := p.velocity, inframe := p.inframe) == p
  {
    var position := Coords(f.values[p.TagName() + "x"], f.values[p.TagName() + "y"]);
    var vx := f.values[p.TagName() + "vx"];
    var vy := f.values[p.TagName() + "vy"];
    var velocity := if vx.None? || vy.None? then Vec2(0.0, 0.0) else Vec2(vx.value, vy.value);
    p.(position := position, inframe := position.Present(), velocity := velocity)
  }

  /** Only the latest frame matters: updating twice is updating with the second frame. */
  lemma UpdatePlayerLastWins(p: Player, f1: Frame, f2: Frame)
    requires HasKinematics(f1, p) && HasKinematics(f2, p)
    ensures HasKinematics(f2, UpdatePlayer(p, f1))
    ensures UpdatePlayer(UpdatePlayer(p, f1), f2) == UpdatePlayer(p, f2)
  {
  }

  /**
   Prepares the player for a new cell: the per-cell contribution is reset, and
   the time to reach `target` is the reaction time (coasting at the current
   velocity) plus the straight-line distance from there at top speed. With a
   missing position the time is missing too.
   */
  function UpdateTimeToIntercept(p: Player, target: Vec2, norm: Norm): (r: Player)
    requires p.vmax != 0.0
    ensures r.ppcf == 0.0
    ensures r.timeToIntercept.Some? <==> p.position.Present()
    ensures p.position.Present() && p.vmax > 0.0 ==> r.timeToIntercept.value >= p.reactionTime
    ensures p.position.Present() ==>
              (r.timeToIntercept.value - p.reactionTime) * p.vmax
              == norm(Sub(target, Add(p.position.Point(), Scale(p.velocity, p.reactionTime))))
    ensures r.(ppcf := p.ppcf, timeToIntercept := p.timeToIntercept) == p
  {
    if p.position.Present() then
      var reactionPoint := Add(p.position.Point(), Scale(p.velocity, p.reactionTime));
      var d := norm(Sub(target, reactionPoint));
      var travel := d / p.vmax;
      assert travel * p.vmax == d;
      assert p.vmax > 0.0 ==> travel >= 0.0;
      p.(ppcf := 0.0, timeToIntercept := Some(p.reactionTime + travel))
    else
      p.(ppcf := 0.0, timeToIntercept := None)
  }

  /**
   Each cell starts afresh: a player prepared for one cell and then for another
   is exactly the player prepared for the second cell only.
   */
  lemma TimeToInterceptLastWins(p: Player, t1: Vec2, t2: Vec2, norm: Norm)
    requires p.vmax != 0.0
    ensures UpdateTimeToIntercept(UpdateTimeToIntercept(p, t1, norm), t2, norm) == UpdateTimeToIntercept(p, t2, norm)
  {
  }

  /** A target whose distance from the reaction point is larger is reached later. */
  lemma FartherTargetTakesLonger(p: Player, t1: Vec2, t2: Vec2, norm: Norm)
    requires p.vmax > 0.0 && p.position.Present()
    requires var rp := Add(p.position.Point(), Scale(p.velocity, p.reactionTime));
             norm(Sub(t1, rp)) <= norm(Sub(t2, rp))
    ensures UpdateTimeToIntercept(p, t1, norm).timeToIntercept.value
            <= UpdateTimeToIntercept(p, t2, norm).timeToIntercept.value
  {
    var rp := Add(p.position.Point(), Scale(p.velocity, p.reactionTime));
    var d1 := norm(Sub(t1, rp));
    var d2 := norm(Sub(t2, rp));
    DivMonotone(d1, d2, p.vmax);
  }

  /** The logistic curve `1 / (1 + exp(x))`: strictly between zero and one. */
  function Logistic(x: real, exp: Exp): (r: real)
    ensures 0.0 < r < 1.0
    ensures x == 0.0 ==> r == 0.5
  {
    var d := 1.0 + exp(x);
    assert d > 1.0;
    1.0 / d
  }

  /** For an increasing exponential the logistic curve falls as its argument grows. */
  lemma LogisticAntitone(x1: real, x2: real, exp: Exp)
    requires Increasing(exp) && x1 <= x2
    ensures Logistic(x2, exp) <= Logistic(x1, exp)
  {
    IncreasingAt(exp, x1, x2);
    RecipAntitone(1.0 + exp(x2), 1.0 + exp(x1));
  }

  /** The logistic argument `c * (t - time_to_intercept)`: zero at the intercept time, falling with `t`. */
  function Exponent(p: Player, t: real): (x: real)
    requires p.timeToIntercept.Some?
    ensures t == p.timeToIntercept.value ==> x == 0.0
  {
    p.constantValue * (t - p.timeToIntercept.value)
  }

  lemma ExponentAntitone(p: Player, t1: real, t2: real)
    requires p.timeToIntercept.Some? && p.constantValue < 0.0 && t1 <= t2
    ensures Exponent(p, t2) <= Exponent(p, t1)
  {
    MulNegAntitone(p.constantValue, t1 - p.timeToIntercept.value, t2 - p.timeToIntercept.value);
  }

  /**
   The logistic probability that the player has controlled the ball by time
   `t`: `1 / (1 + exp(c * (t - time_to_intercept)))` with `c = -pi/(sqrt(3) sigma)`.
   */
  function ProbabilityInterceptBall(p: Player, t: real, exp: Exp): (r: real)
    requires p.timeToIntercept.Some?
    ensures 0.0 < r < 1.0
    ensures t == p.timeToIntercept.value ==> r == 0.5
  {
    Logistic(Exponent(p, t), exp)
  }

  /** For an increasing exponential the probability never decreases with time. */
  lemma ProbabilityInterceptMonotone(p: Player, t1: real, t2: real, exp: Exp)
    requires p.timeToIntercept.Some? && p.constantValue < 0.0
    requires Increasing(exp)
    requires t1 <= t2
    ensures ProbabilityInterceptBall(p, t1, exp) <= ProbabilityInterceptBall(p, t2, exp)
  {
    ExponentAntitone(p, t1, t2);
    LogisticAntitone(Exponent(p, t2), Exponent(p, t1), exp);
  }
}
