/**
 The engine's decision shell (src/pitch_control/pitch_control.py): the
 closest player of a side, the cell solver's guard, fast paths and pruning
 around an abstract numerical integration, the frame-wide checksum, the choice
 of attacking and defending side, and the cell loop of one frame.
 */
module PitchControl {

  import opened Common
  import opened Seqs
  import opened Parameters
  import opened PlayerModel
  import opened TeamModel
  import opened FieldGrid
  import opened Offside

  // ---------------------------------------------------------------------------
  // Closest player (`get_closest_player_to_current_position`)
  // ---------------------------------------------------------------------------

  /** Every player of the list has a time to intercept (the engine passes in-frame players only). */
  predicate Timed(ps: seq<Player>)
  {
    forall i :: 0 <= i < |ps| ==> ps[i].timeToIntercept.Some?
  }

  function Times(ps: seq<Player>): (ts: seq<real>)
    requires Timed(ps)
    ensures |ts| == |ps| && forall i :: 0 <= i < |ps| ==> ts[i] == ps[i].timeToIntercept.value
  {
    seq(|ps|, i requires 0 <= i < |ps| => ps[i].timeToIntercept.value)
  }

  /** A player of the list, by position, and its time to intercept. */
  datatype Closest = Closest(index: nat, time: real)

  /**
   `min` over the times to intercept and `list.index` of that minimum: the
   first player reaching the target soonest. `min` of nothing is a ValueError.
   */
  function ClosestPlayer(ps: seq<Player>): (r: Result<Closest>)
    requires Timed(ps)
    ensures r.Err? <==> |ps| == 0
    ensures r.Err? ==> r.error == EmptyInput
    ensures r.Ok? ==> r.value.index < |ps| && r.value.time == ps[r.value.index].timeToIntercept.value
    ensures r.Ok? ==> forall i :: 0 <= i < |ps| ==> r.value.time <= ps[i].timeToIntercept.value
    ensures r.Ok? ==> forall i :: 0 <= i < r.value.index ==> ps[i].timeToIntercept.value > r.value.time
  {
    if |ps| == 0 then Err(EmptyInput)
    else
      var ts := Times(ps);
      var k := FirstArgMin(ts);
      Ok(Closest(k, ts[k]))
  }

  /** The closest player is the only one that is both a minimum and before every other minimum. */
  lemma ClosestIsFirstMinimum(ps: seq<Player>, k: nat)
    requires Timed(ps) && k < |ps|
    requires forall i :: 0 <= i < |ps| ==> ps[k].timeToIntercept.value <= ps[i].timeToIntercept.value
    requires forall i :: 0 <= i < k ==> ps[i].timeToIntercept.value > ps[k].timeToIntercept.value
    ensures ClosestPlayer(ps) == Ok(Closest(k, ps[k].timeToIntercept.value))
  {
  }

  // ---------------------------------------------------------------------------
  // Cell solver (`calculate_pitch_control_at_target`)
  // ---------------------------------------------------------------------------

  /** The two sides' control of a cell and each player's share of it, by jersey. */
  datatype CellOutcome = CellOutcome(att: real, def: real, attGains: map<string, real>, defGains: map<string, real>)

  /**
   What the integration reads of a player: its jersey, its time to intercept,
   its two control rates and the constant of its logistic curve. Its per-cell
   scratch is always zero when the integration starts.
   */
  datatype Runner = Runner(id: string, time: Option<real>, lambdaAtt: real, lambdaDef: real, constantValue: real)

  function RunnerOf(p: Player): Runner
  {
    Runner(p.id, p.timeToIntercept, p.lambdaAtt, p.lambdaDef, p.constantValue)
  }

  function Runners(ps: seq<Player>): (rs: seq<Runner>)
    ensures |rs| == |ps| && forall i :: 0 <= i < |ps| ==> rs[i] == RunnerOf(ps[i])
  {
    if |ps| == 0 then [] else [RunnerOf(ps[0])] + Runners(ps[1..])
  }

  function RunnerIds(rs: seq<Runner>): set<string>
  {
    set i | 0 <= i < |rs| :: rs[i].id
  }

  /** Every credited jersey is one of `ids` and every credit is non-negative. */
  predicate Credits(gains: map<string, real>, ids: set<string>)
  {
    forall id :: id in gains ==> id in ids && gains[id] >= 0.0
  }

  /**
   An integration outcome as the source's time stepping produces it: both
   controls are sums of non-negative player contributions (a negative rate
   raises instead), and only the runners handed in are credited.
   */
  predicate CreditsRunners(o: CellOutcome, a: seq<Runner>, d: seq<Runner>)
  {
    o.att >= 0.0 && o.def >= 0.0 && Credits(o.attGains, RunnerIds(a)) && Credits(o.defGains, RunnerIds(d))
  }

  /**
   The numerical integration of the control equations, kept abstract: it is
   given the ball's travel time and the pruned attackers and defenders, and it
   either reports an outcome or fails (a negative rate or no convergence).
   */
  type Integrator = f: (real, seq<Runner>, seq<Runner>) -> Result<CellOutcome>
    | forall t, a, d :: && (f(t, a, d).Err? ==> f(t, a, d).error == IntegrationFailed)
                        && (f(t, a, d).Ok? ==> CreditsRunners(f(t, a, d).value, a, d))
    witness (t: real, a: seq<Runner>, d: seq<Runner>) => Err(IntegrationFailed)

  /** The time the ball needs to reach the target at the average ball speed. */
  function BallTime(target: Vec2, ball: Vec2, norm: Norm, params: Params): (t: real)
    requires Valid(params)
    ensures t >= 0.0
    ensures t * params.averageBallSpeed == norm(Sub(target, ball))
  {
    var d := norm(Sub(target, ball));
    var t := d / params.averageBallSpeed;
    assert t * params.averageBallSpeed == d;
    t
  }

  /**
   The fast-path rule: the side arriving at `slow` is beaten by at least
   `cutoff` by the later of the ball and the side arriving at `fast`.
   */
  predicate Dominates(slow: real, fast: real, ballTime: real, cutoff: real)
  {
    slow - Max(ballTime, fast) >= cutoff
  }

  /** With positive cutoffs the two fast-path rules never both apply, so their order only matters otherwise. */
  lemma DominanceExclusive(tauAtt: real, tauDef: real, ballTime: real, ttcAtt: real, ttcDef: real)
    requires ttcAtt > 0.0 && ttcDef > 0.0
    ensures !(Dominates(tauAtt, tauDef, ballTime, ttcDef) && Dominates(tauDef, tauAtt, ballTime, ttcAtt))
  {
  }

  /** The players within `cutoff` of the side's fastest time. */
  function Near(tauMin: real, cutoff: real): Player -> bool
  {
    (p: Player) => p.timeToIntercept.Some? && p.timeToIntercept.value - tauMin < cutoff
  }

  /** The players the integration considers: those within `cutoff` of the closest one, in order. */
  function Prune(ps: seq<Player>, tauMin: real, cutoff: real): (r: seq<Player>)
    ensures IsSubseq(r, ps)
    ensures forall i :: 0 <= i < |r| ==> r[i].timeToIntercept.Some? && r[i].timeToIntercept.value - tauMin < cutoff
    ensures forall i :: 0 <= i < |ps| && Near(tauMin, cutoff)(ps[i]) ==> ps[i] in r
  {
    Filter(ps, Near(tauMin, cutoff))
  }

  /** The pruned players' jerseys are jerseys of the side. */
  lemma PrunedIds(ps: seq<Player>, tauMin: real, cutoff: real)
    ensures RunnerIds(Runners(Prune(ps, tauMin, cutoff))) <= IdSet(ps)
  {
    var pr := Prune(ps, tauMin, cutoff);
    forall id | id in RunnerIds(Runners(pr))
      ensures id in IdSet(ps)
    {
      var i :| 0 <= i < |pr| && Runners(pr)[i].id == id;
      assert pr[i] in ps;
      var k :| 0 <= k < |ps| && ps[k] == pr[i];
    }
  }

  /** With a positive cutoff the closest player survives the pruning, so a pruned side is never empty. */
  lemma PruneKeepsClosest(ps: seq<Player>, cutoff: real)
    requires Timed(ps) && |ps| > 0 && cutoff > 0.0
    ensures var c := ClosestPlayer(ps).value;
            ps[c.index] in Prune(ps, c.time, cutoff) && |Prune(ps, c.time, cutoff)| > 0
  {
    var c := ClosestPlayer(ps).value;
    assert Near(c.time, cutoff)(ps[c.index]);
  }

  /** Full control of the cell for one side, all of it credited to one player. */
  function Decided(attacking: bool, id: string): (o: CellOutcome)
    ensures o.att + o.def == 1.0
    ensures attacking ==> o.att == 1.0 && o.attGains == map[id := 1.0] && o.defGains == map[]
    ensures !attacking ==> o.def == 1.0 && o.defGains == map[id := 1.0] && o.attGains == map[]
  {
    if attacking then CellOutcome(1.0, 0.0, map[id := 1.0], map[]) else CellOutcome(0.0, 1.0, map[], map[id := 1.0])
  }

  /**
   The control of the two sides at `target`. A ball with a missing coordinate
   fails before anything else; an empty side fails in `min`. If the closest
   attacker is beaten by the cutoff `time_to_control_def` the defence owns the
   cell outright, credited to its closest player; then symmetrically for the
   attack with `time_to_control_att`; otherwise the integration decides, over
   the players within the cutoff of their side's closest one.
   */
  function SolveCell(target: Vec2, attackers: seq<Player>, defenders: seq<Player>, ball: Coords,
                     params: Params, norm: Norm, integrate: Integrator): (r: Result<CellOutcome>)
    requires Valid(params) && Timed(attackers) && Timed(defenders)
    ensures !ball.Present() ==> r == Err(BallMissing)
    ensures ball.Present() && (|attackers| == 0 || |defenders| == 0) ==> r == Err(EmptyInput)
    ensures r.Err? ==> r.error in {BallMissing, EmptyInput, IntegrationFailed}
    ensures r.Ok? ==> ball.Present() && |attackers| > 0 && |defenders| > 0
    ensures ball.Present() && |attackers| > 0 && |defenders| > 0 ==>
              var ca := ClosestPlayer(attackers).value;
              var cd := ClosestPlayer(defenders).value;
              var bt := BallTime(target, ball.Point(), norm, params);
              && (Dominates(ca.time, cd.time, bt, params.timeToControlDef) ==>
                    r == Ok(Decided(false, defenders[cd.index].id)))
              && (!Dominates(ca.time, cd.time, bt, params.timeToControlDef)
                  && Dominates(cd.time, ca.time, bt, params.timeToControlAtt) ==>
                    r == Ok(Decided(true, attackers[ca.index].id)))
              && (!Dominates(ca.time, cd.time, bt, params.timeToControlDef)
                  && !Dominates(cd.time, ca.time, bt, params.timeToControlAtt) ==>
                    r == integrate(bt, Runners(Prune(attackers, ca.time, params.timeToControlAtt)),
                                   Runners(Prune(defenders, cd.time, params.timeToControlDef))))
    ensures r.Ok? ==> r.value.att >= 0.0 && r.value.def >= 0.0
    ensures r.Ok? ==> Credits(r.value.attGains, IdSet(attackers)) && Credits(r.value.defGains, IdSet(defenders))
  {
    if !ball.Present() then Err(BallMissing)
    else
      var bt := BallTime(target, ball.Point(), norm, params);
      match ClosestPlayer(attackers)
      case Err(e) => Err(e)
      case Ok(ca) =>
        match ClosestPlayer(defenders)
        case Err(e) => Err(e)
        case Ok(cd) =>
          if Dominates(ca.time, cd.time, bt, params.timeToControlDef) then
            Ok(Decided(false, defenders[cd.index].id))
          else if Dominates(cd.time, ca.time, bt, params.timeToControlAtt) then
            Ok(Decided(true, attackers[ca.index].id))
          else
            PrunedIds(attackers, ca.time, params.timeToControlAtt);
            PrunedIds(defenders, cd.time, params.timeToControlDef);
            integrate(bt, Runners(Prune(attackers, ca.time, params.timeToControlAtt)),
                      Runners(Prune(defenders, cd.time, params.timeToControlDef)))
  }

  lemma RunnersCons(p: Player, ps: seq<Player>)
    ensures Runners([p] + ps) == [RunnerOf(p)] + Runners(ps)
  {
    assert ([p] + ps)[1..] == ps;
  }

  /** Filtering two lists that look alike to the integration, with a test that cannot tell them apart, gives lists that look alike. */
  lemma {:induction false} FilterSameRunners(xs: seq<Player>, ys: seq<Player>, p: Player -> bool)
    requires |xs| == |ys|
    requires forall k :: 0 <= k < |xs| ==> RunnerOf(xs[k]) == RunnerOf(ys[k]) && p(xs[k]) == p(ys[k])
    ensures Runners(Filter(xs, p)) == Runners(Filter(ys, p))
    decreases |xs|
  {
    if |xs| > 0 {
      FilterSameRunners(xs[1..], ys[1..], p);
      if p(xs[0]) {
        RunnersCons(xs[0], Filter(xs[1..], p));
        RunnersCons(ys[0], Filter(ys[1..], p));
      }
    }
  }

  /** Lists with the same runner views have the same closest player. */
  lemma SameRunnersSameClosest(a1: seq<Player>, a2: seq<Player>)
    requires Timed(a1) && Timed(a2) && Runners(a1) == Runners(a2)
    ensures ClosestPlayer(a1) == ClosestPlayer(a2)
  {
    assert |a1| == |Runners(a1)| == |a2|;
    forall i | 0 <= i < |a1|
      ensures Times(a1)[i] == Times(a2)[i]
    {
      assert Runners(a1)[i] == Runners(a2)[i];
    }
    assert Times(a1) == Times(a2);
  }

  /** Lists the integration sees alike are pruned alike. */
  lemma PruneSameRunners(a1: seq<Player>, a2: seq<Player>, tauMin: real, cutoff: real)
    requires Runners(a1) == Runners(a2)
    ensures Runners(Prune(a1, tauMin, cutoff)) == Runners(Prune(a2, tauMin, cutoff))
  {
    assert |a1| == |Runners(a1)| == |a2|;
    forall k | 0 <= k < |a1|
      ensures RunnerOf(a1[k]) == RunnerOf(a2[k])
    {
      assert Runners(a1)[k] == Runners(a2)[k];
    }
    FilterSameRunners(a1, a2, Near(tauMin, cutoff));
  }

  /** The solver reads the players only through their runner views. */
  lemma SolveCellRunners(target: Vec2, a1: seq<Player>, d1: seq<Player>, a2: seq<Player>, d2: seq<Player>,
                         ball: Coords, params: Params, norm: Norm, integrate: Integrator)
    requires Valid(params) && Timed(a1) && Timed(d1) && Timed(a2) && Timed(d2)
    requires Runners(a1) == Runners(a2) && Runners(d1) == Runners(d2)
    ensures SolveCell(target, a1, d1, ball, params, norm, integrate) == SolveCell(target, a2, d2, ball, params, norm, integrate)
  {
    SameRunnersSameClosest(a1, a2);
    SameRunnersSameClosest(d1, d2);
    assert |a1| == |Runners(a1)| == |a2| && |d1| == |Runners(d1)| == |d2|;
    if ball.Present() && |a1| > 0 && |d1| > 0 {
      var ca := ClosestPlayer(a1).value;
      var cd := ClosestPlayer(d1).value;
      assert Runners(a1)[ca.index] == Runners(a2)[ca.index];
      assert Runners(d1)[cd.index] == Runners(d2)[cd.index];
      PruneSameRunners(a1, a2, ca.time, params.timeToControlAtt);
      PruneSameRunners(d1, d2, cd.time, params.timeToControlDef);
    }
  }

  /**
   A side whose fastest player arrives later than the ball never loses a cell
   outright while the other side's fastest player is no faster: the fast path
   needs a strict head start of at least the cutoff.
   */
  lemma NoHeadStartNoFastPath(target: Vec2, attackers: seq<Player>, defenders: seq<Player>, ball: Coords,
                              params: Params, norm: Norm, integrate: Integrator)
    requires Valid(params) && Timed(attackers) && Timed(defenders)
    requires ball.Present() && |attackers| > 0 && |defenders| > 0
    requires ClosestPlayer(attackers).value.time == ClosestPlayer(defenders).value.time
    ensures SolveCell(target, attackers, defenders, ball, params, norm, integrate)
            == integrate(BallTime(target, ball.Point(), norm, params),
                         Runners(Prune(attackers, ClosestPlayer(attackers).value.time, params.timeToControlAtt)),
                         Runners(Prune(defenders, ClosestPlayer(defenders).value.time, params.timeToControlDef)))
  {
  }

  // ---------------------------------------------------------------------------
  // Frame-wide checksum
  // ---------------------------------------------------------------------------

  function RowSum(s: seq<real>): real
  {
    if |s| == 0 then 0.0 else RowSum(s[..|s| - 1]) + s[|s| - 1]
  }

  function GridSum(g: seq<seq<real>>): real
  {
    if |g| == 0 then 0.0 else GridSum(g[..|g| - 1]) + RowSum(g[|g| - 1])
  }

  /** `n_grid_cells_y * n_grid_cells_x`, the checksum's denominator. */
  function CellCount(g: Grid): int
  {
    g.ny * g.nx
  }

  /**
   The checksum guard: the average of PPCFa + PPCFd over the `ny * nx` cells
   may fall short of one by at most `tol`. The guard is one-sided: a surplus
   never fails.
   */
  function Checksum(total: real, cells: int, tol: real): (r: Result<real>)
    requires cells != 0
    ensures r.Err? <==> 1.0 - total / cells as real > tol
    ensures r.Err? ==> r.error == ChecksumFailed
    ensures r.Ok? ==> 1.0 - r.value <= tol
  {
    var average := total / cells as real;
    if 1.0 - average > tol then Err(ChecksumFailed) else Ok(average)
  }

  /** The two surfaces pass the checksum guard. */
  predicate Converged(att: seq<seq<real>>, def: seq<seq<real>>, cells: int, tol: real)
    requires cells != 0
  {
    Checksum(GridSum(att) + GridSum(def), cells, tol).Ok?
  }

  /** A running total of two surfaces passes the guard exactly when the surfaces do. */
  lemma PassedChecksum(att: seq<seq<real>>, def: seq<seq<real>>, total: real, cells: int, tol: real)
    requires cells != 0 && total == GridSum(att) + GridSum(def)
    ensures Checksum(total, cells, tol).Ok? <==> Converged(att, def, cells, tol)
  {
  }

  lemma {:induction false} RowSumAtLeast(s: seq<real>, c: real)
    requires forall i :: 0 <= i < |s| ==> s[i] >= c
    ensures RowSum(s) >= c * |s| as real
    decreases |s|
  {
    if |s| > 0 {
      RowSumAtLeast(s[..|s| - 1], c);
      assert c * (|s| - 1) as real + c == c * |s| as real;
    }
  }

  lemma {:induction false} RowSumAtMost(s: seq<real>, c: real)
    requires forall i :: 0 <= i < |s| ==> s[i] <= c
    ensures RowSum(s) <= c * |s| as real
    decreases |s|
  {
    if |s| > 0 {
      RowSumAtMost(s[..|s| - 1], c);
      assert c * (|s| - 1) as real + c == c * |s| as real;
    }
  }

  /** A grid where every cell is fully controlled (or over-controlled) passes, whatever the tolerance. */
  lemma CoveredGridPasses(cells: seq<real>, tol: real)
    requires |cells| > 0 && tol >= 0.0
    requires forall i :: 0 <= i < |cells| ==> cells[i] >= 1.0
    ensures Checksum(RowSum(cells), |cells|, tol).Ok?
  {
    var n := |cells| as real;
    RowSumAtLeast(cells, 1.0);
    DivMonotone(n, RowSum(cells), n);
    assert n / n == 1.0;
  }

  /** A grid where every cell falls short of one by more than the tolerance fails. */
  lemma ThinGridFails(cells: seq<real>, tol: real, c: real)
    requires |cells| > 0
    requires c < 1.0 - tol
    requires forall i :: 0 <= i < |cells| ==> cells[i] <= c
    ensures Checksum(RowSum(cells), |cells|, tol) == Err(ChecksumFailed)
  {
    var n := |cells| as real;
    RowSumAtMost(cells, c);
    DivMonotone(RowSum(cells), c * n, n);
    assert c * n / n == c;
  }

  // ---------------------------------------------------------------------------
  // One frame (`generate_pitch_control_for_event`)
  // ---------------------------------------------------------------------------

  /**
   The attacking side is home when home attacks, and the defending side is
   home when home defends: always one of each team, with away attacking when
   neither team owns the ball.
   */
  function SelectSides(home: Team, away: Team): (r: (Team, Team))
    requires home.name != away.name
    ensures r == (home, away) || r == (away, home)
    ensures r.0 == home <==> home.possession == Attacking
  {
    var attacking := if home.possession == Attacking then home else away;
    var defending := if home.possession == Defending then home else away;
    assert home.possession == Attacking || home.possession == Defending;
    (attacking, defending)
  }

  /**
   After a frame update of the two teams the ball owner's team attacks; a
   ball owned by neither team leaves away as the "attacking" side while it is
   labelled as defending.
   */
  lemma SidesFromBallOwner(home: Team, away: Team, f: Frame)
    requires home.name == "home" && away.name == "away"
    requires UpdateTeam(home, f).Ok? && UpdateTeam(away, f).Ok?
    ensures var h := UpdateTeam(home, f).value;
            var a := UpdateTeam(away, f).value;
            && (f.ballOwner == "home" ==> SelectSides(h, a) == (h, a) && a.possession == Defending)
            && (f.ballOwner == "away" ==> SelectSides(h, a) == (a, h) && h.possession == Defending)
            && (f.ballOwner != "home" && f.ballOwner != "away" ==>
                  SelectSides(h, a) == (a, h) && a.possession == Defending && h.possession == Defending)
  {
  }


  /** Each player's in-frame flag agrees with its position and its top speed is usable. */
  predicate Consistent(t: Team)
  {
    forall k :: 0 <= k < |t.players| ==>
      (t.players[k].inframe <==> t.players[k].position.Present()) && t.players[k].vmax != 0.0
  }

  /** `q` is `p` later in the same frame: only its accumulators and its per-cell values may differ. */
  predicate SamePlace(p: Player, q: Player)
  {
    q == p.(contribution := q.contribution, ppcf := q.ppcf, timeToIntercept := q.timeToIntercept)
  }

  /** `b` is `a` later in the same frame: identity, half, possession and every player's place are kept. */
  predicate Frozen(a: Team, b: Team)
  {
    && b.name == a.name && b.gkId == a.gkId && b.half == a.half && b.possession == a.possession
    && |b.players| == |a.players|
    && forall k :: 0 <= k < |a.players| ==> SamePlace(a.players[k], b.players[k])
  }

  lemma FrozenTransitive(a: Team, b: Team, c: Team)
    requires Frozen(a, b) && Frozen(b, c)
    ensures Frozen(a, c)
  {
  }

  /** Consistency only looks at what a later state of the same frame keeps. */
  lemma FrozenConsistent(a: Team, b: Team)
    requires Consistent(a) && Frozen(a, b)
    ensures Consistent(b)
  {
    forall k | 0 <= k < |b.players|
      ensures (b.players[k].inframe <==> b.players[k].position.Present()) && b.players[k].vmax != 0.0
    {
      assert SamePlace(a.players[k], b.players[k]);
    }
  }

  /** The jerseys of a list of players. */
  function IdSet(ps: seq<Player>): (s: set<string>)
    ensures forall i :: 0 <= i < |ps| ==> ps[i].id in s
  {
    set i | 0 <= i < |ps| :: ps[i].id
  }

  function Takes(keep: set<string>): Player -> bool
  {
    (p: Player) => p.inframe && p.id in keep
  }

  /**
   The roster's players that take part in the cells: in frame and among the
   jerseys kept at the start of the frame (after the offside filter), in
   roster order. These are the very player objects of the source's per-frame
   lists, with their per-cell state.
   */
  function Participants(t: Team, keep: set<string>): (r: seq<Player>)
    ensures forall i :: 0 <= i < |r| ==> r[i].inframe && r[i].id in keep && r[i] in t.players
    ensures forall i :: 0 <= i < |t.players| && t.players[i].inframe && t.players[i].id in keep ==> t.players[i] in r
  {
    Filter(t.players, Takes(keep))
  }

  /** The jerseys of the roster's players that take part: in frame and kept. */
  function TakingPart(t: Team, keep: set<string>): set<string>
  {
    set k | 0 <= k < |t.players| && t.players[k].inframe && t.players[k].id in keep :: t.players[k].id
  }

  lemma ParticipantsTimed(t: Team, keep: set<string>, target: Vec2, norm: Norm)
    requires Consistent(t)
    ensures Timed(Participants(UpdateTeamTimes(t, target, norm), keep))
    ensures IdSet(Participants(UpdateTeamTimes(t, target, norm), keep)) <= TakingPart(t, keep)
  {
    var u := UpdateTeamTimes(t, target, norm);
    var ps := Participants(u, keep);
    forall i | 0 <= i < |ps|
      ensures ps[i].timeToIntercept.Some? && ps[i].id in TakingPart(t, keep)
    {
      var k :| 0 <= k < |u.players| && u.players[k] == ps[i];
      assert u.players[k] == UpdateTimeToIntercept(t.players[k], target, norm);
    }
  }

  /** The solver's credit to a player, zero when it has none. */
  function Gain(gains: map<string, real>, id: string): real
  {
    if id in gains then gains[id] else 0.0
  }

  /**
   The control of `target` for the two sides as they stand: both sides are
   timed for the target (which also clears the per-cell scratch), then the
   solver runs over the participants. Only players taking part are credited,
   and never negatively.
   */
  function SolveTarget(att: Team, def: Team, keepAtt: set<string>, keepDef: set<string>, target: Vec2,
                       ball: Coords, params: Params, norm: Norm, integrate: Integrator): (r: Result<CellOutcome>)
    requires Valid(params) && Consistent(att) && Consistent(def)
    ensures r.Err? ==> r.error in {BallMissing, EmptyInput, IntegrationFailed}
    ensures r.Ok? ==> ball.Present() && r.value.att >= 0.0 && r.value.def >= 0.0
    ensures r.Ok? ==> Credits(r.value.attGains, TakingPart(att, keepAtt)) && Credits(r.value.defGains, TakingPart(def, keepDef))
  {
    ParticipantsTimed(att, keepAtt, target, norm);
    ParticipantsTimed(def, keepDef, target, norm);
    SolveCell(target, Participants(UpdateTeamTimes(att, target, norm), keepAtt),
              Participants(UpdateTeamTimes(def, target, norm), keepDef), ball, params, norm, integrate)
  }

  /** Timing a later state of the same player gives the same player timed, with its later accumulators. */
  lemma TimedSamePlace(p: Player, q: Player, target: Vec2, norm: Norm)
    requires SamePlace(p, q) && p.vmax != 0.0
    ensures UpdateTimeToIntercept(q, target, norm) == UpdateTimeToIntercept(p, target, norm).(contribution := q.contribution)
  {
  }

  /** A later state of the same frame fields the same participants, as the integration sees them. */
  lemma SameParticipants(a: Team, b: Team, keep: set<string>, target: Vec2, norm: Norm)
    requires Consistent(a) && Frozen(a, b)
    ensures Consistent(b)
    ensures Runners(Participants(UpdateTeamTimes(a, target, norm), keep))
            == Runners(Participants(UpdateTeamTimes(b, target, norm), keep))
  {
    FrozenConsistent(a, b);
    var ua := UpdateTeamTimes(a, target, norm);
    var ub := UpdateTeamTimes(b, target, norm);
    forall k | 0 <= k < |ua.players|
      ensures RunnerOf(ua.players[k]) == RunnerOf(ub.players[k]) && Takes(keep)(ua.players[k]) == Takes(keep)(ub.players[k])
    {
      TimedSamePlace(a.players[k], b.players[k], target, norm);
    }
    FilterSameRunners(ua.players, ub.players, Takes(keep));
  }

  /**
   A cell's outcome depends only on what the frame fixes: the running totals
   that earlier cells changed do not affect it.
   */
  lemma SolveTargetFrozen(att: Team, att2: Team, def: Team, def2: Team, keepAtt: set<string>, keepDef: set<string>,
                          target: Vec2, ball: Coords, params: Params, norm: Norm, integrate: Integrator)
    requires Valid(params) && Consistent(att) && Consistent(def) && Frozen(att, att2) && Frozen(def, def2)
    ensures Consistent(att2) && Consistent(def2)
    ensures SolveTarget(att, def, keepAtt, keepDef, target, ball, params, norm, integrate)
            == SolveTarget(att2, def2, keepAtt, keepDef, target, ball, params, norm, integrate)
  {
    SameParticipants(att, att2, keepAtt, target, norm);
    SameParticipants(def, def2, keepDef, target, norm);
    ParticipantsTimed(att, keepAtt, target, norm);
    ParticipantsTimed(def, keepDef, target, norm);
    ParticipantsTimed(att2, keepAtt, target, norm);
    ParticipantsTimed(def2, keepDef, target, norm);
    SolveCellRunners(target, Participants(UpdateTeamTimes(att, target, norm), keepAtt),
                     Participants(UpdateTeamTimes(def, target, norm), keepDef),
                     Participants(UpdateTeamTimes(att2, target, norm), keepAtt),
                     Participants(UpdateTeamTimes(def2, target, norm), keepDef), ball, params, norm, integrate);
  }

  /**
   One cell: the solver's outcome for the target, its credits written into
   the scratch, and both sides' accumulators updated for the cell's third.
   */
  function EvaluateCell(att: Team, def: Team, keepAtt: set<string>, keepDef: set<string>, target: Vec2, zone: Zone,
                        ball: Coords, params: Params, norm: Norm, integrate: Integrator): (r: Result<(CellOutcome, Team, Team)>)
    requires Valid(params) && Consistent(att) && Consistent(def)
    ensures r.Err? ==> SolveTarget(att, def, keepAtt, keepDef, target, ball, params, norm, integrate) == Err(r.error)
    ensures r.Ok? ==> SolveTarget(att, def, keepAtt, keepDef, target, ball, params, norm, integrate) == Ok(r.value.0)
    ensures r.Ok? ==> Consistent(r.value.1) && Consistent(r.value.2) && Frozen(att, r.value.1) && Frozen(def, r.value.2)
  {
    match SolveTarget(att, def, keepAtt, keepDef, target, ball, params, norm, integrate)
    case Err(e) => Err(e)
    case Ok(o) => Ok((o, CellTeam(att, target, norm, o.attGains, zone), CellTeam(def, target, norm, o.defGains, zone)))
  }

  /** A solved cell's sides are the two sides' bookkeeping for the solver's credits. */
  lemma EvaluatedTeams(att: Team, def: Team, keepAtt: set<string>, keepDef: set<string>, target: Vec2, zone: Zone,
                       ball: Coords, params: Params, norm: Norm, integrate: Integrator)
    requires Valid(params) && Consistent(att) && Consistent(def)
    requires EvaluateCell(att, def, keepAtt, keepDef, target, zone, ball, params, norm, integrate).Ok?
    ensures var r := EvaluateCell(att, def, keepAtt, keepDef, target, zone, ball, params, norm, integrate).value;
            r.1 == CellTeam(att, target, norm, r.0.attGains, zone) && r.2 == CellTeam(def, target, norm, r.0.defGains, zone)
  {
  }

  /** A cell adds to each player's running total exactly the solver's credit to that player. */
  lemma EvaluateCellTotals(att: Team, def: Team, keepAtt: set<string>, keepDef: set<string>, target: Vec2, zone: Zone,
                           ball: Coords, params: Params, norm: Norm, integrate: Integrator)
    requires Valid(params) && Consistent(att) && Consistent(def)
    requires EvaluateCell(att, def, keepAtt, keepDef, target, zone, ball, params, norm, integrate).Ok?
    ensures var r := EvaluateCell(att, def, keepAtt, keepDef, target, zone, ball, params, norm, integrate).value;
            && (forall k :: 0 <= k < |att.players| ==>
                  r.1.players[k].contribution.total == att.players[k].contribution.total + Gain(r.0.attGains, att.players[k].id))
            && (forall k :: 0 <= k < |def.players| ==>
                  r.2.players[k].contribution.total == def.players[k].contribution.total + Gain(r.0.defGains, def.players[k].id))
  {
    EvaluatedTeams(att, def, keepAtt, keepDef, target, zone, ball, params, norm, integrate);
  }

  /** A cell never lowers a running total. */
  lemma CellTotalsGrow(att: Team, def: Team, keepAtt: set<string>, keepDef: set<string>, target: Vec2, zone: Zone,
                       ball: Coords, params: Params, norm: Norm, integrate: Integrator)
    requires Valid(params) && Consistent(att) && Consistent(def)
    requires EvaluateCell(att, def, keepAtt, keepDef, target, zone, ball, params, norm, integrate).Ok?
    ensures var r := EvaluateCell(att, def, keepAtt, keepDef, target, zone, ball, params, norm, integrate).value;
            && (forall k :: 0 <= k < |att.players| ==> r.1.players[k].contribution.total >= att.players[k].contribution.total)
            && (forall k :: 0 <= k < |def.players| ==> r.2.players[k].contribution.total >= def.players[k].contribution.total)
  {
    EvaluateCellTotals(att, def, keepAtt, keepDef, target, zone, ball, params, norm, integrate);
  }

  /** No two players of the roster share a jersey. */
  predicate DistinctIds(t: Team)
  {
    forall i, j :: 0 <= i < j < |t.players| ==> t.players[i].id != t.players[j].id
  }

  /** With distinct jerseys, a player out of frame or not kept is not among the players taking part. */
  lemma BystanderNotTakingPart(t: Team, keep: set<string>, k: nat)
    requires DistinctIds(t) && k < |t.players| && !(t.players[k].inframe && t.players[k].id in keep)
    ensures t.players[k].id !in TakingPart(t, keep)
  {
  }

  /**
   With distinct jerseys, a player out of frame or not kept (an offside
   attacker, say) gains nothing from a cell.
   */
  lemma BystandersGainNothing(att: Team, def: Team, keepAtt: set<string>, keepDef: set<string>, target: Vec2, zone: Zone,
                              ball: Coords, params: Params, norm: Norm, integrate: Integrator)
    requires Valid(params) && Consistent(att) && Consistent(def) && DistinctIds(att) && DistinctIds(def)
    requires EvaluateCell(att, def, keepAtt, keepDef, target, zone, ball, params, norm, integrate).Ok?
    ensures var r := EvaluateCell(att, def, keepAtt, keepDef, target, zone, ball, params, norm, integrate).value;
            && (forall k :: 0 <= k < |att.players| && !(att.players[k].inframe && att.players[k].id in keepAtt) ==>
                  r.1.players[k].contribution.total == att.players[k].contribution.total)
            && (forall k :: 0 <= k < |def.players| && !(def.players[k].inframe && def.players[k].id in keepDef) ==>
                  r.2.players[k].contribution.total == def.players[k].contribution.total)
  {
    EvaluateCellTotals(att, def, keepAtt, keepDef, target, zone, ball, params, norm, integrate);
    forall k | 0 <= k < |att.players| && !(att.players[k].inframe && att.players[k].id in keepAtt)
      ensures att.players[k].id !in TakingPart(att, keepAtt)
    {
      BystanderNotTakingPart(att, keepAtt, k);
    }
    forall k | 0 <= k < |def.players| && !(def.players[k].inframe && def.players[k].id in keepDef)
      ensures def.players[k].id !in TakingPart(def, keepDef)
    {
      BystanderNotTakingPart(def, keepDef, k);
    }
  }

  /**
   One side's bookkeeping for a cell: its times for the target, the solver's
   credits in the scratch, and the accumulators updated for the cell's third.
   */
  function CellTeam(t: Team, target: Vec2, norm: Norm, gains: map<string, real>, zone: Zone): (r: Team)
    requires Consistent(t)
    ensures Consistent(r) && Frozen(t, r)
    ensures forall k :: 0 <= k < |t.players| ==>
              r.players[k].contribution.total == t.players[k].contribution.total + Gain(gains, t.players[k].id)
  {
    AccumulateTeam(ApplyGains(UpdateTeamTimes(t, target, norm), gains), zone)
  }

  /**
   A cell's credit to a player lands in the bucket of the side's role and of
   the cell's third as seen from the side's half, and in no other; a side
   whose half is undetermined keeps its buckets.
   */
  lemma CellTeamBuckets(t: Team, target: Vec2, norm: Norm, gains: map<string, real>, zone: Zone)
    requires Consistent(t)
    ensures var r := CellTeam(t, target, norm, gains, zone);
            forall k, ro, z :: 0 <= k < |t.players| ==>
              r.players[k].contribution.Bucket(ro, z)
              == t.players[k].contribution.Bucket(ro, z)
                 + (if ro == t.possession && t.half != Undetermined && Oriented(t.half, z) == zone
                    then Gain(gains, t.players[k].id) else 0.0)
  {
    var u := UpdateTeamTimes(t, target, norm);
    var g := ApplyGains(u, gains);
    var r := CellTeam(t, target, norm, gains, zone);
    forall k, ro, z | 0 <= k < |t.players|
      ensures r.players[k].contribution.Bucket(ro, z)
              == t.players[k].contribution.Bucket(ro, z)
                 + (if ro == t.possession && t.half != Undetermined && Oriented(t.half, z) == zone
                    then Gain(gains, t.players[k].id) else 0.0)
    {
      assert u.players[k] == UpdateTimeToIntercept(t.players[k], target, norm);
      assert g.players[k].ppcf == Gain(gains, t.players[k].id);
      assert r.players[k] == Accumulate(g.players[k], t.half, t.possession, zone);
      OrientedInvolution(t.half, z);
      OrientedInvolution(t.half, zone);
    }
  }

  /** The surfaces of one frame and the two teams with their accumulators after it. */
  datatype FrameResult = FrameResult(ppcfAtt: seq<seq<real>>, ppcfDef: seq<seq<real>>, home: Team, away: Team)

  /** Every row holds one entry per grid column. */
  predicate Shaped(rows: seq<seq<real>>, ny: nat, nx: nat)
  {
    |rows| == ny && forall k :: 0 <= k < |rows| ==> |rows[k]| == nx
  }

  /** The offside tolerance `check_offsides` is called with. */
  const OffsideTolerance: real := 0.2

  lemma RowSumAppend(s: seq<real>, x: real)
    ensures RowSum(s + [x]) == RowSum(s) + x
  {
    assert (s + [x])[..|s|] == s;
  }

  lemma GridSumAppend(g: seq<seq<real>>, row: seq<real>)
    ensures GridSum(g + [row]) == GridSum(g) + RowSum(row)
  {
    assert (g + [row])[..|g|] == g;
  }

  /** A team fresh from `update_players` is consistent when every top speed is usable. */
  lemma UpdatedConsistent(t: Team, f: Frame)
    requires MovingPlayers(t.players) && UpdateTeam(t, f).Ok?
    ensures Consistent(UpdateTeam(t, f).value)
  {
  }

  /** The in-frame players of a consistent team all have a position. */
  lemma InFramePlaced(t: Team)
    requires Consistent(t)
    ensures AllPlaced(InFramePlayers(t))
  {
    var ps := InFramePlayers(t);
    forall i | 0 <= i < |ps|
      ensures ps[i].position.x.Some?
    {
      var k :| 0 <= k < |t.players| && t.players[k] == ps[i];
    }
  }

  /** The two sides of a frame, the jerseys each may field in the cells, and the ball. */
  datatype Sides = Sides(att: Team, def: Team, keepAtt: set<string>, keepDef: set<string>, ball: Coords)

  /**
   The set-up of a frame: the ball is read, both teams take the frame's
   positions and possession, the attacking and defending sides are chosen and
   their in-frame players are taken, the attackers offside-filtered with a
   tolerance of 0.2 m when asked.
   */
  function PrepareFrame(home: Team, away: Team, f: Frame, offsides: bool): (r: Result<Sides>)
    requires home.name == "home" && away.name == "away"
    requires MovingPlayers(home.players) && MovingPlayers(away.players)
    ensures "ball_x" !in f.values || "ball_y" !in f.values ==> r == Err(KeyNotFound)
    ensures r.Err? ==> r.error in {KeyNotFound, MissingGoalKeeper, IndexOutOfRange}
    ensures r.Ok? ==> "ball_x" in f.values && "ball_y" in f.values
                      && r.value.ball == Coords(f.values["ball_x"], f.values["ball_y"])
    ensures r.Ok? ==> UpdateTeam(home, f).Ok? && UpdateTeam(away, f).Ok?
    ensures r.Ok? ==> (r.value.att, r.value.def) == SelectSides(UpdateTeam(home, f).value, UpdateTeam(away, f).value)
    ensures r.Ok? ==> Consistent(r.value.att) && Consistent(r.value.def)
    ensures r.Ok? ==> r.value.keepDef == IdSet(InFramePlayers(r.value.def))
    ensures r.Ok? && !offsides ==> r.value.keepAtt == IdSet(InFramePlayers(r.value.att))
    ensures r.Ok? && offsides ==>
              && AllPlaced(InFramePlayers(r.value.def))
              && CheckOffsides(InFramePlayers(r.value.att), InFramePlayers(r.value.def), r.value.ball.x,
                               r.value.def.gkId, OffsideTolerance).Ok?
              && r.value.keepAtt == IdSet(CheckOffsides(InFramePlayers(r.value.att), InFramePlayers(r.value.def),
                                                        r.value.ball.x, r.value.def.gkId, OffsideTolerance).value)
    ensures "ball_x" in f.values && "ball_y" in f.values && UpdateTeam(home, f).Ok? && UpdateTeam(away, f).Ok? ==>
              var sides := SelectSides(UpdateTeam(home, f).value, UpdateTeam(away, f).value);
              && AllPlaced(InFramePlayers(sides.1))
              && (r.Ok? <==> !offsides || CheckOffsides(InFramePlayers(sides.0), InFramePlayers(sides.1), f.values["ball_x"],
                                                        sides.1.gkId, OffsideTolerance).Ok?)
              && (r.Err? ==> r.error == CheckOffsides(InFramePlayers(sides.0), InFramePlayers(sides.1), f.values["ball_x"],
                                                      sides.1.gkId, OffsideTolerance).error)
  {
    if "ball_x" !in f.values || "ball_y" !in f.values then Err(KeyNotFound)
    else
      var ball := Coords(f.values["ball_x"], f.values["ball_y"]);
      match UpdateTeam(home, f)
      case Err(e) => Err(e)
      case Ok(h) =>
        match UpdateTeam(away, f)
        case Err(e) => Err(e)
        case Ok(a) =>
          UpdatedConsistent(home, f);
          UpdatedConsistent(away, f);
          var sides := SelectSides(h, a);
          var att, def := sides.0, sides.1;
          var attackers := InFramePlayers(att);
          var defenders := InFramePlayers(def);
          InFramePlaced(def);
          if offsides then
            match CheckOffsides(attackers, defenders, ball.x, def.gkId, OffsideTolerance)
            case Err(e) => Err(e)
            case Ok(kept) => Ok(Sides(att, def, IdSet(kept), IdSet(defenders), ball))
          else Ok(Sides(att, def, IdSet(attackers), IdSet(defenders), ball))
  }

  /** A prepared frame's attacking side is updated home exactly when home owns the ball. */
  lemma PreparedSides(home: Team, away: Team, f: Frame, offsides: bool)
    requires home.name == "home" && away.name == "away"
    requires MovingPlayers(home.players) && MovingPlayers(away.players)
    requires PrepareFrame(home, away, f, offsides).Ok?
    ensures var s := PrepareFrame(home, away, f, offsides).value;
            var h, a := UpdateTeam(home, f).value, UpdateTeam(away, f).value;
            && (h.possession == Attacking <==> f.ballOwner == "home")
            && (h.possession == Attacking ==> s.att == h && s.def == a)
            && (h.possession != Attacking ==> s.att == a && s.def == h)
  {
  }

  // ---------------------------------------------------------------------------
  // The cells of a frame, as a reference for the cell loop
  // ---------------------------------------------------------------------------

  /** The centre of cell (i, j): column j's x and row i's y. */
  function Target(grid: Grid, i: nat, j: nat): Vec2
    requires i < |grid.ygrid| && j < |grid.xgrid|
  {
    Vec2(grid.xgrid[j], grid.ygrid[i])
  }

  /** Cell (i, j) of a frame: its third flagged, then its control solved for the frame's sides. */
  function CellAt(s: Sides, grid: Grid, i: nat, j: nat, params: Params, norm: Norm, integrate: Integrator): (r: Result<CellOutcome>)
    requires Valid(params) && Consistent(s.att) && Consistent(s.def) && i < |grid.ygrid| && j < |grid.xgrid|
    ensures r.Err? ==> r.error in {OutOfField, BallMissing, EmptyInput, IntegrationFailed}
  {
    match FlagZone(grid, j)
    case Err(e) => Err(e)
    case Ok(_) => SolveTarget(s.att, s.def, s.keepAtt, s.keepDef, Target(grid, i, j), s.ball, params, norm, integrate)
  }

  /** Every cell of the grid solves. */
  predicate AllCellsSolve(s: Sides, grid: Grid, params: Params, norm: Norm, integrate: Integrator)
    requires Valid(params) && Consistent(s.att) && Consistent(s.def)
  {
    forall i, j :: 0 <= i < |grid.ygrid| && 0 <= j < |grid.xgrid| ==> CellAt(s, grid, i, j, params, norm, integrate).Ok?
  }

  /**
   Where a failing frame's error comes from: the first cell that fails, with
   that cell's own kind, or the checksum once every cell has solved.
   */
  predicate FrameFailure(s: Sides, grid: Grid, params: Params, norm: Norm, integrate: Integrator, e: Error)
    requires Valid(params) && Consistent(s.att) && Consistent(s.def)
  {
    || (exists i, j :: 0 <= i < |grid.ygrid| && 0 <= j < |grid.xgrid| && CellAt(s, grid, i, j, params, norm, integrate) == Err(e))
    || (AllCellsSolve(s, grid, params, norm, integrate) && e == ChecksumFailed)
  }

  /** The outcome of every cell, row by row. */
  function Outcomes(s: Sides, grid: Grid, params: Params, norm: Norm, integrate: Integrator): seq<seq<CellOutcome>>
    requires Valid(params) && Consistent(s.att) && Consistent(s.def) && AllCellsSolve(s, grid, params, norm, integrate)
  {
    seq(|grid.ygrid|, i requires 0 <= i < |grid.ygrid| =>
      seq(|grid.xgrid|, j requires 0 <= j < |grid.xgrid| => CellAt(s, grid, i, j, params, norm, integrate).value))
  }

  /** One side's control of each cell of a row. */
  function RowValues(os: seq<CellOutcome>, attacking: bool): (r: seq<real>)
    ensures |r| == |os|
  {
    seq(|os|, j requires 0 <= j < |os| => if attacking then os[j].att else os[j].def)
  }

  /** One side's control surface: PPCFa for the attacking side, PPCFd for the defending one. */
  function Surface(oss: seq<seq<CellOutcome>>, attacking: bool): (r: seq<seq<real>>)
    ensures |r| == |oss|
  {
    seq(|oss|, i requires 0 <= i < |oss| => RowValues(oss[i], attacking))
  }

  lemma SurfaceAppend(oss: seq<seq<CellOutcome>>, os: seq<CellOutcome>, attacking: bool)
    ensures Surface(oss + [os], attacking) == Surface(oss, attacking) + [RowValues(os, attacking)]
  {
  }

  function SideGains(o: CellOutcome, attacking: bool): map<string, real>
  {
    if attacking then o.attGains else o.defGains
  }

  /** A player's credits from one side's part of a row of cells. */
  function RowGain(os: seq<CellOutcome>, attacking: bool, id: string): real
  {
    if |os| == 0 then 0.0 else RowGain(os[..|os| - 1], attacking, id) + Gain(SideGains(os[|os| - 1], attacking), id)
  }

  /** A player's credits from one side's part of a grid of cells. */
  function GridGain(oss: seq<seq<CellOutcome>>, attacking: bool, id: string): real
  {
    if |oss| == 0 then 0.0 else GridGain(oss[..|oss| - 1], attacking, id) + RowGain(oss[|oss| - 1], attacking, id)
  }

  lemma RowGainAppend(os: seq<CellOutcome>, o: CellOutcome, attacking: bool, id: string)
    ensures RowGain(os + [o], attacking, id) == RowGain(os, attacking, id) + Gain(SideGains(o, attacking), id)
  {
    assert (os + [o])[..|os|] == os;
  }

  lemma GridGainAppend(oss: seq<seq<CellOutcome>>, os: seq<CellOutcome>, attacking: bool, id: string)
    ensures GridGain(oss + [os], attacking, id) == GridGain(oss, attacking, id) + RowGain(os, attacking, id)
  {
    assert (oss + [os])[..|oss|] == oss;
  }

  /** A player's credit from one side of cell `j` of a row, counted only when column `j` lies in third `zone`. */
  function CellZoneGain(o: CellOutcome, grid: Grid, j: int, attacking: bool, id: string, zone: Zone): real
  {
    if FlagZone(grid, j) == Ok(zone) then Gain(SideGains(o, attacking), id) else 0.0
  }

  /** A player's credits from one side of a row of cells, over the columns that lie in third `zone`. */
  function RowZoneGain(os: seq<CellOutcome>, grid: Grid, attacking: bool, id: string, zone: Zone): real
  {
    if |os| == 0 then 0.0
    else RowZoneGain(os[..|os| - 1], grid, attacking, id, zone) + CellZoneGain(os[|os| - 1], grid, |os| - 1, attacking, id, zone)
  }

  /** A player's credits from one side of a grid of cells, over the columns that lie in third `zone`. */
  function GridZoneGain(oss: seq<seq<CellOutcome>>, grid: Grid, attacking: bool, id: string, zone: Zone): real
  {
    if |oss| == 0 then 0.0
    else GridZoneGain(oss[..|oss| - 1], grid, attacking, id, zone) + RowZoneGain(oss[|oss| - 1], grid, attacking, id, zone)
  }

  lemma RowZoneGainAppend(os: seq<CellOutcome>, o: CellOutcome, grid: Grid, attacking: bool, id: string, zone: Zone)
    ensures RowZoneGain(os + [o], grid, attacking, id, zone)
            == RowZoneGain(os, grid, attacking, id, zone) + CellZoneGain(o, grid, |os|, attacking, id, zone)
  {
    assert (os + [o])[..|os|] == os;
  }

  lemma GridZoneGainAppend(oss: seq<seq<CellOutcome>>, os: seq<CellOutcome>, grid: Grid, attacking: bool, id: string, zone: Zone)
    ensures GridZoneGain(oss + [os], grid, attacking, id, zone)
            == GridZoneGain(oss, grid, attacking, id, zone) + RowZoneGain(os, grid, attacking, id, zone)
  {
    assert (oss + [os])[..|oss|] == oss;
  }

  /** Every column of every row lies on the pitch, so each cell falls in one of the three thirds. */
  predicate OnPitch(oss: seq<seq<CellOutcome>>, grid: Grid)
  {
    forall i, j :: 0 <= i < |oss| && 0 <= j < |oss[i]| ==> FlagZone(grid, j).Ok?
  }

  /** Over a row of cells on the pitch, the three thirds' credits add up to the row's credits. */
  lemma {:induction false} RowZonesCover(os: seq<CellOutcome>, grid: Grid, attacking: bool, id: string)
    requires forall j :: 0 <= j < |os| ==> FlagZone(grid, j).Ok?
    ensures RowZoneGain(os, grid, attacking, id, First) + RowZoneGain(os, grid, attacking, id, Second)
            + RowZoneGain(os, grid, attacking, id, Third) == RowGain(os, attacking, id)
  {
    if |os| > 0 {
      RowZonesCover(os[..|os| - 1], grid, attacking, id);
      assert FlagZone(grid, |os| - 1).Ok?;
    }
  }

  /** Over a grid of cells on the pitch, the three thirds' credits add up to the grid's credits. */
  lemma {:induction false} GridZonesCover(oss: seq<seq<CellOutcome>>, grid: Grid, attacking: bool, id: string)
    requires OnPitch(oss, grid)
    ensures GridZoneGain(oss, grid, attacking, id, First) + GridZoneGain(oss, grid, attacking, id, Second)
            + GridZoneGain(oss, grid, attacking, id, Third) == GridGain(oss, attacking, id)
  {
    if |oss| > 0 {
      var n := |oss| - 1;
      assert OnPitch(oss[..n], grid) by {
        forall i, j | 0 <= i < n && 0 <= j < |oss[..n][i]|
          ensures FlagZone(grid, j).Ok?
        {
          assert oss[..n][i] == oss[i];
        }
      }
      GridZonesCover(oss[..n], grid, attacking, id);
      forall j | 0 <= j < |oss[n]|
        ensures FlagZone(grid, j).Ok?
      {
      }
      RowZonesCover(oss[n], grid, attacking, id);
    }
  }

  /**
   `cur` is `base` after one side's part of cell `j` with outcome `o`
   (`attacking` picks the side's credits): each player's running total grows
   by the player's credit, and so does the bucket of the side's role and of
   the cell's third as seen from the side's half; a side whose half is
   undetermined keeps its buckets.
   */
  predicate CellCredited(base: Team, cur: Team, grid: Grid, j: int, o: CellOutcome, attacking: bool)
  {
    && |cur.players| == |base.players|
    && (forall k :: 0 <= k < |base.players| ==>
          cur.players[k].contribution.total == base.players[k].contribution.total + Gain(SideGains(o, attacking), base.players[k].id))
    && (forall k, ro, z :: 0 <= k < |base.players| ==>
          cur.players[k].contribution.Bucket(ro, z)
          == base.players[k].contribution.Bucket(ro, z)
             + (if ro == base.possession && base.half != Undetermined
                then CellZoneGain(o, grid, j, attacking, base.players[k].id, Oriented(base.half, z)) else 0.0))
  }

  /** `cur` is `base` after one side's part of a row of cells: the cell-by-cell credits, summed. */
  predicate RowCredited(base: Team, cur: Team, grid: Grid, os: seq<CellOutcome>, attacking: bool)
  {
    && |cur.players| == |base.players|
    && (forall k :: 0 <= k < |base.players| ==>
          cur.players[k].contribution.total == base.players[k].contribution.total + RowGain(os, attacking, base.players[k].id))
    && (forall k, ro, z :: 0 <= k < |base.players| ==>
          cur.players[k].contribution.Bucket(ro, z)
          == base.players[k].contribution.Bucket(ro, z)
             + (if ro == base.possession && base.half != Undetermined
                then RowZoneGain(os, grid, attacking, base.players[k].id, Oriented(base.half, z)) else 0.0))
  }

  /** `cur` is `base` after one side's part of a grid of cells: the cell-by-cell credits, summed. */
  predicate GridCredited(base: Team, cur: Team, grid: Grid, oss: seq<seq<CellOutcome>>, attacking: bool)
  {
    && |cur.players| == |base.players|
    && (forall k :: 0 <= k < |base.players| ==>
          cur.players[k].contribution.total == base.players[k].contribution.total + GridGain(oss, attacking, base.players[k].id))
    && (forall k, ro, z :: 0 <= k < |base.players| ==>
          cur.players[k].contribution.Bucket(ro, z)
          == base.players[k].contribution.Bucket(ro, z)
             + (if ro == base.possession && base.half != Undetermined
                then GridZoneGain(oss, grid, attacking, base.players[k].id, Oriented(base.half, z)) else 0.0))
  }

  /**
   For a side whose half is known, over cells on the pitch, the six buckets
   together grow exactly as much as the running total.
   */
  lemma CreditedBucketsCoverTotal(base: Team, cur: Team, grid: Grid, oss: seq<seq<CellOutcome>>, attacking: bool)
    requires GridCredited(base, cur, grid, oss, attacking) && base.half != Undetermined && OnPitch(oss, grid)
    ensures forall k :: 0 <= k < |base.players| ==>
              cur.players[k].contribution.BucketSum() - base.players[k].contribution.BucketSum()
              == cur.players[k].contribution.total - base.players[k].contribution.total
  {
    forall k | 0 <= k < |base.players|
      ensures cur.players[k].contribution.BucketSum() - base.players[k].contribution.BucketSum()
              == cur.players[k].contribution.total - base.players[k].contribution.total
    {
      var c, b, id := cur.players[k].contribution, base.players[k].contribution, base.players[k].id;
      GridZonesCover(oss, grid, attacking, id);
      OrientedInvolution(base.half, First);
      OrientedInvolution(base.half, Third);
      assert c.Bucket(Attacking, First) == c.attFirst && c.Bucket(Attacking, Second) == c.attSecond;
      assert c.Bucket(Attacking, Third) == c.attThird && c.Bucket(Defending, First) == c.defFirst;
      assert c.Bucket(Defending, Second) == c.defSecond && c.Bucket(Defending, Third) == c.defThird;
      assert b.Bucket(Attacking, First) == b.attFirst && b.Bucket(Attacking, Second) == b.attSecond;
      assert b.Bucket(Attacking, Third) == b.attThird && b.Bucket(Defending, First) == b.defFirst;
      assert b.Bucket(Defending, Second) == b.defSecond && b.Bucket(Defending, Third) == b.defThird;
    }
  }

  // ---------------------------------------------------------------------------
  // The cell loop
  // ---------------------------------------------------------------------------

  /** A row of cell outcomes and the two sides after it. */
  datatype Row = Row(outcomes: seq<CellOutcome>, attTeam: Team, defTeam: Team)

  /** The outcomes of the first rows of a frame, extended by the next row's. */
  lemma RowsStep(s: Sides, grid: Grid, params: Params, norm: Norm, integrate: Integrator,
                 i: nat, oss: seq<seq<CellOutcome>>, os: seq<CellOutcome>)
    requires Valid(params) && Consistent(s.att) && Consistent(s.def) && |oss| == i < |grid.ygrid|
    requires forall ii :: 0 <= ii < |oss| ==> |oss[ii]| == |grid.xgrid|
    requires forall ii, j :: 0 <= ii < |oss| && 0 <= j < |grid.xgrid| ==>
               CellAt(s, grid, ii, j, params, norm, integrate) == Ok(oss[ii][j])
    requires |os| == |grid.xgrid|
    requires forall j :: 0 <= j < |grid.xgrid| ==> CellAt(s, grid, i, j, params, norm, integrate) == Ok(os[j])
    ensures forall ii :: 0 <= ii < |oss| + 1 ==> |(oss + [os])[ii]| == |grid.xgrid|
    ensures forall ii, j :: 0 <= ii < |oss| + 1 && 0 <= j < |grid.xgrid| ==>
              CellAt(s, grid, ii, j, params, norm, integrate) == Ok((oss + [os])[ii][j])
  {
    forall ii, j | 0 <= ii < |oss| + 1 && 0 <= j < |grid.xgrid|
      ensures CellAt(s, grid, ii, j, params, norm, integrate) == Ok((oss + [os])[ii][j])
    {
      if ii < |oss| {
        assert (oss + [os])[ii] == oss[ii];
      }
    }
  }

  /** The sum of both surfaces grows by the sum of a new row's two sides. */
  lemma SurfacesSumStep(oss: seq<seq<CellOutcome>>, os: seq<CellOutcome>)
    ensures GridSum(Surface(oss + [os], true)) + GridSum(Surface(oss + [os], false))
            == GridSum(Surface(oss, true)) + GridSum(Surface(oss, false)) + RowSum(RowValues(os, true)) + RowSum(RowValues(os, false))
  {
    SurfaceAppend(oss, os, true);
    SurfaceAppend(oss, os, false);
    GridSumAppend(Surface(oss, true), RowValues(os, true));
    GridSumAppend(Surface(oss, false), RowValues(os, false));
  }

  /** Rows of outcomes that match every cell of the grid are the frame's outcomes. */
  lemma RowsComplete(s: Sides, grid: Grid, params: Params, norm: Norm, integrate: Integrator, oss: seq<seq<CellOutcome>>)
    requires Valid(params) && Consistent(s.att) && Consistent(s.def) && |oss| == |grid.ygrid|
    requires forall ii :: 0 <= ii < |oss| ==> |oss[ii]| == |grid.xgrid|
    requires forall ii, j :: 0 <= ii < |oss| && 0 <= j < |grid.xgrid| ==>
               CellAt(s, grid, ii, j, params, norm, integrate) == Ok(oss[ii][j])
    ensures AllCellsSolve(s, grid, params, norm, integrate)
    ensures oss == Outcomes(s, grid, params, norm, integrate)
  {
    assert AllCellsSolve(s, grid, params, norm, integrate);
    var expected := Outcomes(s, grid, params, norm, integrate);
    forall ii | 0 <= ii < |oss|
      ensures oss[ii] == expected[ii]
    {
      assert |oss[ii]| == |expected[ii]|;
    }
  }

  /** A side credited with a row of cells, then with one more cell, is credited with the longer row. */
  lemma RowCreditStep(root: Team, base: Team, cur: Team, next: Team, grid: Grid, os: seq<CellOutcome>, o: CellOutcome, attacking: bool)
    requires Frozen(root, base) && Frozen(root, cur)
    requires RowCredited(base, cur, grid, os, attacking) && CellCredited(cur, next, grid, |os|, o, attacking)
    ensures RowCredited(base, next, grid, os + [o], attacking)
  {
    forall k | 0 <= k < |base.players|
      ensures next.players[k].contribution.total == base.players[k].contribution.total + RowGain(os + [o], attacking, base.players[k].id)
    {
      assert SamePlace(root.players[k], base.players[k]) && SamePlace(root.players[k], cur.players[k]);
      RowGainAppend(os, o, attacking, base.players[k].id);
    }
    forall k, ro, z | 0 <= k < |base.players|
      ensures next.players[k].contribution.Bucket(ro, z)
              == base.players[k].contribution.Bucket(ro, z)
                 + (if ro == base.possession && base.half != Undetermined
                    then RowZoneGain(os + [o], grid, attacking, base.players[k].id, Oriented(base.half, z)) else 0.0)
    {
      assert SamePlace(root.players[k], base.players[k]) && SamePlace(root.players[k], cur.players[k]);
      RowZoneGainAppend(os, o, grid, attacking, base.players[k].id, Oriented(base.half, z));
    }
  }

  /** A side credited with a grid of cells, then with one more row, is credited with the taller grid. */
  lemma GridCreditStep(base: Team, cur: Team, next: Team, grid: Grid, oss: seq<seq<CellOutcome>>, os: seq<CellOutcome>, attacking: bool)
    requires Frozen(base, cur)
    requires GridCredited(base, cur, grid, oss, attacking) && RowCredited(cur, next, grid, os, attacking)
    ensures GridCredited(base, next, grid, oss + [os], attacking)
  {
    forall k | 0 <= k < |base.players|
      ensures next.players[k].contribution.total == base.players[k].contribution.total + GridGain(oss + [os], attacking, base.players[k].id)
    {
      assert SamePlace(base.players[k], cur.players[k]);
      GridGainAppend(oss, os, attacking, base.players[k].id);
    }
    forall k, ro, z | 0 <= k < |base.players|
      ensures next.players[k].contribution.Bucket(ro, z)
              == base.players[k].contribution.Bucket(ro, z)
                 + (if ro == base.possession && base.half != Undetermined
                    then GridZoneGain(oss + [os], grid, attacking, base.players[k].id, Oriented(base.half, z)) else 0.0)
    {
      assert SamePlace(base.players[k], cur.players[k]);
      GridZoneGainAppend(oss, os, grid, attacking, base.players[k].id, Oriented(base.half, z));
    }
  }

  /**
   A solved cell in column `j` credits both sides: totals by the solver's
   credits, buckets by the same credits in the third column `j` lies in.
   */
  lemma EvaluateCellCredited(att: Team, def: Team, keepAtt: set<string>, keepDef: set<string>, grid: Grid, j: int, target: Vec2,
                             ball: Coords, params: Params, norm: Norm, integrate: Integrator)
    requires Valid(params) && Consistent(att) && Consistent(def) && FlagZone(grid, j).Ok?
    requires EvaluateCell(att, def, keepAtt, keepDef, target, FlagZone(grid, j).value, ball, params, norm, integrate).Ok?
    ensures var r := EvaluateCell(att, def, keepAtt, keepDef, target, FlagZone(grid, j).value, ball, params, norm, integrate).value;
            CellCredited(att, r.1, grid, j, r.0, true) && CellCredited(def, r.2, grid, j, r.0, false)
  {
    var zone := FlagZone(grid, j).value;
    var r := EvaluateCell(att, def, keepAtt, keepDef, target, zone, ball, params, norm, integrate).value;
    EvaluatedTeams(att, def, keepAtt, keepDef, target, zone, ball, params, norm, integrate);
    CellTeamCredited(att, target, norm, grid, j, r.0, true);
    CellTeamCredited(def, target, norm, grid, j, r.0, false);
  }

  /** One side's bookkeeping for a cell in column `j` credits the side with its part of the cell's outcome. */
  lemma CellTeamCredited(t: Team, target: Vec2, norm: Norm, grid: Grid, j: int, o: CellOutcome, attacking: bool)
    requires Consistent(t) && FlagZone(grid, j).Ok?
    ensures CellCredited(t, CellTeam(t, target, norm, SideGains(o, attacking), FlagZone(grid, j).value), grid, j, o, attacking)
  {
    CellTeamBuckets(t, target, norm, SideGains(o, attacking), FlagZone(grid, j).value);
  }

  /** Before any cell, a side is credited with nothing. */
  lemma NothingCredited(t: Team, grid: Grid, attacking: bool)
    ensures RowCredited(t, t, grid, [], attacking) && GridCredited(t, t, grid, [], attacking)
  {
    forall k, z | 0 <= k < |t.players|
      ensures RowZoneGain([], grid, attacking, t.players[k].id, Oriented(t.half, z)) == 0.0
    {
    }
    forall k, z | 0 <= k < |t.players|
      ensures GridZoneGain([], grid, attacking, t.players[k].id, Oriented(t.half, z)) == 0.0
    {
    }
  }

  /**
   Cell (i, j), solved for the sides as they stand after the earlier cells of
   the frame: the outcome is the frame's, and each running total grows by the
   cell's credit.
   */
  method SolveGridCell(s: Sides, att: Team, def: Team, grid: Grid, i: nat, j: nat,
                       params: Params, norm: Norm, integrate: Integrator)
    returns (r: Result<(CellOutcome, Team, Team)>)
    requires Valid(params) && Consistent(s.att) && Consistent(s.def) && Frozen(s.att, att) && Frozen(s.def, def)
    requires i < |grid.ygrid| && j < |grid.xgrid|
    ensures r.Err? ==> CellAt(s, grid, i, j, params, norm, integrate) == Err(r.error)
    ensures r.Ok? ==> CellAt(s, grid, i, j, params, norm, integrate) == Ok(r.value.0)
    ensures r.Ok? ==> Frozen(s.att, r.value.1) && Frozen(s.def, r.value.2)
    ensures r.Ok? ==> CellCredited(att, r.value.1, grid, j, r.value.0, true) && CellCredited(def, r.value.2, grid, j, r.value.0, false)
  {
    var target := Target(grid, i, j);
    SolveTargetFrozen(s.att, att, s.def, def, s.keepAtt, s.keepDef, target, s.ball, params, norm, integrate);
    var zone := FlagZone(grid, j);
    if zone.Err? {
      return Err(zone.error);
    }
    r := EvaluateCell(att, def, s.keepAtt, s.keepDef, target, zone.value, s.ball, params, norm, integrate);
    if r.Ok? {
      EvaluateCellCredited(att, def, s.keepAtt, s.keepDef, grid, j, target, s.ball, params, norm, integrate);
      FrozenTransitive(s.att, att, r.value.1);
      FrozenTransitive(s.def, def, r.value.2);
    }
  }

  /**
   The cells of row `i`, column by column, for the sides as they stand after
   the earlier rows. It fails with the first failing cell's error; otherwise
   its outcomes are the frame's cells, and each running total grows by the
   player's credits over the row.
   */
  method SolveRow(s: Sides, att: Team, def: Team, grid: Grid, i: nat, params: Params, norm: Norm, integrate: Integrator)
    returns (r: Result<Row>)
    requires Valid(params) && Consistent(s.att) && Consistent(s.def) && Frozen(s.att, att) && Frozen(s.def, def)
    requires i < |grid.ygrid|
    ensures r.Ok? <==> forall j :: 0 <= j < |grid.xgrid| ==> CellAt(s, grid, i, j, params, norm, integrate).Ok?
    ensures r.Err? ==> exists j :: 0 <= j < |grid.xgrid| && CellAt(s, grid, i, j, params, norm, integrate) == Err(r.error)
    ensures r.Ok? ==> |r.value.outcomes| == |grid.xgrid|
    ensures r.Ok? ==> forall j :: 0 <= j < |grid.xgrid| ==> CellAt(s, grid, i, j, params, norm, integrate) == Ok(r.value.outcomes[j])
    ensures r.Ok? ==> Frozen(s.att, r.value.attTeam) && Frozen(s.def, r.value.defTeam)
    ensures r.Ok? ==> RowCredited(att, r.value.attTeam, grid, r.value.outcomes, true)
                      && RowCredited(def, r.value.defTeam, grid, r.value.outcomes, false)
  {
    var curAtt, curDef := att, def;
    var outs: seq<CellOutcome> := [];
    var j := 0;
    NothingCredited(att, grid, true);
    NothingCredited(def, grid, false);
    while j < |grid.xgrid|
      invariant 0 <= j <= |grid.xgrid| && |outs| == j
      invariant forall jj :: 0 <= jj < j ==> CellAt(s, grid, i, jj, params, norm, integrate) == Ok(outs[jj])
      invariant Frozen(s.att, curAtt) && Frozen(s.def, curDef)
      invariant RowCredited(att, curAtt, grid, outs, true) && RowCredited(def, curDef, grid, outs, false)
    {
      var cell := SolveGridCell(s, curAtt, curDef, grid, i, j, params, norm, integrate);
      if cell.Err? {
        return Err(cell.error);
      }
      var o := cell.value.0;
      RowCreditStep(s.att, att, curAtt, cell.value.1, grid, outs, o, true);
      RowCreditStep(s.def, def, curDef, cell.value.2, grid, outs, o, false);
      forall jj | 0 <= jj < j + 1
        ensures CellAt(s, grid, i, jj, params, norm, integrate) == Ok((outs + [o])[jj])
      {
        if jj < j {
          assert (outs + [o])[jj] == outs[jj];
        }
      }
      outs := outs + [o];
      curAtt, curDef := cell.value.1, cell.value.2;
      j := j + 1;
    }
    r := Ok(Row(outs, curAtt, curDef));
  }

  /** The outcomes of every cell of a frame and the two sides after them. */
  datatype Surfaces = Surfaces(outcomes: seq<seq<CellOutcome>>, attTeam: Team, defTeam: Team)

  /**
   The first rows of a frame's cells are solved: `v` holds their outcomes,
   `total` the sum of both surfaces over them, and the two sides are the
   frame's sides with each running total grown by the player's credits.
   */
  predicate SolvedRows(s: Sides, grid: Grid, v: Surfaces, total: real, params: Params, norm: Norm, integrate: Integrator)
    requires Valid(params) && Consistent(s.att) && Consistent(s.def)
  {
    && |v.outcomes| <= |grid.ygrid|
    && (forall ii :: 0 <= ii < |v.outcomes| ==> |v.outcomes[ii]| == |grid.xgrid|)
    && (forall ii, j :: 0 <= ii < |v.outcomes| && 0 <= j < |grid.xgrid| ==>
          CellAt(s, grid, ii, j, params, norm, integrate) == Ok(v.outcomes[ii][j]))
    && total == GridSum(Surface(v.outcomes, true)) + GridSum(Surface(v.outcomes, false))
    && Frozen(s.att, v.attTeam) && Frozen(s.def, v.defTeam)
    && GridCredited(s.att, v.attTeam, grid, v.outcomes, true) && GridCredited(s.def, v.defTeam, grid, v.outcomes, false)
  }

  /** The next row of a frame's cells, after the rows `v` holds. */
  method SolveNextRow(s: Sides, grid: Grid, v: Surfaces, total: real, params: Params, norm: Norm, integrate: Integrator)
    returns (r: Result<Surfaces>, total': real)
    requires Valid(params) && Consistent(s.att) && Consistent(s.def)
    requires SolvedRows(s, grid, v, total, params, norm, integrate) && |v.outcomes| < |grid.ygrid|
    ensures r.Err? ==> exists j :: 0 <= j < |grid.xgrid|
                                   && CellAt(s, grid, |v.outcomes|, j, params, norm, integrate) == Err(r.error)
    ensures r.Ok? ==> SolvedRows(s, grid, r.value, total', params, norm, integrate)
    ensures r.Ok? ==> |r.value.outcomes| == |v.outcomes| + 1
  {
    var i := |v.outcomes|;
    var row := SolveRow(s, v.attTeam, v.defTeam, grid, i, params, norm, integrate);
    if row.Err? {
      return Err(row.error), total;
    }
    var os := row.value.outcomes;
    GridCreditStep(s.att, v.attTeam, row.value.attTeam, grid, v.outcomes, os, true);
    GridCreditStep(s.def, v.defTeam, row.value.defTeam, grid, v.outcomes, os, false);
    RowsStep(s, grid, params, norm, integrate, i, v.outcomes, os);
    SurfacesSumStep(v.outcomes, os);
    total' := total + RowSum(RowValues(os, true)) + RowSum(RowValues(os, false));
    r := Ok(Surfaces(v.outcomes + [os], row.value.attTeam, row.value.defTeam));
  }

  /**
   Every cell of the grid, row by row, with the running sum of PPCFa + PPCFd
   that the checksum needs. It fails with the error of a failing cell;
   otherwise its outcomes are the frame's cells, and each running total grows
   by the player's credits over the grid.
   */
  method SolveGrid(s: Sides, grid: Grid, params: Params, norm: Norm, integrate: Integrator)
    returns (r: Result<Surfaces>, total: real)
    requires Valid(params) && Consistent(s.att) && Consistent(s.def)
    ensures r.Ok? <==> AllCellsSolve(s, grid, params, norm, integrate)
    ensures r.Err? ==> exists i, j :: 0 <= i < |grid.ygrid| && 0 <= j < |grid.xgrid|
                                      && CellAt(s, grid, i, j, params, norm, integrate) == Err(r.error)
    ensures r.Ok? ==> r.value.outcomes == Outcomes(s, grid, params, norm, integrate)
    ensures r.Ok? ==> total == GridSum(Surface(r.value.outcomes, true)) + GridSum(Surface(r.value.outcomes, false))
    ensures r.Ok? ==> Frozen(s.att, r.value.attTeam) && Frozen(s.def, r.value.defTeam)
    ensures r.Ok? ==> GridCredited(s.att, r.value.attTeam, grid, r.value.outcomes, true)
                      && GridCredited(s.def, r.value.defTeam, grid, r.value.outcomes, false)
  {
    var v := Surfaces([], s.att, s.def);
    total := 0.0;
    while |v.outcomes| < |grid.ygrid|
      invariant SolvedRows(s, grid, v, total, params, norm, integrate)
      decreases |grid.ygrid| - |v.outcomes|
    {
      var next, t := SolveNextRow(s, grid, v, total, params, norm, integrate);
      if next.Err? {
        return Err(next.error), total;
      }
      v, total := next.value, t;
    }
    RowsComplete(s, grid, params, norm, integrate, v.outcomes);
    r := Ok(v);
  }


  /**
   The cells of a prepared frame and the checksum guard over its two
   surfaces: it succeeds exactly when every cell solves and the surfaces pass
   the guard.
   */
  method SolveFrame(s: Sides, grid: Grid, params: Params, norm: Norm, integrate: Integrator) returns (r: Result<Surfaces>)
    requires Valid(params) && Consistent(s.att) && Consistent(s.def) && CellCount(grid) != 0
    ensures r.Err? ==> r.error in {OutOfField, BallMissing, EmptyInput, IntegrationFailed, ChecksumFailed}
    ensures r.Err? ==> FrameFailure(s, grid, params, norm, integrate, r.error)
    ensures r.Ok? <==> && AllCellsSolve(s, grid, params, norm, integrate)
                       && Converged(Surface(Outcomes(s, grid, params, norm, integrate), true),
                                    Surface(Outcomes(s, grid, params, norm, integrate), false),
                                    CellCount(grid), params.modelConvergeTol)
    ensures r.Ok? ==> r.value.outcomes == Outcomes(s, grid, params, norm, integrate)
    ensures r.Ok? ==> Frozen(s.att, r.value.attTeam) && Frozen(s.def, r.value.defTeam)
    ensures r.Ok? ==> GridCredited(s.att, r.value.attTeam, grid, r.value.outcomes, true)
                      && GridCredited(s.def, r.value.defTeam, grid, r.value.outcomes, false)
  {
    var surfaces, total := SolveGrid(s, grid, params, norm, integrate);
    if surfaces.Err? {
      ghost var i, j :| 0 <= i < |grid.ygrid| && 0 <= j < |grid.xgrid|
                        && CellAt(s, grid, i, j, params, norm, integrate) == Err(surfaces.error);
      return Err(surfaces.error);
    }
    var v := surfaces.value;
    PassedChecksum(Surface(v.outcomes, true), Surface(v.outcomes, false), total, CellCount(grid), params.modelConvergeTol);
    var check := Checksum(total, CellCount(grid), params.modelConvergeTol);
    if check.Err? {
      return Err(check.error);
    }
    r := surfaces;
  }

  /** Every cell's outcome grid has one row per grid row and one outcome per grid column. */
  lemma OutcomesShaped(s: Sides, grid: Grid, params: Params, norm: Norm, integrate: Integrator)
    requires Valid(params) && Consistent(s.att) && Consistent(s.def) && AllCellsSolve(s, grid, params, norm, integrate)
    ensures Shaped(Surface(Outcomes(s, grid, params, norm, integrate), true), |grid.ygrid|, |grid.xgrid|)
    ensures Shaped(Surface(Outcomes(s, grid, params, norm, integrate), false), |grid.ygrid|, |grid.xgrid|)
    ensures |grid.xgrid| > 0 && |grid.ygrid| > 0 ==> s.ball.Present()
  {
    var oss := Outcomes(s, grid, params, norm, integrate);
    forall k | 0 <= k < |oss|
      ensures |Surface(oss, true)[k]| == |grid.xgrid| && |Surface(oss, false)[k]| == |grid.xgrid|
    {
      assert |oss[k]| == |grid.xgrid|;
    }
    if |grid.xgrid| > 0 && |grid.ygrid| > 0 {
      assert CellAt(s, grid, 0, 0, params, norm, integrate).Ok?;
    }
  }

  /**
   `generate_pitch_control_for_event`: the frame's set-up, every cell of the
   grid, then the checksum guard over the two surfaces. A frame succeeds
   exactly when its set-up succeeds, every cell solves and the checksum
   passes; its surfaces are then the sides' controls of the cells, and each
   player's running total grows by its credits over the grid.
   */
  method GeneratePitchControl(home: Team, away: Team, f: Frame, grid: Grid, params: Params, norm: Norm,
                              integrate: Integrator, offsides: bool) returns (r: Result<FrameResult>)
    requires Valid(params) && home.name == "home" && away.name == "away"
    requires MovingPlayers(home.players) && MovingPlayers(away.players)
    requires CellCount(grid) != 0
    ensures "ball_x" !in f.values || "ball_y" !in f.values ==> r == Err(KeyNotFound)
    ensures r.Err? ==> r.error in {KeyNotFound, MissingGoalKeeper, IndexOutOfRange, OutOfField,
                                   BallMissing, EmptyInput, IntegrationFailed, ChecksumFailed}
    ensures var p := PrepareFrame(home, away, f, offsides);
            p.Err? ==> r == Err(p.error)
    ensures var p := PrepareFrame(home, away, f, offsides);
            p.Ok? && r.Err? ==> FrameFailure(p.value, grid, params, norm, integrate, r.error)
    ensures var p := PrepareFrame(home, away, f, offsides);
            r.Ok? <==> && p.Ok?
                       && AllCellsSolve(p.value, grid, params, norm, integrate)
                       && Converged(Surface(Outcomes(p.value, grid, params, norm, integrate), true),
                                    Surface(Outcomes(p.value, grid, params, norm, integrate), false),
                                    CellCount(grid), params.modelConvergeTol)
    ensures r.Ok? ==> var oss := Outcomes(PrepareFrame(home, away, f, offsides).value, grid, params, norm, integrate);
                      r.value.ppcfAtt == Surface(oss, true) && r.value.ppcfDef == Surface(oss, false)
    ensures r.Ok? ==> Shaped(r.value.ppcfAtt, |grid.ygrid|, |grid.xgrid|) && Shaped(r.value.ppcfDef, |grid.ygrid|, |grid.xgrid|)
    ensures r.Ok? ==> UpdateTeam(home, f).Ok? && Frozen(UpdateTeam(home, f).value, r.value.home)
    ensures r.Ok? ==> UpdateTeam(away, f).Ok? && Frozen(UpdateTeam(away, f).value, r.value.away)
    ensures r.Ok? ==> (r.value.home.possession == Attacking <==> f.ballOwner == "home")
    ensures r.Ok? ==> var oss := Outcomes(PrepareFrame(home, away, f, offsides).value, grid, params, norm, integrate);
                      var h := UpdateTeam(home, f).value;
                      GridCredited(h, r.value.home, grid, oss, h.possession == Attacking)
    ensures r.Ok? ==> var oss := Outcomes(PrepareFrame(home, away, f, offsides).value, grid, params, norm, integrate);
                      var h, a := UpdateTeam(home, f).value, UpdateTeam(away, f).value;
                      GridCredited(a, r.value.away, grid, oss, h.possession != Attacking)
    ensures r.Ok? && |grid.xgrid| > 0 && |grid.ygrid| > 0 ==> f.values["ball_x"].Some? && f.values["ball_y"].Some?
  {
    var sides := PrepareFrame(home, away, f, offsides);
    if sides.Err? {
      return Err(sides.error);
    }
    var s := sides.value;
    var solved := SolveFrame(s, grid, params, norm, integrate);
    if solved.Err? {
      return Err(solved.error);
    }
    var v := solved.value;
    OutcomesShaped(s, grid, params, norm, integrate);
    PreparedSides(home, away, f, offsides);
    var att, def := Surface(v.outcomes, true), Surface(v.outcomes, false);
    if UpdateTeam(home, f).value.possession == Attacking {
      r := Ok(FrameResult(att, def, v.attTeam, v.defTeam));
    } else {
      r := Ok(FrameResult(att, def, v.defTeam, v.attTeam));
    }
  }
}
