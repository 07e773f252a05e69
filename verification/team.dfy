/**
 A team of the pitch-control engine (src/pitch_control/team.py): its roster
 built from the first frame, its goalkeeper and defended half, its
 possession role in the current frame, and the routing of every player's
 per-cell control into the running contribution buckets.
 */
module TeamModel {

  import opened Common
  import opened Seqs
  import opened Strings
  import opened Parameters
  import opened PlayerModel
  import opened DataUtils

  datatype Team = Team(name: string, gkId: string, half: Half, possession: Role, players: seq<Player>)

  /** The jerseys of the players, in roster order. */
  function Ids(ps: seq<Player>): (ids: seq<string>)
    ensures |ids| == |ps| && forall i :: 0 <= i < |ps| ==> ids[i] == ps[i].id
  {
    seq(|ps|, i requires 0 <= i < |ps| => ps[i].id)
  }

  // ---------------------------------------------------------------------------
  // Roster (`initialize_players`, `__init__`)
  // ---------------------------------------------------------------------------

  /** The column belongs to the team: `c[:4] == name`. */
  predicate OfTeam(c: string, name: string)
  {
    Take(c, 4) == name
  }

  /**
   `[c.split('_')[1] for c in columns if c[:4] == name]`: a team column without
   a second '_'-separated field is an IndexError.
   */
  function TeamColumnIds(columns: seq<string>, name: string): (r: Result<seq<string>>)
    ensures r.Err? <==> exists i :: 0 <= i < |columns| && OfTeam(columns[i], name) && Field(columns[i], '_', 1).None?
    ensures r.Err? ==> r.error == IndexOutOfRange
    ensures r.Ok? ==> forall i :: 0 <= i < |columns| && OfTeam(columns[i], name) ==>
                        Field(columns[i], '_', 1).value in r.value
    ensures r.Ok? ==> forall id :: id in r.value ==>
                        exists i :: 0 <= i < |columns| && OfTeam(columns[i], name) && Field(columns[i], '_', 1) == Some(id)
  {
    if |columns| == 0 then Ok([])
    else
      var rest := TeamColumnIds(columns[1..], name);
      assert forall i :: 1 <= i < |columns| ==> columns[i] == columns[1..][i - 1];
      if !OfTeam(columns[0], name) then rest
      else
        match Field(columns[0], '_', 1)
        case None => Err(IndexOutOfRange)
        case Some(id) =>
          if rest.Err? then rest
          else Ok([id] + rest.value)
  }

  /**
   One `Player` per jersey, in the given order, flagged goalkeeper exactly
   when the jersey is `gkId`; the first jersey missing from the individual
   speeds table fails with a KeyError.
   */
  function InitializePlayers(ids: seq<string>, name: string, gkId: string, params: Params,
                             includeIndividualVelocities: bool, individualVelocities: map<string, real>): (r: Result<seq<Player>>)
    requires Valid(params)
    ensures r.Err? <==> includeIndividualVelocities && exists i :: 0 <= i < |ids| && ids[i] !in individualVelocities
    ensures r.Err? ==> r.error == KeyNotFound
    ensures r.Ok? ==> |r.value| == |ids|
    ensures r.Ok? ==> forall i :: 0 <= i < |ids| ==>
                        r.value[i] == NewPlayer(ids[i], name, params, ids[i] == gkId, includeIndividualVelocities, individualVelocities).value
  {
    if |ids| == 0 then Ok([])
    else
      var p := NewPlayer(ids[0], name, params, ids[0] == gkId, includeIndividualVelocities, individualVelocities);
      var rest := InitializePlayers(ids[1..], name, gkId, params, includeIndividualVelocities, individualVelocities);
      assert forall i :: 1 <= i < |ids| ==> ids[i] == ids[1..][i - 1];
      if p.Err? then Err(p.error)
      else if rest.Err? then rest
      else Ok([p.value] + rest.value)
  }

  /** Every player's four kinematic columns are in the frame. */
  predicate AllHaveKinematics(f: Frame, ps: seq<Player>)
  {
    forall i :: 0 <= i < |ps| ==> HasKinematics(f, ps[i])
  }

  /**
   `update_players`: the team attacks exactly when its name is the frame's
   ball owner, and every player reads its position and velocity; a missing
   column is a KeyError.
   */
  function UpdateTeam(t: Team, f: Frame): (r: Result<Team>)
    ensures r.Err? <==> !AllHaveKinematics(f, t.players)
    ensures r.Err? ==> r.error == KeyNotFound
    ensures r.Ok? ==> (r.value.possession == Attacking <==> t.name == f.ballOwner)
    ensures r.Ok? ==> r.value.(possession := t.possession, players := t.players) == t
    ensures r.Ok? ==> |r.value.players| == |t.players|
    ensures r.Ok? ==> forall i :: 0 <= i < |t.players| ==> r.value.players[i] == UpdatePlayer(t.players[i], f)
  {
    if !AllHaveKinematics(f, t.players) then Err(KeyNotFound)
    else
      var possession := if t.name == f.ballOwner then Attacking else Defending;
      Ok(t.(possession := possession,
            players := seq(|t.players|, i requires 0 <= i < |t.players| => UpdatePlayer(t.players[i], f))))
  }

  /** Exactly one player carries the goalkeeper flag. */
  ghost predicate OneGoalkeeper(ps: seq<Player>)
  {
    exists i :: 0 <= i < |ps| && ps[i].isGk && forall j :: 0 <= j < |ps| && ps[j].isGk ==> j == i
  }

  /**
   `initialize_players`: one player per distinct jersey among the team's
   columns, in ascending order (`np.unique`), the goalkeeper flagged.
   */
  function Roster(f: Frame, name: string, gkId: string, params: Params,
                  includeIndividualVelocities: bool, individualVelocities: map<string, real>): (r: Result<seq<Player>>)
    requires Valid(params)
    ensures r.Ok? ==> TeamColumnIds(f.columns, name).Ok?
    ensures r.Ok? ==> Ids(r.value) == Unique(TeamColumnIds(f.columns, name).value)
    ensures r.Ok? ==> forall i :: 0 <= i < |r.value| ==>
                        r.value[i].isGk == (r.value[i].id == gkId) && r.value[i].team == name
                        && r.value[i].contribution == NoContribution
    ensures r.Ok? ==> forall i :: 0 <= i < |r.value| ==>
                        && NewPlayer(r.value[i].id, name, params, r.value[i].id == gkId,
                                     includeIndividualVelocities, individualVelocities).Ok?
                        && r.value[i] == NewPlayer(r.value[i].id, name, params, r.value[i].id == gkId,
                                                   includeIndividualVelocities, individualVelocities).value
    ensures TeamColumnIds(f.columns, name).Err? ==> r == Err(TeamColumnIds(f.columns, name).error)
    ensures TeamColumnIds(f.columns, name).Ok? ==>
              var ids := Unique(TeamColumnIds(f.columns, name).value);
              && (r.Err? <==> includeIndividualVelocities && exists i :: 0 <= i < |ids| && ids[i] !in individualVelocities)
              && (r.Err? ==> r.error == KeyNotFound)
  {
    match TeamColumnIds(f.columns, name)
    case Err(e) => Err(e)
    case Ok(raw) =>
      var ids := Unique(raw);
      var players := InitializePlayers(ids, name, gkId, params, includeIndividualVelocities, individualVelocities);
      if players.Err? then Err(players.error)
      else
        assert Ids(players.value) == ids;
        players
  }

  /**
   `Team.__init__`: the goalkeeper's jersey and half from the first frame
   (looked up by the team's name), the roster, then a first `update_players`.
   */
  function NewTeam(name: string, f: Frame, params: Params,
                   includeIndividualVelocities: bool, individualVelocities: map<string, real>): (r: Result<Team>)
    requires f.Valid() && Valid(params)
    ensures r.Ok? ==> FindGoalkeepers(f).Ok? && (name == "home" || name == "away")
    ensures r.Ok? ==> r.value.name == name
    ensures r.Ok? ==> r.value.gkId == FindGoalkeeper(f, name).value.id && r.value.half == FindGoalkeeper(f, name).value.half
    ensures r.Ok? ==> (r.value.possession == Attacking <==> name == f.ballOwner)
    ensures r.Ok? ==> Roster(f, name, r.value.gkId, params, includeIndividualVelocities, individualVelocities).Ok?
    ensures r.Ok? ==> Ids(r.value.players)
                      == Ids(Roster(f, name, r.value.gkId, params, includeIndividualVelocities, individualVelocities).value)
    ensures r.Ok? ==> forall i :: 0 <= i < |r.value.players| ==>
                        r.value.players[i].isGk == (r.value.players[i].id == r.value.gkId) && r.value.players[i].team == name
                        && r.value.players[i].contribution == NoContribution
  {
    match FindGoalkeepers(f)
    case Err(e) => Err(e)
    case Ok(gks) =>
      if name != "home" && name != "away" then Err(KeyNotFound)
      else
        var gk := if name == "home" then gks.0 else gks.1;
        match Roster(f, name, gk.id, params, includeIndividualVelocities, individualVelocities)
        case Err(e) => Err(e)
        case Ok(players) =>
          var t := Team(name, gk.id, gk.half, Defending, players);
          if UpdateTeam(t, f).Ok? then UpdateTeamKeepsRoster(t, f); UpdateTeam(t, f)
          else UpdateTeam(t, f)
  }

  /**
   Which stage of `Team.__init__` decides the outcome: a goalkeeper lookup that
   fails, a name that is neither side, a roster that cannot be built, or
   player kinematics missing from the first frame; on success every player is
   its roster entry placed by that frame.
   */
  lemma NewTeamStages(name: string, f: Frame, params: Params,
                      includeIndividualVelocities: bool, individualVelocities: map<string, real>)
    requires f.Valid() && Valid(params)
    ensures var r := NewTeam(name, f, params, includeIndividualVelocities, individualVelocities);
            FindGoalkeepers(f).Err? ==> r == Err(FindGoalkeepers(f).error)
    ensures var r := NewTeam(name, f, params, includeIndividualVelocities, individualVelocities);
            FindGoalkeepers(f).Ok? && name != "home" && name != "away" ==> r == Err(KeyNotFound)
    ensures var r := NewTeam(name, f, params, includeIndividualVelocities, individualVelocities);
            FindGoalkeepers(f).Ok? && (name == "home" || name == "away") ==>
              var roster := Roster(f, name, FindGoalkeeper(f, name).value.id, params, includeIndividualVelocities, individualVelocities);
              && (roster.Err? ==> r == Err(roster.error))
              && (roster.Ok? ==> (r.Ok? <==> AllHaveKinematics(f, roster.value)) && (r.Err? ==> r.error == KeyNotFound))
    ensures var r := NewTeam(name, f, params, includeIndividualVelocities, individualVelocities);
            r.Ok? ==>
              var roster := Roster(f, name, r.value.gkId, params, includeIndividualVelocities, individualVelocities).value;
              && |r.value.players| == |roster|
              && forall i :: 0 <= i < |roster| ==> r.value.players[i] == UpdatePlayer(roster[i], f)
  {
  }

  /** `update_players` changes where players are, not who they are or what they have accumulated. */
  lemma UpdateTeamKeepsRoster(t: Team, f: Frame)
    requires UpdateTeam(t, f).Ok?
    ensures var u := UpdateTeam(t, f).value;
            && Ids(u.players) == Ids(t.players)
            && forall i :: 0 <= i < |t.players| ==>
                 u.players[i].isGk == t.players[i].isGk && u.players[i].team == t.players[i].team
                 && u.players[i].contribution == t.players[i].contribution
  {
    var u := UpdateTeam(t, f).value;
    forall i | 0 <= i < |t.players|
      ensures u.players[i].id == t.players[i].id && u.players[i].isGk == t.players[i].isGk
      ensures u.players[i].team == t.players[i].team && u.players[i].contribution == t.players[i].contribution
    {
      assert u.players[i] == UpdatePlayer(t.players[i], f);
    }
  }

  /**
   The roster is ordered by jersey without repetition, and the goalkeeper found
   in the first frame is on it: its column is one of the team's columns, so its
   jersey is among the roster's jerseys and exactly one player is flagged.
   */
  lemma NewTeamHasOneGoalkeeper(name: string, f: Frame, params: Params,
                                includeIndividualVelocities: bool, individualVelocities: map<string, real>)
    requires f.Valid() && Valid(params)
    requires NewTeam(name, f, params, includeIndividualVelocities, individualVelocities).Ok?
    ensures StrictlySorted(Ids(NewTeam(name, f, params, includeIndividualVelocities, individualVelocities).value.players))
    ensures OneGoalkeeper(NewTeam(name, f, params, includeIndividualVelocities, individualVelocities).value.players)
  {
    var t := NewTeam(name, f, params, includeIndividualVelocities, individualVelocities).value;
    var gk := FindGoalkeeper(f, name).value;
    var raw := TeamColumnIds(f.columns, name).value;
    var k :| 0 <= k < |f.columns| && f.columns[k] == gk.column;
    assert OfTeam(f.columns[k], name);
    assert gk.id in raw;
    FlaggedOnce(Ids(t.players), t.players, t.gkId);
  }

  /** A roster of distinct jerseys flagged by jersey has exactly one goalkeeper when the jersey is on it. */
  lemma FlaggedOnce(ids: seq<string>, ps: seq<Player>, gkId: string)
    requires StrictlySorted(ids) && ids == Ids(ps) && gkId in ids
    requires forall i :: 0 <= i < |ps| ==> ps[i].isGk == (ps[i].id == gkId)
    ensures OneGoalkeeper(ps)
  {
    var i :| 0 <= i < |ids| && ids[i] == gkId;
    assert ps[i].isGk;
    forall j | 0 <= j < |ps| && ps[j].isGk
      ensures j == i
    {
      SortedSameIndex(ids, i, j);
    }
  }

  // ---------------------------------------------------------------------------
  // Per-frame and per-cell updates
  // ---------------------------------------------------------------------------

  function InFrame(): Player -> bool
  {
    (p: Player) => p.inframe
  }

  /** `get_players_inframe`: the players whose position is complete, in roster order. */
  function InFramePlayers(t: Team): (r: seq<Player>)
    ensures IsSubseq(r, t.players)
    ensures forall i :: 0 <= i < |r| ==> r[i].inframe && r[i] in t.players
    ensures forall i :: 0 <= i < |t.players| && t.players[i].inframe ==> t.players[i] in r
    ensures |r| == Count(t.players, InFrame())
  {
    Filter(t.players, InFrame())
  }

  /** After a frame update, a player is in frame exactly when both its coordinates are in the frame. */
  lemma InFrameAfterUpdate(t: Team, f: Frame, i: nat)
    requires UpdateTeam(t, f).Ok? && i < |t.players|
    ensures var q := UpdateTeam(t, f).value.players[i];
            q.inframe <==> f.values[t.players[i].TagName() + "x"].Some? && f.values[t.players[i].TagName() + "y"].Some?
  {
  }

  /** Every player can divide by its top speed. */
  predicate MovingPlayers(ps: seq<Player>)
  {
    forall i :: 0 <= i < |ps| ==> ps[i].vmax != 0.0
  }

  /** `update_players_time_to_intercept`: every player's time to reach `target`. */
  function UpdateTeamTimes(t: Team, target: Vec2, norm: Norm): (r: Team)
    requires MovingPlayers(t.players)
    ensures r.(players := t.players) == t
    ensures |r.players| == |t.players|
    ensures forall i :: 0 <= i < |t.players| ==> r.players[i] == UpdateTimeToIntercept(t.players[i], target, norm)
  {
    t.(players := seq(|t.players|, i requires 0 <= i < |t.players| => UpdateTimeToIntercept(t.players[i], target, norm)))
  }

  /** After the time update, every in-frame player has a time and no control yet for the cell. */
  lemma InFramePlayersHaveTimes(t: Team, target: Vec2, norm: Norm)
    requires MovingPlayers(t.players)
    requires forall i :: 0 <= i < |t.players| ==> (t.players[i].inframe <==> t.players[i].position.Present())
    ensures var ps := InFramePlayers(UpdateTeamTimes(t, target, norm));
            forall i :: 0 <= i < |ps| ==> ps[i].timeToIntercept.Some? && ps[i].ppcf == 0.0
  {
    var u := UpdateTeamTimes(t, target, norm);
    var ps := InFramePlayers(u);
    forall i | 0 <= i < |ps|
      ensures ps[i].timeToIntercept.Some? && ps[i].ppcf == 0.0
    {
      assert ps[i] in ps;
      var k :| 0 <= k < |u.players| && u.players[k] == ps[i];
      assert u.players[k] == UpdateTimeToIntercept(t.players[k], target, norm);
      assert t.players[k].inframe;
    }
  }

  // ---------------------------------------------------------------------------
  // Contribution routing (`update_players_PCCF`)
  // ---------------------------------------------------------------------------

  /** The team-relative third: a team defending the right half sees the pitch mirrored. */
  function Oriented(half: Half, zone: Zone): Zone
  {
    if half == Right then
      match zone
      case First => Third
      case Second => Second
      case Third => First
    else zone
  }

  /** Mirroring twice is the identity, and the second third is its own mirror image. */
  lemma OrientedInvolution(half: Half, zone: Zone)
    ensures Oriented(half, Oriented(half, zone)) == zone
    ensures Oriented(half, Second) == Second
    ensures half != Right ==> Oriented(half, zone) == zone
  {
  }

  /** Adds `v` to the bucket of `role` and `zone` and to no other. */
  function Credit(c: Contribution, role: Role, zone: Zone, v: real): (r: Contribution)
    ensures r.total == c.total
    ensures forall ro, z :: r.Bucket(ro, z) == c.Bucket(ro, z) + (if ro == role && z == zone then v else 0.0)
    ensures r.BucketSum() == c.BucketSum() + v
  {
    match role
    case Attacking =>
      (match zone
       case First => c.(attFirst := c.attFirst + v)
       case Second => c.(attSecond := c.attSecond + v)
       case Third => c.(attThird := c.attThird + v))
    case Defending =>
      (match zone
       case First => c.(defFirst := c.defFirst + v)
       case Second => c.(defSecond := c.defSecond + v)
       case Third => c.(defThird := c.defThird + v))
  }

  /**
   One player's share of `update_players_PCCF`: the per-cell control is added
   to the running total, and, when the team's half is known, to the bucket of
   the team's possession role and the team-relative third of the cell. With
   the '' half no bucket moves.
   */
  function Accumulate(p: Player, half: Half, possession: Role, zone: Zone): (r: Player)
    ensures r.contribution.total == p.contribution.total + p.ppcf
    ensures half != Undetermined ==>
              forall ro, z :: r.contribution.Bucket(ro, z)
                              == p.contribution.Bucket(ro, z) + (if ro == possession && z == Oriented(half, zone) then p.ppcf else 0.0)
    ensures half != Undetermined ==> r.contribution.BucketSum() == p.contribution.BucketSum() + p.ppcf
    ensures half == Undetermined ==> forall ro, z :: r.contribution.Bucket(ro, z) == p.contribution.Bucket(ro, z)
    ensures r.(contribution := p.contribution) == p
  {
    var c := p.contribution.(total := p.contribution.total + p.ppcf);
    if half == Undetermined then p.(contribution := c)
    else p.(contribution := Credit(c, possession, Oriented(half, zone), p.ppcf))
  }

  /** Crediting a cell of the right half is crediting its mirror third on the left. */
  lemma AccumulateMirror(p: Player, possession: Role, zone: Zone)
    ensures Accumulate(p, Right, possession, zone) == Accumulate(p, Left, possession, Oriented(Right, zone))
  {
  }

  /** With a non-zero control, exactly one of the six buckets changes. */
  lemma AccumulateChangesOneBucket(p: Player, half: Half, possession: Role, zone: Zone)
    requires half != Undetermined && p.ppcf != 0.0
    ensures var r := Accumulate(p, half, possession, zone);
            forall ro, z :: r.contribution.Bucket(ro, z) != p.contribution.Bucket(ro, z)
                            <==> ro == possession && z == Oriented(half, zone)
  {
  }

  /** `update_players_PCCF` over the whole roster, for the cell's third. */
  function AccumulateTeam(t: Team, zone: Zone): (r: Team)
    ensures r.(players := t.players) == t
    ensures |r.players| == |t.players|
    ensures forall i :: 0 <= i < |t.players| ==> r.players[i] == Accumulate(t.players[i], t.half, t.possession, zone)
  {
    t.(players := AccumulateAll(t.players, t.half, t.possession, zone))
  }

  /** Every player of a list accumulated for the same cell. */
  function AccumulateAll(ps: seq<Player>, half: Half, possession: Role, zone: Zone): (r: seq<Player>)
    ensures |r| == |ps|
    ensures forall i :: 0 <= i < |ps| ==> r[i] == Accumulate(ps[i], half, possession, zone)
  {
    if |ps| == 0 then [] else [Accumulate(ps[0], half, possession, zone)] + AccumulateAll(ps[1..], half, possession, zone)
  }

  /** The sum of the players' running totals. */
  function TotalOf(ps: seq<Player>): real
  {
    if |ps| == 0 then 0.0 else ps[0].contribution.total + TotalOf(ps[1..])
  }

  /** The sum of the players' per-cell control. */
  function ScratchOf(ps: seq<Player>): real
  {
    if |ps| == 0 then 0.0 else ps[0].ppcf + ScratchOf(ps[1..])
  }

  /** The team's totals grow by exactly the control handed out in the cell. */
  lemma {:induction false} AccumulateTeamTotals(ps: seq<Player>, half: Half, possession: Role, zone: Zone)
    ensures TotalOf(AccumulateAll(ps, half, possession, zone)) == TotalOf(ps) + ScratchOf(ps)
    decreases |ps|
  {
    if |ps| > 0 {
      AccumulateTeamTotals(ps[1..], half, possession, zone);
      assert AccumulateAll(ps, half, possession, zone)[1..] == AccumulateAll(ps[1..], half, possession, zone);
    }
  }

  /** Writes a cell's control gains into the players' per-cell scratch, by jersey. */
  function ApplyGains(t: Team, gains: map<string, real>): (r: Team)
    ensures r.(players := t.players) == t
    ensures |r.players| == |t.players|
    ensures forall i :: 0 <= i < |t.players| ==>
              r.players[i] == t.players[i].(ppcf := t.players[i].ppcf + (if t.players[i].id in gains then gains[t.players[i].id] else 0.0))
  {
    t.(players := seq(|t.players|, i requires 0 <= i < |t.players| =>
         var p := t.players[i];
         p.(ppcf := p.ppcf + (if p.id in gains then gains[p.id] else 0.0))))
  }
}
