/**
 The offside filter (`check_offsides` in src/pitch_control/pitch_control.py):
 the defending half is read from the goalkeeper's x, the line is the deepest
 of the second-last defender, the ball and the half-way line plus a
 tolerance, and attackers beyond the line are dropped.
 */
module Offside {

  import opened Common
  import opened Seqs
  import opened PlayerModel

  /** Every player in the list has an x position; the engine passes in-frame players only. */
  predicate AllPlaced(ps: seq<Player>)
  {
    forall i :: 0 <= i < |ps| ==> ps[i].position.x.Some?
  }

  /** `[half * p.position[0] for p in ps]`. */
  function OrientedXs(ps: seq<Player>, half: real): (xs: seq<real>)
    requires AllPlaced(ps)
    ensures |xs| == |ps|
    ensures forall i :: 0 <= i < |ps| ==> xs[i] == half * ps[i].position.x.value
  {
    seq(|ps|, i requires 0 <= i < |ps| => half * ps[i].position.x.value)
  }

  /** `any(gk_id == p.id for p in ps)`. */
  predicate HasId(ps: seq<Player>, id: string)
  {
    exists i :: 0 <= i < |ps| && ps[i].id == id
  }

  /** The position of the first player flagged as goalkeeper, if any. */
  function FirstGoalkeeper(ps: seq<Player>): (k: Option<nat>)
    ensures k.None? <==> forall i :: 0 <= i < |ps| ==> !ps[i].isGk
    ensures k.Some? ==> k.value < |ps| && ps[k.value].isGk
    ensures k.Some? ==> forall i :: 0 <= i < k.value ==> !ps[i].isGk
  {
    if |ps| == 0 then None
    else if ps[0].isGk then Some(0)
    else
      var k := FirstGoalkeeper(ps[1..]);
      if k.None? then None else Some(k.value + 1)
  }

  /** The defending orientation (-1, 0 or 1) and the oriented offside line. */
  datatype Line = Line(half: real, value: real)

  /** `defending_half * ball_position[0]`, missing when the ball's x is (NaN). */
  function OrientedBall(ballX: Option<real>, half: real): (b: Option<real>)
    ensures b.Some? <==> ballX.Some?
    ensures b.Some? ==> b.value == half * ballX.value
  {
    if ballX.Some? then Some(half * ballX.value) else None
  }

  /** Python's `max(second, ball, 0.0)`, where a NaN ball (not the first argument) never wins. */
  function LineBase(second: real, ball: Option<real>): (m: real)
    ensures m >= second && m >= 0.0
    ensures ball.Some? ==> m >= ball.value
    ensures m == second || m == 0.0 || (ball.Some? && m == ball.value)
  {
    var m := if ball.Some? then Max(second, ball.value) else second;
    Max(m, 0.0)
  }

  /**
   The first half of `check_offsides`: the goalkeeper check, the defending
   orientation from the first defender flagged goalkeeper, and the line. The
   source subscripts `[0]` and `[1]` without checking, so a missing flagged
   goalkeeper or fewer than two defenders is an IndexError.
   */
  function OffsideLine(defenders: seq<Player>, ballX: Option<real>, gkId: string, tol: real): (r: Result<Line>)
    requires AllPlaced(defenders)
    ensures r == Err(MissingGoalKeeper) <==> !HasId(defenders, gkId)
    ensures r == Err(IndexOutOfRange) <==>
              HasId(defenders, gkId) && (FirstGoalkeeper(defenders).None? || |defenders| < 2)
    ensures r.Err? ==> r.error == MissingGoalKeeper || r.error == IndexOutOfRange
    ensures r.Ok? ==> FirstGoalkeeper(defenders).Some? && |defenders| >= 2
    ensures r.Ok? ==> r.value.half == Sign(defenders[FirstGoalkeeper(defenders).value].position.x.value)
    ensures r.Ok? ==> r.value.value == LineBase(SecondLargest(OrientedXs(defenders, r.value.half)),
                                                OrientedBall(ballX, r.value.half)) + tol
    ensures r.Ok? ==> r.value.value >= tol
  {
    if !HasId(defenders, gkId) then Err(MissingGoalKeeper)
    else
      var k := FirstGoalkeeper(defenders);
      if k.None? then Err(IndexOutOfRange)
      else
        var half := Sign(defenders[k.value].position.x.value);
        var xs := OrientedXs(defenders, half);
        if |xs| < 2 then Err(IndexOutOfRange)
        else
          Ok(Line(half, LineBase(SecondLargest(xs), OrientedBall(ballX, half)) + tol))
  }

  /** `p.position[0] * defending_half <= offside_line`; a NaN position compares false. */
  function Onside(line: Line): Player -> bool
  {
    (p: Player) => p.position.x.Some? && p.position.x.value * line.half <= line.value
  }

  /**
   `check_offsides`: the attackers that are not beyond the line, in their
   original order, or the error of the line computation.
   */
  function CheckOffsides(attackers: seq<Player>, defenders: seq<Player>, ballX: Option<real>,
                         gkId: string, tol: real): (r: Result<seq<Player>>)
    requires AllPlaced(defenders)
    ensures r.Err? <==> OffsideLine(defenders, ballX, gkId, tol).Err?
    ensures r.Err? ==> r.error == OffsideLine(defenders, ballX, gkId, tol).error
    ensures r.Ok? ==> var line := OffsideLine(defenders, ballX, gkId, tol).value;
                      && IsSubseq(r.value, attackers)
                      && (forall i :: 0 <= i < |r.value| ==> Onside(line)(r.value[i]))
                      && (forall i :: 0 <= i < |attackers| && Onside(line)(attackers[i]) ==> attackers[i] in r.value)
                      && |r.value| == Count(attackers, Onside(line))
  {
    match OffsideLine(defenders, ballX, gkId, tol)
    case Err(e) => Err(e)
    case Ok(line) => Ok(Filter(attackers, Onside(line)))
  }

  /** An attacker no further forward than the tolerance is never flagged offside. */
  lemma NearSideNeverOffside(attackers: seq<Player>, defenders: seq<Player>, ballX: Option<real>,
                             gkId: string, tol: real, i: nat)
    requires AllPlaced(defenders)
    requires CheckOffsides(attackers, defenders, ballX, gkId, tol).Ok?
    requires i < |attackers| && attackers[i].position.x.Some?
    requires attackers[i].position.x.value * OffsideLine(defenders, ballX, gkId, tol).value.half <= tol
    ensures attackers[i] in CheckOffsides(attackers, defenders, ballX, gkId, tol).value
  {
    var line := OffsideLine(defenders, ballX, gkId, tol).value;
    assert Onside(line)(attackers[i]);
  }

  /**
   On a roster where exactly the goalkeeper's jersey carries the flag, finding
   the goalkeeper's jersey also finds a flagged goalkeeper: only too few
   defenders can make the lookup fail.
   */
  lemma ConsistentFlagsFindGoalkeeper(defenders: seq<Player>, ballX: Option<real>, gkId: string, tol: real)
    requires AllPlaced(defenders)
    requires forall i :: 0 <= i < |defenders| ==> (defenders[i].isGk <==> defenders[i].id == gkId)
    requires HasId(defenders, gkId)
    ensures FirstGoalkeeper(defenders).Some?
    ensures OffsideLine(defenders, ballX, gkId, tol).Ok? <==> |defenders| >= 2
  {
    var i :| 0 <= i < |defenders| && defenders[i].id == gkId;
    assert defenders[i].isGk;
  }

  /** A player on the pitch at `x`, with every other field at a neutral value. */
  function Placed(id: string, isGk: bool, x: real): Player
  {
    Player(id, "home", isGk, 5.0, 0.7, 0.45, 4.3, 4.3, -1.0, NoContribution, 0.0,
           Coords(Some(x), Some(0.0)), Vec2(0.0, 0.0), true, None)
  }

  function ExampleDefenders(): seq<Player>
  {
    [Placed("1", true, -50.0), Placed("4", false, -30.0)]
  }

  function ExampleAttackers(): seq<Player>
  {
    [Placed("9", false, -29.0), Placed("10", false, -28.0)]
  }

  /**
   Goalkeeper at x = -50, one more defender at -30, ball at -40, tolerance
   0.2: the defending orientation is -1, so the oriented line is
   max(30, 40, 0) + 0.2 = 40.2.
   */
  lemma WorkedExampleLine()
    ensures OffsideLine(ExampleDefenders(), Some(-40.0), "1", 0.2) == Ok(Line(-1.0, 40.2))
  {
    var defenders := ExampleDefenders();
    assert HasId(defenders, "1") by {
      assert defenders[0].id == "1";
    }
    assert FirstGoalkeeper(defenders) == Some(0);
    var xs := OrientedXs(defenders, -1.0);
    assert xs == [50.0, 30.0];
    assert IsSecondLargest(xs, 30.0) by {
      assert xs[1..] == [30.0] && xs[1..][1..] == [];
      assert CountAbove(xs[1..][1..], 30.0) == 0 && CountAtLeast(xs[1..][1..], 30.0) == 0;
      assert CountAbove(xs[1..], 30.0) == 0 && CountAtLeast(xs[1..], 30.0) == 1;
    }
    SecondLargestUnique(xs, SecondLargest(xs), 30.0);
    assert OrientedBall(Some(-40.0), -1.0) == Some(40.0);
    assert LineBase(30.0, Some(40.0)) == 40.0;
  }

  /** With that line, attackers at -29 and -28 (oriented 29 and 28) are both onside and kept. */
  lemma WorkedExampleKeepsBoth()
    ensures CheckOffsides(ExampleAttackers(), ExampleDefenders(), Some(-40.0), "1", 0.2) == Ok(ExampleAttackers())
  {
    WorkedExampleLine();
    var attackers := ExampleAttackers();
    var line := Line(-1.0, 40.2);
    assert Onside(line)(attackers[0]) && Onside(line)(attackers[1]);
    assert attackers[1..] == [attackers[1]] && attackers[1..][1..] == [];
    assert Filter(attackers[1..][1..], Onside(line)) == [];
    assert Filter(attackers[1..], Onside(line)) == [attackers[1]];
    assert Filter(attackers, Onside(line)) == attackers;
  }
}
