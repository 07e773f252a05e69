/**
 The pure helpers of the data layer (src/data/utils.py) that the engine relies
 on: goalkeeper and pitch-half detection from the first row, parsing tracking
 column names into (jersey, team), dropping a player, row sub-sampling, and
 the output file name.
 */
module DataUtils {

  import opened Common
  import opened Seqs
  import opened Strings
  import opened PlayerModel

  // ---------------------------------------------------------------------------
  // Goalkeeper and pitch half (`find_goalkeeper`)
  // ---------------------------------------------------------------------------

  /**
   pandas `idxmax` with missing values skipped: the first position holding the
   largest present value, or nothing when every value is missing.
   */
  function FirstMaxPresent(xs: seq<Option<real>>): (k: Option<nat>)
    ensures k.None? <==> forall i :: 0 <= i < |xs| ==> xs[i].None?
    ensures k.Some? ==> k.value < |xs| && xs[k.value].Some?
    ensures k.Some? ==> forall i :: 0 <= i < |xs| && xs[i].Some? ==> xs[i].value <= xs[k.value].value
    ensures k.Some? ==> forall i :: 0 <= i < k.value && xs[i].Some? ==> xs[i].value < xs[k.value].value
  {
    if |xs| == 0 then None
    else
      var rest := FirstMaxPresent(xs[1..]);
      assert forall i :: 0 < i < |xs| ==> xs[i] == xs[1..][i - 1];
      if xs[0].None? then
        if rest.None? then None else Some(rest.value + 1)
      else if rest.None? || xs[0].value >= xs[rest.value + 1].value then Some(0)
      else Some(rest.value + 1)
  }

  /** `c[-2:].lower() == '_x'`: the column holds an x coordinate. */
  predicate IsXColumn(c: string)
  {
    LastTwo(c) == "_x" || LastTwo(c) == "_X"
  }

  /** A column `find_goalkeeper` ranks for `team`, whose first-row value is present. */
  predicate IsCandidate(f: Frame, team: string, c: string)
  {
    IsXColumn(c) && Take(c, 4) == team && c in f.values && f.values[c].Some?
  }

  /** `|x|` of a candidate column, missing for every other column. */
  function CandidateAbs(f: Frame, team: string, c: string): Option<real>
  {
    if IsCandidate(f, team, c) then Some(Abs(f.values[c].value)) else None
  }

  /** The goalkeeper a team is assigned: the column it was found in, its jersey, and the half it defends. */
  datatype Goalkeeper = Goalkeeper(column: string, id: string, half: Half)

  /** The half a goalkeeper at `x` defends: `left` for negative x, `right` for positive, '' at zero. */
  function HalfOf(x: real): (h: Half)
    ensures h == Left <==> x < 0.0
    ensures h == Right <==> x > 0.0
    ensures h == Undetermined <==> x == 0.0
  {
    if Sign(x) == -1.0 then Left else if Sign(x) == 1.0 then Right else Undetermined
  }

  /**
   One team's half of `find_goalkeeper`: among the x columns of `team`, the one
   whose first-row |x| is largest (the first such column on ties); its jersey is
   the text between the first and second '_', and the sign of its x gives the
   half. With no present x value pandas raises a ValueError.
   */
  function FindGoalkeeper(f: Frame, team: string): (r: Result<Goalkeeper>)
    requires f.Valid()
    ensures r.Err? <==> forall c :: c in f.columns ==> !IsCandidate(f, team, c)
    ensures r.Err? ==> r.error == EmptyInput
    ensures r.Ok? ==> r.value.column in f.columns && IsCandidate(f, team, r.value.column)
    ensures r.Ok? ==> forall c :: c in f.columns && IsCandidate(f, team, c) ==>
                        Abs(f.values[c].value) <= Abs(f.values[r.value.column].value)
    ensures r.Ok? ==> exists k :: 0 <= k < |f.columns| && f.columns[k] == r.value.column &&
                        forall i :: 0 <= i < k && IsCandidate(f, team, f.columns[i]) ==>
                          Abs(f.values[f.columns[i]].value) < Abs(f.values[r.value.column].value)
    ensures r.Ok? ==> Field(r.value.column, '_', 1) == Some(r.value.id)
    ensures r.Ok? ==> r.value.half == HalfOf(f.values[r.value.column].value)
  {
    var k := FirstMaxPresent(CandidateXs(f, team));
    FirstMaxCandidate(f, team);
    if k.None? then Err(EmptyInput)
    else
      var c := f.columns[k.value];
      assert '_' in c by {
        assert |c| >= 2 && c[|c| - 2] == '_';
      }
      SplitHasSecondField(c, '_');
      Ok(Goalkeeper(c, Split(c, '_')[1], HalfOf(f.values[c].value)))
  }

  /** The ranked values of `find_goalkeeper`, one per column in table order. */
  function CandidateXs(f: Frame, team: string): (xs: seq<Option<real>>)
    ensures |xs| == |f.columns|
    ensures forall i :: 0 <= i < |xs| ==> xs[i] == CandidateAbs(f, team, f.columns[i])
  {
    seq(|f.columns|, i requires 0 <= i < |f.columns| => CandidateAbs(f, team, f.columns[i]))
  }

  /** `idxmax` over the ranked values picks a candidate column of largest |x|, the first on ties. */
  lemma FirstMaxCandidate(f: Frame, team: string)
    requires f.Valid()
    ensures var k := FirstMaxPresent(CandidateXs(f, team));
            && (k.None? <==> forall c :: c in f.columns ==> !IsCandidate(f, team, c))
            && (k.Some? ==> IsCandidate(f, team, f.columns[k.value]))
            && (k.Some? ==> forall c :: c in f.columns && IsCandidate(f, team, c) ==>
                              Abs(f.values[c].value) <= Abs(f.values[f.columns[k.value]].value))
            && (k.Some? ==> forall i :: 0 <= i < k.value && IsCandidate(f, team, f.columns[i]) ==>
                              Abs(f.values[f.columns[i]].value) < Abs(f.values[f.columns[k.value]].value))
  {
    var xs := CandidateXs(f, team);
    var k := FirstMaxPresent(xs);
    forall c | c in f.columns && IsCandidate(f, team, c)
      ensures k.Some?
      ensures Abs(f.values[c].value) <= Abs(f.values[f.columns[k.value]].value)
    {
      var i :| 0 <= i < |f.columns| && f.columns[i] == c;
      assert xs[i].Some?;
    }
    if k.Some? {
      forall i | 0 <= i < k.value && IsCandidate(f, team, f.columns[i])
        ensures Abs(f.values[f.columns[i]].value) < Abs(f.values[f.columns[k.value]].value)
      {
        assert xs[i].Some?;
      }
    }
  }

  /** Both teams' goalkeepers, home first: a failure for either team fails the whole lookup. */
  function FindGoalkeepers(f: Frame): (r: Result<(Goalkeeper, Goalkeeper)>)
    requires f.Valid()
    ensures r.Ok? <==> FindGoalkeeper(f, "home").Ok? && FindGoalkeeper(f, "away").Ok?
    ensures r.Ok? ==> r.value == (FindGoalkeeper(f, "home").value, FindGoalkeeper(f, "away").value)
  {
    match FindGoalkeeper(f, "home")
    case Err(e) => Err(e)
    case Ok(home) =>
      match FindGoalkeeper(f, "away")
      case Err(e) => Err(e)
      case Ok(away) => Ok((home, away))
  }

  /** Any column meeting the argmax conditions is the one `FindGoalkeeper` picked. */
  lemma GoalkeeperColumnUnique(f: Frame, team: string, k: nat)
    requires f.Valid() && k < |f.columns| && IsCandidate(f, team, f.columns[k])
    requires forall c :: c in f.columns && IsCandidate(f, team, c) ==>
               Abs(f.values[c].value) <= Abs(f.values[f.columns[k]].value)
    requires forall i :: 0 <= i < k && IsCandidate(f, team, f.columns[i]) ==>
               Abs(f.values[f.columns[i]].value) < Abs(f.values[f.columns[k]].value)
    ensures FindGoalkeeper(f, team).Ok?
    ensures FindGoalkeeper(f, team).value.column == f.columns[k]
  {
    var r := FindGoalkeeper(f, team);
    assert r.Ok?;
    var c := r.value.column;
    var j :| 0 <= j < |f.columns| && f.columns[j] == c &&
             forall i :: 0 <= i < j && IsCandidate(f, team, f.columns[i]) ==>
               Abs(f.values[f.columns[i]].value) < Abs(f.values[c].value);
    assert f.columns[k] in f.columns;
    FirstOfEqualMaxima(f, team, j, k);
  }

  /** Two first occurrences of the same largest |x| are the same column. */
  lemma FirstOfEqualMaxima(f: Frame, team: string, j: nat, k: nat)
    requires f.Valid() && j < |f.columns| && k < |f.columns|
    requires IsCandidate(f, team, f.columns[j]) && IsCandidate(f, team, f.columns[k])
    requires Abs(f.values[f.columns[j]].value) == Abs(f.values[f.columns[k]].value)
    requires forall i :: 0 <= i < j && IsCandidate(f, team, f.columns[i]) ==>
               Abs(f.values[f.columns[i]].value) < Abs(f.values[f.columns[j]].value)
    requires forall i :: 0 <= i < k && IsCandidate(f, team, f.columns[i]) ==>
               Abs(f.values[f.columns[i]].value) < Abs(f.values[f.columns[k]].value)
    ensures j == k
  {
  }

  // ---------------------------------------------------------------------------
  // Column names (`get_jersey_team`, `get_ids_in_team`)
  // ---------------------------------------------------------------------------

  /**
   `re.match(f'{team}_([0-9]+)_x', c)`: anchored at the start only, the team
   name taken literally, the greedy digit run as the captured jersey.
   */
  function MatchTeamColumn(c: string, team: string): (r: Option<string>)
    ensures r.Some? ==> IsDigits(r.value) && StartsWith(c, team + "_" + r.value + "_x")
  {
    var head := team + "_";
    if !StartsWith(c, head) then None
    else
      var rest := c[|head|..];
      var d := DigitPrefix(rest);
      if |d| > 0 && StartsWith(rest[|d|..], "_x") then
        assert c[..|head + d + "_x"|] == head + d + "_x" by {
          assert c == head + rest;
          assert rest[..|d| + 2] == d + "_x";
        }
        Some(d)
      else None
  }

  /** The match is the only one: any jersey the pattern could capture is the one captured. */
  lemma MatchTeamColumnComplete(c: string, team: string, d: string)
    requires IsDigits(d) && StartsWith(c, team + "_" + d + "_x")
    ensures MatchTeamColumn(c, team) == Some(d)
  {
    var head := team + "_";
    assert StartsWith(c, head) by {
      assert c[..|head|] == (team + "_" + d + "_x")[..|head|];
    }
    var rest := c[|head|..];
    assert rest[..|d| + 2] == d + "_x" by {
      assert c[..|head| + |d| + 2] == head + (d + "_x");
    }
    assert rest[|d|] == '_';
    DigitPrefixOf(rest, |d|);
    assert rest[..|d|] == d;
    assert rest[|d|..][..2] == "_x";
  }

  /** `re.match('(home|away)_([0-9]+)_x', c)` as (jersey, team). */
  function MatchJersey(c: string): (r: Option<(string, string)>)
    ensures r.Some? ==> (r.value.1 == "home" || r.value.1 == "away") && MatchTeamColumn(c, r.value.1) == Some(r.value.0)
    ensures r.None? ==> MatchTeamColumn(c, "home").None? && MatchTeamColumn(c, "away").None?
  {
    match MatchTeamColumn(c, "home")
    case Some(d) => Some((d, "home"))
    case None =>
      match MatchTeamColumn(c, "away")
      case Some(d) => Some((d, "away"))
      case None => None
  }

  /** The x column of a player's tag parses back to the player's jersey and team. */
  lemma MatchJerseyOfTag(team: string, id: string)
    requires team == "home" || team == "away"
    requires IsDigits(id)
    ensures MatchJersey(team + "_" + id + "_x") == Some((id, team))
  {
    var c := team + "_" + id + "_x";
    assert StartsWith(c, team + "_" + id + "_x");
    MatchTeamColumnComplete(c, team, id);
    if team == "away" {
      assert c[0] == 'a';
      assert !StartsWith(c, "home_");
    }
  }

  /** A column that `(home|away)_<digits>_x` matches. */
  predicate IsJerseyColumn(c: string)
  {
    MatchJersey(c).Some?
  }

  /** `get_jersey_team`: one (jersey, team) pair per matching column, in column order. */
  function GetJerseyTeam(columns: seq<string>): (r: seq<(string, string)>)
    ensures |r| == |Filter(columns, IsJerseyColumn)|
    ensures forall i :: 0 <= i < |r| ==> r[i] == MatchJersey(Filter(columns, IsJerseyColumn)[i]).value
    ensures forall i :: 0 <= i < |r| ==> IsDigits(r[i].0) && (r[i].1 == "home" || r[i].1 == "away")
  {
    if |columns| == 0 then []
    else
      match MatchJersey(columns[0])
      case Some(m) => [m] + GetJerseyTeam(columns[1..])
      case None => GetJerseyTeam(columns[1..])
  }

  /** Parsing distributes over concatenation: the pairs come out in column order. */
  lemma {:induction false} GetJerseyTeamAppend(a: seq<string>, b: seq<string>)
    ensures GetJerseyTeam(a + b) == GetJerseyTeam(a) + GetJerseyTeam(b)
    decreases |a|
  {
    if |a| == 0 {
      assert a + b == b;
    } else {
      assert (a + b)[0] == a[0];
      assert (a + b)[1..] == a[1..] + b;
      GetJerseyTeamAppend(a[1..], b);
    }
  }

  /** The columns that `team_<digits>_x` matches. */
  function TeamColumn(team: string): string -> bool
  {
    c => MatchTeamColumn(c, team).Some?
  }

  /** `get_ids_in_team(data, team)`: the jersey of every column matching `team_<digits>_x`, in order. */
  function GetIdsInTeam(columns: seq<string>, team: string): (r: seq<string>)
    ensures |r| == |Filter(columns, TeamColumn(team))|
    ensures forall i :: 0 <= i < |r| ==> r[i] == MatchTeamColumn(Filter(columns, TeamColumn(team))[i], team).value
    ensures forall i :: 0 <= i < |r| ==> IsDigits(r[i])
  {
    if |columns| == 0 then []
    else
      match MatchTeamColumn(columns[0], team)
      case Some(d) => [d] + GetIdsInTeam(columns[1..], team)
      case None => GetIdsInTeam(columns[1..], team)
  }

  /** The jerseys of the pairs whose team is `team`, in order. */
  function JerseysOf(pairs: seq<(string, string)>, team: string): (r: seq<string>)
  {
    if |pairs| == 0 then []
    else if pairs[0].1 == team then [pairs[0].0] + JerseysOf(pairs[1..], team)
    else JerseysOf(pairs[1..], team)
  }

  /** A column never matches both team patterns. */
  lemma HomeAwayExclusive(c: string)
    ensures MatchTeamColumn(c, "home").None? || MatchTeamColumn(c, "away").None?
  {
    if MatchTeamColumn(c, "home").Some? {
      assert c[0] == 'h';
    }
  }

  /** For either team, `get_ids_in_team` is `get_jersey_team` restricted to that team. */
  lemma {:induction false} IdsInTeamAgree(columns: seq<string>, team: string)
    requires team == "home" || team == "away"
    ensures GetIdsInTeam(columns, team) == JerseysOf(GetJerseyTeam(columns), team)
    decreases |columns|
  {
    if |columns| > 0 {
      IdsInTeamAgree(columns[1..], team);
      HomeAwayExclusive(columns[0]);
    }
  }

  // ---------------------------------------------------------------------------
  // Players, rows and file names
  // ---------------------------------------------------------------------------

  /** The filter condition of `remove_player`. */
  function OtherThan(jersey: string): Player -> bool
  {
    (p: Player) => p.id != jersey
  }

  /** `remove_player`: every player with jersey `jersey` is dropped, the others keep their order. */
  function RemovePlayer(players: seq<Player>, jersey: string): (r: seq<Player>)
    ensures IsSubseq(r, players)
    ensures forall i :: 0 <= i < |r| ==> r[i].id != jersey
    ensures forall i :: 0 <= i < |players| && players[i].id != jersey ==> players[i] in r
    ensures |r| == |players| - Count(players, (p: Player) => p.id == jersey)
  {
    CountComplement(players, OtherThan(jersey), (p: Player) => p.id == jersey);
    Filter(players, OtherThan(jersey))
  }

  /** Removing a jersey twice is removing it once. */
  lemma RemovePlayerIdempotent(players: seq<Player>, jersey: string)
    ensures RemovePlayer(RemovePlayer(players, jersey), jersey) == RemovePlayer(players, jersey)
  {
    var r := RemovePlayer(players, jersey);
    IsSubseqRefl(r);
    CountAll(r, OtherThan(jersey));
    FilterUnique(r, r, OtherThan(jersey));
  }

  /** `s[::n]` for a positive step: the entries at 0, n, 2n, ..., that is ceil(|s| / n) of them. */
  function Stride<T>(s: seq<T>, n: nat): (r: seq<T>)
    requires n > 0
    ensures |s| <= |r| * n < |s| + n
    decreases |s|
  {
    if |s| == 0 then []
    else if |s| <= n then [s[0]]
    else
      var t := Stride(s[n..], n);
      assert (|t| + 1) * n == |t| * n + n;
      [s[0]] + t
  }

  /** The i-th selected entry is the entry at i * n. */
  lemma {:induction false} StrideAt<T>(s: seq<T>, n: nat, i: nat)
    requires n > 0 && i < |Stride(s, n)|
    ensures i * n < |s| && Stride(s, n)[i] == s[i * n]
    decreases i
  {
    if i > 0 {
      assert |s| > n;
      StrideAt(s[n..], n, i - 1);
      assert (i - 1) * n + n == i * n;
    }
  }

  /**
   `df.iloc[::n]` (`select_every_n_rows`): every n-th row from the first, or,
   for a negative step, every |n|-th row from the last backwards; a zero step
   is a ValueError.
   */
  function SelectEveryNRows<T>(rows: seq<T>, n: int): (r: Result<seq<T>>)
    ensures r.Err? <==> n == 0
    ensures r.Err? ==> r.error == ZeroStep
    ensures n > 0 ==> |rows| <= |r.value| * n < |rows| + n
    ensures n > 0 ==> forall i :: 0 <= i < |r.value| ==> i * n < |rows| && r.value[i] == rows[i * n]
    ensures n < 0 ==> |rows| <= |r.value| * -n < |rows| - n
    ensures n < 0 ==> forall i :: 0 <= i < |r.value| ==>
                        0 <= |rows| - 1 - i * -n && r.value[i] == rows[|rows| - 1 - i * -n]
  {
    if n == 0 then Err(ZeroStep)
    else if n > 0 then
      StrideForward(rows, n);
      Ok(Stride(rows, n))
    else
      StrideBackward(rows, -n);
      Ok(Stride(Reverse(rows), -n))
  }

  lemma StrideForward<T>(s: seq<T>, n: nat)
    requires n > 0
    ensures forall i :: 0 <= i < |Stride(s, n)| ==> i * n < |s| && Stride(s, n)[i] == s[i * n]
  {
    forall i | 0 <= i < |Stride(s, n)| ensures i * n < |s| && Stride(s, n)[i] == s[i * n] {
      StrideAt(s, n, i);
    }
  }

  lemma StrideBackward<T>(s: seq<T>, m: nat)
    requires m > 0
    ensures forall i :: 0 <= i < |Stride(Reverse(s), m)| ==>
              0 <= |s| - 1 - i * m && Stride(Reverse(s), m)[i] == s[|s| - 1 - i * m]
  {
    var t := Stride(Reverse(s), m);
    forall i | 0 <= i < |t| ensures 0 <= |s| - 1 - i * m && t[i] == s[|s| - 1 - i * m] {
      StrideAt(Reverse(s), m, i);
    }
  }

  lemma {:induction false} StrideOne<T>(s: seq<T>)
    ensures Stride(s, 1) == s
    decreases |s|
  {
    if |s| > 1 {
      StrideOne(s[1..]);
    }
  }

  /** A unit step keeps every row, forwards or backwards. */
  lemma SelectEveryRow<T>(rows: seq<T>)
    ensures SelectEveryNRows(rows, 1) == Ok(rows)
    ensures SelectEveryNRows(rows, -1) == Ok(Reverse(rows))
  {
    StrideOne(rows);
    StrideOne(Reverse(rows));
  }

  /** Python truthiness of an optional number: `None` and zero are false. */
  predicate Truthy(x: Option<real>)
  {
    x.Some? && x.value != 0.0
  }

  /** The stamina part of the suffix; a factor that is not given is written as `1.0`. */
  function StaminaSuffix(home: Option<real>, away: Option<real>, show: real -> string): (r: string)
    ensures r == "" <==> !Truthy(home) && !Truthy(away)
  {
    (if Truthy(home) && !Truthy(away) then "_sh_" + show(home.value) + "_as_1.0" else "")
    + (if Truthy(away) && !Truthy(home) then "_sh_1.0_as_" + show(away.value) else "")
    + (if Truthy(home) && Truthy(away) then "_sh_" + show(home.value) + "_as_" + show(away.value) else "")
  }

  /** `_<position>` for each position, in list order. */
  function PositionsSuffix(positions: seq<string>): (r: string)
    ensures |positions| == 0 <==> r == ""
  {
    if |positions| == 0 then ""
    else PositionsSuffix(positions[..|positions| - 1]) + "_" + positions[|positions| - 1]
  }

  /**
   `create_output_filename`: the velocity flag, the stamina factors and the
   positions are appended to `filename` in that order. `show` is Python's
   rendering of a float in an f-string, which the model keeps abstract.
   */
  function CreateOutputFilename(filename: string, includeVelocities: bool, home: Option<real>, away: Option<real>,
                                positions: seq<string>, show: real -> string): (r: string)
    ensures StartsWith(r, filename)
    ensures includeVelocities ==> StartsWith(r[|filename|..], "_include_velocities")
    ensures includeVelocities ==> r[|filename| + 19..] == StaminaSuffix(home, away, show) + PositionsSuffix(positions)
    ensures !includeVelocities ==> r[|filename|..] == StaminaSuffix(home, away, show) + PositionsSuffix(positions)
  {
    var v := if includeVelocities then "_include_velocities" else "";
    var rest := v + StaminaSuffix(home, away, show) + PositionsSuffix(positions);
    assert (filename + rest)[..|filename|] == filename;
    assert (filename + rest)[|filename|..] == rest;
    assert |v| == 19 ==> rest[19..] == StaminaSuffix(home, away, show) + PositionsSuffix(positions);
    filename + rest
  }

  /** With no option set and no position, the name is unchanged. */
  lemma NoOptionsKeepsName(filename: string, home: Option<real>, away: Option<real>, show: real -> string)
    requires !Truthy(home) && !Truthy(away)
    ensures CreateOutputFilename(filename, false, home, away, [], show) == filename
  {
    assert CreateOutputFilename(filename, false, home, away, [], show)[|filename|..] == "";
  }

  /** A single given stamina factor is written exactly as if the other one were 1.0. */
  lemma MissingFactorReadsAsOne(h: real, a: real, show: real -> string)
    requires show(1.0) == "1.0" && h != 0.0 && a != 0.0
    ensures StaminaSuffix(Some(h), None, show) == StaminaSuffix(Some(h), Some(1.0), show)
    ensures StaminaSuffix(None, Some(a), show) == StaminaSuffix(Some(1.0), Some(a), show)
  {
    calc {
      StaminaSuffix(Some(h), None, show);
      "_sh_" + show(h) + "_as_1.0";
      "_sh_" + show(h) + "_as_" + show(1.0);
      StaminaSuffix(Some(h), Some(1.0), show);
    }
    calc {
      StaminaSuffix(None, Some(a), show);
      "_sh_1.0_as_" + show(a);
      "_sh_" + show(1.0) + "_as_" + show(a);
      StaminaSuffix(Some(1.0), Some(a), show);
    }
  }

  /** A zero factor is falsy in Python and so reads as a missing one. */
  lemma ZeroFactorIsMissing(filename: string, v: bool, x: Option<real>, positions: seq<string>, show: real -> string)
    ensures CreateOutputFilename(filename, v, Some(0.0), x, positions, show)
            == CreateOutputFilename(filename, v, None, x, positions, show)
    ensures CreateOutputFilename(filename, v, x, Some(0.0), positions, show)
            == CreateOutputFilename(filename, v, x, None, positions, show)
  {
  }

  /** One more position appends `_<position>` at the very end. */
  lemma PositionAppendsLast(filename: string, v: bool, h: Option<real>, a: Option<real>, positions: seq<string>,
                            p: string, show: real -> string)
    ensures CreateOutputFilename(filename, v, h, a, positions + [p], show)
            == CreateOutputFilename(filename, v, h, a, positions, show) + "_" + p
  {
    assert (positions + [p])[..|positions|] == positions;
  }
}
