/** The per-player aggregator `get_player_xpts`: expected points of one
    player in one game. It sums the shot estimates weighted by their point
    values, adds free throws times the season free-throw percentage, and
    rounds to one decimal. The season shot chart, the game's box score and
    the free-throw table were globals in the program; here they are
    parameters. */
module Aggregator {
  import opened Shots
  import opened Estimator

  /** One box-score row: the player's field-goal and free-throw attempts. */
  datatype BoxLine = BoxLine(playerId: int, fga: nat, fta: nat)

  datatype Error =
    | BadShotType(shotType: string) // `int(label[0])` raised
    | MissingBoxScore(playerId: int) // `game_boxscore.loc[pid]` raised KeyError
    | MissingFtPct(playerId: int)    // `player_FTpct_df.loc[pid]` raised KeyError

  datatype Result<T> = Ok(value: T) | Fail(error: Error)

  /** The point value of a shot: `int` of the first character of its
      shot-type label ("2PT Field Goal" is worth 2). An empty label or a
      first character that is not a digit is an error. */
  function PointValue(lbl: string): (r: Result<nat>)
    ensures r.Ok? <==> |lbl| > 0 && '0' <= lbl[0] <= '9'
    ensures r.Ok? ==> r.value < 10 && r.value == lbl[0] as int - '0' as int
    ensures r.Fail? ==> r.error == BadShotType(lbl)
  {
    if |lbl| > 0 && '0' <= lbl[0] <= '9' then Ok(lbl[0] as int - '0' as int)
    else Fail(BadShotType(lbl))
  }

  lemma PointValueOfLabels()
    ensures PointValue("2PT Field Goal") == Ok(2)
    ensures PointValue("3PT Field Goal") == Ok(3)
    ensures PointValue("").Fail? && PointValue("Field Goal").Fail?
  {
  }

  /** `round(x, 1)`, rounding half up to a multiple of 0.1. */
  function Round1(x: real): (r: real)
    ensures x - 0.05 < r <= x + 0.05
    ensures (r * 10.0).Floor as real == r * 10.0
  {
    ((x * 10.0 + 0.5).Floor as real) / 10.0
  }

  lemma FloorMonotone(a: real, b: real)
    requires a <= b
    ensures a.Floor <= b.Floor
  {
  }

  /** Rounding preserves order. */
  lemma Round1Monotone(x: real, y: real)
    requires x <= y
    ensures Round1(x) <= Round1(y)
  {
    FloorMonotone(x * 10.0 + 0.5, y * 10.0 + 0.5);
  }

  /** The expected points of the shots `shots`, each scored against the
      season chart `season`: the sum of point value times `get_fg`, in
      the order of the loop. The first malformed label is the error. */
  function ShotsXpts(season: seq<Shot>, shots: seq<Shot>): (r: Result<real>)
    ensures r.Ok? <==> forall i :: 0 <= i < |shots| ==> PointValue(shots[i].shotType).Ok?
    ensures r.Ok? ==> 0.0 <= r.value
    decreases |shots|
  {
    if shots == [] then Ok(0.0)
    else
      var last := shots[|shots| - 1];
      match ShotsXpts(season, shots[..|shots| - 1])
      case Fail(e) => Fail(e)
      case Ok(acc) =>
        match ShotValue(season, last)
        case Fail(e) => Fail(e)
        case Ok(v) => Ok(acc + v)
  }

  function ShotValue(season: seq<Shot>, shot: Shot): (r: Result<real>)
    ensures r.Ok? <==> PointValue(shot.shotType).Ok?
    ensures r.Ok? ==> 0.0 <= r.value
  {
    match PointValue(shot.shotType)
    case Fail(e) => Fail(e)
    case Ok(pv) => Ok(Expected(pv, GetFg(season, shot.actionType, shot.zoneBasic, shot.zoneArea)))
  }

  /** Extending the prefix `shots[..i]` by the shot `shots[i]`. */
  lemma ShotsXptsStep(season: seq<Shot>, shots: seq<Shot>, i: nat)
    requires i < |shots|
    ensures ShotsXpts(season, shots[..i + 1]) ==
      match ShotsXpts(season, shots[..i])
      case Fail(e) => Fail(e)
      case Ok(acc) =>
        match ShotValue(season, shots[i])
        case Fail(e) => Fail(e)
        case Ok(v) => Ok(acc + v)
  {
    assert shots[..i + 1][..i] == shots[..i];
    assert shots[..i + 1][i] == shots[i];
  }

  /** Once a prefix has failed, the whole sequence fails with that error. */
  lemma {:induction false} ShotsXptsFailPersists(season: seq<Shot>, shots: seq<Shot>, k: nat)
    requires k <= |shots|
    requires ShotsXpts(season, shots[..k]).Fail?
    ensures ShotsXpts(season, shots) == ShotsXpts(season, shots[..k])
    decreases |shots| - k
  {
    if k < |shots| {
      assert shots[..|shots| - 1][..k] == shots[..k];
      ShotsXptsFailPersists(season, shots[..|shots| - 1], k);
    } else {
      assert shots[..k] == shots;
    }
  }

  /** The expected points of `count` tries worth one point each, or of
      one try worth `count` points, made with probability `p`. */
  function Expected(count: nat, p: real): (r: real)
    ensures 0.0 <= p ==> 0.0 <= r
    ensures count == 0 ==> r == 0.0
  {
    count as real * p
  }

  /** More tries at a non-negative probability never expect fewer points. */
  lemma ExpectedMonotone(c1: nat, c2: nat, p: real)
    requires c1 <= c2 && 0.0 <= p
    ensures Expected(c1, p) <= Expected(c2, p)
  {
    assert Expected(c2, p) - Expected(c1, p) == (c2 - c1) as real * p;
  }

  /** Each shot worth 2 or 3 points adds at most 3 * 0.95 expected
      points. */
  lemma {:induction false} ShotsXptsAtMost(season: seq<Shot>, shots: seq<Shot>)
    requires forall i :: 0 <= i < |shots| ==>
      PointValue(shots[i].shotType).Ok? && PointValue(shots[i].shotType).value <= 3
    ensures ShotsXpts(season, shots).Ok?
    ensures ShotsXpts(season, shots).value <= 2.85 * |shots| as real
    decreases |shots|
  {
    if shots != [] {
      var init := shots[..|shots| - 1];
      ShotsXptsAtMost(season, init);
      var last := shots[|shots| - 1];
      ShotValueAtMost(season, last);
    }
  }

  /** A shot worth at most 3 points is worth at most 2.85 expected points. */
  lemma ShotValueAtMost(season: seq<Shot>, shot: Shot)
    requires PointValue(shot.shotType).Ok? && PointValue(shot.shotType).value <= 3
    ensures ShotValue(season, shot).Ok? && ShotValue(season, shot).value <= 2.85
  {
    var fg := GetFg(season, shot.actionType, shot.zoneBasic, shot.zoneArea);
    ExpectedMonotone(PointValue(shot.shotType).value, 3, fg);
  }

  /** `game_boxscore.loc[pid]`: the first box-score row of the player. */
  function LookupBox(box: seq<BoxLine>, pid: int): (r: Option<BoxLine>)
    ensures r.Some? <==> exists i :: 0 <= i < |box| && box[i].playerId == pid
    ensures r.Some? ==> r.value in box && r.value.playerId == pid
  {
    if box == [] then None
    else if box[0].playerId == pid then Some(box[0])
    else LookupBox(box[1..], pid)
  }

  datatype Option<T> = None | Some(value: T)

  /** The expected points of player `pid` before rounding. The player's
      season shots are taken from `df` and the player's shots from the
      game chart `game`. The shot sum is computed first, then the box-score
      row and then the free-throw percentage are looked up; the first
      lookup that fails is the error. */
  function PlayerXptsRaw(pid: int, df: seq<Shot>, game: seq<Shot>, box: seq<BoxLine>, ftPct: map<int, real>): (r: Result<real>)
    ensures r.Ok? <==>
      ShotsXpts(ForPlayer(df, pid), ForPlayer(game, pid)).Ok? && LookupBox(box, pid).Some? && pid in ftPct
  {
    match ShotsXpts(ForPlayer(df, pid), ForPlayer(game, pid))
    case Fail(e) => Fail(e)
    case Ok(shotSum) =>
      match LookupBox(box, pid)
      case None => Fail(MissingBoxScore(pid))
      case Some(line) =>
        if pid !in ftPct then Fail(MissingFtPct(pid))
        else Ok(shotSum + Expected(line.fta, ftPct[pid]))
  }

  /** `get_player_xpts(player_id, game_shotchart)`: the raw figure rounded
      to one decimal. */
  function PlayerXpts(pid: int, df: seq<Shot>, game: seq<Shot>, box: seq<BoxLine>, ftPct: map<int, real>): (r: Result<real>)
    ensures r.Ok? <==> PlayerXptsRaw(pid, df, game, box, ftPct).Ok?
    ensures r.Ok? ==> -0.05 < r.value - PlayerXptsRaw(pid, df, game, box, ftPct).value <= 0.05
  {
    match PlayerXptsRaw(pid, df, game, box, ftPct)
    case Fail(e) => Fail(e)
    case Ok(x) => Ok(Round1(x))
  }

  /** The loop of `get_player_xpts`: the accumulator starts at 0 and each
      of the player's game shots adds its point value times `get_fg`
      against the season chart. A malformed shot-type label stops the loop
      with an error. */
  method SumShotXpts(season: seq<Shot>, shots: seq<Shot>) returns (r: Result<real>)
    ensures r == ShotsXpts(season, shots)
  {
    var xpts := 0.0;
    var i := 0;
    while i < |shots|
      invariant 0 <= i <= |shots|
      invariant ShotsXpts(season, shots[..i]) == Ok(xpts)
    {
      var shot := shots[i];
      var fg := GetFg(season, shot.actionType, shot.zoneBasic, shot.zoneArea);
      var pv := PointValue(shot.shotType);
      ShotsXptsStep(season, shots, i);
      if pv.Fail? {
        ShotsXptsFailPersists(season, shots, i + 1);
        return Fail(pv.error);
      }
      xpts := xpts + Expected(pv.value, fg);
      i := i + 1;
    }
    assert shots[..i] == shots;
    r := Ok(xpts);
  }

  /** `get_player_xpts(player_id, game_shotchart)`: select the player's
      season and game shots, sum the shots, add free-throw attempts times
      the season free-throw percentage and round to one decimal. */
  method GetPlayerXpts(pid: int, df: seq<Shot>, game: seq<Shot>, box: seq<BoxLine>, ftPct: map<int, real>)
    returns (r: Result<real>)
    ensures r == PlayerXpts(pid, df, game, box, ftPct)
  {
    var season := ForPlayer(df, pid);
    var mine := ForPlayer(game, pid);
    var sum := SumShotXpts(season, mine);
    if sum.Fail? {
      return Fail(sum.error);
    }
    var xpts := sum.value;
    var line := LookupBox(box, pid);
    if line.None? {
      return Fail(MissingBoxScore(pid));
    }
    if pid !in ftPct {
      return Fail(MissingFtPct(pid));
    }
    xpts := xpts + Expected(line.value.fta, ftPct[pid]);
    r := Ok(Round1(xpts));
  }

  /** A successful raw figure is the shot sum plus the free-throw term. */
  lemma PlayerXptsRawValue(pid: int, df: seq<Shot>, game: seq<Shot>, box: seq<BoxLine>, ftPct: map<int, real>)
    requires PlayerXptsRaw(pid, df, game, box, ftPct).Ok?
    ensures PlayerXptsRaw(pid, df, game, box, ftPct).value
         == ShotsXpts(ForPlayer(df, pid), ForPlayer(game, pid)).value + Expected(LookupBox(box, pid).value.fta, ftPct[pid])
  {
  }

  /** No game shots and no free throws give exactly 0, but only when the
      player has a box-score row and a free-throw percentage: a missing
      percentage is an error, not 0. */
  lemma PlayerXptsNothingAttempted(pid: int, df: seq<Shot>, game: seq<Shot>, box: seq<BoxLine>, ftPct: map<int, real>)
    requires ForPlayer(game, pid) == []
    requires LookupBox(box, pid).Some? && LookupBox(box, pid).value.fta == 0
    ensures pid in ftPct ==> PlayerXpts(pid, df, game, box, ftPct) == Ok(0.0)
    ensures pid !in ftPct ==> PlayerXpts(pid, df, game, box, ftPct) == Fail(MissingFtPct(pid))
  {
    assert ShotsXpts(ForPlayer(df, pid), []) == Ok(0.0);
    assert (0.0 * 10.0 + 0.5).Floor == 0;
  }

  /** The raw figure is never below the free-throw term, which is never
      negative when the percentage is not; when every game shot is worth at
      most 3 points it is at most 3 * 0.95 per shot plus that term. */
  lemma PlayerXptsRawBounds(pid: int, df: seq<Shot>, game: seq<Shot>, box: seq<BoxLine>, ftPct: map<int, real>)
    requires PlayerXptsRaw(pid, df, game, box, ftPct).Ok?
    requires ftPct[pid] >= 0.0
    ensures var mine := ForPlayer(game, pid);
      var x := PlayerXptsRaw(pid, df, game, box, ftPct).value;
      var ft := Expected(LookupBox(box, pid).value.fta, ftPct[pid]);
      && 0.0 <= ft <= x
      && ((forall i :: 0 <= i < |mine| ==> PointValue(mine[i].shotType).value <= 3)
          ==> x <= 2.85 * |mine| as real + ft)
  {
    PlayerXptsRawValue(pid, df, game, box, ftPct);
    var mine := ForPlayer(game, pid);
    if forall i :: 0 <= i < |mine| ==> PointValue(mine[i].shotType).value <= 3 {
      ShotsXptsAtMost(ForPlayer(df, pid), mine);
    }
  }

  /** With the shot estimates held fixed, more free-throw attempts never
      lower the figure, raw or rounded. */
  lemma PlayerXptsMonotoneInFta(pid: int, df: seq<Shot>, game: seq<Shot>, box1: seq<BoxLine>, box2: seq<BoxLine>, ftPct: map<int, real>)
    requires LookupBox(box1, pid).Some? && LookupBox(box2, pid).Some?
    requires LookupBox(box1, pid).value.fta <= LookupBox(box2, pid).value.fta
    requires pid in ftPct ==> ftPct[pid] >= 0.0
    ensures PlayerXptsRaw(pid, df, game, box1, ftPct).Ok? == PlayerXptsRaw(pid, df, game, box2, ftPct).Ok?
    ensures PlayerXptsRaw(pid, df, game, box1, ftPct).Ok? ==>
      && PlayerXptsRaw(pid, df, game, box1, ftPct).value <= PlayerXptsRaw(pid, df, game, box2, ftPct).value
      && PlayerXpts(pid, df, game, box1, ftPct).value <= PlayerXpts(pid, df, game, box2, ftPct).value
  {
    var r1 := PlayerXptsRaw(pid, df, game, box1, ftPct);
    var r2 := PlayerXptsRaw(pid, df, game, box2, ftPct);
    if r1.Ok? {
      PlayerXptsRawValue(pid, df, game, box1, ftPct);
      PlayerXptsRawValue(pid, df, game, box2, ftPct);
      ExpectedMonotone(LookupBox(box1, pid).value.fta, LookupBox(box2, pid).value.fta, ftPct[pid]);
      Round1Monotone(r1.value, r2.value);
    }
  }

  /** A shot of another player, in the season chart or in the game chart,
      changes nothing. */
  lemma OtherPlayersIgnored(pid: int, x: Shot,
                            df1: seq<Shot>, df2: seq<Shot>, game1: seq<Shot>, game2: seq<Shot>,
                            box: seq<BoxLine>, ftPct: map<int, real>)
    requires x.playerId != pid
    ensures PlayerXptsRaw(pid, df1 + [x] + df2, game1 + game2, box, ftPct)
         == PlayerXptsRaw(pid, df1 + df2, game1 + game2, box, ftPct)
    ensures PlayerXptsRaw(pid, df1 + df2, game1 + [x] + game2, box, ftPct)
         == PlayerXptsRaw(pid, df1 + df2, game1 + game2, box, ftPct)
  {
    ForPlayerSkipsOthers(df1, x, df2, pid);
    ForPlayerSkipsOthers(game1, x, game2, pid);
  }

  /** When the player has a box-score row, only a missing free-throw
      percentage or a malformed shot label can make the figure fail. */
  lemma PlayerXptsErrors(pid: int, df: seq<Shot>, game: seq<Shot>, box: seq<BoxLine>, ftPct: map<int, real>)
    requires LookupBox(box, pid).Some?
    ensures PlayerXpts(pid, df, game, box, ftPct).Fail? ==>
      PlayerXpts(pid, df, game, box, ftPct).error.MissingFtPct?
      || PlayerXpts(pid, df, game, box, ftPct).error.BadShotType?
  {
    PointValueErrors(ForPlayer(df, pid), ForPlayer(game, pid));
  }

  lemma {:induction false} PointValueErrors(season: seq<Shot>, shots: seq<Shot>)
    ensures ShotsXpts(season, shots).Fail? ==> ShotsXpts(season, shots).error.BadShotType?
    decreases |shots|
  {
    if shots != [] {
      PointValueErrors(season, shots[..|shots| - 1]);
    }
  }
}
