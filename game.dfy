/** The per-game render loop: one xPTS figure per box-score row, in the
    box score's order. A player with no field-goal and no free-throw
    attempts gets 0 without consulting the estimator. An error raised for
    any player aborts the whole list. */
module Game {
  import opened Shots
  import opened Aggregator

  /** The figure of one box-score row. */
  function PlayerEntry(df: seq<Shot>, game: seq<Shot>, box: seq<BoxLine>, ftPct: map<int, real>, line: BoxLine): (r: Result<real>)
    ensures line.fga + line.fta == 0 ==> r == Ok(0.0)
  {
    if line.fga + line.fta == 0 then Ok(0.0)
    else PlayerXpts(line.playerId, df, game, box, ftPct)
  }

  /** The entry function of one game: the figure of each box-score row. */
  function Entry(df: seq<Shot>, game: seq<Shot>, box: seq<BoxLine>, ftPct: map<int, real>): BoxLine -> Result<real>
  {
    (line: BoxLine) => PlayerEntry(df, game, box, ftPct, line)
  }

  /** The figures `f` gives the rows `rows`, in order; the first failing
      row's error is the result. */
  function Rows(f: BoxLine -> Result<real>, rows: seq<BoxLine>): (r: Result<seq<real>>)
    ensures r.Ok? <==> forall i :: 0 <= i < |rows| ==> f(rows[i]).Ok?
    decreases |rows|
  {
    if rows == [] then Ok([])
    else
      match Rows(f, rows[..|rows| - 1])
      case Fail(e) => Fail(e)
      case Ok(acc) =>
        match f(rows[|rows| - 1])
        case Fail(e) => Fail(e)
        case Ok(x) => Ok(acc + [x])
  }

  /** The list `xPTS_list` of a game's rows. */
  function RowsXpts(df: seq<Shot>, game: seq<Shot>, box: seq<BoxLine>, ftPct: map<int, real>, rows: seq<BoxLine>): (r: Result<seq<real>>)
    ensures r.Ok? <==> forall i :: 0 <= i < |rows| ==> PlayerEntry(df, game, box, ftPct, rows[i]).Ok?
  {
    Rows(Entry(df, game, box, ftPct), rows)
  }

  /** A successful list has one figure per row, and figure `i` is the
      entry of row `i`. */
  lemma {:induction false} RowsValues(f: BoxLine -> Result<real>, rows: seq<BoxLine>)
    requires Rows(f, rows).Ok?
    ensures var r := Rows(f, rows).value;
      |r| == |rows| && forall i :: 0 <= i < |rows| ==> f(rows[i]) == Ok(r[i])
    decreases |rows|
  {
    if rows != [] {
      var init := rows[..|rows| - 1];
      RowsValues(f, init);
      var acc := Rows(f, init).value;
      var x := f(rows[|rows| - 1]).value;
      assert Rows(f, rows).value == acc + [x];
      forall i | 0 <= i < |rows|
        ensures f(rows[i]) == Ok((acc + [x])[i])
      {
        if i < |init| {
          assert rows[i] == init[i];
        }
      }
    }
  }

  /** One more row appends its figure or fails with its error. */
  lemma RowsStep(f: BoxLine -> Result<real>, rows: seq<BoxLine>, i: nat)
    requires i < |rows|
    ensures Rows(f, rows[..i + 1]) ==
      match Rows(f, rows[..i])
      case Fail(e) => Fail(e)
      case Ok(acc) =>
        match f(rows[i])
        case Fail(e) => Fail(e)
        case Ok(x) => Ok(acc + [x])
  {
    assert rows[..i + 1][..i] == rows[..i];
    assert rows[..i + 1][i] == rows[i];
  }

  /** A failed prefix fails the whole list with the same error. */
  lemma {:induction false} RowsFailPersists(f: BoxLine -> Result<real>, rows: seq<BoxLine>, k: nat)
    requires k <= |rows|
    requires Rows(f, rows[..k]).Fail?
    ensures Rows(f, rows) == Rows(f, rows[..k])
    decreases |rows| - k
  {
    if k < |rows| {
      assert rows[..|rows| - 1][..k] == rows[..k];
      RowsFailPersists(f, rows[..|rows| - 1], k);
    } else {
      assert rows[..k] == rows;
    }
  }

  /** When all rows but the last succeed and the list fails, the last row
      is the one that fails. */
  lemma LastRowFails(f: BoxLine -> Result<real>, rows: seq<BoxLine>)
    requires rows != []
    requires Rows(f, rows).Fail?
    requires Rows(f, rows[..|rows| - 1]).Ok?
    ensures f(rows[|rows| - 1]).Fail?
  {
  }

  /** The first row whose figure fails: every row before it succeeds. */
  lemma {:induction false} FirstFailure(f: BoxLine -> Result<real>, rows: seq<BoxLine>) returns (k: nat)
    requires Rows(f, rows).Fail?
    ensures k < |rows|
    ensures Rows(f, rows[..k]).Ok?
    ensures f(rows[k]).Fail?
    decreases |rows|
  {
    var init := rows[..|rows| - 1];
    if Rows(f, init).Ok? {
      k := |rows| - 1;
      LastRowFails(f, rows);
    } else {
      k := FirstFailure(f, init);
      assert init[..k] == rows[..k];
      assert init[k] == rows[k];
    }
  }

  /** The loop over the box score that builds `xPTS_list`. */
  method GameXpts(df: seq<Shot>, game: seq<Shot>, box: seq<BoxLine>, ftPct: map<int, real>)
    returns (r: Result<seq<real>>)
    ensures r == RowsXpts(df, game, box, ftPct, box)
  {
    var list: seq<real> := [];
    var i := 0;
    while i < |box|
      invariant 0 <= i <= |box|
      invariant Rows(Entry(df, game, box, ftPct), box[..i]) == Ok(list)
    {
      var line := box[i];
      RowsStep(Entry(df, game, box, ftPct), box, i);
      if line.fga + line.fta == 0 {
        list := list + [0.0];
      } else {
        var x := GetPlayerXpts(line.playerId, df, game, box, ftPct);
        if x.Fail? {
          RowsFailPersists(Entry(df, game, box, ftPct), box, i + 1);
          return Fail(x.error);
        }
        list := list + [x.value];
      }
      i := i + 1;
    }
    assert box[..i] == box;
    r := Ok(list);
  }

  /** A row with no attempts is 0 whatever the season chart, the game
      chart and the free-throw table hold: the estimator and the lookups
      are not consulted. */
  lemma NoAttemptsIsZero(df1: seq<Shot>, game1: seq<Shot>, ftPct1: map<int, real>,
                         df2: seq<Shot>, game2: seq<Shot>, ftPct2: map<int, real>,
                         box: seq<BoxLine>, line: BoxLine)
    requires line.fga == 0 && line.fta == 0
    ensures PlayerEntry(df1, game1, box, ftPct1, line) == PlayerEntry(df2, game2, box, ftPct2, line) == Ok(0.0)
  {
  }

  /** The game's list fails exactly when some row with attempts fails, and
      then, because the row is looked up again by its id, that row's player
      is missing from the free-throw table or has a malformed shot label. */
  lemma {:induction false} GameXptsFailure(df: seq<Shot>, game: seq<Shot>, box: seq<BoxLine>, ftPct: map<int, real>)
    ensures RowsXpts(df, game, box, ftPct, box).Fail? <==>
      exists i :: 0 <= i < |box| && box[i].fga + box[i].fta > 0
        && PlayerXpts(box[i].playerId, df, game, box, ftPct).Fail?
    ensures RowsXpts(df, game, box, ftPct, box).Fail? ==>
      RowsXpts(df, game, box, ftPct, box).error.MissingFtPct?
      || RowsXpts(df, game, box, ftPct, box).error.BadShotType?
  {
    var r := RowsXpts(df, game, box, ftPct, box);
    if r.Fail? {
      var f := Entry(df, game, box, ftPct);
      var k := FirstFailure(f, box);
      RowsFailPersists(f, box, k + 1);
      RowsStep(f, box, k);
      var line := box[k];
      assert LookupBox(box, line.playerId).Some?;
      PlayerXptsErrors(line.playerId, df, game, box, ftPct);
    }
  }
}
