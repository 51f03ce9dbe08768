/** Shot attempts as they appear in the season shot chart and in a game's
    shot chart, and the row filter that every data-frame mask of the
    estimator and the aggregator reduces to. */
module Shots {

  /** One recorded field-goal attempt (one row of a shot chart).
      `shotType` is the raw label, such as "2PT Field Goal"; its point
      value is read off its first character by the aggregator. */
  datatype Shot = Shot(
    playerId: int,
    shotType: string,
    actionType: string,
    zoneBasic: string,
    zoneArea: string,
    made: bool)

  /** The rows of `s` that satisfy the mask `p`, in their original order:
      the data-frame selection `frame[mask]`. */
  function Filter<T>(s: seq<T>, p: T -> bool): (r: seq<T>)
    ensures |r| <= |s|
  {
    if s == [] then []
    else (if p(s[0]) then [s[0]] else []) + Filter(s[1..], p)
  }

  /** Selecting from a concatenation selects from each part. */
  lemma {:induction false} FilterConcat<T>(a: seq<T>, b: seq<T>, p: T -> bool)
    ensures Filter(a + b, p) == Filter(a, p) + Filter(b, p)
  {
    if a == [] {
      assert a + b == b;
    } else {
      var head := if p(a[0]) then [a[0]] else [];
      assert (a + b)[0] == a[0];
      assert (a + b)[1..] == a[1..] + b;
      FilterConcat(a[1..], b, p);
      assert Filter(a + b, p) == head + Filter(a[1..] + b, p);
      assert Filter(a, p) == head + Filter(a[1..], p);
    }
  }

  /** A row the mask rejects does not change the selection. */
  lemma FilterSkip<T>(a: seq<T>, x: T, b: seq<T>, p: T -> bool)
    requires !p(x)
    ensures Filter(a + [x] + b, p) == Filter(a + b, p)
  {
    FilterConcat(a + [x], b, p);
    FilterConcat(a, [x], p);
    FilterConcat(a, b, p);
    assert Filter([x], p) == [];
  }

  /** Two masks that agree on every row select the same rows. */
  lemma {:induction false} FilterSame<T>(s: seq<T>, p: T -> bool, q: T -> bool)
    requires forall x :: x in s ==> p(x) == q(x)
    ensures Filter(s, p) == Filter(s, q)
  {
    if s != [] {
      FilterSame(s[1..], p, q);
    }
  }

  /** A mask implied by another selects at least as many rows. */
  lemma {:induction false} FilterWeaker<T>(s: seq<T>, p: T -> bool, q: T -> bool)
    requires forall x :: x in s && p(x) ==> q(x)
    ensures |Filter(s, p)| <= |Filter(s, q)|
  {
    if s != [] {
      FilterWeaker(s[1..], p, q);
    }
  }

  /** Selecting with `p` and then with `q` is selecting with their
      conjunction `r`. */
  lemma {:induction false} FilterFilter<T>(s: seq<T>, p: T -> bool, q: T -> bool, r: T -> bool)
    requires forall x :: x in s ==> r(x) == (p(x) && q(x))
    ensures Filter(Filter(s, p), q) == Filter(s, r)
  {
    if s != [] {
      FilterFilter(s[1..], p, q, r);
      if p(s[0]) {
        assert Filter(s, p) == [s[0]] + Filter(s[1..], p);
        assert Filter(s, p)[1..] == Filter(s[1..], p);
      } else {
        assert Filter(s, p) == Filter(s[1..], p);
      }
    }
  }

  /** The mask `frame['PLAYER_ID'] == pid`. */
  function PlayerMask(pid: int): Shot -> bool
  {
    (s: Shot) => s.playerId == pid
  }

  /** The rows of a shot chart that belong to player `pid`. */
  function ForPlayer(shots: seq<Shot>, pid: int): (r: seq<Shot>)
    ensures |r| <= |shots|
  {
    Filter(shots, PlayerMask(pid))
  }

  /** A row is selected exactly when it is in the frame and passes the mask. */
  lemma {:induction false} FilterMembers<T>(s: seq<T>, p: T -> bool)
    ensures forall x :: x in Filter(s, p) <==> x in s && p(x)
  {
    if s != [] {
      FilterMembers(s[1..], p);
      assert s == [s[0]] + s[1..];
    }
  }

  /** A player's selection holds exactly that player's rows of the frame. */
  lemma ForPlayerMembers(shots: seq<Shot>, pid: int)
    ensures forall x :: x in ForPlayer(shots, pid) <==> x in shots && x.playerId == pid
  {
    FilterMembers(shots, PlayerMask(pid));
  }

  /** Rows of other players do not affect a player's selection. */
  lemma ForPlayerSkipsOthers(a: seq<Shot>, x: Shot, b: seq<Shot>, pid: int)
    requires x.playerId != pid
    ensures ForPlayer(a + [x] + b, pid) == ForPlayer(a + b, pid)
  {
    FilterSkip(a, x, b, PlayerMask(pid));
  }
}
