/** The shot-probability estimator `get_fg`: the chance that a shot of a
    given bucket (action type, basic zone, zone area) is made, estimated
    from the shooter's season shot chart. Ratios of counts are exact
    rationals, so they are modelled with `real`. */
module Estimator {
  import opened Shots

  function Min(x: real, y: real): real
  {
    if x <= y then x else y
  }

  /** The coarse bucket: only the basic zone has to match. */
  predicate InCoarse(s: Shot, zoneBasic: string)
  {
    s.zoneBasic == zoneBasic
  }

  /** The exact bucket: basic zone, zone area and action type all match. */
  predicate InExact(s: Shot, actionType: string, zoneBasic: string, zoneArea: string)
  {
    InCoarse(s, zoneBasic) && s.zoneArea == zoneArea && s.actionType == actionType
  }

  function CoarseMask(zoneBasic: string): Shot -> bool
  {
    (s: Shot) => InCoarse(s, zoneBasic)
  }

  function ExactMask(actionType: string, zoneBasic: string, zoneArea: string): Shot -> bool
  {
    (s: Shot) => InExact(s, actionType, zoneBasic, zoneArea)
  }

  /** The mask `SHOT_MADE_FLAG == 1`. */
  function MadeMask(): Shot -> bool
  {
    (s: Shot) => s.made
  }

  /** The numerator mask of the sparse branch, row by row. It is the
      coarse-zone mask of the whole season frame AND the made-flag mask of
      the exact bucket `shots_df`. Pandas aligns the two on the row index,
      and a row outside `shots_df` reads False, so a row passes only when
      it is in the exact bucket and made. */
  function AlignedNumeratorMask(actionType: string, zoneBasic: string, zoneArea: string): Shot -> bool
  {
    (s: Shot) => InCoarse(s, zoneBasic) && (InExact(s, actionType, zoneBasic, zoneArea) && s.made)
  }

  function ExactBucket(season: seq<Shot>, actionType: string, zoneBasic: string, zoneArea: string): seq<Shot>
  {
    Filter(season, ExactMask(actionType, zoneBasic, zoneArea))
  }

  function CoarseBucket(season: seq<Shot>, zoneBasic: string): seq<Shot>
  {
    Filter(season, CoarseMask(zoneBasic))
  }

  function Made(shots: seq<Shot>): seq<Shot>
  {
    Filter(shots, MadeMask())
  }

  /** `get_fg(player_season_df, shot_type, shot_zone_basic, shot_area)`.
      With more than five attempts in the exact bucket: the bucket's make
      rate plus a volume bonus of n/150 capped at 0.25. Otherwise, if the
      coarse bucket is empty, 0; else the aligned numerator count over the
      coarse attempts plus n/250 capped at 0.25. Every branch is capped
      at 0.95. */
  function GetFg(season: seq<Shot>, actionType: string, zoneBasic: string, zoneArea: string): (p: real)
    ensures 0.0 <= p <= 0.95
  {
    var shots := ExactBucket(season, actionType, zoneBasic, zoneArea);
    var vol := |shots|;
    if vol > 5 then
      Min(|Made(shots)| as real / vol as real + Min(vol as real / 150.0, 0.25), 0.95)
    else
      var coarse := |CoarseBucket(season, zoneBasic)|;
      if coarse == 0 then 0.0
      else
        var made := |Filter(season, AlignedNumeratorMask(actionType, zoneBasic, zoneArea))|;
        Min(made as real / coarse as real + Min(vol as real / 250.0, 0.25), 0.95)
  }

  /** The estimate as a function of three counts: `n` attempts and `m`
      makes in the exact bucket, `coarse` attempts in the coarse bucket. */
  function FgFromCounts(n: nat, m: nat, coarse: nat): real
  {
    if n > 5 then Min(m as real / n as real + Min(n as real / 150.0, 0.25), 0.95)
    else if coarse == 0 then 0.0
    else Min(m as real / coarse as real + Min(n as real / 250.0, 0.25), 0.95)
  }

  /** The exact bucket lies inside the coarse bucket, and its makes inside
      its attempts. */
  lemma BucketsNest(season: seq<Shot>, actionType: string, zoneBasic: string, zoneArea: string)
    ensures var exact := ExactBucket(season, actionType, zoneBasic, zoneArea);
      |Made(exact)| <= |exact| <= |CoarseBucket(season, zoneBasic)|
  {
    FilterWeaker(season, ExactMask(actionType, zoneBasic, zoneArea), CoarseMask(zoneBasic));
  }

  /** The numerator of the sparse branch counts the made shots of the
      EXACT bucket, not those of the coarse bucket its denominator counts. */
  lemma NumeratorIsExactMakes(season: seq<Shot>, actionType: string, zoneBasic: string, zoneArea: string)
    ensures |Filter(season, AlignedNumeratorMask(actionType, zoneBasic, zoneArea))|
         == |Made(ExactBucket(season, actionType, zoneBasic, zoneArea))|
  {
    FilterFilter(season, ExactMask(actionType, zoneBasic, zoneArea), MadeMask(),
                 AlignedNumeratorMask(actionType, zoneBasic, zoneArea));
  }

  /** `get_fg` in terms of the bucket counts: attempts and makes of the
      exact bucket and attempts of the coarse bucket, which always satisfy
      makes <= attempts <= coarse attempts. */
  lemma GetFgByCounts(season: seq<Shot>, actionType: string, zoneBasic: string, zoneArea: string)
    ensures var exact := ExactBucket(season, actionType, zoneBasic, zoneArea);
      var coarse := CoarseBucket(season, zoneBasic);
      && |Made(exact)| <= |exact| <= |coarse|
      && GetFg(season, actionType, zoneBasic, zoneArea) == FgFromCounts(|exact|, |Made(exact)|, |coarse|)
  {
    BucketsNest(season, actionType, zoneBasic, zoneArea);
    NumeratorIsExactMakes(season, actionType, zoneBasic, zoneArea);
  }

  /** With more than five exact attempts, the make rate plus the n/150
      bonus (at most 0.25), capped at 0.95. */
  lemma GetFgDense(season: seq<Shot>, actionType: string, zoneBasic: string, zoneArea: string)
    requires |ExactBucket(season, actionType, zoneBasic, zoneArea)| > 5
    ensures var exact := ExactBucket(season, actionType, zoneBasic, zoneArea);
      var n := |exact| as real;
      GetFg(season, actionType, zoneBasic, zoneArea)
        == Min(|Made(exact)| as real / n + Min(n / 150.0, 0.25), 0.95)
  {
  }

  /** With at most five exact attempts and no shot at all in the basic
      zone, the estimate is exactly 0. */
  lemma GetFgSparseEmpty(season: seq<Shot>, actionType: string, zoneBasic: string, zoneArea: string)
    requires |ExactBucket(season, actionType, zoneBasic, zoneArea)| <= 5
    requires forall s :: s in season ==> s.zoneBasic != zoneBasic
    ensures GetFg(season, actionType, zoneBasic, zoneArea) == 0.0
  {
    FilterSame(season, CoarseMask(zoneBasic), (s: Shot) => false);
    EmptyFilter(season);
  }

  lemma {:induction false} EmptyFilter(season: seq<Shot>)
    ensures Filter(season, (s: Shot) => false) == []
  {
    if season != [] {
      EmptyFilter(season[1..]);
    }
  }

  /** With at most five exact attempts and a non-empty coarse bucket: the
      exact bucket's makes over the coarse bucket's attempts, plus the
      n/250 bonus, capped at 0.95. */
  lemma GetFgSparse(season: seq<Shot>, actionType: string, zoneBasic: string, zoneArea: string)
    requires |ExactBucket(season, actionType, zoneBasic, zoneArea)| <= 5
    requires |CoarseBucket(season, zoneBasic)| > 0
    ensures var exact := ExactBucket(season, actionType, zoneBasic, zoneArea);
      var n := |exact| as real;
      GetFg(season, actionType, zoneBasic, zoneArea)
        == Min(|Made(exact)| as real / |CoarseBucket(season, zoneBasic)| as real + Min(n / 250.0, 0.25), 0.95)
  {
    NumeratorIsExactMakes(season, actionType, zoneBasic, zoneArea);
  }

  /** The reading in which the sparse branch's numerator counts the made
      shots of the coarse bucket, so that numerator and denominator come
      from the same rows. It is not what the estimator computes; it is
      kept to compare against. */
  function GetFgCoarse(season: seq<Shot>, actionType: string, zoneBasic: string, zoneArea: string): (p: real)
    ensures 0.0 <= p <= 0.95
  {
    var shots := ExactBucket(season, actionType, zoneBasic, zoneArea);
    var vol := |shots|;
    if vol > 5 then
      Min(|Made(shots)| as real / vol as real + Min(vol as real / 150.0, 0.25), 0.95)
    else
      var coarse := CoarseBucket(season, zoneBasic);
      if |coarse| == 0 then 0.0
      else Min(|Made(coarse)| as real / |coarse| as real + Min(vol as real / 250.0, 0.25), 0.95)
  }

  function ExactMadeMask(actionType: string, zoneBasic: string, zoneArea: string): Shot -> bool
  {
    (s: Shot) => InExact(s, actionType, zoneBasic, zoneArea) && s.made
  }

  function CoarseMadeMask(zoneBasic: string): Shot -> bool
  {
    (s: Shot) => InCoarse(s, zoneBasic) && s.made
  }

  /** The exact bucket's makes are among the coarse bucket's makes. */
  lemma MadeNest(season: seq<Shot>, actionType: string, zoneBasic: string, zoneArea: string)
    ensures |Made(ExactBucket(season, actionType, zoneBasic, zoneArea))| <= |Made(CoarseBucket(season, zoneBasic))|
  {
    FilterFilter(season, ExactMask(actionType, zoneBasic, zoneArea), MadeMask(), ExactMadeMask(actionType, zoneBasic, zoneArea));
    FilterFilter(season, CoarseMask(zoneBasic), MadeMask(), CoarseMadeMask(zoneBasic));
    FilterWeaker(season, ExactMadeMask(actionType, zoneBasic, zoneArea), CoarseMadeMask(zoneBasic));
  }

  /** The estimator never exceeds the coarse-numerator reading, and the two
      agree whenever the coarse bucket has no makes outside the exact one. */
  lemma GetFgAtMostCoarse(season: seq<Shot>, actionType: string, zoneBasic: string, zoneArea: string)
    ensures GetFg(season, actionType, zoneBasic, zoneArea) <= GetFgCoarse(season, actionType, zoneBasic, zoneArea)
    ensures |Made(CoarseBucket(season, zoneBasic))| == |Made(ExactBucket(season, actionType, zoneBasic, zoneArea))|
      ==> GetFg(season, actionType, zoneBasic, zoneArea) == GetFgCoarse(season, actionType, zoneBasic, zoneArea)
  {
    NumeratorIsExactMakes(season, actionType, zoneBasic, zoneArea);
    MadeNest(season, actionType, zoneBasic, zoneArea);
    var coarse := |CoarseBucket(season, zoneBasic)|;
    if coarse > 0 {
      var m := |Made(ExactBucket(season, actionType, zoneBasic, zoneArea))| as real;
      var mc := |Made(CoarseBucket(season, zoneBasic))| as real;
      assert m / coarse as real <= mc / coarse as real by {
        DivMonotone(m, mc, coarse as real);
      }
    }
  }

  lemma DivMonotone(a: real, b: real, d: real)
    requires a <= b && d > 0.0
    ensures a / d <= b / d
  {
    assert b / d - a / d == (b - a) / d;
  }

  /** Ten exact attempts with six makes: 0.6 plus the 10/150 bonus, which
      is 2/3; a 2-point shot from that bucket is worth 4/3 points. */
  lemma GetFgTenAttemptsSixMakes(season: seq<Shot>, actionType: string, zoneBasic: string, zoneArea: string)
    requires |ExactBucket(season, actionType, zoneBasic, zoneArea)| == 10
    requires |Made(ExactBucket(season, actionType, zoneBasic, zoneArea))| == 6
    ensures GetFg(season, actionType, zoneBasic, zoneArea) == 2.0 / 3.0
    ensures 2.0 * GetFg(season, actionType, zoneBasic, zoneArea) == 4.0 / 3.0
  {
  }

  /** A sparse bucket of three attempts and two makes inside a basic zone
      of twenty attempts and twelve makes: the estimator gives
      2/20 + 3/250, the coarse-numerator reading 12/20 + 3/250. */
  lemma GetFgSparseScenario(season: seq<Shot>, actionType: string, zoneBasic: string, zoneArea: string)
    requires |ExactBucket(season, actionType, zoneBasic, zoneArea)| == 3
    requires |Made(ExactBucket(season, actionType, zoneBasic, zoneArea))| == 2
    requires |CoarseBucket(season, zoneBasic)| == 20
    requires |Made(CoarseBucket(season, zoneBasic))| == 12
    ensures GetFg(season, actionType, zoneBasic, zoneArea) == 0.112
    ensures GetFgCoarse(season, actionType, zoneBasic, zoneArea) == 0.612
  {
    GetFgSparse(season, actionType, zoneBasic, zoneArea);
  }
}
