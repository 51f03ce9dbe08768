/** The names of the season archives that `load_nba_data` asks for: one
    name per (data type, season) pair, in the order of
    `itertools.product(data, seasons)`, with an infix for the playoffs and
    a prefix for the WNBA. */
module DatasetNames {

  /** `str(n)` for a natural number: its decimal digits, most significant
      first, with no leading zero. */
  function NatToStr(n: nat): (s: string)
    ensures |s| > 0 && forall i :: 0 <= i < |s| ==> '0' <= s[i] <= '9'
    ensures |s| > 1 ==> s[0] != '0'
  {
    if n < 10 then [DigitChar(n)]
    else NatToStr(n / 10) + [DigitChar(n % 10)]
  }

  function DigitChar(d: nat): (c: char)
    requires d < 10
    ensures '0' <= c <= '9' && c as int - '0' as int == d
  {
    (d + '0' as int) as char
  }

  /** The value of a string of decimal digits. */
  function DigitsValue(s: string): nat
    requires forall i :: 0 <= i < |s| ==> '0' <= s[i] <= '9'
  {
    if s == [] then 0
    else 10 * DigitsValue(s[..|s| - 1]) + (s[|s| - 1] as int - '0' as int)
  }

  /** Reading back the digits gives the number. */
  lemma {:induction false} NatToStrRoundTrip(n: nat)
    ensures DigitsValue(NatToStr(n)) == n
  {
    if n >= 10 {
      NatToStrRoundTrip(n / 10);
      var s := NatToStr(n);
      assert s[..|s| - 1] == NatToStr(n / 10);
    }
  }

  /** `str(i)` for any integer. */
  function IntToStr(i: int): (s: string)
    ensures |s| > 0 && (s[0] == '-' <==> i < 0)
  {
    if i < 0 then "-" + NatToStr(-i) else NatToStr(i)
  }

  /** Different seasons give different strings. */
  lemma IntToStrInjective(a: int, b: int)
    requires IntToStr(a) == IntToStr(b)
    ensures a == b
  {
    assert a < 0 <==> b < 0;
    if a < 0 {
      DropSign(NatToStr(-a));
      DropSign(NatToStr(-b));
      NatToStrRoundTrip(-a);
      NatToStrRoundTrip(-b);
    } else {
      NatToStrRoundTrip(a);
      NatToStrRoundTrip(b);
    }
  }

  lemma DropSign(digits: string)
    ensures ("-" + digits)[1..] == digits
  {
  }

  /** `"_".join(parts)`. */
  function Join(sep: string, parts: seq<string>): string
  {
    if |parts| == 0 then ""
    else if |parts| == 1 then parts[0]
    else parts[0] + sep + Join(sep, parts[1..])
  }

  /** `"_".join([d] + middle + [str(season)])`: one archive name. */
  function SeasonName(d: string, middle: seq<string>, season: int): string
  {
    Join("_", [d] + middle + [IntToStr(season)])
  }

  /** The names of data type `d` for every season, in order. */
  function SeasonNames(d: string, middle: seq<string>, seasons: seq<int>): (r: seq<string>)
    ensures |r| == |seasons|
  {
    if seasons == [] then []
    else [SeasonName(d, middle, seasons[0])] + SeasonNames(d, middle, seasons[1..])
  }

  /** The names over `product(data, seasons)`: all seasons of the first
      data type, then all seasons of the next. */
  function ProductNames(data: seq<string>, middle: seq<string>, seasons: seq<int>): seq<string>
  {
    if data == [] then []
    else SeasonNames(data[0], middle, seasons) + ProductNames(data[1..], middle, seasons)
  }

  /** ASCII `str.lower()` of one character. */
  function LowerChar(c: char): char
  {
    if 'A' <= c <= 'Z' then (c as int + 32) as char else c
  }

  /** ASCII `str.lower()`. */
  function Lower(s: string): (r: string)
    ensures |r| == |s| && forall i :: 0 <= i < |s| ==> r[i] == LowerChar(s[i])
  {
    seq(|s|, i requires 0 <= i < |s| => LowerChar(s[i]))
  }

  /** `league.lower() == 'wnba'`, written out character by character. */
  predicate IsWnba(league: string)
  {
    && |league| == 4
    && LowerChar(league[0]) == 'w' && LowerChar(league[1]) == 'n'
    && LowerChar(league[2]) == 'b' && LowerChar(league[3]) == 'a'
  }

  lemma IsWnbaIsLowerWnba(league: string)
    ensures IsWnba(league) <==> Lower(league) == "wnba"
  {
    if IsWnba(league) {
      assert Lower(league) == "wnba";
    }
    if Lower(league) == "wnba" {
      assert Lower(league)[0] == 'w' && Lower(league)[1] == 'n';
      assert Lower(league)[2] == 'b' && Lower(league)[3] == 'a';
    }
  }

  /** The tuple `need_data` built at the start of `load_nba_data`:
      regular-season names for 'rg', playoff names for 'po', both lists one
      after the other for any other season type, each name prefixed with
      `wnba_` when the league is the WNBA. */
  function NeededNames(data: seq<string>, seasons: seq<int>, seasonType: string, league: string): seq<string>
  {
    var needed :=
      if seasonType == "rg" then ProductNames(data, [], seasons)
      else if seasonType == "po" then ProductNames(data, ["po"], seasons)
      else ProductNames(data, [], seasons) + ProductNames(data, ["po"], seasons);
    if IsWnba(league) then Prefixed("wnba_", needed) else needed
  }

  /** `[pre + x for x in names]`. */
  function Prefixed(pre: string, names: seq<string>): (r: seq<string>)
    ensures |r| == |names|
    ensures forall k :: 0 <= k < |names| ==> r[k] == pre + names[k]
  {
    if names == [] then [] else [pre + names[0]] + Prefixed(pre, names[1..])
  }

  /** A regular-season name is `<data>_<season>`. */
  lemma SeasonNameRegular(d: string, season: int)
    ensures SeasonName(d, [], season) == d + "_" + IntToStr(season)
  {
    var s := IntToStr(season);
    var none: seq<string> := [];
    assert [d] + none + [s] == [d, s];
    assert [d, s][1..] == [s];
    assert SeasonName(d, [], season) == Join("_", [d, s]);
  }

  /** A playoff name is `<data>_po_<season>`. */
  lemma SeasonNamePlayoffs(d: string, season: int)
    ensures SeasonName(d, ["po"], season) == d + "_po_" + IntToStr(season)
  {
    var s := IntToStr(season);
    assert [d] + ["po"] + [s] == [d, "po", s];
    assert [d, "po", s][1..] == ["po", s];
    assert ["po", s][1..] == [s];
    assert Join("_", ["po", s]) == "po" + "_" + s;
    assert d + "_" + ("po" + "_" + s) == d + "_po_" + s;
  }

  lemma {:induction false} SeasonNamesAt(d: string, middle: seq<string>, seasons: seq<int>, j: nat)
    requires j < |seasons|
    ensures SeasonNames(d, middle, seasons)[j] == SeasonName(d, middle, seasons[j])
  {
    if j > 0 {
      SeasonNamesAt(d, middle, seasons[1..], j - 1);
    }
  }

  /** The place of pair `(i, j)` in `product(data, seasons)` when there
      are `n` seasons: `i` full runs of seasons, then `j` more. */
  function Pos(i: nat, n: nat, j: nat): (k: nat)
    ensures k >= j
  {
    if i == 0 then j else n + Pos(i - 1, n, j)
  }

  lemma {:induction false} PosIsProduct(i: nat, n: nat, j: nat)
    ensures Pos(i, n, j) == i * n + j
  {
    if i > 0 {
      PosIsProduct(i - 1, n, j);
      assert i * n == (i - 1) * n + n;
    }
  }

  /** One name per pair of `product(data, seasons)`. */
  lemma {:induction false} ProductNamesLength(data: seq<string>, middle: seq<string>, seasons: seq<int>)
    ensures |ProductNames(data, middle, seasons)| == Pos(|data|, |seasons|, 0)
  {
    if data != [] {
      ProductNamesLength(data[1..], middle, seasons);
    }
  }

  /** The product order: the name of data type `i` and season `j` sits at
      position `Pos(i, |seasons|, j)`, that is `i * |seasons| + j`. */
  lemma {:induction false} ProductNamesAt(data: seq<string>, middle: seq<string>, seasons: seq<int>, i: nat, j: nat)
    requires i < |data| && j < |seasons|
    ensures Pos(i, |seasons|, j) < |ProductNames(data, middle, seasons)|
    ensures ProductNames(data, middle, seasons)[Pos(i, |seasons|, j)] == SeasonName(data[i], middle, seasons[j])
  {
    var n := |seasons|;
    var head := SeasonNames(data[0], middle, seasons);
    var tail := ProductNames(data[1..], middle, seasons);
    assert ProductNames(data, middle, seasons) == head + tail;
    if i == 0 {
      SeasonNamesAt(data[0], middle, seasons, j);
      assert (head + tail)[j] == head[j];
    } else {
      var k := Pos(i - 1, n, j);
      ProductNamesAt(data[1..], middle, seasons, i - 1, j);
      assert data[1..][i - 1] == data[i];
      assert (head + tail)[n + k] == tail[k];
    }
  }

  /** The number of names `need_data` holds for each season type. */
  lemma NeededNamesLength(data: seq<string>, seasons: seq<int>, seasonType: string, league: string)
    ensures |NeededNames(data, seasons, seasonType, league)|
         == if seasonType == "rg" || seasonType == "po" then |data| * |seasons| else 2 * (|data| * |seasons|)
  {
    ProductNamesLength(data, [], seasons);
    ProductNamesLength(data, ["po"], seasons);
    PosIsProduct(|data|, |seasons|, 0);
  }

  /** For 'rg', the name of data type `i` and season `j` sits in
      `need_data` at `Pos(i, |seasons|, j)`, that is `i * |seasons| + j`,
      prefixed with `wnba_` for the WNBA. */
  lemma NeededNamesRegular(data: seq<string>, seasons: seq<int>, league: string, i: nat, j: nat)
    requires i < |data| && j < |seasons|
    ensures var r := NeededNames(data, seasons, "rg", league);
      var name := data[i] + "_" + IntToStr(seasons[j]);
      var k := Pos(i, |seasons|, j);
      k < |r| && r[k] == if IsWnba(league) then "wnba_" + name else name
  {
    ProductNamesAt(data, [], seasons, i, j);
    SeasonNameRegular(data[i], seasons[j]);
  }

  /** For 'po', the same place holds the playoff name. */
  lemma NeededNamesPlayoffs(data: seq<string>, seasons: seq<int>, league: string, i: nat, j: nat)
    requires i < |data| && j < |seasons|
    ensures var r := NeededNames(data, seasons, "po", league);
      var name := data[i] + "_po_" + IntToStr(seasons[j]);
      var k := Pos(i, |seasons|, j);
      k < |r| && r[k] == if IsWnba(league) then "wnba_" + name else name
  {
    ProductNamesAt(data, ["po"], seasons, i, j);
    SeasonNamePlayoffs(data[i], seasons[j]);
  }

  /** For any other season type, the regular-season name holds the place
      `Pos(i, |seasons|, j)`, as for 'rg'. */
  lemma NeededNamesBothRegular(data: seq<string>, seasons: seq<int>, seasonType: string, league: string, i: nat, j: nat)
    requires seasonType != "rg" && seasonType != "po"
    requires i < |data| && j < |seasons|
    ensures var r := NeededNames(data, seasons, seasonType, league);
      var name := data[i] + "_" + IntToStr(seasons[j]);
      var k := Pos(i, |seasons|, j);
      k < |r| && r[k] == if IsWnba(league) then "wnba_" + name else name
  {
    var a := NeededNames(data, seasons, "rg", league);
    var b := NeededNames(data, seasons, "po", league);
    NeededNamesOtherSplit(data, seasons, seasonType, league);
    NeededNamesRegular(data, seasons, league, i, j);
    assert (a + b)[Pos(i, |seasons|, j)] == a[Pos(i, |seasons|, j)];
  }

  /** For any other season type, the playoff name of the pair sits
      `Pos(|data|, |seasons|, 0)`, that is `|data| * |seasons|`, places
      after its regular-season name. */
  lemma NeededNamesBothPlayoffs(data: seq<string>, seasons: seq<int>, seasonType: string, league: string, i: nat, j: nat)
    requires seasonType != "rg" && seasonType != "po"
    requires i < |data| && j < |seasons|
    ensures var r := NeededNames(data, seasons, seasonType, league);
      var name := data[i] + "_po_" + IntToStr(seasons[j]);
      var k := Pos(|data|, |seasons|, 0) + Pos(i, |seasons|, j);
      k < |r| && r[k] == if IsWnba(league) then "wnba_" + name else name
  {
    var a := NeededNames(data, seasons, "rg", league);
    var b := NeededNames(data, seasons, "po", league);
    var k := Pos(i, |seasons|, j);
    NeededNamesOtherSplit(data, seasons, seasonType, league);
    NeededNamesPlayoffs(data, seasons, league, i, j);
    NeededNamesRegularLength(data, seasons, league);
    ConcatAt(a, b, Pos(|data|, |seasons|, 0), k);
  }

  /** The 'rg' list has one name per (data type, season) pair. */
  lemma NeededNamesRegularLength(data: seq<string>, seasons: seq<int>, league: string)
    ensures |NeededNames(data, seasons, "rg", league)| == Pos(|data|, |seasons|, 0)
  {
    ProductNamesLength(data, [], seasons);
  }

  /** Place `offset + k` of `a + b`, where `offset` is the length of `a`. */
  lemma ConcatAt(a: seq<string>, b: seq<string>, offset: nat, k: nat)
    requires |a| == offset && k < |b|
    ensures offset + k < |a + b| && (a + b)[offset + k] == b[k]
  {
  }

  /** For any other season type, `need_data` is the 'rg' list followed by
      the 'po' list: the league prefix distributes over the concatenation. */
  lemma NeededNamesOtherSplit(data: seq<string>, seasons: seq<int>, seasonType: string, league: string)
    requires seasonType != "rg" && seasonType != "po"
    ensures NeededNames(data, seasons, seasonType, league)
         == NeededNames(data, seasons, "rg", league) + NeededNames(data, seasons, "po", league)
  {
    if IsWnba(league) {
      PrefixedConcat("wnba_", ProductNames(data, [], seasons), ProductNames(data, ["po"], seasons));
    }
  }

  /** Prefixing a concatenation prefixes each part. */
  lemma PrefixedConcat(pre: string, a: seq<string>, b: seq<string>)
    ensures Prefixed(pre, a + b) == Prefixed(pre, a) + Prefixed(pre, b)
  {
    var l := Prefixed(pre, a + b);
    var m := Prefixed(pre, a) + Prefixed(pre, b);
    forall k | 0 <= k < |l|
      ensures l[k] == m[k]
    {
      if k < |a| {
        assert (a + b)[k] == a[k];
        assert m[k] == Prefixed(pre, a)[k];
      } else {
        assert (a + b)[k] == b[k - |a|];
        assert m[k] == Prefixed(pre, b)[k - |a|];
      }
    }
  }

  lemma IsWnbaIgnoresCase()
    ensures IsWnba("wnba") && IsWnba("WNBA") && IsWnba("WNba")
    ensures !IsWnba("nba") && !IsWnba("wnba ")
  {
  }
}
