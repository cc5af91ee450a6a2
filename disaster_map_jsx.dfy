/** The map component backed by the API: the data utilities (period filter,
    metric totals, ward ranks, status bands, crime reasons), the green-yellow-red
    gradient, the name-keyed score map built from the per-ward totals, and the
    leaderboard. */
module DisasterMapJsx {
  import opened Wrappers
  import opened Seqs
  import opened Sorting
  import opened Dicts
  import opened Records
  import opened Colors
  import opened ScoreMaps
  import opened Wards

  // ---- period filter and totals ----

  predicate InPeriod(r: Row, code: string, year: int, month: int)
  {
    r.wardCode == code && r.year == year && r.month == month
  }

  /** `getFilteredData`: the rows of one ward and period, in data order. */
  function FilteredData(data: seq<Row>, code: string, year: int, month: int): (rs: seq<Row>)
    ensures |rs| <= |data|
    ensures forall r :: r in rs <==> r in data && InPeriod(r, code, year, month)
  {
    if data == [] then []
    else
      var rest := FilteredData(data[1..], code, year, month);
      assert forall r :: r in data <==> r == data[0] || r in data[1..];
      if InPeriod(data[0], code, year, month) then [data[0]] + rest else rest
  }

  function MetricValues(rows: seq<Row>, metric: Metric): (vs: seq<real>)
    ensures |vs| == |rows|
    ensures forall i :: 0 <= i < |rows| ==> vs[i] == NumberOrZero(Value(rows[i], metric))
  {
    seq(|rows|, i requires 0 <= i < |rows| => NumberOrZero(Value(rows[i], metric)))
  }

  /** `getTotalMetric`: the sum of the metric over the filtered rows, a
      non-number counting 0. */
  function TotalMetric(data: seq<Row>, code: string, year: int, month: int, metric: Metric): real
  {
    Sum(MetricValues(FilteredData(data, code, year, month), metric))
  }

  /** The total as a single pass over the data: every row of the ward and period
      adds its metric (0 for a non-number), every other row adds nothing. */
  function MatchSum(data: seq<Row>, code: string, year: int, month: int, metric: Metric): real
  {
    if data == [] then 0.0
    else (if InPeriod(data[0], code, year, month) then NumberOrZero(Value(data[0], metric)) else 0.0)
         + MatchSum(data[1..], code, year, month, metric)
  }

  lemma {:induction false} TotalMetricIsMatchSum(data: seq<Row>, code: string, year: int, month: int, metric: Metric)
    ensures TotalMetric(data, code, year, month, metric) == MatchSum(data, code, year, month, metric)
  {
    if data != [] {
      TotalMetricIsMatchSum(data[1..], code, year, month, metric);
      var rest := FilteredData(data[1..], code, year, month);
      if InPeriod(data[0], code, year, month) {
        assert MetricValues([data[0]] + rest, metric) == [NumberOrZero(Value(data[0], metric))] + MetricValues(rest, metric);
      }
    }
  }

  /** With no row of the ward and period the total is 0. */
  lemma {:induction false} TotalMetricNoMatch(data: seq<Row>, code: string, year: int, month: int, metric: Metric)
    requires forall i :: 0 <= i < |data| ==> !InPeriod(data[i], code, year, month)
    ensures TotalMetric(data, code, year, month, metric) == 0.0
  {
    TotalMetricIsMatchSum(data, code, year, month, metric);
    MatchSumNoMatch(data, code, year, month, metric);
  }

  lemma {:induction false} MatchSumNoMatch(data: seq<Row>, code: string, year: int, month: int, metric: Metric)
    requires forall i :: 0 <= i < |data| ==> !InPeriod(data[i], code, year, month)
    ensures MatchSum(data, code, year, month, metric) == 0.0
  {
    if data != [] {
      assert !InPeriod(data[0], code, year, month);
      MatchSumNoMatch(data[1..], code, year, month, metric);
    }
  }

  /** Totals add up over concatenated data. */
  lemma {:induction false} TotalMetricAppend(a: seq<Row>, b: seq<Row>, code: string, year: int, month: int, metric: Metric)
    ensures TotalMetric(a + b, code, year, month, metric)
         == TotalMetric(a, code, year, month, metric) + TotalMetric(b, code, year, month, metric)
  {
    TotalMetricIsMatchSum(a + b, code, year, month, metric);
    TotalMetricIsMatchSum(a, code, year, month, metric);
    TotalMetricIsMatchSum(b, code, year, month, metric);
    MatchSumAppend(a, b, code, year, month, metric);
  }

  lemma {:induction false} MatchSumAppend(a: seq<Row>, b: seq<Row>, code: string, year: int, month: int, metric: Metric)
    ensures MatchSum(a + b, code, year, month, metric)
         == MatchSum(a, code, year, month, metric) + MatchSum(b, code, year, month, metric)
  {
    if a == [] {
      assert a + b == b;
    } else {
      assert (a + b)[1..] == a[1..] + b;
      MatchSumAppend(a[1..], b, code, year, month, metric);
    }
  }

  // ---- ranks ----

  function WardCodes(data: seq<Row>): (ws: seq<string>)
    ensures |ws| == |data|
    ensures forall i :: 0 <= i < |data| ==> ws[i] == data[i].wardCode
  {
    seq(|data|, i requires 0 <= i < |data| => data[i].wardCode)
  }

  /** `uniqueWards`: every ward code of the whole data once, in first-seen order. */
  function UniqueWards(data: seq<Row>): seq<string>
  {
    Dedup(WardCodes(data))
  }

  /** The sort key of a ward: its total in the period. */
  function TotalKey(data: seq<Row>, year: int, month: int, metric: Metric): string -> real
  {
    w => TotalMetric(data, w, year, month, metric)
  }

  /** The wards ordered by non-increasing total, ties in first-seen order (the
      ward records sorted by their total, reduced to their codes). */
  function Ranked(data: seq<Row>, year: int, month: int, metric: Metric): seq<string>
  {
    SortBy(UniqueWards(data), TotalKey(data, year, month, metric), true)
  }

  /** `findIndex(d => d.ward === wardCode) + 1` on the ranked wards. */
  function RankOf(data: seq<Row>, code: string, year: int, month: int, metric: Metric): int
  {
    IndexOf(Ranked(data, year, month, metric), code) + 1
  }

  /** `find(d => d.ward === wardCode)?.total || 0`. */
  function FoundTotal(data: seq<Row>, code: string, year: int, month: int, metric: Metric): real
  {
    if code in Ranked(data, year, month, metric) then TotalMetric(data, code, year, month, metric) else 0.0
  }

  datatype RegionRanks = RegionRanks(crimeRank: int, sentimentRank: int, totalRegions: nat, totalCrime: real, totalSentiment: real)

  /** `getRegionRanks`. */
  function GetRegionRanks(data: seq<Row>, code: string, year: int, month: int): RegionRanks
  {
    RegionRanks(
      RankOf(data, code, year, month, DetectedCrime),
      RankOf(data, code, year, month, NegRatio),
      |UniqueWards(data)|,
      FoundTotal(data, code, year, month, DetectedCrime),
      FoundTotal(data, code, year, month, NegRatio))
  }

  /** Some row of the whole data carries the ward code. */
  predicate InData(data: seq<Row>, code: string)
  {
    exists i :: 0 <= i < |data| && data[i].wardCode == code
  }

  /** `totalRegions` counts the distinct ward codes of the whole data, whatever the period. */
  lemma TotalRegionsCount(data: seq<Row>, code: string, year: int, month: int)
    ensures GetRegionRanks(data, code, year, month).totalRegions == |set i | 0 <= i < |data| :: data[i].wardCode|
  {
    var u := UniqueWards(data);
    DistinctCardinality(u);
    assert (set x | x in u) == (set i | 0 <= i < |data| :: data[i].wardCode) by {
      forall x | x in u ensures x in set i | 0 <= i < |data| :: data[i].wardCode {
        var i :| 0 <= i < |data| && WardCodes(data)[i] == x;
      }
      forall i | 0 <= i < |data| ensures data[i].wardCode in u {
        assert WardCodes(data)[i] == data[i].wardCode;
      }
    }
  }

  /** A ward absent from the data ranks 0; a present one ranks in 1..totalRegions. */
  lemma RankRange(data: seq<Row>, code: string, year: int, month: int, metric: Metric)
    ensures RankOf(data, code, year, month, metric) == 0 <==> !InData(data, code)
    ensures InData(data, code) ==> 1 <= RankOf(data, code, year, month, metric) <= |UniqueWards(data)|
  {
    var u := UniqueWards(data);
    SortByMembers(u, TotalKey(data, year, month, metric), true);
    SortByLength(u, TotalKey(data, year, month, metric), true);
    if InData(data, code) {
      var i :| 0 <= i < |data| && data[i].wardCode == code;
      assert WardCodes(data)[i] == code;
    }
  }

  lemma InDataUnique(data: seq<Row>, code: string)
    requires InData(data, code)
    ensures code in UniqueWards(data)
  {
    var i :| 0 <= i < |data| && data[i].wardCode == code;
    assert WardCodes(data)[i] == code;
  }

  /** The rank of a present ward is one more than the number of wards with a
      strictly larger total plus the number of wards with the same total met
      earlier in the data. */
  lemma RankFormula(data: seq<Row>, code: string, year: int, month: int, metric: Metric)
    requires InData(data, code)
    ensures var u := UniqueWards(data);
      var key := TotalKey(data, year, month, metric);
      RankOf(data, code, year, month, metric)
        == 1 + CountAhead(u, key, true, key(code)) + CountEqual(u[..IndexOf(u, code)], key, key(code))
  {
    var u := UniqueWards(data);
    InDataUnique(data, code);
    SortByIndex(u, TotalKey(data, year, month, metric), true, IndexOf(u, code));
  }

  /** A larger total gives a better (smaller) rank. */
  lemma RankOrder(data: seq<Row>, a: string, b: string, year: int, month: int, metric: Metric)
    requires InData(data, a) && InData(data, b)
    requires TotalMetric(data, a, year, month, metric) > TotalMetric(data, b, year, month, metric)
    ensures RankOf(data, a, year, month, metric) < RankOf(data, b, year, month, metric)
  {
    var u := UniqueWards(data);
    var key := TotalKey(data, year, month, metric);
    InDataUnique(data, a);
    InDataUnique(data, b);
    SortByCorrect(u, key, true);
    SortByMembers(u, key, true);
    OrderedIndices(SortBy(u, key, true), key, true, a, b);
  }

  /** Equal totals keep the order in which the wards first appear in the data. */
  lemma RankTies(data: seq<Row>, a: string, b: string, year: int, month: int, metric: Metric)
    requires InData(data, a) && InData(data, b)
    requires TotalMetric(data, a, year, month, metric) == TotalMetric(data, b, year, month, metric)
    requires IndexOf(WardCodes(data), a) < IndexOf(WardCodes(data), b)
    ensures RankOf(data, a, year, month, metric) < RankOf(data, b, year, month, metric)
  {
    var u := UniqueWards(data);
    var key := TotalKey(data, year, month, metric);
    InDataUnique(data, a);
    InDataUnique(data, b);
    assert a in WardCodes(data) && b in WardCodes(data);
    DedupOrder(WardCodes(data), a, b);
    RankFormula(data, a, year, month, metric);
    RankFormula(data, b, year, month, metric);
    CountEqualPrefix(u, key, IndexOf(u, a), IndexOf(u, b));
  }

  /** `totalCrime`/`totalSentiment` are the ward's total, 0 for an absent ward. */
  lemma FoundTotalIsTotal(data: seq<Row>, code: string, year: int, month: int, metric: Metric)
    ensures FoundTotal(data, code, year, month, metric) == TotalMetric(data, code, year, month, metric)
  {
    SortByMembers(UniqueWards(data), TotalKey(data, year, month, metric), true);
    if !InData(data, code) {
      RankRange(data, code, year, month, metric);
      TotalMetricNoMatch(data, code, year, month, metric);
    }
  }

  // ---- status bands ----

  datatype Severity = Low | Medium | High

  function SeverityLevel(s: Severity): nat
  {
    match s
    case Low => 0
    case Medium => 1
    case High => 2
  }

  function StatusColor(s: Severity): string
  {
    match s
    case Low => "success"
    case Medium => "warning"
    case High => "error"
  }

  /** `getStatus`: ranks up to 5 are Low, up to 10 Medium, the rest High. */
  function GetStatus(rank: int): (s: Severity)
    ensures s == Low <==> rank <= 5
    ensures s == High <==> rank > 10
  {
    if rank <= 5 then Low else if rank <= 10 then Medium else High
  }

  lemma StatusMonotone(a: int, b: int)
    requires a <= b
    ensures SeverityLevel(GetStatus(a)) <= SeverityLevel(GetStatus(b))
  {
  }

  // ---- crime reasons ----

  /** `getCrimeReasons` before joining: the detected crime of each filtered
      row when positive, else 0. */
  function CrimeReasons(data: seq<Row>, code: string, year: int, month: int): (vs: seq<real>)
    ensures var rs := FilteredData(data, code, year, month);
      |vs| == |rs|
      && forall i :: 0 <= i < |rs| ==>
           && vs[i] >= 0.0
           && (vs[i] > 0.0 <==> Coerce(rs[i].detectedCrime).Some? && Coerce(rs[i].detectedCrime).value > 0.0)
           && (vs[i] > 0.0 ==> vs[i] == Coerce(rs[i].detectedCrime).value)
  {
    var rs := FilteredData(data, code, year, month);
    seq(|rs|, i requires 0 <= i < |rs| =>
      var v := Coerce(rs[i].detectedCrime);
      if v.Some? && v.value > 0.0 then v.value else 0.0)
  }

  // ---- gradient ----

  datatype Channels = Channels(red: real, green: real, blue: real)

  /** `getRGBValues`: green to yellow on [0, 0.5), yellow to red on [0.5, 1],
      after clamping to [0, 1]. */
  function RgbValues(t: real): (c: Channels)
    ensures c.blue == 0.0
    ensures 0.0 <= c.red <= 255.0 && 0.0 <= c.green <= 255.0
    ensures Clamp01(t) < 0.5 ==> c.green == 255.0
    ensures Clamp01(t) >= 0.5 ==> c.red == 255.0
  {
    var u := Clamp01(t);
    if u <= 0.0 then Channels(0.0, 255.0, 0.0)
    else if u >= 1.0 then Channels(255.0, 0.0, 0.0)
    else if u < 0.5 then Channels(255.0 * (u * 2.0), 255.0, 0.0)
    else Channels(255.0, 255.0 * (1.0 - (u - 0.5) * 2.0), 0.0)
  }

  /** Along the gradient red never decreases and green never increases. */
  lemma RgbMonotone(a: real, b: real)
    requires a <= b
    ensures RgbValues(a).red <= RgbValues(b).red
    ensures RgbValues(a).green >= RgbValues(b).green
  {
    Clamp01Monotone(a, b);
  }

  function ToRgb(c: Channels): Color
  {
    Rgb(Round(c.red), Round(c.green), Round(c.blue))
  }

  function Abs(x: real): real
  {
    if x < 0.0 then -x else x
  }

  /** The gradient position of a sentiment score between -0.5 and -1.5. */
  function SentimentT(score: real): (t: real)
    requires -1.5 <= score <= -0.5
    ensures 0.0 <= t <= 1.0
  {
    (Abs(score) - 0.5) / 1.0
  }

  /** `getColor`: soft grey without a score; crime runs from 0 (green) to 20 and
      above (red); sentiment is green above -0.5, red below -1.5 and on the
      gradient in between. */
  function GetColor(score: Option<real>, t: ScoreType): (c: Color)
    ensures c == Neutral(SoftGray) <==> score.None?
    ensures score.Some? ==> c.Rgb? && c.blue == 0 && 0 <= c.red <= 255 && 0 <= c.green <= 255
  {
    match score
    case None => Neutral(SoftGray)
    case Some(s) =>
      match t
      case CrimeScore =>
        var v := RgbValues(if s / 20.0 < 1.0 then s / 20.0 else 1.0);
        RoundBounds(v.red, 0, 255);
        RoundBounds(v.green, 0, 255);
        ToRgb(v)
      case SentimentScore =>
        if s > -0.5 then Rgb(0, 255, 0)
        else if s < -1.5 then Rgb(255, 0, 0)
        else
          var v := RgbValues(SentimentT(s));
          RoundBounds(v.red, 0, 255);
          RoundBounds(v.green, 0, 255);
          ToRgb(v)
  }

  lemma CrimeGradientCases(s: real)
    ensures GetColor(Some(0.0), CrimeScore) == Rgb(0, 255, 0)
    ensures GetColor(Some(10.0), CrimeScore) == Rgb(255, 255, 0)
    ensures s >= 20.0 ==> GetColor(Some(s), CrimeScore) == Rgb(255, 0, 0)
  {
  }

  /** A higher crime score is never less red nor more green. */
  lemma CrimeGradientMonotone(a: real, b: real)
    requires a <= b
    ensures GetColor(Some(a), CrimeScore).red <= GetColor(Some(b), CrimeScore).red
    ensures GetColor(Some(a), CrimeScore).green >= GetColor(Some(b), CrimeScore).green
  {
    var ta := if a / 20.0 < 1.0 then a / 20.0 else 1.0;
    var tb := if b / 20.0 < 1.0 then b / 20.0 else 1.0;
    RgbMonotone(ta, tb);
    RoundMonotone(RgbValues(ta).red, RgbValues(tb).red);
    RoundMonotone(RgbValues(tb).green, RgbValues(ta).green);
  }

  lemma SentimentGradientCases(s: real)
    ensures s > -0.5 ==> GetColor(Some(s), SentimentScore) == Rgb(0, 255, 0)
    ensures s < -1.5 ==> GetColor(Some(s), SentimentScore) == Rgb(255, 0, 0)
    ensures GetColor(Some(-1.0), SentimentScore) == Rgb(255, 255, 0)
  {
    assert SentimentT(-1.0) == 0.5;
  }

  // ---- score map keyed by place name ----

  /** What one `[ward_code, score]` entry writes: its score under the name of
      the first pair with that ward code, nothing when there is none. */
  function MappedEntry(ms: seq<WardMapping>, e: (string, Option<real>)): Option<(string, Option<real>)>
  {
    match FindByWard(ms, e.0)
    case None => None
    case Some(m) => Some((m.sourceLocation, e.1))
  }

  function MappedEntryOf(ms: seq<WardMapping>): ((string, Option<real>)) -> Option<(string, Option<real>)>
  {
    e => MappedEntry(ms, e)
  }

  /** `regionalScoreMap`: the totals of the selected score type re-keyed by place
      name; ward codes without a pair are dropped, and a later ward mapped to the
      same name overwrites an earlier one. */
  method RegionalScoreMap(crimeTotals: Dict<Option<real>>, sentimentTotals: Dict<Option<real>>,
                          ms: seq<WardMapping>, t: ScoreType) returns (m: Dict<Option<real>>)
    ensures var totals := if t == CrimeScore then crimeTotals else sentimentTotals;
      && m == ScoreMapOf(totals.entries, MappedEntryOf(ms))
      && Valid(m)
      && (forall k :: Get(m, k) == LastWrite(totals.entries, MappedEntryOf(ms), k))
      && (forall k :: k in Keys(m) <==>
            exists i :: 0 <= i < |totals.entries|
              && (exists j :: 0 <= j < |ms| && ms[j].wardCode == totals.entries[i].0)
              && SourceLocationOf(ms, totals.entries[i].0) == k)
  {
    var totals := if t == CrimeScore then crimeTotals else sentimentTotals;
    m := Dict([]);
    var i := 0;
    while i < |totals.entries|
      invariant 0 <= i <= |totals.entries|
      invariant m == ScoreMapOf(totals.entries[..i], MappedEntryOf(ms))
    {
      var (wardCode, score) := totals.entries[i];
      var mapping := FindByWard(ms, wardCode);
      if mapping.Some? {
        m := Put(m, mapping.value.sourceLocation, score);
      }
      assert totals.entries[..i + 1][..i] == totals.entries[..i];
      i := i + 1;
    }
    assert totals.entries[..|totals.entries|] == totals.entries;
    ScoreMapLookup(totals.entries, MappedEntryOf(ms));
    forall k ensures k in Keys(m) <==> exists i :: 0 <= i < |totals.entries| && Writes(MappedEntryOf(ms), totals.entries[i], k) {
      ScoreMapKeys(totals.entries, MappedEntryOf(ms), k);
    }
  }

  // ---- leaderboard ----

  datatype NamedScore = NamedScore(name: string, score: Option<real>)

  /** The comparator's view of a score: `null` takes part as 0. */
  function SortKey(a: NamedScore): real
  {
    a.score.GetOr(0.0)
  }

  function AreaScores(m: Dict<Option<real>>): (s: seq<NamedScore>)
    ensures |s| == |m.entries|
    ensures forall i :: 0 <= i < |s| ==> s[i] == NamedScore(m.entries[i].0, m.entries[i].1)
  {
    seq(|m.entries|, i requires 0 <= i < |m.entries| => NamedScore(m.entries[i].0, m.entries[i].1))
  }

  /** `topAreas`: the score map's entries sorted ascending for sentiment and
      descending for crime, at most five. */
  function TopAreas(m: Dict<Option<real>>, t: ScoreType): seq<NamedScore>
  {
    Take(SortBy(AreaScores(m), SortKey, t == CrimeScore), 5)
  }

  /** At most five entries of the map, in the score type's order, and no entry
      left out would have come before the last one kept. */
  lemma TopAreasCorrect(m: Dict<Option<real>>, t: ScoreType)
    ensures var top := TopAreas(m, t);
      && |top| <= 5
      && Ordered(top, SortKey, t == CrimeScore)
      && multiset(top) <= multiset(AreaScores(m))
      && (top != [] ==> forall a :: a in multiset(AreaScores(m)) - multiset(top) ==>
            Precedes(t == CrimeScore, SortKey(top[|top| - 1]), SortKey(a)))
  {
    TopN(AreaScores(m), SortKey, t == CrimeScore, 5);
  }
}
