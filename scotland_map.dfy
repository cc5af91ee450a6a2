/** The leaflet map over the bundled monthly data: the score lookup and the
    bucket and clamp hue scales. Its ward-keyed map of the selected period is
    `ScoreMaps.PeriodScoreMap` with `WardCodeKey`. */
module ScotlandMap {
  import opened Wrappers
  import opened Dicts
  import opened Records
  import opened Colors
  import opened Buckets

  /** `getRegionScore`: the score filed under the key (a ward code here, a
      place name on the home page), `null` when there is none. */
  function GetRegionScore(m: Dict<real>, key: string): (r: Option<real>)
    ensures r.None? <==> key !in Keys(m)
    ensures r.Some? ==> exists i :: 0 <= i < |m.entries| && m.entries[i] == (key, r.value)
  {
    Get(m, key)
  }

  /** `getColor`: light grey for a missing or negative score; otherwise the hue
      of the crime bucket fraction or of the clamped sentiment. */
  function GetColor(score: Option<real>, t: ScoreType): (c: Color)
    ensures c == Neutral(LightGray) <==> score.None? || score.value < 0.0
    ensures c != Neutral(LightGray) ==> c.Hue? && 0.0 <= c.degrees <= 120.0
  {
    if score.None? || score.value < 0.0 then Neutral(LightGray)
    else
      match t
      case CrimeScore => Hue(HueOf(BucketIndex(CrimeThresholds, score.value) as real / 10.0))
      case SentimentScore => Hue(HueOf(Clamp01(score.value)))
  }

  /** The crime hue is a whole multiple of 12 degrees: one of 0, 12, ..., 120. */
  lemma CrimeHueSteps(s: real)
    requires s >= 0.0
    ensures var h := GetColor(Some(s), CrimeScore).degrees;
      h == h.Floor as real && h.Floor % 12 == 0 && 0.0 <= h <= 120.0
  {
    var k := 10 - BucketIndex(CrimeThresholds, s);
    assert GetColor(Some(s), CrimeScore).degrees == (12 * k) as real;
  }

  /** A higher crime score never gets a greener hue. */
  lemma CrimeHueMonotone(a: real, b: real)
    requires 0.0 <= a <= b
    ensures GetColor(Some(b), CrimeScore).degrees <= GetColor(Some(a), CrimeScore).degrees
  {
    BucketMonotone(CrimeThresholds, a, b);
  }

  /** The sentiment hue falls from 120 at 0 to 0 at 1 and stays 0 above. */
  lemma SentimentHue(a: real, b: real)
    requires 0.0 <= a <= b
    ensures GetColor(Some(b), SentimentScore).degrees <= GetColor(Some(a), SentimentScore).degrees
    ensures a >= 1.0 ==> GetColor(Some(a), SentimentScore).degrees == 0.0
    ensures GetColor(Some(0.0), SentimentScore).degrees == 120.0
  {
    Clamp01Monotone(a, b);
  }

  /** `regionStyle`'s fill: a ward with no score in the map is light grey. */
  function RegionColor(m: Dict<real>, code: string, t: ScoreType): (c: Color)
    ensures code !in Keys(m) ==> c == Neutral(LightGray)
  {
    GetColor(GetRegionScore(m, code), t)
  }
}
