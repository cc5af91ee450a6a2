/** The county-level home page: the name-keyed crime map of the selected
    period, the score lookup and the linear 0..780 hue scale. */
module HomePage {
  import opened Wrappers
  import opened Dicts
  import opened Records
  import opened Colors
  import opened ScoreMaps
  import ScotlandMap

  /** The upper end of the linear scale. */
  const MaxCrime: real := 780.0

  // ---- the score map as written ----

  /** What a row writes as the guard is written: it tests the `Number` coercion
      of the crime value but stores its `parseFloat`, so the stored value may be
      `NaN` (`None`). */
  function EntryAsWritten(year: int, month: int, r: Row): Option<(string, Option<real>)>
  {
    if r.year == year && r.month == month && r.sourceLocation != "" && Coerce(r.detectedCrime).Some? then
      Some((r.sourceLocation, ParseFloat(r.detectedCrime)))
    else None
  }

  function EntryAsWrittenOf(year: int, month: int): Row -> Option<(string, Option<real>)>
  {
    r => EntryAsWritten(year, month, r)
  }

  /** A crime value that coerces to a number but does not parse (`null`, `''`)
      passes the guard and is stored as `NaN`. */
  lemma EntryAsWrittenStoresNaN(year: int, month: int, r: Row)
    requires r.year == year && r.month == month && r.sourceLocation != ""
    requires Coerce(r.detectedCrime).Some? && ParseFloat(r.detectedCrime).None?
    ensures EntryAsWritten(year, month, r) == Some((r.sourceLocation, None))
  {
  }

  /** The two guards also differ the other way: a crime value such as `"12abc"`
      parses (to 12) but does not coerce, so the row is skipped as written and
      entered by the corrected map. */
  lemma EntryAsWrittenSkipsPartialNumber(year: int, month: int, r: Row)
    requires r.year == year && r.month == month && r.sourceLocation != ""
    requires Coerce(r.detectedCrime).None? && ParseFloat(r.detectedCrime).Some?
    ensures EntryAsWritten(year, month, r) == None
    ensures PeriodScoreEntry(year, month, CrimeScore, SourceLocationKey, r)
         == Some((r.sourceLocation, ParseFloat(r.detectedCrime).value))
  {
  }

  /** A period row whose crime is `null`, the only row for its place, leaves `NaN`
      in the map as written, where the corrected map has no entry for the place;
      as written the place is then filled with a `NaN` hue, where the corrected
      map greys it. */
  lemma NullCrimeCounterexample(name: string, year: int, month: int)
    requires name != ""
    ensures var r := Row("", name, year, month, NonNumber(None, Some(0.0)), Number(0.0), 0.0, 0.0, []);
      && Get(ScoreMapOf([r], EntryAsWrittenOf(year, month)), name) == Some(None)
      && Get(ScoreMapOf([r], PeriodEntry(year, month, CrimeScore, SourceLocationKey)), name) == None
      && RegionColorAsWritten(ScoreMapOf([r], EntryAsWrittenOf(year, month)), name) == NaNHue
      && RegionColor(ScoreMapOf([r], PeriodEntry(year, month, CrimeScore, SourceLocationKey)), name) == Neutral(LightGray)
  {
    var r := Row("", name, year, month, NonNumber(None, Some(0.0)), Number(0.0), 0.0, 0.0, []);
    var empty: Dict<Option<real>> := Dict([]);
    var none: Dict<real> := Dict([]);
    assert [r][..0] == [];
    assert ScoreMapOf([r], EntryAsWrittenOf(year, month)) == Put(empty, name, None) by {
      assert EntryAsWrittenOf(year, month)(r) == Some((name, None));
    }
    PutGet(empty, name, None);
    assert ScoreMapOf([r], PeriodEntry(year, month, CrimeScore, SourceLocationKey)) == none by {
      assert PeriodEntry(year, month, CrimeScore, SourceLocationKey)(r) == None;
    }
    assert Keys(none) == [];
  }

  // ---- lookup and colour ----

  // `getRegionScore` is the `?? null` lookup `ScotlandMap.GetRegionScore`, here keyed by place name.

  /** `getColor`: light grey without a score, otherwise the hue of the score's
      position on the clamped 0..780 scale. */
  function GetColor(score: Option<real>): (c: Color)
    ensures c == Neutral(LightGray) <==> score.None?
    ensures score.Some? ==> c.Hue? && 0.0 <= c.degrees <= 120.0
  {
    match score
    case None => Neutral(LightGray)
    case Some(s) => Hue(HueOf(Clamp01((s - 0.0) / (MaxCrime - 0.0))))
  }

  /** The hue never rises with the score; it is 0 from 780 on and 120 at 0 and
      below, negative scores included (they are not grey). */
  lemma HueScale(a: real, b: real)
    requires a <= b
    ensures GetColor(Some(b)).degrees <= GetColor(Some(a)).degrees
    ensures a >= MaxCrime ==> GetColor(Some(a)).degrees == 0.0
    ensures a <= 0.0 ==> GetColor(Some(a)).degrees == 120.0
  {
    Clamp01Monotone(a / MaxCrime, b / MaxCrime);
  }

  /** `regionStyle`'s fill: a place with no score in the map is light grey. */
  function RegionColor(m: Dict<real>, name: string): (c: Color)
    ensures name !in Keys(m) ==> c == Neutral(LightGray)
    ensures name in Keys(m) ==> c.Hue?
  {
    GetColor(ScotlandMap.GetRegionScore(m, name))
  }

  // ---- the colour as written ----

  /** A fill as written: a colour, or `hsl(NaN, 100%, 50%)`. */
  datatype FillAsWritten = Fill(color: Color) | NaNHue

  /** `regionStyle`'s fill over the map as written. `NaN ?? null` is `NaN` and
      `NaN == null` is false, so a stored `NaN` is not grey: the clamp and the
      hue carry it through to the fill. A stored number is coloured as in the
      corrected scale. */
  function RegionColorAsWritten(m: Dict<Option<real>>, name: string): (f: FillAsWritten)
    ensures f == Fill(Neutral(LightGray)) <==> name !in Keys(m)
    ensures f == NaNHue <==> Get(m, name) == Some(None)
    ensures f.Fill? && name in Keys(m) ==> f.color.Hue? && 0.0 <= f.color.degrees <= 120.0
  {
    var stored: Option<Option<real>> := Get(m, name);
    if stored.None? then Fill(Neutral(LightGray))
    else if stored.value.None? then NaNHue
    else Fill(GetColor(stored.value))
  }
}
