/** The API-backed dashboard: the twelve-month series, the place-name to
    ward-code normalisation, location search and selection, the calendar's
    month and the crime-rank chip with its explanatory sentence. */
module DashBoardJsx {
  import opened Wrappers
  import opened Seqs
  import opened Text
  import opened Dicts
  import opened Records
  import opened Wards

  // ---------------------------------------------------------------------------
  // Monthly series

  /** `String(i + 1)` for the twelve months. */
  const MonthKeys: seq<string> := ["1", "2", "3", "4", "5", "6", "7", "8", "9", "10", "11", "12"]

  lemma MonthKeysDistinct()
    ensures |MonthKeys| == 12 && Distinct(MonthKeys)
  {
  }

  /** `v || 0` on a looked-up JSON value: a missing key, `null` and 0 all give 0. */
  function OrZero(v: Option<Option<real>>): real
  {
    match v
    case Some(Some(x)) => x
    case _ => 0.0
  }

  /** `Array.from({ length: 12 }, (_, i) => byMonth[String(i + 1)] || 0)`, over
      the month-keyed totals or averages of one ward and year. */
  function MonthSeries(byMonth: Dict<Option<real>>): (series: seq<real>)
    ensures |series| == 12
    ensures forall i :: 0 <= i < 12 ==> (Get(byMonth, MonthKeys[i]) == Some(Some(series[i])) || series[i] == 0.0)
    ensures forall i :: 0 <= i < 12 && Get(byMonth, MonthKeys[i]).Some? && Get(byMonth, MonthKeys[i]).value.Some?
              ==> series[i] == Get(byMonth, MonthKeys[i]).value.value
    ensures forall i :: 0 <= i < 12 && (Get(byMonth, MonthKeys[i]).None? || Get(byMonth, MonthKeys[i]).value.None?)
              ==> series[i] == 0.0
  {
    seq(12, i requires 0 <= i < 12 => OrZero(Get(byMonth, MonthKeys[i])))
  }

  /** Storing a value for month `k + 1` changes entry `k` of the series and no other. */
  lemma MonthSeriesPut(byMonth: Dict<Option<real>>, k: nat, v: Option<real>)
    requires Valid(byMonth) && k < 12
    ensures MonthSeries(Put(byMonth, MonthKeys[k], v)) == MonthSeries(byMonth)[k := OrZero(Some(v))]
  {
    MonthKeysDistinct();
    PutGet(byMonth, MonthKeys[k], v);
    var before, after := MonthSeries(byMonth), MonthSeries(Put(byMonth, MonthKeys[k], v));
    forall i | 0 <= i < 12
      ensures after[i] == before[k := OrZero(Some(v))][i]
    {
      if i != k {
        assert MonthKeys[i] != MonthKeys[k];
      }
    }
  }

  // ---------------------------------------------------------------------------
  // Place name to ward code

  /** `region.replace(/\s+/g, '_').toUpperCase()`. */
  function Normalise(region: string): (code: string)
    ensures NoSpace(code)
    ensures |code| <= |region|
  {
    UpperNoSpace(CollapseSpaces(region));
    Upper(CollapseSpaces(region))
  }

  /** Upper-casing neither creates nor removes whitespace. */
  lemma UpperNoSpace(s: string)
    requires NoSpace(s)
    ensures NoSpace(Upper(s))
  {
  }

  /** Normalising a normalised name changes nothing. */
  lemma NormaliseIdempotent(region: string)
    ensures Normalise(Normalise(region)) == Normalise(region)
  {
    var once := Normalise(region);
    CollapseNoSpace(once);
    UpperIdempotent(CollapseSpaces(region));
  }

  /** A whitespace run between two words becomes one underscore, and the
      letters are upper-cased. */
  lemma NormaliseRun(a: string, run: string, b: string)
    requires NoSpace(a) && run != [] && (forall i :: 0 <= i < |run| ==> IsSpace(run[i]))
    requires b == [] || !IsSpace(b[0])
    ensures Normalise(a + run + b) == Upper(a) + "_" + Normalise(b)
  {
    CollapseRun(a, run, b);
    UpperAppend(a, "_");
    UpperAppend(a + "_", CollapseSpaces(b));
  }

  lemma UpperAppend(a: string, b: string)
    ensures Upper(a + b) == Upper(a) + Upper(b)
  {
  }

  /** The `wardCodeMapping` effect: one key per distinct region, in first-seen
      order, each mapped to its normalised form. */
  method WardCodeMapping(allRegions: seq<string>) returns (mapping: Dict<string>)
    ensures Valid(mapping)
    ensures Keys(mapping) == Dedup(allRegions)
    ensures forall i :: 0 <= i < |allRegions| ==> Get(mapping, allRegions[i]) == Some(Normalise(allRegions[i]))
  {
    mapping := Dict([]);
    var i := 0;
    while i < |allRegions|
      invariant 0 <= i <= |allRegions|
      invariant Valid(mapping) && Keys(mapping) == Dedup(allRegions[..i])
      invariant forall j :: 0 <= j < i ==> Get(mapping, allRegions[j]) == Some(Normalise(allRegions[j]))
    {
      var region := allRegions[i];
      MappingStep(allRegions, i, mapping);
      mapping := Put(mapping, region, Normalise(region));
      i := i + 1;
    }
    assert allRegions[..i] == allRegions;
  }

  /** One `mapping[region] = ...` keeps the loop's description of the mapping. */
  lemma MappingStep(regions: seq<string>, i: nat, m: Dict<string>)
    requires i < |regions| && Valid(m) && Keys(m) == Dedup(regions[..i])
    requires forall j :: 0 <= j < i ==> Get(m, regions[j]) == Some(Normalise(regions[j]))
    ensures var next := Put(m, regions[i], Normalise(regions[i]));
      && Valid(next)
      && Keys(next) == Dedup(regions[..i + 1])
      && forall j :: 0 <= j < i + 1 ==> Get(next, regions[j]) == Some(Normalise(regions[j]))
  {
    PutGet(m, regions[i], Normalise(regions[i]));
    var prefix := regions[..i + 1];
    assert prefix[..|prefix| - 1] == regions[..i] && prefix[|prefix| - 1] == regions[i];
  }

  // ---------------------------------------------------------------------------
  // Search and selection

  /** `allSourceLocations`: the place names of the `/wards` pairs, in order. */
  function SourceLocations(ms: seq<WardMapping>): (names: seq<string>)
    ensures |names| == |ms| && forall i :: 0 <= i < |ms| ==> names[i] == ms[i].sourceLocation
  {
    seq(|ms|, i requires 0 <= i < |ms| => ms[i].sourceLocation)
  }

  /** `handleSearchLocation`: whether the query is one of the listed names exactly. */
  function SearchLocation(allSourceLocations: seq<string>, query: string): (valid: bool)
    ensures valid <==> exists i :: 0 <= i < |allSourceLocations| && allSourceLocations[i] == query
  {
    query in allSourceLocations
  }

  /** The state `handleSelectLocation` sets: the chosen name and its ward code or `null`. */
  datatype Selection = Selection(sourceLocation: string, wardCode: Option<string>)

  function SelectLocation(ms: seq<WardMapping>, sourceLocation: string): (s: Selection)
    ensures s.sourceLocation == sourceLocation
    ensures s.wardCode.None? <==> forall i :: 0 <= i < |ms| ==> ms[i].sourceLocation != sourceLocation
    ensures s.wardCode.Some? ==>
      exists i ::
        && 0 <= i < |ms| && ms[i] == WardMapping(s.wardCode.value, sourceLocation)
        && forall j :: 0 <= j < i ==> ms[j].sourceLocation != sourceLocation
  {
    Selection(sourceLocation, WardCodeOf(ms, sourceLocation))
  }

  /** A query the search accepts always selects a ward, and one it rejects never would. */
  lemma SearchThenSelect(ms: seq<WardMapping>, query: string)
    ensures SearchLocation(SourceLocations(ms), query) <==> SelectLocation(ms, query).wardCode.Some?
  {
    var names := SourceLocations(ms);
    if SearchLocation(names, query) {
      var i :| 0 <= i < |names| && names[i] == query;
      assert ms[i].sourceLocation == query;
    }
  }

  // ---------------------------------------------------------------------------
  // Calendar

  /** `selectedYear` and `selectedMonth`: both `null` until the calendar is confirmed. */
  datatype Period = Period(year: Option<int>, month: Option<int>)

  const NoPeriod: Period := Period(None, None)

  /** The calendar's Confirm: `tempDate.year()` and `tempDate.month() + 1`, from
      the picker's 0-based month. */
  function Confirm(pickerYear: int, pickerMonth: int): (p: Period)
    requires 0 <= pickerMonth < 12
    ensures p.year == Some(pickerYear)
    ensures p.month.Some? && 1 <= p.month.value <= 12
    ensures p.month.value - 1 == pickerMonth
  {
    Period(Some(pickerYear), Some(pickerMonth + 1))
  }

  /** A JavaScript value is truthy unless it is `null`, `0` or `''`. */
  predicate TruthyInt(v: Option<int>)
  {
    v.Some? && v.value != 0
  }

  predicate TruthyString(v: Option<string>)
  {
    v.Some? && v.value != ""
  }

  /** The guard of the weekly, rank, total and crime-reason effects:
      they return early on `!selectedWardCode || !selectedYear || !selectedMonth`. */
  predicate PeriodEffectsRun(s: Selection, p: Period)
  {
    TruthyString(s.wardCode) && TruthyInt(p.year) && TruthyInt(p.month)
  }

  /** Before the calendar is confirmed no period effect runs; once a month
      inside the picker's bounds (April 2019 to December 2024) is confirmed,
      they run exactly when a ward is selected. */
  lemma ConfirmRunsPeriodEffects(s: Selection, pickerYear: int, pickerMonth: int)
    requires 0 <= pickerMonth < 12
    requires 2019 <= pickerYear <= 2024
    ensures !PeriodEffectsRun(s, NoPeriod)
    ensures PeriodEffectsRun(s, Confirm(pickerYear, pickerMonth)) <==> TruthyString(s.wardCode)
  {
  }

  // ---------------------------------------------------------------------------
  // Crime-rank chip

  /** The four rank bands, from most to least crime. */
  datatype RankBand = HighCrime | RelativelyHigh | RelativelySafe | Safe

  function BandLevel(b: RankBand): (n: nat)
    ensures n <= 3
  {
    match b
    case HighCrime => 0
    case RelativelyHigh => 1
    case RelativelySafe => 2
    case Safe => 3
  }

  function ChipLabel(b: RankBand): string
  {
    match b
    case HighCrime => "High Crime Rate"
    case RelativelyHigh => "Relatively High Crime"
    case RelativelySafe => "Relatively Safe"
    case Safe => "Safe"
  }

  function ChipColor(b: RankBand): string
  {
    match b
    case HighCrime => "error"
    case RelativelyHigh => "warning"
    case RelativelySafe => "info"
    case Safe => "success"
  }

  function Sentence(b: RankBand): string
  {
    match b
    case HighCrime => "This region has a high crime rate this month."
    case RelativelyHigh => "This region has a moderately high crime rate."
    case RelativelySafe => "This region is relatively safe."
    case Safe => "This region is considered safe."
  }

  /** JavaScript's relational comparison reads `null` as 0. */
  function Compared(rank: Option<int>): int
  {
    rank.GetOr(0)
  }

  /** The chip's band as written: the `<= 30`, `<= 75`, `<= 150` cascade. */
  function ChipBandAsWritten(rank: Option<int>): (b: RankBand)
    ensures b == HighCrime <==> Compared(rank) <= 30
    ensures b == RelativelyHigh <==> 31 <= Compared(rank) <= 75
    ensures b == RelativelySafe <==> 76 <= Compared(rank) <= 150
    ensures b == Safe <==> Compared(rank) >= 151
  {
    var r := Compared(rank);
    if r <= 30 then HighCrime
    else if r <= 75 then RelativelyHigh
    else if r <= 150 then RelativelySafe
    else Safe
  }

  /** The sentences rendered under the chip, in their order: each line renders
      only when its own range test holds. */
  function Sentences(rank: Option<int>): seq<RankBand>
  {
    var r := Compared(rank);
    (if r >= 151 then [Safe] else [])
    + (if r >= 76 && r <= 150 then [RelativelySafe] else [])
    + (if r >= 31 && r <= 75 then [RelativelyHigh] else [])
    + (if r >= 1 && r <= 30 then [HighCrime] else [])
  }

  /** A rank of 1 or more gets exactly one sentence, and it agrees with the chip. */
  lemma SentenceAgreesWithChip(rank: int)
    requires rank >= 1
    ensures Sentences(Some(rank)) == [ChipBandAsWritten(Some(rank))]
  {
  }

  /** A ward with no rank (`null`: absent from that month's data) is labelled
      "High Crime Rate" in red, while no sentence is shown. */
  lemma NullRankChip()
    ensures ChipBandAsWritten(None) == HighCrime
    ensures ChipColor(ChipBandAsWritten(None)) == "error"
    ensures Sentences(None) == []
  {
  }

  /** The chip with the missing rank handled: no chip when there is no rank. */
  function RankChip(rank: Option<int>): (chip: Option<RankBand>)
    ensures chip.None? <==> rank.None?
    ensures rank.Some? && rank.value >= 1 ==> Sentences(rank) == [chip.value]
  {
    if rank.None? then None else Some(ChipBandAsWritten(rank))
  }

  /** A worse (larger) rank never gets a less safe band. */
  lemma RankChipMonotone(a: int, b: int)
    requires a <= b
    ensures BandLevel(RankChip(Some(a)).value) <= BandLevel(RankChip(Some(b)).value)
  {
  }
}
