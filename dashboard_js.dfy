/** The dashboard over the bundled JSON: the sorted region list, and the
    twelve-month and thirty-day series of one region, where a period without a
    row is `null` rather than 0. */
module DashBoardJs {
  import opened Wrappers
  import opened Seqs
  import opened Text
  import opened Records

  // ---------------------------------------------------------------------------
  // Region list

  function Name(s: string): string
  {
    s
  }

  /** `regionalData.map(entry => entry.source_location)`. */
  function Locations(rows: seq<Row>): (names: seq<string>)
    ensures |names| == |rows| && forall k :: 0 <= k < |rows| ==> names[k] == rows[k].sourceLocation
  {
    seq(|rows|, k requires 0 <= k < |rows| => rows[k].sourceLocation)
  }

  /** `allRegions`: the distinct place names, through a `Set`, then `sort()`. */
  function AllRegions(rows: seq<Row>): seq<string>
  {
    SortByName(Dedup(Locations(rows)), Name)
  }

  /** The region list is strictly increasing in code-point order, so it has no
      repetitions, and it lists exactly the place names found in the data. */
  lemma AllRegionsCorrect(rows: seq<Row>)
    ensures var regions := AllRegions(rows);
      && (forall i, j :: 0 <= i < j < |regions| ==> LexLess(regions[i], regions[j]))
      && (forall k :: 0 <= k < |rows| ==> rows[k].sourceLocation in regions)
      && (forall i :: 0 <= i < |regions| ==>
            exists k :: 0 <= k < |rows| && rows[k].sourceLocation == regions[i])
  {
    var names := Locations(rows);
    var unique := Dedup(names);
    var regions := AllRegions(rows);
    SortByNameCorrect(unique, Name);
    StrictlyIncreasing(unique, regions);
    forall k | 0 <= k < |rows|
      ensures rows[k].sourceLocation in regions
    {
      assert names[k] in unique;
      assert names[k] in multiset(regions);
    }
    forall i | 0 <= i < |regions|
      ensures exists k :: 0 <= k < |rows| && rows[k].sourceLocation == regions[i]
    {
      assert regions[i] in multiset(unique);
      var p :| 0 <= p < |unique| && unique[p] == regions[i];
      assert unique[p] in names;
    }
  }

  /** A name-ordered rearrangement of distinct strings is strictly increasing. */
  lemma StrictlyIncreasing(unique: seq<string>, sorted: seq<string>)
    requires Distinct(unique)
    requires NameOrdered(sorted, Name) && multiset(sorted) == multiset(unique)
    ensures forall i, j :: 0 <= i < j < |sorted| ==> LexLess(sorted[i], sorted[j])
  {
    PermutationDistinct(unique, sorted);
    forall i, j | 0 <= i < j < |sorted|
      ensures LexLess(sorted[i], sorted[j])
    {
      assert !LexLess(Name(sorted[j]), Name(sorted[i]));
      LexLessTotal(sorted[i], sorted[j]);
    }
  }

  // ---------------------------------------------------------------------------
  // Monthly and daily series

  /** A chart value: `null` when the period has no row, else what `parseFloat`
      gives, `Parsed(None)` standing for `NaN`. */
  datatype Reading = Null | Parsed(value: Option<real>)

  function ReadingOf(entry: Option<Field>): (r: Reading)
    ensures r.Null? <==> entry.None?
    ensures entry.Some? ==> r == Parsed(ParseFloat(entry.value))
  {
    if entry.None? then Null else Parsed(ParseFloat(entry.value))
  }

  predicate InMonth(row: Row, region: string, year: int, month: int)
  {
    row.sourceLocation == region && row.year == year && row.month == month
  }

  /** `regionalData.find(...)`: the first row of the region, year and month. */
  function FindEntry(rows: seq<Row>, region: string, year: int, month: int): (entry: Option<Row>)
    ensures entry.None? <==> forall k :: 0 <= k < |rows| ==> !InMonth(rows[k], region, year, month)
    ensures entry.Some? ==>
      exists k ::
        && 0 <= k < |rows| && rows[k] == entry.value
        && InMonth(rows[k], region, year, month)
        && forall j :: 0 <= j < k ==> !InMonth(rows[j], region, year, month)
  {
    if rows == [] then None
    else if InMonth(rows[0], region, year, month) then Some(rows[0])
    else
      var rest := FindEntry(rows[1..], region, year, month);
      assert forall k :: 0 < k < |rows| ==> rows[k] == rows[1..][k - 1];
      rest
  }

  /** One record of the monthly chart. */
  datatype MonthRecord = MonthRecord(month: int, crime: Reading, sentiment: Reading)

  /** The record for one month: both readings come from the same first
      matching row, and both are `null` exactly when there is none. */
  function MonthRecordOf(rows: seq<Row>, region: string, year: int, month: int): (rec: MonthRecord)
    ensures rec.month == month
    ensures rec.crime.Null? <==> forall k :: 0 <= k < |rows| ==> !InMonth(rows[k], region, year, month)
    ensures rec.crime.Null? <==> rec.sentiment.Null?
    ensures rec.crime.Parsed? ==>
      exists k ::
        && 0 <= k < |rows| && InMonth(rows[k], region, year, month)
        && (forall j :: 0 <= j < k ==> !InMonth(rows[j], region, year, month))
        && rec.crime.value == ParseFloat(rows[k].detectedCrime)
        && rec.sentiment.value == ParseFloat(rows[k].negRatio)
  {
    var entry := FindEntry(rows, region, year, month);
    MonthRecord(
      month,
      ReadingOf(if entry.None? then None else Some(entry.value.detectedCrime)),
      ReadingOf(if entry.None? then None else Some(entry.value.negRatio)))
  }

  /** `getMonthlyCrimeData`: one record per month, January first. */
  function MonthlyCrimeData(rows: seq<Row>, region: string, year: int): (records: seq<MonthRecord>)
    ensures |records| == 12
    ensures forall i :: 0 <= i < 12 ==> records[i].month == i + 1
    ensures forall i :: 0 <= i < 12 ==> records[i] == MonthRecordOf(rows, region, year, i + 1)
  {
    seq(12, i => MonthRecordOf(rows, region, year, i + 1))
  }

  /** A month with no row charts as a gap, and a month whose row holds 0 charts
      as 0: the two are never confused. */
  lemma MonthlyGapsAreNotZeros(rows: seq<Row>, region: string, year: int, i: nat)
    requires i < 12
    ensures var rec := MonthlyCrimeData(rows, region, year)[i];
      && (rec.crime == Null <==> forall k :: 0 <= k < |rows| ==> !InMonth(rows[k], region, year, i + 1))
      && (rec.crime == Parsed(Some(0.0)) ==> exists k :: 0 <= k < |rows| && InMonth(rows[k], region, year, i + 1))
  {
  }

  predicate OnDay(row: DayRow, region: string, year: int, month: int, day: int)
  {
    row.sourceLocation == region && row.year == year && row.month == month && row.day == day
  }

  /** `daywiseData.find(...)`: the first day-wise row of the date. */
  function FindDay(days: seq<DayRow>, region: string, year: int, month: int, day: int): (entry: Option<DayRow>)
    ensures entry.None? <==> forall k :: 0 <= k < |days| ==> !OnDay(days[k], region, year, month, day)
    ensures entry.Some? ==>
      exists k ::
        && 0 <= k < |days| && days[k] == entry.value
        && OnDay(days[k], region, year, month, day)
        && forall j :: 0 <= j < k ==> !OnDay(days[j], region, year, month, day)
  {
    if days == [] then None
    else if OnDay(days[0], region, year, month, day) then Some(days[0])
    else
      var rest := FindDay(days[1..], region, year, month, day);
      assert forall k :: 0 < k < |days| ==> days[k] == days[1..][k - 1];
      rest
  }

  /** One record of the daily chart. */
  datatype DayRecord = DayRecord(day: int, crime: Reading)

  function DayRecordOf(days: seq<DayRow>, region: string, year: int, month: int, day: int): (rec: DayRecord)
    ensures rec.day == day
    ensures rec.crime.Null? <==> forall k :: 0 <= k < |days| ==> !OnDay(days[k], region, year, month, day)
    ensures rec.crime.Parsed? ==>
      exists k ::
        && 0 <= k < |days| && OnDay(days[k], region, year, month, day)
        && (forall j :: 0 <= j < k ==> !OnDay(days[j], region, year, month, day))
        && rec.crime.value == ParseFloat(days[k].detectedCrime)
  {
    var entry := FindDay(days, region, year, month, day);
    DayRecord(day, ReadingOf(if entry.None? then None else Some(entry.value.detectedCrime)))
  }

  /** `getDailyCrimeData(data, region, year, month)`: days 1 to 30, whatever the
      month's length; `data` is accepted but not read. */
  function DailyCrimeData(data: seq<Row>, days: seq<DayRow>, region: string, year: int, month: int): (records: seq<DayRecord>)
    ensures |records| == 30
    ensures forall i :: 0 <= i < 30 ==> records[i].day == i + 1
    ensures forall i :: 0 <= i < 30 ==> records[i] == DayRecordOf(days, region, year, month, i + 1)
  {
    seq(30, i => DayRecordOf(days, region, year, month, i + 1))
  }

  /** The daily series depends on the day-wise bundle alone: the first argument
      makes no difference, and day 31 never appears. */
  lemma DailyIgnoresData(data1: seq<Row>, data2: seq<Row>, days: seq<DayRow>, region: string, year: int, month: int)
    ensures DailyCrimeData(data1, days, region, year, month) == DailyCrimeData(data2, days, region, year, month)
    ensures forall i :: 0 <= i < 30 ==> DailyCrimeData(data1, days, region, year, month)[i].day != 31
  {
  }
}
