/** The shapes of the data the components read: rows of the monthly and
    day-wise JSON bundles, the ward-code / name pairs served by `/wards`, and the
    score types the map toggles between. */
module Records {
  import opened Wrappers

  /** A JSON field as the components see it: a JavaScript number, or anything
      else (a string, `null`, a missing key) together with what `parseFloat`
      makes of it and what `Number` coercion makes of it, `None` standing for
      `NaN` (`null` and `''` coerce to 0 but do not parse). */
  datatype Field = Number(n: real) | NonNumber(parsed: Option<real>, coerced: Option<real>)

  /** `parseFloat(v)`, `None` standing for `NaN`. */
  function ParseFloat(f: Field): (r: Option<real>)
    ensures f.Number? ==> r == Some(f.n)
  {
    match f
    case Number(n) => Some(n)
    case NonNumber(p, _) => p
  }

  /** `Number(v)`, the coercion `isNaN` and the relational operators apply. */
  function Coerce(f: Field): (r: Option<real>)
    ensures f.Number? ==> r == Some(f.n)
  {
    match f
    case Number(n) => Some(n)
    case NonNumber(_, c) => c
  }

  /** `typeof v === 'number' ? v : 0`. */
  function NumberOrZero(f: Field): (r: real)
    ensures f.Number? ==> r == f.n
    ensures f.NonNumber? ==> r == 0.0
  {
    match f
    case Number(n) => n
    case NonNumber(_, _) => 0.0
  }

  /** The two metric columns: `'DETECTED CRIME'` and `'neg_ratio'`. */
  datatype Metric = DetectedCrime | NegRatio

  /** The map's toggle: `'crimeScore'` or `'sentimentScore'`. */
  datatype ScoreType = CrimeScore | SentimentScore

  function MetricOf(t: ScoreType): Metric
  {
    match t
    case CrimeScore => DetectedCrime
    case SentimentScore => NegRatio
  }

  /** One row of the monthly bundle. A missing or empty `'WARD CODE'` or
      `source_location` is the empty string; `others` lists the remaining keys
      of the row with their values, in the row's key order. */
  datatype Row = Row(
    wardCode: string,
    sourceLocation: string,
    year: int,
    month: int,
    detectedCrime: Field,
    negRatio: Field,
    longitude: real,
    latitude: real,
    others: seq<(string, Field)>)

  function Value(row: Row, metric: Metric): Field
  {
    match metric
    case DetectedCrime => row.detectedCrime
    case NegRatio => row.negRatio
  }

  /** One row of the day-wise bundle. */
  datatype DayRow = DayRow(sourceLocation: string, year: int, month: int, day: int, detectedCrime: Field)

  /** One `{ward_code, source_location}` pair. */
  datatype WardMapping = WardMapping(wardCode: string, sourceLocation: string)
}
