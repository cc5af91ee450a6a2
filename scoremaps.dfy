/** Score maps: a local object filled by walking the rows in order, each row
    that counts writing its value under its key, so a later row overwrites an
    earlier one with the same key. */
module ScoreMaps {
  import opened Wrappers
  import opened Seqs
  import opened Dicts
  import opened Records

  /** The map after every row has written its entry (`entryOf` gives `None` for
      a row that is skipped). */
  function ScoreMapOf<R, V>(rows: seq<R>, entryOf: R -> Option<(string, V)>): Dict<V>
  {
    if rows == [] then Dict([])
    else
      var d := ScoreMapOf(rows[..|rows| - 1], entryOf);
      match entryOf(rows[|rows| - 1])
      case None => d
      case Some(e) => Put(d, e.0, e.1)
  }

  /** Row `r` writes key `k`. */
  predicate Writes<R, V>(entryOf: R -> Option<(string, V)>, r: R, k: string)
  {
    entryOf(r).Some? && entryOf(r).value.0 == k
  }

  /** The value the last row writing `k` writes, if any row does. */
  function LastWrite<R, V>(rows: seq<R>, entryOf: R -> Option<(string, V)>, k: string): (r: Option<V>)
    ensures r.None? <==> forall i :: 0 <= i < |rows| ==> !Writes(entryOf, rows[i], k)
    ensures r.Some? ==>
      exists i ::
        && 0 <= i < |rows| && entryOf(rows[i]) == Some((k, r.value))
        && forall j :: i < j < |rows| ==> !Writes(entryOf, rows[j], k)
  {
    if rows == [] then None
    else
      var last := rows[|rows| - 1];
      if Writes(entryOf, last, k) then Some(entryOf(last).value.1)
      else
        var init := rows[..|rows| - 1];
        var p := LastWrite(init, entryOf, k);
        assert forall i :: 0 <= i < |init| ==> init[i] == rows[i];
        p
  }

  /** The map holds each key once, and under each key exactly the value the last
      row writing that key writes; a key no row writes is absent. */
  lemma {:induction false} ScoreMapLookup<R, V>(rows: seq<R>, entryOf: R -> Option<(string, V)>)
    ensures Valid(ScoreMapOf(rows, entryOf))
    ensures forall k :: Get(ScoreMapOf(rows, entryOf), k) == LastWrite(rows, entryOf, k)
  {
    if rows != [] {
      var init := rows[..|rows| - 1];
      ScoreMapLookup(init, entryOf);
      var d := ScoreMapOf(init, entryOf);
      match entryOf(rows[|rows| - 1])
      case None =>
      case Some(e) =>
        PutGet(d, e.0, e.1);
    }
  }

  /** The keys of the map are exactly the keys some row writes. */
  lemma ScoreMapKeys<R, V>(rows: seq<R>, entryOf: R -> Option<(string, V)>, k: string)
    ensures k in Keys(ScoreMapOf(rows, entryOf)) <==> exists i :: 0 <= i < |rows| && Writes(entryOf, rows[i], k)
  {
    ScoreMapLookup(rows, entryOf);
    var m := ScoreMapOf(rows, entryOf);
    assert Get(m, k).None? <==> LastWrite(rows, entryOf, k).None?;
  }

  // ---- the per-period map of the bundled monthly data ----

  /** The key a component files a row under: its `'WARD CODE'` or its `source_location`. */
  datatype KeyField = WardCodeKey | SourceLocationKey

  function KeyOf(r: Row, kf: KeyField): string
  {
    match kf
    case WardCodeKey => r.wardCode
    case SourceLocationKey => r.sourceLocation
  }

  /** What a row writes: under its key, the parsed metric of the score type,
      when it is of the selected period, has a non-empty key and the metric
      parses. */
  function PeriodScoreEntry(year: int, month: int, t: ScoreType, kf: KeyField, r: Row): Option<(string, real)>
  {
    if r.year == year && r.month == month && KeyOf(r, kf) != "" then
      match ParseFloat(Value(r, MetricOf(t)))
      case None => None
      case Some(v) => Some((KeyOf(r, kf), v))
    else None
  }

  function PeriodEntry(year: int, month: int, t: ScoreType, kf: KeyField): Row -> Option<(string, real)>
  {
    r => PeriodScoreEntry(year, month, t, kf, r)
  }

  /** `regionalScoreMap`: a key exactly for the keys of rows of the selected
      period whose metric parses, holding the value of the last such row. */
  method PeriodScoreMap(rows: seq<Row>, year: int, month: int, t: ScoreType, kf: KeyField) returns (m: Dict<real>)
    ensures m == ScoreMapOf(rows, PeriodEntry(year, month, t, kf))
    ensures Valid(m)
    ensures forall k :: Get(m, k) == LastWrite(rows, PeriodEntry(year, month, t, kf), k)
    ensures forall k :: k in Keys(m) <==> PeriodWrites(rows, year, month, t, kf, k)
  {
    m := Dict([]);
    var i := 0;
    while i < |rows|
      invariant 0 <= i <= |rows|
      invariant m == ScoreMapOf(rows[..i], PeriodEntry(year, month, t, kf))
    {
      var entry := rows[i];
      var key := KeyOf(entry, kf);
      if entry.year == year && entry.month == month && key != "" {
        var value := ParseFloat(Value(entry, MetricOf(t)));
        if value.Some? {
          m := Put(m, key, value.value);
        }
      }
      assert rows[..i + 1][..i] == rows[..i];
      i := i + 1;
    }
    assert rows[..|rows|] == rows;
    ScoreMapLookup(rows, PeriodEntry(year, month, t, kf));
    forall k ensures k in Keys(m) <==> PeriodWrites(rows, year, month, t, kf, k) {
      PeriodScoreMapKeys(rows, year, month, t, kf, k);
    }
  }

  /** Some row of the period with key `k` has a metric that parses. */
  predicate PeriodWrites(rows: seq<Row>, year: int, month: int, t: ScoreType, kf: KeyField, k: string)
  {
    exists i :: 0 <= i < |rows| && rows[i].year == year && rows[i].month == month && KeyOf(rows[i], kf) == k
      && k != "" && ParseFloat(Value(rows[i], MetricOf(t))).Some?
  }

  lemma PeriodScoreMapKeys(rows: seq<Row>, year: int, month: int, t: ScoreType, kf: KeyField, k: string)
    ensures k in Keys(ScoreMapOf(rows, PeriodEntry(year, month, t, kf))) <==> PeriodWrites(rows, year, month, t, kf, k)
  {
    ScoreMapKeys(rows, PeriodEntry(year, month, t, kf), k);
    if PeriodWrites(rows, year, month, t, kf, k) {
      var i :| 0 <= i < |rows| && rows[i].year == year && rows[i].month == month && KeyOf(rows[i], kf) == k
        && k != "" && ParseFloat(Value(rows[i], MetricOf(t))).Some?;
      assert Writes(PeriodEntry(year, month, t, kf), rows[i], k);
    }
  }
}
