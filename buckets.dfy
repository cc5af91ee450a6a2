/** The threshold bucketing the crime scales share: the first threshold the
    score does not exceed, and the last bucket when it exceeds them all. */
module Buckets {

  /** The crime thresholds of both bucket scales. */
  const CrimeThresholds: seq<real> := [0.0, 1.0, 2.0, 4.0, 6.0, 7.0, 10.0, 13.0, 17.0, 23.0, 248.0]

  /** `thresholds.findIndex(t => score <= t)`. */
  function FindFirstAtLeast(ts: seq<real>, score: real): (i: int)
    ensures -1 <= i < |ts|
    ensures i >= 0 ==> score <= ts[i]
    ensures forall j :: 0 <= j < |ts| && (i == -1 || j < i) ==> score > ts[j]
  {
    if ts == [] then -1
    else if score <= ts[0] then 0
    else
      var j := FindFirstAtLeast(ts[1..], score);
      if j == -1 then -1 else j + 1
  }

  /** The bucket index: the first threshold at or above the score, or the last
      index when the score exceeds every threshold. */
  function BucketIndex(ts: seq<real>, score: real): (i: nat)
    requires ts != []
    ensures i < |ts|
    ensures score <= ts[i] || i == |ts| - 1
    ensures forall j :: 0 <= j < i ==> score > ts[j]
  {
    var i := FindFirstAtLeast(ts, score);
    if i == -1 then |ts| - 1 else i
  }

  /** A larger score never lands in a lower bucket, whatever the thresholds. */
  lemma BucketMonotone(ts: seq<real>, a: real, b: real)
    requires ts != [] && a <= b
    ensures BucketIndex(ts, a) <= BucketIndex(ts, b)
  {
  }

  /** The crime buckets lie in 0..10; scores above 248 share bucket 10. */
  lemma CrimeBucketRange(score: real)
    ensures BucketIndex(CrimeThresholds, score) <= 10
    ensures score > 248.0 ==> BucketIndex(CrimeThresholds, score) == 10
    ensures score <= 0.0 ==> BucketIndex(CrimeThresholds, score) == 0
  {
  }

  /** A score of 10 sits exactly on the seventh threshold. */
  lemma CrimeBucketOfTen()
    ensures BucketIndex(CrimeThresholds, 10.0) == 6
  {
    assert CrimeThresholds[6] == 10.0;
  }

  /** A score of 25 is past the 23 threshold, so it falls in the 248 bucket, the last. */
  lemma CrimeBucketOfTwentyFive()
    ensures BucketIndex(CrimeThresholds, 25.0) == 10
  {
    assert CrimeThresholds[9] == 23.0 && CrimeThresholds[10] == 248.0;
  }
}
