/** Cross-referencing ward codes and place names through the `/wards` pairs:
    `wardMappings.find(...)` by code or by name. */
module Wards {
  import opened Wrappers
  import opened Records

  /** `wardMappings.find(m => m.ward_code === code)`. */
  function FindByWard(ms: seq<WardMapping>, code: string): (r: Option<WardMapping>)
    ensures r.None? <==> forall i :: 0 <= i < |ms| ==> ms[i].wardCode != code
    ensures r.Some? ==> exists i :: 0 <= i < |ms| && ms[i] == r.value && r.value.wardCode == code
                          && forall j :: 0 <= j < i ==> ms[j].wardCode != code
  {
    if ms == [] then None
    else if ms[0].wardCode == code then Some(ms[0])
    else
      var r := FindByWard(ms[1..], code);
      assert forall j :: 1 <= j < |ms| ==> ms[j] == ms[1..][j - 1];
      r
  }

  /** `wardMappings.find(m => m.source_location === name)`. */
  function FindByLocation(ms: seq<WardMapping>, name: string): (r: Option<WardMapping>)
    ensures r.None? <==> forall i :: 0 <= i < |ms| ==> ms[i].sourceLocation != name
    ensures r.Some? ==> exists i :: 0 <= i < |ms| && ms[i] == r.value && r.value.sourceLocation == name
                          && forall j :: 0 <= j < i ==> ms[j].sourceLocation != name
  {
    if ms == [] then None
    else if ms[0].sourceLocation == name then Some(ms[0])
    else
      var r := FindByLocation(ms[1..], name);
      assert forall j :: 1 <= j < |ms| ==> ms[j] == ms[1..][j - 1];
      r
  }

  /** `getSourceLocation`: the name mapped to a ward code, or the code itself. */
  function SourceLocationOf(ms: seq<WardMapping>, code: string): (name: string)
    ensures (forall i :: 0 <= i < |ms| ==> ms[i].wardCode != code) ==> name == code
    ensures (exists i :: 0 <= i < |ms| && ms[i].wardCode == code) ==>
              exists i ::
                && 0 <= i < |ms| && ms[i] == WardMapping(code, name)
                && forall j :: 0 <= j < i ==> ms[j].wardCode != code
  {
    match FindByWard(ms, code)
    case None => code
    case Some(m) => m.sourceLocation
  }

  /** `handleSelectLocation`: the ward code of the first pair with this name, or `null`. */
  function WardCodeOf(ms: seq<WardMapping>, name: string): (code: Option<string>)
    ensures code.None? <==> forall i :: 0 <= i < |ms| ==> ms[i].sourceLocation != name
    ensures code.Some? ==>
      exists i ::
        && 0 <= i < |ms| && ms[i] == WardMapping(code.value, name)
        && forall j :: 0 <= j < i ==> ms[j].sourceLocation != name
  {
    match FindByLocation(ms, name)
    case None => None
    case Some(m) => Some(m.wardCode)
  }

  /** No ward code and no name occurs in two pairs. */
  ghost predicate OneToOne(ms: seq<WardMapping>)
  {
    forall i, j :: 0 <= i < j < |ms| ==> ms[i].wardCode != ms[j].wardCode && ms[i].sourceLocation != ms[j].sourceLocation
  }

  /** With a one-to-one table, selecting a place by the name shown for a mapped
      ward code selects that ward again. */
  lemma WardRoundTrip(ms: seq<WardMapping>, code: string)
    requires OneToOne(ms)
    requires exists i :: 0 <= i < |ms| && ms[i].wardCode == code
    ensures WardCodeOf(ms, SourceLocationOf(ms, code)) == Some(code)
  {
    var name := SourceLocationOf(ms, code);
    var i :| 0 <= i < |ms| && ms[i] == WardMapping(code, name);
    var c := WardCodeOf(ms, name);
    var j :| 0 <= j < |ms| && ms[j] == WardMapping(c.value, name);
    assert i == j;
  }

  /** With a one-to-one table, the name of the ward selected for a name is that name. */
  lemma LocationRoundTrip(ms: seq<WardMapping>, name: string)
    requires OneToOne(ms)
    requires exists i :: 0 <= i < |ms| && ms[i].sourceLocation == name
    ensures WardCodeOf(ms, name).Some?
    ensures SourceLocationOf(ms, WardCodeOf(ms, name).value) == name
  {
    var code := WardCodeOf(ms, name).value;
    var i :| 0 <= i < |ms| && ms[i] == WardMapping(code, name);
    var other := SourceLocationOf(ms, code);
    var j :| 0 <= j < |ms| && ms[j] == WardMapping(code, other);
    assert i == j;
  }
}
