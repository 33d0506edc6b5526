/**
  The `validation_result` document: an ordered list of `{name, result}`
  entries, the `all?` fold both validation jobs use to pick the next status,
  and the upsert by name the Portugal job applies to it.
*/
module RuleResults {
  import opened Wrappers
  import opened Records

  /** `all_validations_passed?`: `validation_result.all? { |v| v[:result] == true }`. */
  function AllPassed(checks: seq<Check>): (r: bool)
    ensures r <==> forall i :: 0 <= i < |checks| ==> checks[i].result
  {
    if checks == [] then true else checks[0].result && AllPassed(checks[1..])
  }

  /** The status a validation run moves the application to. */
  function AggregateStatus(checks: seq<Check>): Status
  {
    if AllPassed(checks) then CountryValidated else CountryInvalidated
  }

  /** A run promotes the application exactly when every rule it evaluated passed; a run of no rules promotes it. */
  lemma AggregateLaw(checks: seq<Check>)
    ensures AggregateStatus(checks) == CountryValidated <==> forall c :: c in checks ==> c.result
    ensures AggregateStatus(checks) != CountryValidated ==> AggregateStatus(checks) == CountryInvalidated
    ensures checks == [] ==> AggregateStatus(checks) == CountryValidated
  {
    if AggregateStatus(checks) != CountryValidated {
      var i :| 0 <= i < |checks| && !checks[i].result;
      assert checks[i] in checks;
    }
  }

  /** The rule names recorded, in order. */
  function Names(v: seq<Check>): (ns: seq<string>)
    ensures |ns| == |v| && forall i :: 0 <= i < |v| ==> ns[i] == v[i].name
  {
    if v == [] then [] else [v[0].name] + Names(v[1..])
  }

  /** No rule name is recorded twice. */
  predicate DistinctNames(v: seq<Check>)
  {
    forall i, j :: 0 <= i < j < |v| ==> v[i].name != v[j].name
  }

  /** `find_index { |item| item["name"] == name }`. */
  function FirstIndex(v: seq<Check>, name: string): (r: Option<nat>)
    ensures r.Some? ==> r.value < |v| && v[r.value].name == name && forall j :: 0 <= j < r.value ==> v[j].name != name
    ensures r.None? ==> forall j :: 0 <= j < |v| ==> v[j].name != name
  {
    if v == [] then None
    else if v[0].name == name then Some(0)
    else match FirstIndex(v[1..], name)
      case None => None
      case Some(i) => Some(i + 1)
  }

  /** The result recorded under a name: the first entry that carries it. */
  function Lookup(v: seq<Check>, name: string): Option<bool>
  {
    match FirstIndex(v, name)
    case None => None
    case Some(i) => Some(v[i].result)
  }

  /** `update_validation_result` on the list itself: overwrite the result in place, or append a new entry. */
  function Upsert(v: seq<Check>, name: string, result: bool): seq<Check>
  {
    match FirstIndex(v, name)
    case Some(i) => v[i := Check(name, result)]
    case None => v + [Check(name, result)]
  }

  /** u is v with the entry at i, which carries `name`, given the new result. */
  predicate UpdatedAt(v: seq<Check>, u: seq<Check>, i: int, name: string, result: bool)
  {
    0 <= i < |v| == |u| && v[i].name == name && u[i] == Check(name, result)
    && forall j :: 0 <= j < |v| && j != i ==> u[j] == v[j]
  }

  /**
    Upsert, entry by entry: an existing name keeps its place and only its
    result changes; a new name goes at the end; every other entry stays
    where it was.
  */
  lemma UpsertShape(v: seq<Check>, name: string, result: bool)
    ensures var u := Upsert(v, name, result);
      (exists i :: 0 <= i < |v| && v[i].name == name) ==>
        |u| == |v| && exists i :: UpdatedAt(v, u, i, name, result)
    ensures var u := Upsert(v, name, result);
      (forall i :: 0 <= i < |v| ==> v[i].name != name) ==>
        |u| == |v| + 1 && u[..|v|] == v && u[|v|] == Check(name, result)
  {
    var u := Upsert(v, name, result);
    match FirstIndex(v, name)
    case Some(i) =>
      assert UpdatedAt(v, u, i, name, result);
    case None =>
      assert u[..|v|] == v;
  }

  /** After an upsert the name reads back with the new result. */
  lemma UpsertLookup(v: seq<Check>, name: string, result: bool)
    ensures Lookup(Upsert(v, name, result), name) == Some(result)
  {
    var u := Upsert(v, name, result);
    match FirstIndex(v, name)
    case Some(i) =>
      assert u[i].name == name;
      FirstIndexAt(u, name, i);
    case None =>
      assert u[|v|].name == name;
      FirstIndexAt(u, name, |v|);
  }

  /** A name whose first occurrence is at i is found at i. */
  lemma FirstIndexAt(v: seq<Check>, name: string, i: nat)
    requires i < |v| && v[i].name == name && forall j :: 0 <= j < i ==> v[j].name != name
    ensures FirstIndex(v, name) == Some(i)
  {
  }

  /** An upsert leaves what every other name reads back unchanged. */
  lemma UpsertKeepsOthers(v: seq<Check>, name: string, result: bool, other: string)
    requires other != name
    ensures Lookup(Upsert(v, name, result), other) == Lookup(v, other)
  {
    var u := Upsert(v, name, result);
    assert forall j :: 0 <= j < |v| ==> (u[j].name == other <==> v[j].name == other);
    match FirstIndex(v, other)
    case Some(i) =>
      FirstIndexAt(u, other, i);
    case None =>
      assert forall j :: 0 <= j < |u| ==> u[j].name != other;
  }

  /** Names are never removed, and the only name that can appear is the one upserted. */
  lemma UpsertNames(v: seq<Check>, name: string, result: bool)
    ensures forall n :: n in Names(Upsert(v, name, result)) <==> n in Names(v) || n == name
  {
    var u := Upsert(v, name, result);
    match FirstIndex(v, name)
    case Some(i) =>
      assert Names(u) == Names(v);
    case None =>
      assert Names(u) == Names(v) + [name];
  }

  /** An upsert never records a name twice. */
  lemma UpsertDistinct(v: seq<Check>, name: string, result: bool)
    requires DistinctNames(v)
    ensures DistinctNames(Upsert(v, name, result))
  {
    UpsertShape(v, name, result);
  }

  /** Upserting the same entry twice is the same as upserting it once. */
  lemma UpsertIdempotent(v: seq<Check>, name: string, result: bool)
    ensures Upsert(Upsert(v, name, result), name, result) == Upsert(v, name, result)
  {
    var u := Upsert(v, name, result);
    match FirstIndex(v, name)
    case Some(i) =>
      FirstIndexAt(u, name, i);
      assert u[i := Check(name, result)] == u;
    case None =>
      FirstIndexAt(u, name, |v|);
      assert u[|v| := Check(name, result)] == u;
  }

  /** Upserting the result a name already reads back leaves the list as it is. */
  lemma UpsertPresent(v: seq<Check>, name: string, result: bool)
    requires Lookup(v, name) == Some(result)
    ensures Upsert(v, name, result) == v
  {
    var i := FirstIndex(v, name).value;
    assert v[i] == Check(name, result);
  }
}
