/**
  `CreditRulesValidation::Portugal::ValidationJob`: evaluate a subset of the
  Portugal rules one at a time, upsert each result into the stored
  `validation_result` as it is computed, then set the status from the
  results of this run alone.
*/
module PortugalValidationJob {
  import opened Wrappers
  import opened Records
  import opened Faults
  import opened AuditTrigger
  import opened RuleResults
  import opened CreditApplication

  /** The keys of `all_specifications`, in its order. */
  datatype PortugalRule = IdentityDocumentFormat | RequestedAmountVsMonthlyIncome

  const Registry: seq<PortugalRule> := [IdentityDocumentFormat, RequestedAmountVsMonthlyIncome]

  function RuleName(r: PortugalRule): string
  {
    match r
    case IdentityDocumentFormat => "identity_document_format"
    case RequestedAmountVsMonthlyIncome => "requested_amount_vs_monthly_income"
  }

  /**
    The Portugal specification classes are not part of this model: a
    `Specs` value stands for their `satisfied_by?`, evaluated on the record
    as the job holds it when the rule runs.
  */
  type Specs = (PortugalRule, Application) -> bool

  /** `validation_names.present?`: an absent or empty list of names selects every rule. */
  predicate Requested(names: Option<seq<string>>, r: PortugalRule)
  {
    names.None? || names.value == [] || RuleName(r) in names.value
  }

  /** `all_specifications.select { |name, _| requested_names.include?(name) }`, or all of them. */
  function SelectRules(names: Option<seq<string>>): (rules: seq<PortugalRule>)
    ensures IdentityDocumentFormat in rules <==> Requested(names, IdentityDocumentFormat)
    ensures RequestedAmountVsMonthlyIncome in rules <==> Requested(names, RequestedAmountVsMonthlyIncome)
    ensures |rules| <= |Registry| && forall i, j :: 0 <= i < j < |rules| ==> rules[i] == IdentityDocumentFormat && rules[j] == RequestedAmountVsMonthlyIncome
  {
    (if Requested(names, IdentityDocumentFormat) then [IdentityDocumentFormat] else [])
    + (if Requested(names, RequestedAmountVsMonthlyIncome) then [RequestedAmountVsMonthlyIncome] else [])
  }

  /** The selected rules carry distinct names. */
  lemma SelectedNamesDistinct(names: Option<seq<string>>)
    ensures forall i, j :: 0 <= i < j < |SelectRules(names)| ==> RuleName(SelectRules(names)[i]) != RuleName(SelectRules(names)[j])
  {
  }

  /** The record as stored after the upserts of the given rules, each evaluated on the record as the previous one left it. */
  function RunRecord(a: Application, rules: seq<PortugalRule>, specs: Specs): Application
    decreases |rules|
  {
    if rules == [] then a
    else
      var p := RunRecord(a, rules[..|rules| - 1], specs);
      var r := rules[|rules| - 1];
      p.(validationResult := Upsert(p.validationResult, RuleName(r), specs(r, p)))
  }

  /** The `{name:, result:}` list `validate_credit_rules` returns. */
  function RunResults(a: Application, rules: seq<PortugalRule>, specs: Specs): seq<Check>
    decreases |rules|
  {
    if rules == [] then []
    else
      var init := rules[..|rules| - 1];
      var r := rules[|rules| - 1];
      RunResults(a, init, specs) + [Check(RuleName(r), specs(r, RunRecord(a, init, specs)))]
  }

  /** The audit events the upserts of a run log: one per save that changed the list. */
  function RunEvents(a: Application, rules: seq<PortugalRule>, specs: Specs): seq<Event>
    decreases |rules|
  {
    if rules == [] then []
    else
      var init := rules[..|rules| - 1];
      RunEvents(a, init, specs) + ChangeEvents(RunRecord(a, init, specs), RunRecord(a, rules, specs))
  }

  /** The three folds, one rule further. */
  lemma RunSnoc(a: Application, rules: seq<PortugalRule>, i: nat, specs: Specs)
    requires i < |rules|
    ensures var p := RunRecord(a, rules[..i], specs);
      RunRecord(a, rules[..i + 1], specs) == p.(validationResult := Upsert(p.validationResult, RuleName(rules[i]), specs(rules[i], p)))
      && RunResults(a, rules[..i + 1], specs) == RunResults(a, rules[..i], specs) + [Check(RuleName(rules[i]), specs(rules[i], p))]
      && RunEvents(a, rules[..i + 1], specs) == RunEvents(a, rules[..i], specs) + ChangeEvents(p, RunRecord(a, rules[..i + 1], specs))
  {
    assert rules[..i + 1][..i] == rules[..i];
  }

  /** The stored record after the whole job. */
  function PortugalValidated(a: Application, names: Option<seq<string>>, specs: Specs): Application
  {
    var rules := SelectRules(names);
    RunRecord(a, rules, specs).(status := AggregateStatus(RunResults(a, rules, specs)))
  }

  /** The upserts change only `validation_result`. */
  lemma {:induction false} RunFrame(a: Application, rules: seq<PortugalRule>, specs: Specs)
    ensures RunRecord(a, rules, specs) == a.(validationResult := RunRecord(a, rules, specs).validationResult)
  {
    if rules != [] {
      RunFrame(a, rules[..|rules| - 1], specs);
    }
  }

  /** A run records one result per rule, under the rule's name, in the order the rules ran. */
  lemma {:induction false} RunNames(a: Application, rules: seq<PortugalRule>, specs: Specs)
    ensures var results := RunResults(a, rules, specs);
      |results| == |rules| && forall i :: 0 <= i < |rules| ==> results[i].name == RuleName(rules[i])
  {
    if rules != [] {
      var init := rules[..|rules| - 1];
      RunNames(a, init, specs);
      var p := RunResults(a, init, specs);
      var results := RunResults(a, rules, specs);
      var last := Check(RuleName(rules[|rules| - 1]), specs(rules[|rules| - 1], RunRecord(a, init, specs)));
      assert results == p + [last];
      forall i | 0 <= i < |rules|
        ensures results[i].name == RuleName(rules[i])
      {
        if i < |init| {
          assert results[i] == p[i] && rules[i] == init[i];
        } else {
          assert i == |rules| - 1 && results[i] == last;
        }
      }
    }
  }

  /**
    After a run whose rules have distinct names, each of them reads back
    the result this run computed for it, and every other name reads back
    what it read before the run: names written by other runs survive.
  */
  lemma {:induction false} RunRecords(a: Application, rules: seq<PortugalRule>, specs: Specs)
    requires forall i, j :: 0 <= i < j < |rules| ==> RuleName(rules[i]) != RuleName(rules[j])
    ensures var v, results := RunRecord(a, rules, specs).validationResult, RunResults(a, rules, specs);
      |results| == |rules|
      && (forall i :: 0 <= i < |rules| ==> Lookup(v, RuleName(rules[i])) == Some(results[i].result))
      && (forall n :: (forall r :: r in rules ==> RuleName(r) != n) ==> Lookup(v, n) == Lookup(a.validationResult, n))
  {
    RunNames(a, rules, specs);
    if rules != [] {
      var init := rules[..|rules| - 1];
      var last := rules[|rules| - 1];
      RunRecords(a, init, specs);
      var p := RunRecord(a, init, specs);
      var v := RunRecord(a, rules, specs).validationResult;
      var results := RunResults(a, rules, specs);
      var result := specs(last, p);
      assert v == Upsert(p.validationResult, RuleName(last), result);
      UpsertLookup(p.validationResult, RuleName(last), result);
      forall i | 0 <= i < |rules|
        ensures Lookup(v, RuleName(rules[i])) == Some(results[i].result)
      {
        if i < |rules| - 1 {
          assert rules[i] == init[i];
          UpsertKeepsOthers(p.validationResult, RuleName(last), result, RuleName(rules[i]));
        }
      }
      forall n | forall r :: r in rules ==> RuleName(r) != n
        ensures Lookup(v, n) == Lookup(a.validationResult, n)
      {
        assert last in rules;
        assert forall r :: r in init ==> r in rules;
        UpsertKeepsOthers(p.validationResult, RuleName(last), result, n);
      }
    }
  }

  /** A list of names none of which is a Portugal rule evaluates nothing and promotes the application. */
  lemma UnknownNamesValidate(a: Application, names: seq<string>, specs: Specs)
    requires names != [] && forall r :: RuleName(r) !in names
    ensures var rules := SelectRules(Some(names));
      RunRecord(a, rules, specs) == a && RunResults(a, rules, specs) == [] && RunEvents(a, rules, specs) == []
    ensures PortugalValidated(a, Some(names), specs) == a.(status := CountryValidated)
  {
    assert SelectRules(Some(names)) == [];
  }

  /** The status is that of this run's results, whatever other entries the stored list holds. */
  lemma PortugalStatus(a: Application, names: Option<seq<string>>, specs: Specs)
    ensures PortugalValidated(a, names, specs).status == CountryValidated
        <==> forall c :: c in RunResults(a, SelectRules(names), specs) ==> c.result
  {
    AggregateLaw(RunResults(a, SelectRules(names), specs));
  }

  /** x and y agree on every attribute except the two the job writes. */
  predicate SameInputs(x: Application, y: Application)
  {
    x.(validationResult := y.validationResult, status := y.status) == y
  }

  /** The rules read neither attribute the job writes. */
  ghost predicate IgnoresResults(specs: Specs)
  {
    forall r, x, y :: SameInputs(x, y) ==> specs(r, x) == specs(r, y)
  }

  /** A run over a record that already holds every result the run computes changes nothing. */
  lemma {:induction false} RunFixed(a: Application, rules: seq<PortugalRule>, specs: Specs)
    requires forall r :: r in rules ==> Lookup(a.validationResult, RuleName(r)) == Some(specs(r, a))
    ensures RunRecord(a, rules, specs) == a && RunEvents(a, rules, specs) == []
  {
    if rules != [] {
      var init := rules[..|rules| - 1];
      var last := rules[|rules| - 1];
      assert forall r :: r in init ==> r in rules;
      RunFixed(a, init, specs);
      assert last in rules;
      UpsertPresent(a.validationResult, RuleName(last), specs(last, a));
    }
  }

  /** When the rules ignore what the job writes, a run's results are the rules evaluated on the record it started from. */
  lemma {:induction false} ResultsFromStart(a: Application, rules: seq<PortugalRule>, specs: Specs)
    requires IgnoresResults(specs)
    ensures var results := RunResults(a, rules, specs);
      |results| == |rules| && forall i :: 0 <= i < |rules| ==> results[i] == Check(RuleName(rules[i]), specs(rules[i], a))
  {
    if rules != [] {
      var init := rules[..|rules| - 1];
      ResultsFromStart(a, init, specs);
      RunFrame(a, init, specs);
      var x := RunRecord(a, init, specs);
      assert SameInputs(a, x);
      var p := RunResults(a, init, specs);
      var results := RunResults(a, rules, specs);
      assert results == p + [Check(RuleName(rules[|rules| - 1]), specs(rules[|rules| - 1], x))];
      forall i | 0 <= i < |rules|
        ensures results[i] == Check(RuleName(rules[i]), specs(rules[i], a))
      {
        if i < |init| {
          assert results[i] == p[i] && rules[i] == init[i];
        } else {
          assert i == |rules| - 1 && specs(rules[i], x) == specs(rules[i], a);
        }
      }
    }
  }

  /** Records that differ only in what the job writes give the same results. */
  lemma SameResults(a: Application, b: Application, rules: seq<PortugalRule>, specs: Specs)
    requires IgnoresResults(specs) && SameInputs(a, b)
    ensures RunResults(a, rules, specs) == RunResults(b, rules, specs)
  {
    ResultsFromStart(a, rules, specs);
    ResultsFromStart(b, rules, specs);
    forall i | 0 <= i < |rules|
      ensures specs(rules[i], b) == specs(rules[i], a)
    {
    }
  }

  /** After the job, every selected rule reads back the result it gives on the record the job left. */
  lemma ValidatedHoldsResults(a: Application, names: Option<seq<string>>, specs: Specs)
    requires IgnoresResults(specs)
    ensures var b := PortugalValidated(a, names, specs);
      SameInputs(a, b) && forall r :: r in SelectRules(names) ==> Lookup(b.validationResult, RuleName(r)) == Some(specs(r, b))
  {
    var rules := SelectRules(names);
    var b := PortugalValidated(a, names, specs);
    var results := RunResults(a, rules, specs);
    RunFrame(a, rules, specs);
    assert SameInputs(a, b);
    ResultsFromStart(a, rules, specs);
    SelectedNamesDistinct(names);
    RunRecords(a, rules, specs);
    assert b.validationResult == RunRecord(a, rules, specs).validationResult;
    forall r | r in rules
      ensures Lookup(b.validationResult, RuleName(r)) == Some(specs(r, b))
    {
      var i :| 0 <= i < |rules| && rules[i] == r;
      assert results[i] == Check(RuleName(r), specs(r, a));
      SameSpec(specs, r, a, b);
    }
  }

  lemma SameSpec(specs: Specs, r: PortugalRule, x: Application, y: Application)
    requires IgnoresResults(specs) && SameInputs(x, y)
    ensures specs(r, x) == specs(r, y)
  {
  }

  /**
    Running the job twice with the same names is the same as running it
    once, when the rules read neither `validation_result` nor `status`; the
    second run logs nothing and notifies nobody.
  */
  lemma PortugalIdempotent(a: Application, names: Option<seq<string>>, specs: Specs)
    requires IgnoresResults(specs)
    ensures var b := PortugalValidated(a, names, specs);
      PortugalValidated(b, names, specs) == b && RunEvents(b, SelectRules(names), specs) == []
  {
    var rules := SelectRules(names);
    var b := PortugalValidated(a, names, specs);
    ValidatedHoldsResults(a, names, specs);
    RunFixed(b, rules, specs);
    SameResults(a, b, rules, specs);
  }

  /** `find_index { |item| item["name"] == name }`. */
  method FindIndex(v: seq<Check>, name: string) returns (idx: Option<nat>)
    ensures idx == FirstIndex(v, name)
  {
    var i := 0;
    while i < |v|
      invariant 0 <= i <= |v|
      invariant forall j :: 0 <= j < i ==> v[j].name != name
    {
      if v[i].name == name {
        FirstIndexAt(v, name, i);
        return Some(i);
      }
      i := i + 1;
    }
    return None;
  }

  /**
    `update_validation_result`: reload the record, overwrite the entry
    carrying `name` or append one, and save. Only `validation_result`
    changes, so nobody is notified and no count is invalidated.
  */
  method UpdateValidationResult(db: Database, k: Key, name: string, result: bool)
    requires db.Valid() && k in db.apps
    modifies db, db.cable
    ensures db.Valid() && db.nextId == old(db.nextId) && db.cable.failing == old(db.cable.failing)
    ensures var a := old(db.apps[k]);
      var b := a.(validationResult := Upsert(a.validationResult, name, result));
      db.apps == old(db.apps)[k := b] && db.events == old(db.events) + ChangeEvents(a, b)
    ensures db.cable.broadcasts == old(db.cable.broadcasts) && db.cache == old(db.cache)
  {
    var current := db.apps[k];
    var entries := current.validationResult;
    var existing := FindIndex(entries, name);
    if existing.Some? {
      entries := entries[existing.value := Check(name, result)];
    } else {
      entries := entries + [Check(name, result)];
    }
    assert Without(db.cache, []) == db.cache;
    SaveStored(db, k, current.(validationResult := entries));
  }

  /**
    `perform(credit_application_id, validation_names)`. A missing id raises
    `RecordNotFound` and changes nothing. Otherwise each selected rule is
    evaluated on the record as last saved and its result upserted; then the
    status is saved, which notifies the owner when it changed.
  */
  method Perform(db: Database, id: int, names: Option<seq<string>>, specs: Specs) returns (r: Result<Key, Fault>)
    requires db.Valid()
    modifies db, db.cable
    ensures db.Valid() && db.nextId == old(db.nextId) && db.cable.failing == old(db.cable.failing)
    ensures old(db.Find(id)).None? ==>
      r == Failure(RecordNotFound(id)) && db.apps == old(db.apps) && db.events == old(db.events)
      && db.cache == old(db.cache) && db.cable.broadcasts == old(db.cable.broadcasts)
    ensures old(db.Find(id)).Some? ==>
      var k := old(db.Find(id)).value;
      var a := old(db.apps[k]);
      var final := PortugalValidated(a, names, specs);
      r == Success(k)
      && db.apps == old(db.apps)[k := final]
      && db.events == old(db.events) + RunEvents(a, SelectRules(names), specs) + ChangeEvents(RunRecord(a, SelectRules(names), specs), final)
      && db.cable.broadcasts == old(db.cable.broadcasts) + Notified(a, final, old(db.cable.failing))
      && db.cache == Without(old(db.cache), SaveKeys(a, final))
  {
    var found := db.Find(id);
    if found.None? {
      return Failure(RecordNotFound(id));
    }
    RunAndSave(db, found.value, names, specs);
    r := Success(found.value);
  }

  /** The body of `perform` once the record is loaded: the upserts, then the status `update`. */
  method RunAndSave(db: Database, k: Key, names: Option<seq<string>>, specs: Specs)
    requires db.Valid() && k in db.apps
    modifies db, db.cable
    ensures db.Valid() && db.nextId == old(db.nextId) && db.cable.failing == old(db.cable.failing)
    ensures var a := old(db.apps[k]);
      var final := PortugalValidated(a, names, specs);
      db.apps == old(db.apps)[k := final]
      && db.events == old(db.events) + RunEvents(a, SelectRules(names), specs) + ChangeEvents(RunRecord(a, SelectRules(names), specs), final)
      && db.cable.broadcasts == old(db.cable.broadcasts) + Notified(a, final, old(db.cable.failing))
      && db.cache == Without(old(db.cache), SaveKeys(a, final))
  {
    ghost var a := db.apps[k];
    ghost var rules := SelectRules(names);
    ghost var record := RunRecord(a, rules, specs);
    ghost var final := PortugalValidated(a, names, specs);
    RunFrame(a, rules, specs);
    assert SaveKeys(record, final) == SaveKeys(a, final) && Notified(record, final, db.cable.failing) == Notified(a, final, db.cable.failing);
    var results := ValidateRules(db, k, SelectRules(names), specs);
    assert db.apps[k] == record && results == RunResults(a, rules, specs);
    assert db.apps[k].(status := AggregateStatus(results)) == final;
    ghost var appsBefore, eventsBefore := db.apps, db.events;
    ghost var broadcastsBefore, cacheBefore := db.cable.broadcasts, db.cache;
    SaveStored(db, k, db.apps[k].(status := AggregateStatus(results)));
    assert db.apps == appsBefore[k := final] && db.events == eventsBefore + ChangeEvents(record, final);
    assert db.cable.broadcasts == broadcastsBefore + Notified(record, final, old(db.cable.failing));
    assert db.cache == Without(cacheBefore, SaveKeys(record, final));
    UpdateTwice(old(db.apps), k, record, final);
    AppendTwice(old(db.events), RunEvents(a, rules, specs), ChangeEvents(record, final));
  }

  /** The `map` of `validate_credit_rules`: the results of this run, in the order the rules ran. */
  method ValidateRules(db: Database, k: Key, rules: seq<PortugalRule>, specs: Specs) returns (results: seq<Check>)
    requires db.Valid() && k in db.apps
    modifies db, db.cable
    ensures db.Valid() && db.nextId == old(db.nextId) && db.cable.failing == old(db.cable.failing)
    ensures var a := old(db.apps[k]);
      results == RunResults(a, rules, specs) && db.apps == old(db.apps)[k := RunRecord(a, rules, specs)]
      && db.events == old(db.events) + RunEvents(a, rules, specs)
    ensures db.cable.broadcasts == old(db.cable.broadcasts) && db.cache == old(db.cache)
  {
    var a := db.apps[k];
    results := [];
    var i := 0;
    while i < |rules|
      invariant 0 <= i <= |rules|
      invariant db.Valid() && db.nextId == old(db.nextId) && db.cable.failing == old(db.cable.failing)
      invariant db.apps == old(db.apps)[k := RunRecord(a, rules[..i], specs)] && results == RunResults(a, rules[..i], specs)
      invariant db.events == old(db.events) + RunEvents(a, rules[..i], specs)
      invariant db.cable.broadcasts == old(db.cable.broadcasts) && db.cache == old(db.cache)
    {
      RunSnoc(a, rules, i, specs);
      ghost var p, next := RunRecord(a, rules[..i], specs), RunRecord(a, rules[..i + 1], specs);
      var rule := rules[i];
      var result := specs(rule, db.apps[k]);
      ghost var appsBefore, eventsBefore := db.apps, db.events;
      UpdateValidationResult(db, k, RuleName(rule), result);
      assert db.apps == appsBefore[k := next] && db.events == eventsBefore + ChangeEvents(p, next);
      UpdateTwice(old(db.apps), k, p, next);
      AppendTwice(old(db.events), RunEvents(a, rules[..i], specs), ChangeEvents(p, next));
      results := results + [Check(RuleName(rule), result)];
      i := i + 1;
    }
    assert rules[..i] == rules;
  }
}
