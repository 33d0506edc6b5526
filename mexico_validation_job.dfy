/**
  `CreditRulesValidation::Mexico::ValidationJob`: evaluate the three Mexico
  rules against the stored application, save the results, then save the
  status they imply.
*/
module MexicoValidationJob {
  import opened Wrappers
  import opened Records
  import opened Faults
  import opened RuleResults
  import opened MexicoRules
  import opened CreditApplication

  /** `validate_credit_rules`: one entry per key of the `specifications` hash, in its order. */
  function MexicoChecks(a: Application): seq<Check>
  {
    [Check("identity_document_format", DocumentFormatValid(a.identityDocument)),
     Check("identity_document_fullname", FullnameMatches(a)),
     Check("requested_amount_vs_monthly_income", IncomeRatioSatisfied(a))]
  }

  /** The record after the first `update`: the results recorded, nothing else touched. */
  function WithChecks(a: Application): Application
  {
    a.(validationResult := MexicoChecks(a))
  }

  /** The record after the second `update`. */
  function MexicoValidated(a: Application): Application
  {
    var b := WithChecks(a);
    b.(status := AggregateStatus(b.validationResult))
  }

  /** The job promotes an application exactly when its document, its name and its income ratio all pass. */
  lemma MexicoValidatedStatus(a: Application)
    ensures MexicoValidated(a).status == CountryValidated <==>
      DocumentFormatValid(a.identityDocument) && FullnameMatches(a) && IncomeRatioSatisfied(a)
    ensures MexicoValidated(a).status != CountryValidated ==> MexicoValidated(a).status == CountryInvalidated
  {
    var checks := MexicoChecks(a);
    assert |checks| == 3;
    if AllPassed(checks) {
      assert checks[0].result && checks[1].result && checks[2].result;
    } else {
      var i :| 0 <= i < 3 && !checks[i].result;
      assert i == 0 || i == 1 || i == 2;
    }
  }

  /** The recorded results carry the three rule names, each once, in the registry's order. */
  lemma MexicoChecksNames(a: Application)
    ensures Names(MexicoChecks(a)) == ["identity_document_format", "identity_document_fullname", "requested_amount_vs_monthly_income"]
    ensures DistinctNames(MexicoChecks(a))
  {
    var ns := Names(MexicoChecks(a));
    assert ns[0] == "identity_document_format" && ns[1] == "identity_document_fullname";
    assert ns[2] == "requested_amount_vs_monthly_income";
  }

  /** The job changes only `validation_result` and `status`. */
  lemma MexicoValidatedFrame(a: Application)
    ensures MexicoValidated(a).(validationResult := a.validationResult, status := a.status) == a
    ensures KeyOf(MexicoValidated(a)) == KeyOf(a) && MexicoValidated(a).identityDocument == a.identityDocument
  {
  }

  /**
    Running the job a second time is a no-op: the rules read neither of the
    attributes the job writes, so the record it would save is the one
    already stored, no audit event is logged and nobody is notified.
  */
  lemma MexicoValidatedIdempotent(a: Application, failing: bool)
    ensures MexicoValidated(MexicoValidated(a)) == MexicoValidated(a)
    ensures var b := MexicoValidated(a);
      ChangeEvents(b, WithChecks(b)) + ChangeEvents(WithChecks(b), MexicoValidated(b)) == []
      && Notified(b, MexicoValidated(b), failing) == []
  {
    var b := MexicoValidated(a);
    assert MexicoChecks(b) == MexicoChecks(a);
  }

  /**
    `perform(credit_application_id)`. A missing id raises `RecordNotFound`
    and changes nothing; a stored one has its results and status saved.
  */
  method Perform(db: Database, id: int) returns (r: Result<Key, Fault>)
    requires db.Valid()
    modifies db, db.cable
    ensures db.Valid() && db.nextId == old(db.nextId) && db.cable.failing == old(db.cable.failing)
    ensures old(db.Find(id)).None? ==>
      r == Failure(RecordNotFound(id)) && db.apps == old(db.apps) && db.events == old(db.events)
      && db.cache == old(db.cache) && db.cable.broadcasts == old(db.cable.broadcasts)
    ensures old(db.Find(id)).Some? ==>
      var k := old(db.Find(id)).value;
      var a := old(db.apps[k]);
      r == Success(k)
      && db.apps == old(db.apps)[k := MexicoValidated(a)]
      && db.events == old(db.events) + ChangeEvents(a, WithChecks(a)) + ChangeEvents(WithChecks(a), MexicoValidated(a))
      && db.cable.broadcasts == old(db.cable.broadcasts) + Notified(a, MexicoValidated(a), old(db.cable.failing))
      && db.cache == Without(old(db.cache), SaveKeys(a, MexicoValidated(a)))
  {
    var found := db.Find(id);
    if found.None? {
      return Failure(RecordNotFound(id));
    }
    RecordRun(db, found.value, MexicoChecks(db.apps[found.value]));
    r := Success(found.value);
  }

  /**
    The body of `perform` once the record is loaded and its results
    computed. Both `update` calls save, because a stored record is valid and
    neither attribute they set is validated: the first logs an UPDATE when
    the results differ from the stored ones, the second logs one and
    notifies the owner when the status changes.
  */
  method RecordRun(db: Database, k: Key, checks: seq<Check>)
    requires db.Valid() && k in db.apps
    modifies db, db.cable
    ensures db.Valid() && db.nextId == old(db.nextId) && db.cable.failing == old(db.cable.failing)
    ensures var a := old(db.apps[k]);
      var a1 := a.(validationResult := checks);
      var a2 := a1.(status := AggregateStatus(checks));
      db.apps == old(db.apps)[k := a2]
      && db.events == old(db.events) + ChangeEvents(a, a1) + ChangeEvents(a1, a2)
      && db.cable.broadcasts == old(db.cable.broadcasts) + Notified(a, a2, old(db.cable.failing))
      && db.cache == Without(old(db.cache), SaveKeys(a, a2))
  {
    var a := db.apps[k];
    var a1 := a.(validationResult := checks);
    var a2 := a1.(status := AggregateStatus(checks));
    ResultsThenStatus(db.apps, k, a, a1, a2, db.cache, db.cable.failing);
    SaveStored(db, k, a1);
    ghost var apps1, events1, broadcasts1, cache1 := db.apps, db.events, db.cable.broadcasts, db.cache;
    SaveStored(db, k, a2);
    assert db.apps == apps1[k := a2] && db.events == events1 + ChangeEvents(a1, a2);
    assert db.cable.broadcasts == broadcasts1 + Notified(a1, a2, old(db.cable.failing));
    assert db.cache == Without(cache1, SaveKeys(a1, a2));
    AppendTwice(old(db.cable.broadcasts), Notified(a, a1, old(db.cable.failing)), Notified(a1, a2, old(db.cable.failing)));
  }

  /** Saving the results and then the status has the effects of one save of both. */
  lemma ResultsThenStatus(apps: map<Key, Application>, k: Key, a: Application, a1: Application, a2: Application,
                          cache: map<string, nat>, failing: bool)
    requires a1 == a.(validationResult := a1.validationResult) && a2 == a1.(status := a2.status)
    ensures apps[k := a1][k := a2] == apps[k := a2]
    ensures Notified(a, a1, failing) + Notified(a1, a2, failing) == Notified(a, a2, failing)
    ensures Without(Without(cache, SaveKeys(a, a1)), SaveKeys(a1, a2)) == Without(cache, SaveKeys(a, a2))
  {
    assert SaveKeys(a, a1) == [] && Without(cache, []) == cache;
    assert SaveKeys(a1, a2) == SaveKeys(a, a2);
  }
}
