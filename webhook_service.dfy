/**
  `ProcessBankingDataWebhookService`: find the application a banking payload
  is about, store the payload and the income it reports, and run the Mexico
  validation for Mexico applications. Every exception becomes a failure
  carrying its message.
*/
module WebhookService {
  import opened Wrappers
  import opened Text
  import opened JsonValues
  import opened Faults
  import opened Records
  import opened AuditTrigger
  import opened NotificationService
  import opened CreditApplication
  import opened MexicoValidationJob

  const NotFoundMessage: string := "No se encontró una solicitud de crédito para los datos proporcionados"

  /** The hash `call` returns; a success carries `credit_application.id`, the `[id, country]` key. */
  datatype WebhookResponse = Processed(applicationId: Key) | Failed(errors: seq<string>)

  // ---------------------------------------------------------------- find_credit_application

  /**
    `country_param`, unwrapped from an array, then `&.to_s&.downcase`: nil
    stays nil, any other value is printed and down-cased. An array or hash
    left after unwrapping prints through `inspect`, which is not modelled and
    is kept as None, which no record matches.
  */
  function CountryParam(params: map<string, Json>): (r: Option<string>)
    ensures r.Some? <==> !FirstIfArray(Field(params, "country")).JNull? && Render(FirstIfArray(Field(params, "country"))).Some?
    ensures r.Some? ==> r.value == Downcase(Render(FirstIfArray(Field(params, "country"))).value)
  {
    var country := FirstIfArray(Field(params, "country"));
    if country.JNull? then None
    else match Render(country)
      case Some(s) => Some(Downcase(s))
      case None => None
  }

  /**
    `reference_id`, unwrapped from an array and read with `to_i` when it is
    present: None when it is absent or blank, a failure when the value has
    no `to_i`.
  */
  function ReferenceId(params: map<string, Json>): (r: Result<Option<int>, Fault>)
    ensures r == Success(None) <==> !Present(FirstIfArray(Field(params, "reference_id")))
    ensures r.Failure? ==> r.error.NoMethodError?
  {
    var reference := FirstIfArray(Field(params, "reference_id"));
    if !Present(reference) then Success(None)
    else match ToI(reference)
      case Failure(f) => Failure(f)
      case Success(n) => Success(Some(n))
  }

  /** The first lookup, `find_by(id:, country:)`. */
  function ByReference(apps: map<Key, Application>, id: Option<int>, country: Option<string>): (r: Option<Key>)
    ensures r.Some? <==> id.Some? && country.Some? && Key(id.value, country.value) in apps
    ensures r.Some? ==> r.value == Key(id.value, country.value)
  {
    if id.Some? && country.Some? && Key(id.value, country.value) in apps then Some(Key(id.value, country.value)) else None
  }

  /** `"#{name} #{lastname}".strip`, with both parts unwrapped from arrays. */
  function FallbackName(params: map<string, Json>): (r: Option<string>)
    ensures r.Some? <==> Render(FirstIfArray(Field(params, "name"))).Some? && Render(FirstIfArray(Field(params, "lastname"))).Some?
    ensures r.Some? ==> r.value == Strip(Render(FirstIfArray(Field(params, "name"))).value + " "
                                        + Render(FirstIfArray(Field(params, "lastname"))).value)
  {
    match (Render(FirstIfArray(Field(params, "name"))), Render(FirstIfArray(Field(params, "lastname"))))
    case (Some(name), Some(lastname)) => Some(Strip(name + " " + lastname))
    case _ => None
  }

  /** The second lookup, `find_by(full_name:, country:)`, for one record: both columns compare exactly. */
  predicate NameMatches(a: Application, params: map<string, Json>)
  {
    FallbackName(params) == Some(a.fullName) && CountryParam(params) == Some(a.country)
  }

  /**
    Where `find_credit_application` may land once the reference id is read:
    the record the reference id and the country name when there is one;
    otherwise any record whose full name and country match (the query has no
    order); otherwise nothing, and then no record matches.
  */
  predicate Resolution(apps: map<Key, Application>, params: map<string, Json>, id: Option<int>, found: Option<Key>)
  {
    var byReference := ByReference(apps, id, CountryParam(params));
    if byReference.Some? then found == byReference
    else match found
      case Some(k) => k in apps && NameMatches(apps[k], params)
      case None => forall k :: k in apps ==> !NameMatches(apps[k], params)
  }

  /** `find_credit_application`: the reference id and country first, then the name and country. */
  method Locate(db: Database, params: map<string, Json>) returns (r: Result<Option<Key>, Fault>)
    requires db.Valid()
    ensures r.Failure? <==> ReferenceId(params).Failure?
    ensures r.Failure? ==> r.error == ReferenceId(params).error
    ensures r.Success? ==> Resolution(db.apps, params, ReferenceId(params).value, r.value)
  {
    var reference := FirstIfArray(Field(params, "reference_id"));
    var country := CountryParam(params);
    if Present(reference) {
      var id := ToI(reference);
      if id.Failure? {
        return Failure(id.error);
      }
      if country.Some? && Key(id.value, country.value) in db.apps {
        return Success(Some(Key(id.value, country.value)));
      }
    }
    var fullName := FallbackName(params);
    if fullName.None? || country.None? {
      return Success(None);
    }
    if k :| k in db.apps && db.apps[k].fullName == fullName.value && db.apps[k].country == country.value {
      return Success(Some(k));
    }
    return Success(None);
  }

  /** A reference id that names a stored record wins over any record the name would find. */
  lemma ReferenceFirst(apps: map<Key, Application>, params: map<string, Json>, id: int, country: string, found: Option<Key>)
    requires Key(id, country) in apps && FirstIfArray(Field(params, "country")) == JStr(country) && Downcase(country) == country
    requires Resolution(apps, params, Some(id), found)
    ensures found == Some(Key(id, country))
  {
    assert CountryParam(params) == Some(country);
  }

  /** The country is matched without regard to the case it is sent in. */
  lemma CountryCaseless(params: map<string, Json>, s: string)
    ensures CountryParam(params["country" := JStr(Upcase(s))]) == CountryParam(params["country" := JStr(s)])
    ensures CountryParam(params["country" := JArr([JStr(s)])]) == CountryParam(params["country" := JStr(s)])
  {
    DowncaseUpcase(s);
  }

  /** A value wrapped in a one-element array is read as the value itself; only one level is unwrapped. */
  lemma ArraysUnwrapped(params: map<string, Json>, key: string, v: Json)
    requires !v.JArr?
    ensures var wrapped := params[key := JArr([v])];
      ReferenceId(wrapped) == ReferenceId(params[key := v]) && FallbackName(wrapped) == FallbackName(params[key := v])
  {
    UnwrappedField(params, key, v, "reference_id");
    UnwrappedField(params, key, v, "name");
    UnwrappedField(params, key, v, "lastname");
  }

  lemma UnwrappedField(params: map<string, Json>, key: string, v: Json, f: string)
    requires !v.JArr?
    ensures FirstIfArray(Field(params[key := JArr([v])], f)) == FirstIfArray(Field(params[key := v], f))
  {
  }

  /** A payload without a reference id and without names can only match a record whose full name is blank text, which no stored record has. */
  lemma NothingToMatch(apps: map<Key, Application>, params: map<string, Json>, found: Option<Key>)
    requires "reference_id" !in params && "name" !in params && "lastname" !in params
    requires forall k :: k in apps ==> ValidRecord(apps[k])
    requires Resolution(apps, params, None, found)
    ensures found.None?
  {
    NoNames(params);
    forall k | k in apps
      ensures !NameMatches(apps[k], params)
    {
      BlankNameMatchesNothing(apps[k], params);
    }
    assert ByReference(apps, None, CountryParam(params)).None?;
  }

  lemma NoNames(params: map<string, Json>)
    requires "name" !in params && "lastname" !in params
    ensures FallbackName(params) == Some([])
  {
    assert Render(FirstIfArray(Field(params, "name"))) == Some("");
    assert Render(FirstIfArray(Field(params, "lastname"))) == Some("");
    assert "" + " " + "" == " ";
    StripSpace();
  }

  lemma BlankNameMatchesNothing(a: Application, params: map<string, Json>)
    requires ValidRecord(a) && FallbackName(params) == Some([])
    ensures !NameMatches(a, params)
  {
    assert a.fullName != [];
  }

  lemma StripSpace()
    ensures Strip(" ") == []
  {
    assert IsSpace(' ');
  }

  // ---------------------------------------------------------------- update_credit_application

  /**
    `params.dig(:monthly_data, :income)`, then `present?`: NoValue when it is
    absent, a number to the hundredth, or a value that is not a number;
    `dig` through a value that is not a hash raises TypeError.
  */
  function IncomeField(params: map<string, Json>): (r: Result<DecimalInput, Fault>)
    ensures r.Failure? <==> Dig(params, "monthly_data", "income").Failure?
    ensures r.Success? && r.value.NoValue? <==> Dig(params, "monthly_data", "income").Success? && !Present(Dig(params, "monthly_data", "income").value)
    ensures r.Success? && r.value.Number? <==> Dig(params, "monthly_data", "income").Success? && Dig(params, "monthly_data", "income").value.JNum?
  {
    match Dig(params, "monthly_data", "income")
    case Failure(f) => Failure(f)
    case Success(j) =>
      if !Present(j) then Success(NoValue)
      else match j
        case JNum(h) => Success(Number(h))
        case _ => Success(NotANumber)
  }

  /** The record `save!` writes: the whole payload as `banking_data`, and the income when one is present. */
  function Ingested(a: Application, params: map<string, Json>, income: DecimalInput): (b: Application)
    ensures b.(bankingData := a.bankingData, monthlyIncome := a.monthlyIncome) == a
    ensures b.bankingData == JObj(params)
    ensures income.Number? ==> b.monthlyIncome == Some(income.cents)
    ensures !income.Number? ==> b.monthlyIncome == a.monthlyIncome
  {
    a.(bankingData := JObj(params), monthlyIncome := if income.Number? then Some(income.cents) else a.monthlyIncome)
  }

  /** The validation messages of the record `save!` is asked to write. */
  function IngestErrors(a: Application, income: DecimalInput): seq<string>
  {
    ValidationErrors(a.userId, Some(a.country), Some(a.fullName), Number(a.requestedAmount), a.applicationDate,
      if income.NoValue? then IncomeInput(a.monthlyIncome) else income)
  }

  /** For a stored record only the income can make the save fail: exactly when it is not a positive number. */
  lemma IngestErrorsOnlyIncome(a: Application, params: map<string, Json>, income: DecimalInput)
    requires ValidRecord(a)
    ensures IngestErrors(a, income) == [] <==> income.NoValue? || (income.Number? && income.cents > 0)
    ensures !income.NotANumber? ==> IngestErrors(a, income) == RecordErrors(Ingested(a, params, income))
  {
  }

  /**
    `update_credit_application`. A `dig` through a non-hash raises before
    anything is written, an invalid income makes `save!` raise
    `RecordInvalid`, and otherwise the record is saved.
  */
  method Ingest(db: Database, k: Key, params: map<string, Json>) returns (r: Result<Key, Fault>)
    requires db.Valid() && k in db.apps
    modifies db, db.cable
    ensures db.Valid() && db.nextId == old(db.nextId) && db.cable.failing == old(db.cable.failing)
    ensures db.cache == old(db.cache) && db.cable.broadcasts == old(db.cable.broadcasts)
    ensures IncomeField(params).Failure? ==>
      r == Failure(IncomeField(params).error) && db.apps == old(db.apps) && db.events == old(db.events)
    ensures IncomeField(params).Success? && IngestErrors(old(db.apps[k]), IncomeField(params).value) != [] ==>
      r == Failure(RecordInvalid(IngestErrors(old(db.apps[k]), IncomeField(params).value)))
      && db.apps == old(db.apps) && db.events == old(db.events)
    ensures IncomeField(params).Success? && IngestErrors(old(db.apps[k]), IncomeField(params).value) == [] ==>
      var b := Ingested(old(db.apps[k]), params, IncomeField(params).value);
      r == Success(k) && db.apps == old(db.apps)[k := b] && db.events == old(db.events) + ChangeEvents(old(db.apps[k]), b)
  {
    var a := db.apps[k];
    var income := IncomeField(params);
    if income.Failure? {
      return Failure(income.error);
    }
    var errors := IngestErrors(a, income.value);
    if errors != [] {
      return Failure(RecordInvalid(errors));
    }
    assert KeyOf(a) == k && ValidRecord(a);
    IngestErrorsOnlyIncome(a, params, income.value);
    var saved := SaveBanking(db, k, Ingested(a, params, income.value));
    r := Success(k);
  }

  // ---------------------------------------------------------------- trigger_validation

  /** `credit_application.country.to_s.downcase == "mexico"`. */
  predicate ValidatesNow(a: Application)
  {
    Downcase(a.country) == "mexico"
  }

  /** Of the stored countries, only Mexico triggers the validation. */
  lemma ValidatesNowMexicoOnly(a: Application)
    requires HasPartition(a.country)
    ensures ValidatesNow(a) <==> a.country == "mexico"
  {
    if a.country == "portugal" {
      assert Downcase(a.country)[0] == 'p';
    }
  }

  /** The record after the webhook: the saved record, validated when it is Mexican. */
  function AfterWebhook(b: Application): Application
  {
    if ValidatesNow(b) then MexicoValidated(b) else b
  }

  /** The audit events the validation writes after the webhook's save. */
  function TriggerEvents(b: Application): seq<Event>
  {
    if ValidatesNow(b) then ChangeEvents(b, WithChecks(b)) + ChangeEvents(WithChecks(b), MexicoValidated(b)) else []
  }

  /** The count-cache keys the validation deletes. */
  function TriggerKeys(b: Application): seq<string>
  {
    if ValidatesNow(b) then SaveKeys(b, MexicoValidated(b)) else []
  }

  /** The notifications the validation sends. */
  function TriggerNotified(b: Application, failing: bool): seq<Broadcast>
  {
    if ValidatesNow(b) then Notified(b, MexicoValidated(b), failing) else []
  }

  /** `trigger_validation`: the Mexico job, run at once, for Mexico applications only; a Portugal application is left as saved. */
  method TriggerValidation(db: Database, k: Key)
    requires db.Valid() && k in db.apps
    modifies db, db.cable
    ensures db.Valid() && db.nextId == old(db.nextId) && db.cable.failing == old(db.cable.failing)
    ensures var b := old(db.apps[k]);
      db.apps == old(db.apps)[k := AfterWebhook(b)]
      && db.events == old(db.events) + TriggerEvents(b)
      && db.cache == Without(old(db.cache), TriggerKeys(b))
      && db.cable.broadcasts == old(db.cable.broadcasts) + TriggerNotified(b, old(db.cable.failing))
  {
    var b := db.apps[k];
    assert KeyOf(b) == k && HasPartition(b.country);
    ValidatesNowMexicoOnly(b);
    if !ValidatesNow(b) {
      assert old(db.apps)[k := b] == old(db.apps);
      assert Without(old(db.cache), []) == old(db.cache);
      return;
    }
    assert db.Find(k.id) == Some(k);
    assert TriggerEvents(b) == ChangeEvents(b, WithChecks(b)) + ChangeEvents(WithChecks(b), MexicoValidated(b));
    assert AfterWebhook(b) == MexicoValidated(b) && TriggerKeys(b) == SaveKeys(b, MexicoValidated(b));
    assert TriggerNotified(b, old(db.cable.failing)) == Notified(b, MexicoValidated(b), old(db.cable.failing));
    var ignored := Perform(db, k.id);
    AppendTwice(old(db.events), ChangeEvents(b, WithChecks(b)), ChangeEvents(WithChecks(b), MexicoValidated(b)));
  }

  /**
    Delivering the same payload again to the record the first delivery
    produced is a no-op: the record saved is the one stored, the validation
    reaches the same results and status, and no audit event or notification
    follows.
  */
  lemma WebhookReplay(a: Application, params: map<string, Json>, income: DecimalInput, failing: bool)
    ensures var c := AfterWebhook(Ingested(a, params, income));
      Ingested(c, params, income) == c && AfterWebhook(c) == c
      && TriggerEvents(c) == [] && TriggerKeys(c) == [] && TriggerNotified(c, failing) == []
  {
    var b := Ingested(a, params, income);
    var c := AfterWebhook(b);
    if ValidatesNow(b) {
      MexicoValidatedIdempotent(b, failing);
      MexicoValidatedFrame(b);
      assert ValidatesNow(c);
    }
    assert Ingested(c, params, income) == c;
  }

  // ---------------------------------------------------------------- call

  /**
    `call`. `found` is where the lookup landed, once the reference id could
    be read. Nothing is written unless a record is found and its save
    succeeds; the response then carries the record's id.
  */
  method Call(db: Database, params: map<string, Json>) returns (r: WebhookResponse, ghost found: Option<Key>)
    requires db.Valid()
    modifies db, db.cable
    ensures db.Valid() && db.nextId == old(db.nextId) && db.cable.failing == old(db.cable.failing)
    ensures ReferenceId(params).Failure? ==>
      r == Failed([Message(ReferenceId(params).error)]) && db.apps == old(db.apps) && db.events == old(db.events)
    ensures ReferenceId(params).Success? ==> Resolution(old(db.apps), params, ReferenceId(params).value, found)
    ensures ReferenceId(params).Success? && found.None? ==>
      r == Failed([NotFoundMessage]) && db.apps == old(db.apps) && db.events == old(db.events)
    ensures ReferenceId(params).Success? && found.Some? ==>
      var k := found.value;
      var a := old(db.apps[k]);
      var income := IncomeField(params);
      if income.Failure? || IngestErrors(a, income.value) != [] then
        r == Failed([Message(if income.Failure? then income.error else RecordInvalid(IngestErrors(a, income.value)))])
        && db.apps == old(db.apps) && db.events == old(db.events)
      else
        var b := Ingested(a, params, income.value);
        r == Processed(k) && db.apps == old(db.apps)[k := AfterWebhook(b)]
        && db.events == old(db.events) + ChangeEvents(a, b) + TriggerEvents(b)
        && db.cache == Without(old(db.cache), TriggerKeys(b))
        && db.cable.broadcasts == old(db.cable.broadcasts) + TriggerNotified(b, old(db.cable.failing))
    ensures r.Failed? ==> db.cache == old(db.cache) && db.cable.broadcasts == old(db.cable.broadcasts)
  {
    found := None;
    var located := Locate(db, params);
    if located.Failure? {
      return Failed([Message(located.error)]), found;
    }
    found := located.value;
    if located.value.None? {
      return Failed([NotFoundMessage]), found;
    }
    var k := located.value.value;
    var ingested := Ingest(db, k, params);
    if ingested.Failure? {
      return Failed([Message(ingested.error)]), found;
    }
    TriggerValidation(db, k);
    ghost var a := old(db.apps[k]);
    ghost var b := Ingested(a, params, IncomeField(params).value);
    UpdateTwice(old(db.apps), k, b, AfterWebhook(b));
    AppendTwice(old(db.events), ChangeEvents(a, b), TriggerEvents(b));
    r := Processed(k);
  }
}
