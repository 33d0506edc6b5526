/**
  `BankingProviderSimulationJob`, the webhook mode of the Mexico flow: build
  a banking payload for the application and post it to the banking-data
  webhook. The HTTP exchange is a parameter: the status code the endpoint
  answers, or None when the request cannot be sent.
*/
module MexicoBankingSimulation {
  import opened Wrappers
  import opened Text
  import opened JsonValues
  import opened Faults
  import opened Records
  import opened CreditApplication
  import opened BankingPayload
  import opened WebhookService

  const PhonePrefix: string := "+52 "
  const PhoneLow: nat := 1000000000
  const PhoneHigh: nat := 9999999999

  /**
    `call_webhook`'s reading of the response: a status in 200..299 is
    success, any other status raises with the status in its message, and a
    request that cannot be sent raises its connection error. The rescue
    clause logs and re-raises, so every failure reaches the caller.
  */
  function WebhookAnswer(response: Option<int>): (r: Result<int, Fault>)
    ensures r.Success? <==> response.Some? && 200 <= response.value < 300
    ensures r.Success? ==> r.value == response.value
    ensures response.None? ==> r == Failure(ConnectionError)
    ensures response.Some? && r.Failure? ==> r.error == WebhookCallFailed(response.value)
  {
    match response
    case None => Failure(ConnectionError)
    case Some(code) => if 200 <= code < 300 then Success(code) else Failure(WebhookCallFailed(code))
  }

  /**
    `perform(credit_application_id)`: `find` raises for a missing id;
    otherwise the payload is built and posted, and the job fails exactly
    when the post does. On success the result is the body that was posted;
    the job itself returns whatever logging returns, which no caller reads,
    so the payload stands in for it to let lemmas speak about what was sent.
  */
  method Perform(db: Database, id: int, d: Draws, response: Option<int>) returns (r: Result<map<string, Json>, Fault>)
    requires db.Valid() && InRange(d, PhoneLow, PhoneHigh)
    ensures db.Find(id).None? ==> r == Failure(RecordNotFound(id))
    ensures db.Find(id).Some? && WebhookAnswer(response).Failure? ==> r == Failure(WebhookAnswer(response).error)
    ensures db.Find(id).Some? && WebhookAnswer(response).Success? ==>
      r == Success(Payload(db.apps[db.Find(id).value], d, PhonePrefix))
  {
    var found := db.Find(id);
    if found.None? {
      return Failure(RecordNotFound(id));
    }
    var payload := Payload(db.apps[found.value], d, PhonePrefix);
    var answer := WebhookAnswer(response);
    if answer.Failure? {
      return Failure(answer.error);
    }
    return Success(payload);
  }

  /** The phone the Mexico simulator sends is "+52 " and ten digits. */
  lemma PhoneDigits(n: nat)
    requires PhoneLow <= n <= PhoneHigh
    ensures |Phone(PhonePrefix, n)| == |PhonePrefix| + 10
  {
    assert Pow10(2) == 100;
    assert Pow10(5) == 100000;
    assert Pow10(9) == 1000000000;
    assert Pow10(10) == 10000000000;
    PhoneLength(PhonePrefix, n, 10);
  }

  /** A stored country is already lower-case, so the webhook reads it back unchanged. */
  lemma StoredCountryLower(c: string)
    requires HasPartition(c)
    ensures Downcase(c) == c
  {
    if c == "mexico" {
      assert Downcase(c) == "mexico";
    } else {
      assert Downcase(c) == "portugal";
    }
  }

  /**
    The payload the simulator posts leads the webhook back to the record it
    was built from, by its reference id and country.
  */
  lemma WebhookFindsRecord(apps: map<Key, Application>, a: Application, d: Draws, found: Option<Key>)
    requires KeyOf(a) in apps && HasPartition(a.country)
    requires InRange(d, PhoneLow, PhoneHigh)
    ensures ReferenceId(Payload(a, d, PhonePrefix)) == Success(Some(a.id))
    ensures Resolution(apps, Payload(a, d, PhonePrefix), Some(a.id), found) ==> found == Some(KeyOf(a))
  {
    PayloadFields(a, d, PhonePrefix);
    FoundByReference(apps, Payload(a, d, PhonePrefix), a, found);
  }

  /** Any body carrying a stored record's `[id, country]` key and its country resolves to that record. */
  lemma FoundByReference(apps: map<Key, Application>, p: map<string, Json>, a: Application, found: Option<Key>)
    requires KeyOf(a) in apps && HasPartition(a.country)
    requires Field(p, "reference_id") == KeyJson(KeyOf(a)) && Field(p, "country") == JStr(a.country)
    ensures ReferenceId(p) == Success(Some(a.id))
    ensures Resolution(apps, p, Some(a.id), found) ==> found == Some(KeyOf(a))
  {
    StoredCountryLower(a.country);
    assert FirstIfArray(Field(p, "reference_id")) == JNum(a.id * 100);
    assert ToI(JNum(a.id * 100)) == Success(a.id);
    if Resolution(apps, p, Some(a.id), found) {
      ReferenceFirst(apps, p, a.id, a.country, found);
    }
  }

  /**
    The income the simulator reports is one a stored record accepts: the
    webhook saves it as the record's monthly income.
  */
  lemma WebhookStoresIncome(a: Application, d: Draws)
    requires ValidRecord(a) && InRange(d, PhoneLow, PhoneHigh)
    ensures IncomeField(Payload(a, d, PhonePrefix)) == Success(Number(d.incomeHundredths))
    ensures IngestErrors(a, Number(d.incomeHundredths)) == []
    ensures Ingested(a, Payload(a, d, PhonePrefix), Number(d.incomeHundredths)).monthlyIncome == Some(d.incomeHundredths)
  {
    PayloadIncome(a, d, PhonePrefix);
    IngestErrorsOnlyIncome(a, Payload(a, d, PhonePrefix), Number(d.incomeHundredths));
  }
}
