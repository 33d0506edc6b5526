/**
  `PortugalBankingProviderSimulationJob`, the direct mode of the Portugal
  flow: build a banking payload, write it and its income into the record
  without going through the webhook, and enqueue a validation of the income
  rule alone.
*/
module PortugalBankingSimulation {
  import opened Wrappers
  import opened Text
  import opened JsonValues
  import opened Faults
  import opened Jobs
  import opened Records
  import opened AuditTrigger
  import opened CreditApplication
  import opened BankingPayload
  import PortugalValidationJob

  const PhonePrefix: string := "+351 "
  const PhoneLow: nat := 900000000
  const PhoneHigh: nat := 999999999
  const IncomeValidation: seq<string> := ["requested_amount_vs_monthly_income"]

  /** `banking_data.dig(:monthly_data, :income)` when it is present and a number: the income the record takes. */
  function PresentIncome(p: map<string, Json>): (r: Option<int>)
    ensures r.Some? <==> Dig(p, "monthly_data", "income").Success? && Dig(p, "monthly_data", "income").value.JNum?
    ensures r.Some? ==> Dig(p, "monthly_data", "income").value == JNum(r.value)
  {
    match Dig(p, "monthly_data", "income")
    case Success(JNum(h)) => Some(h)
    case _ => None
  }

  /** The record `update_credit_application` saves: the payload as `banking_data` and, when present, its income. */
  function DirectUpdate(a: Application, p: map<string, Json>): (b: Application)
    ensures b.(bankingData := a.bankingData, monthlyIncome := a.monthlyIncome) == a
    ensures b.bankingData == JObj(p)
    ensures b.monthlyIncome == (if PresentIncome(p).Some? then PresentIncome(p) else a.monthlyIncome)
  {
    a.(bankingData := JObj(p), monthlyIncome := if PresentIncome(p).Some? then PresentIncome(p) else a.monthlyIncome)
  }

  /** The job `update_credit_application` enqueues: an income-only validation, when an income was found. */
  function DirectJobs(a: Application, p: map<string, Json>): seq<Job>
  {
    if PresentIncome(p).Some? then [PortugalValidation(a.id, Some(IncomeValidation))] else []
  }

  /**
    `perform(credit_application_id)`: `find` raises for a missing id;
    otherwise the payload is written into the record and returned. The
    validation is enqueued before `save!`, so it stays enqueued even when the
    save raises `RecordInvalid`.
  */
  method Perform(db: Database, queue: JobQueue, id: int, d: Draws) returns (r: Result<map<string, Json>, Fault>)
    requires db.Valid() && InRange(d, PhoneLow, PhoneHigh)
    modifies db, db.cable, queue
    ensures db.Valid() && db.nextId == old(db.nextId) && db.cable.failing == old(db.cable.failing)
    ensures db.cache == old(db.cache) && db.cable.broadcasts == old(db.cable.broadcasts)
    ensures old(db.Find(id)).None? ==>
      r == Failure(RecordNotFound(id)) && db.apps == old(db.apps) && db.events == old(db.events) && queue.jobs == old(queue.jobs)
    ensures old(db.Find(id)).Some? ==>
      var k := old(db.Find(id)).value;
      var a := old(db.apps[k]);
      var p := Payload(a, d, PhonePrefix);
      queue.jobs == old(queue.jobs) + DirectJobs(a, p)
      && (RecordErrors(DirectUpdate(a, p)) != [] ==>
            r == Failure(RecordInvalid(RecordErrors(DirectUpdate(a, p)))) && db.apps == old(db.apps) && db.events == old(db.events))
      && (RecordErrors(DirectUpdate(a, p)) == [] ==>
            r == Success(p) && db.apps == old(db.apps)[k := DirectUpdate(a, p)]
            && db.events == old(db.events) + ChangeEvents(a, DirectUpdate(a, p)))
  {
    var found := db.Find(id);
    if found.None? {
      return Failure(RecordNotFound(id));
    }
    var payload := Payload(db.apps[found.value], d, PhonePrefix);
    r := UpdateDirect(db, queue, found.value, payload);
  }

  /** `update_credit_application(credit_application, banking_data)`. */
  method UpdateDirect(db: Database, queue: JobQueue, k: Key, p: map<string, Json>) returns (r: Result<map<string, Json>, Fault>)
    requires db.Valid() && k in db.apps
    modifies db, db.cable, queue
    ensures db.Valid() && db.nextId == old(db.nextId) && db.cable.failing == old(db.cable.failing)
    ensures db.cache == old(db.cache) && db.cable.broadcasts == old(db.cable.broadcasts)
    ensures var a := old(db.apps[k]);
      queue.jobs == old(queue.jobs) + DirectJobs(a, p)
      && (RecordErrors(DirectUpdate(a, p)) != [] ==>
            r == Failure(RecordInvalid(RecordErrors(DirectUpdate(a, p)))) && db.apps == old(db.apps) && db.events == old(db.events))
      && (RecordErrors(DirectUpdate(a, p)) == [] ==>
            r == Success(p) && db.apps == old(db.apps)[k := DirectUpdate(a, p)]
            && db.events == old(db.events) + ChangeEvents(a, DirectUpdate(a, p)))
  {
    var a := db.apps[k];
    var income := PresentIncome(p);
    if income.Some? {
      queue.PerformLater(PortugalValidation(a.id, Some(IncomeValidation)));
    }
    var errors := SaveBanking(db, k, DirectUpdate(a, p));
    if errors != [] {
      return Failure(RecordInvalid(errors));
    }
    r := Success(p);
  }

  /** The phone the Portugal simulator sends is "+351 " and nine digits starting with 9. */
  lemma PhoneDigits(n: nat)
    requires PhoneLow <= n <= PhoneHigh
    ensures |Phone(PhonePrefix, n)| == |PhonePrefix| + 9
  {
    assert Pow10(2) == 100;
    assert Pow10(4) == 10000;
    assert Pow10(8) == 100000000;
    assert Pow10(9) == 1000000000;
    PhoneLength(PhonePrefix, n, 9);
  }

  /**
    For a stored record and picks in range, the direct mode always finds the
    income, saves it with the payload, and enqueues exactly one validation,
    which evaluates the income rule and nothing else.
  */
  lemma DirectModeOutcome(a: Application, d: Draws)
    requires ValidRecord(a) && InRange(d, PhoneLow, PhoneHigh)
    ensures var p := Payload(a, d, PhonePrefix);
      PresentIncome(p) == Some(d.incomeHundredths)
      && DirectUpdate(a, p).monthlyIncome == Some(d.incomeHundredths)
      && RecordErrors(DirectUpdate(a, p)) == []
      && DirectJobs(a, p) == [PortugalValidation(a.id, Some(IncomeValidation))]
    ensures PortugalValidationJob.SelectRules(Some(IncomeValidation)) == [PortugalValidationJob.RequestedAmountVsMonthlyIncome]
  {
    PayloadIncome(a, d, PhonePrefix);
    var rules := PortugalValidationJob.SelectRules(Some(IncomeValidation));
    assert PortugalValidationJob.RuleName(PortugalValidationJob.IdentityDocumentFormat) !in IncomeValidation;
    assert PortugalValidationJob.RequestedAmountVsMonthlyIncome in rules;
    assert PortugalValidationJob.IdentityDocumentFormat !in rules;
  }
}
