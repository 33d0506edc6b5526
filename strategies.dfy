/**
  `Strategies::MexicoCreditStrategy` and `Strategies::PortugalCreditStrategy`:
  each enqueues its country's validation job and banking simulation, in
  that order, and reports success. Nothing is validated synchronously.
*/
module Strategies {
  import opened Wrappers
  import opened Jobs
  import PortugalValidationJob

  datatype Strategy = MexicoCreditStrategy | PortugalCreditStrategy

  /** The hash `process` returns. */
  datatype ProcessResult = ProcessResult(success: bool, country: string, message: string)

  /** The country a strategy is registered under. */
  function CountryOf(s: Strategy): string
  {
    match s
    case MexicoCreditStrategy => "mexico"
    case PortugalCreditStrategy => "portugal"
  }

  function Outcome(s: Strategy): ProcessResult
  {
    match s
    case MexicoCreditStrategy => ProcessResult(true, "mexico", "Solicitud procesada con estrategia de México")
    case PortugalCreditStrategy => ProcessResult(true, "portugal", "Solicitud procesada con estrategia de Portugal")
  }

  /** The names the Portugal strategy limits its immediate validation to. */
  const PortugalImmediateValidations: seq<string> := ["identity_document_format"]

  /** `perform_mexico_specific_processing` / `perform_portugal_specific_processing`: the jobs enqueued, in order. */
  function ScheduledJobs(s: Strategy, id: int): seq<Job>
  {
    match s
    case MexicoCreditStrategy => [MexicoValidation(id), BankingSimulation(id)]
    case PortugalCreditStrategy => [PortugalValidation(id, Some(PortugalImmediateValidations)), PortugalBankingSimulation(id)]
  }

  /** Both strategies succeed and report the country they serve. */
  lemma OutcomeReportsCountry(s: Strategy)
    ensures Outcome(s).success && Outcome(s).country == CountryOf(s)
    ensures Outcome(MexicoCreditStrategy).message != Outcome(PortugalCreditStrategy).message
  {
    assert Outcome(MexicoCreditStrategy).message[41] != Outcome(PortugalCreditStrategy).message[41];
  }

  /**
    Each strategy enqueues exactly two jobs for the application, the
    country's validation first and its banking simulation second.
  */
  lemma ScheduledJobsShape(s: Strategy, id: int)
    ensures var jobs := ScheduledJobs(s, id);
      |jobs| == 2 && (forall j :: j in jobs ==> j.applicationId == id)
      && (jobs[0].MexicoValidation? || jobs[0].PortugalValidation?)
      && (jobs[1].BankingSimulation? || jobs[1].PortugalBankingSimulation?)
      && (s == MexicoCreditStrategy <==> jobs[0].MexicoValidation?)
  {
  }

  /** The Portugal strategy's immediate validation evaluates the document-format rule and nothing else. */
  lemma PortugalImmediateIsFormatOnly()
    ensures PortugalValidationJob.SelectRules(Some(PortugalImmediateValidations)) == [PortugalValidationJob.IdentityDocumentFormat]
  {
    assert PortugalValidationJob.Requested(Some(PortugalImmediateValidations), PortugalValidationJob.IdentityDocumentFormat);
    assert !PortugalValidationJob.Requested(Some(PortugalImmediateValidations), PortugalValidationJob.RequestedAmountVsMonthlyIncome) by {
      assert PortugalValidationJob.RuleName(PortugalValidationJob.RequestedAmountVsMonthlyIncome)[0] != PortugalImmediateValidations[0][0];
    }
  }

  /** `process`: enqueue the strategy's jobs for the application, then report. */
  method Process(s: Strategy, queue: JobQueue, id: int) returns (r: ProcessResult)
    modifies queue
    ensures queue.jobs == old(queue.jobs) + ScheduledJobs(s, id)
    ensures r == Outcome(s)
  {
    match s {
      case MexicoCreditStrategy =>
        queue.PerformLater(MexicoValidation(id));
        queue.PerformLater(BankingSimulation(id));
      case PortugalCreditStrategy =>
        queue.PerformLater(PortugalValidation(id, Some(PortugalImmediateValidations)));
        queue.PerformLater(PortugalBankingSimulation(id));
    }
    r := Outcome(s);
  }
}
