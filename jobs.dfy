/** The background jobs the core enqueues with `perform_later`. */
module Jobs {
  import opened Wrappers

  datatype Job =
    | MexicoValidation(applicationId: int)
    | PortugalValidation(applicationId: int, validationNames: Option<seq<string>>)
    | BankingSimulation(applicationId: int)
    | PortugalBankingSimulation(applicationId: int)

  /** The ActiveJob queue: jobs in the order they were enqueued. */
  class JobQueue {
    var jobs: seq<Job>

    constructor()
      ensures jobs == []
    {
      jobs := [];
    }

    method PerformLater(job: Job)
      modifies this
      ensures jobs == old(jobs) + [job]
    {
      jobs := jobs + [job];
    }
  }
}
