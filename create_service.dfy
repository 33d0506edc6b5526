/**
  `CreateCreditApplicationService#call`: build the record from the request
  parameters, save it, attach the identity document, and hand the record to
  the strategy of its country.
*/
module CreateService {
  import opened Wrappers
  import opened Text
  import opened Faults
  import opened Jobs
  import opened Records
  import opened AuditTrigger
  import opened CreditApplication
  import opened Strategies
  import opened StrategySelector

  datatype CreateParams = CreateParams(
    country: Option<string>,
    fullName: Option<string>,
    requestedAmount: DecimalInput,
    status: Option<string>,
    userId: Option<nat>,
    identityDocument: Option<Document>)

  /** The hash `call` returns: the saved record with the strategy's report, or the validation messages. */
  datatype CreateResponse = Created(key: Key, strategyResult: ProcessResult) | NotSaved(errors: seq<string>)

  /**
    Assigning `params[:status]` to the enum: a blank value becomes nil, a
    status name is taken, anything else raises `ArgumentError` while the
    record is being built.
  */
  function StatusAttribute(status: Option<string>): (r: Result<Option<Status>, Fault>)
    ensures r.Success? && r.value.Some? ==> status.Some? && StatusName(r.value.value) == status.value
    ensures r.Success? && r.value.None? <==> status.None? || Blank(status.value)
    ensures r.Failure? <==> status.Some? && !Blank(status.value) && forall s: Status :: StatusName(s) != status.value
  {
    match status
    case None => Success(None)
    case Some(v) =>
      if Blank(v) then Success(None)
      else match ParseStatus(v)
        case Some(s) => Success(Some(s))
        case None => Failure(InvalidStatus(v))
  }

  /** `build_credit_application`, with `Time.current` given as `now`. */
  function NewFor(params: CreateParams, status: Option<Status>, now: string): NewApplication
  {
    NewApplication(params.country, params.fullName, params.requestedAmount, status, now, params.userId)
  }

  /** The record an INSERT of `n` stores under `id`, with the document attached; None when the save fails or raises. */
  function InsertedFor(n: NewApplication, doc: Option<Document>, id: nat): Option<Application>
  {
    if CreateErrors(n) == [] && HasPartition(n.country.value) && n.status.Some?
    then Some(Built(n, id).(identityDocument := doc))
    else None
  }

  /**
    The audit events of attaching the sent document to the stored `a`: the
    `updated` event of the touch, when a document was sent.
  */
  function AttachEvents(a: Application, doc: Option<Document>): seq<Event>
  {
    if doc.Some? then [EventFor(Update(TupleOf(a), TupleOf(a.(identityDocument := doc))))] else []
  }

  /** What `call` returns or raises once the record `n` is built. */
  function ResultFor(n: NewApplication, id: nat): Result<CreateResponse, Fault>
  {
    if CreateErrors(n) != [] then Success(NotSaved(CreateErrors(n)))
    else if !HasPartition(n.country.value) then Failure(NoPartition(n.country.value))
    else if n.status.None? then Failure(NotNullViolation("status"))
    else
      var a := Built(n, id);
      match StrategyFor(Some(a.country))
      case Failure(f) => Failure(f)
      case Success(strategy) => Success(Created(KeyOf(a), Outcome(strategy)))
  }

  /** The jobs `call` enqueues once the record `n` is built: those of its strategy, when it is stored. */
  function JobsFor(n: NewApplication, id: nat): seq<Job>
  {
    match InsertedFor(n, None, id)
    case None => []
    case Some(a) =>
      match StrategyFor(Some(a.country))
      case Failure(_) => []
      case Success(strategy) => ScheduledJobs(strategy, a.id)
  }

  /** The record `call` leaves stored, when the INSERT happens. */
  function Inserted(params: CreateParams, now: string, id: nat): Option<Application>
  {
    match StatusAttribute(params.status)
    case Failure(_) => None
    case Success(status) => InsertedFor(NewFor(params, status, now), params.identityDocument, id)
  }

  /** What `call` returns or raises when the sequence would issue `id` next. */
  function CallResult(params: CreateParams, now: string, id: nat): Result<CreateResponse, Fault>
  {
    match StatusAttribute(params.status)
    case Failure(f) => Failure(f)
    case Success(status) => ResultFor(NewFor(params, status, now), id)
  }

  /** The ids `call` takes from the sequence: one for the INSERT it issues once the built record is valid, whether it stores or raises. */
  function IdsUsed(params: CreateParams, now: string): nat
  {
    match StatusAttribute(params.status)
    case Failure(_) => 0
    case Success(status) => if CreateErrors(NewFor(params, status, now)) == [] then 1 else 0
  }

  /** The jobs `call` enqueues. */
  function CallJobs(params: CreateParams, now: string, id: nat): seq<Job>
  {
    match StatusAttribute(params.status)
    case Failure(_) => []
    case Success(status) => JobsFor(NewFor(params, status, now), id)
  }

  /**
    The outcomes of `call`: an invalid status raises before anything is
    written; an invalid record is reported with its messages; a country
    without a partition or a missing status makes the INSERT raise. Exactly
    the calls that store a record succeed with `Created`, and the strategy
    selector never raises for them.
  */
  lemma CallOutcomes(params: CreateParams, now: string, id: nat)
    ensures var r := CallResult(params, now, id);
      (StatusAttribute(params.status).Failure? ==> r == Failure(InvalidStatus(params.status.value)))
      && (r.Failure? ==> !r.error.UnknownStrategy?)
      && (Inserted(params, now, id).Some? <==> r.Success? && r.value.Created?)
      && (Inserted(params, now, id).Some? ==>
            var a := Inserted(params, now, id).value;
            a.id == id && a.status == StatusAttribute(params.status).value.value
            && a.identityDocument == params.identityDocument && a.validationResult == [] && a.monthlyIncome.None?
            && r.value.key == KeyOf(a) && r.value.strategyResult.country == a.country
            && CallJobs(params, now, id) == ScheduledJobs(StrategyFor(Some(a.country)).value, id))
      && (Inserted(params, now, id).None? ==> CallJobs(params, now, id) == [])
  {
    match StatusAttribute(params.status)
    case Failure(f) =>
    case Success(status) =>
      var n := NewFor(params, status, now);
      if CreateErrors(n) == [] && HasPartition(n.country.value) && status.Some? {
        StoredCountryHasStrategy(n.country.value);
        OutcomeReportsCountry(StrategyFor(Some(n.country.value)).value);
      }
  }

  /**
    `call`, with `Time.current` given as `now`: the store and the queue
    change exactly as `Inserted` and `CallJobs` say, and the result is
    `CallResult`.
  */
  method Call(db: Database, queue: JobQueue, params: CreateParams, now: string) returns (r: Result<CreateResponse, Fault>)
    requires db.Valid()
    modifies db, queue
    ensures db.Valid()
    ensures r == CallResult(params, now, old(db.nextId))
    ensures Inserted(params, now, old(db.nextId)).None? ==>
      db.apps == old(db.apps) && db.events == old(db.events) && db.cache == old(db.cache)
    ensures Inserted(params, now, old(db.nextId)).Some? ==>
      var a := Inserted(params, now, old(db.nextId)).value;
      var b := a.(identityDocument := None);
      KeyOf(a) !in old(db.apps) && db.apps == old(db.apps)[KeyOf(a) := a]
      && db.events == old(db.events) + [EventFor(Insert(TupleOf(b)))] + AttachEvents(b, params.identityDocument)
      && db.cache == Without(old(db.cache), InvalidatedKeys(a.country, StatusName(a.status), ChangedFrom(None), ChangedFrom(None)))
    ensures db.nextId == old(db.nextId) + IdsUsed(params, now)
    ensures queue.jobs == old(queue.jobs) + CallJobs(params, now, old(db.nextId))
  {
    var status := StatusAttribute(params.status);
    if status.Failure? {
      return Failure(status.error);
    }
    r := InsertAndSelect(db, queue, NewFor(params, status.value, now), params.identityDocument);
  }

  /** `credit_application.save`, then the attachment and the strategy when it saved. */
  method InsertAndSelect(db: Database, queue: JobQueue, n: NewApplication, doc: Option<Document>) returns (r: Result<CreateResponse, Fault>)
    requires db.Valid()
    modifies db, queue
    ensures db.Valid()
    ensures r == ResultFor(n, old(db.nextId))
    ensures InsertedFor(n, doc, old(db.nextId)).None? ==>
      db.apps == old(db.apps) && db.events == old(db.events) && db.cache == old(db.cache)
    ensures InsertedFor(n, doc, old(db.nextId)).Some? ==>
      var a := InsertedFor(n, doc, old(db.nextId)).value;
      var b := a.(identityDocument := None);
      KeyOf(a) !in old(db.apps) && db.apps == old(db.apps)[KeyOf(a) := a]
      && db.events == old(db.events) + [EventFor(Insert(TupleOf(b)))] + AttachEvents(b, doc)
      && db.cache == Without(old(db.cache), InvalidatedKeys(a.country, StatusName(a.status), ChangedFrom(None), ChangedFrom(None)))
    ensures db.nextId == old(db.nextId) + (if CreateErrors(n) == [] then 1 else 0)
    ensures queue.jobs == old(queue.jobs) + JobsFor(n, old(db.nextId))
  {
    var outcome := db.Create(n);
    match outcome {
      case Invalid(errors) =>
        assert InsertedFor(n, None, old(db.nextId)).None?;
        r := Success(NotSaved(errors));
      case Raised(fault) =>
        assert InsertedFor(n, None, old(db.nextId)).None?;
        r := Failure(fault);
      case Saved(key) =>
        ghost var b := Built(n, old(db.nextId));
        ghost var a := b.(identityDocument := doc);
        assert InsertedFor(n, doc, old(db.nextId)) == Some(a) && InsertedFor(n, None, old(db.nextId)) == Some(b);
        assert a.(identityDocument := None) == b && key == KeyOf(a) && key == KeyOf(b);
        assert db.apps == old(db.apps)[key := b];
        r := AttachAndSelect(db, queue, key, doc);
        UpdateTwice(old(db.apps), key, b, a);
        assert doc.None? ==> a == b;
    }
  }

  /** The part of `call` after a successful save: attach the document when one was sent, then select the strategy. */
  method AttachAndSelect(db: Database, queue: JobQueue, key: Key, doc: Option<Document>) returns (r: Result<CreateResponse, Fault>)
    requires db.Valid() && key in db.apps
    modifies db, queue
    ensures db.Valid() && db.nextId == old(db.nextId) && db.cache == old(db.cache)
    ensures db.events == old(db.events) + AttachEvents(old(db.apps[key]), doc)
    ensures doc.Some? ==> db.apps == old(db.apps)[key := old(db.apps[key]).(identityDocument := doc)]
    ensures doc.None? ==> db.apps == old(db.apps)
    ensures var a := old(db.apps[key]);
      StrategyFor(Some(a.country)).Success?
      && r == Success(Created(key, Outcome(StrategyFor(Some(a.country)).value)))
      && queue.jobs == old(queue.jobs) + ScheduledJobs(StrategyFor(Some(a.country)).value, a.id)
  {
    if doc.Some? {
      db.Attach(key, doc.value);
    }
    var a := db.apps[key];
    StoredCountryHasStrategy(a.country);
    var result := Select(queue, a);
    r := Success(Created(key, result.value));
  }
}
