# Credit application workflow — a Dafny model

This project models the back end of a credit-application platform for two
countries, Mexico and Portugal. The back end is a Rails application on PostgreSQL:

- **Applications.** A client submits a credit application. The model
  validates it and the insert goes into the table partition of the
  application's country. A database trigger writes a `created` audit
  event. The count caches of the listing are invalidated.
- **Strategies.** The application is handed to the strategy of its
  country. Each strategy enqueues that country's validation job and a
  simulated banking-provider job.
- **Banking data, Mexico.** The Mexico simulator builds a banking payload
  and posts it to a webhook. The webhook service finds the application by
  reference id or by name, and stores the payload and its income. It then
  runs the three Mexico rules at once:
  - the identity document carries a CURP;
  - the banking name matches the application's full name;
  - the requested amount is at most 30 % of the monthly income.
- **Banking data, Portugal.** The Portugal simulator writes the payload
  straight into the record. It then enqueues a validation of the income
  rule alone.
- **Validation jobs.** These record per-rule results in
  `validation_result` and move the status to `country_validated` or
  `country_invalidated`.
- **Saves.** Every UPDATE writes an `updated` audit event with the changed
  fields. A status change notifies the application's owner over
  ActionCable and deletes the cached counts it affects.

The model has two styles:

- **Stateful parts are classes.** `CreditApplication.Database` holds the
  partitioned table as a map from `(id, country)` keys to records, the id
  sequence, the audit events and the count cache. `Jobs.JobQueue` is the
  job queue. `NotificationService.Cable` is the broadcast channel. The
  jobs and services are methods over these classes. Each method states the
  new store exactly: records, events, cache and broadcasts. Each also
  keeps the store invariant `Database.Valid`. That invariant says every
  record is valid, sits under its own key in a partition and has an issued
  id, and every cached count equals the count of every filter that maps to
  its key.
- **Pure parts are functions with lemmas.** These are the rule
  specifications, the JSON field reading of the webhook, the payload the
  simulators build, the cache keys, the audit diff and the notification
  message.

Representation choices:

- Money and every JSON number are integers in hundredths, exactly as the
  `DECIMAL(15,2)` columns hold them.
- Randomness, the clock and HTTP responses are parameters.

## Model

| member | source | states |
|---|---|---|
| `Records.ParseStatus` | backend/app/models/credit_application.rb:10-21 | a string is accepted by the status enum exactly when it is the stored name of some status, and then it is that status's name |
| `Records.ParseStatusName` | backend/app/models/credit_application.rb:10-21 | every status reads back from its stored name |
| `Records.StatusesComplete` | backend/app/models/credit_application.rb:10-21 | `statuses.keys` lists all ten statuses, each once |
| `CreditApplication.ValidationErrors` | backend/app/models/credit_application.rb:6-34 | no error exactly when the user exists, country and full name are present, the amount is a positive number, the date is present and the income is absent or a positive number; a missing user gives "User must exist" first |
| `CreditApplication.RecordErrors` | backend/app/models/credit_application.rb:29-34 | a record has no validation errors exactly when it satisfies `ValidRecord` |
| `CreditApplication.ToRowInjective` | backend/db/migrate/20251216012602_create_credit_application_events.rb:37-38 | two records with the same `to_jsonb` row differ at most in their attachment |
| `CreditApplication.UpdateLogsAChange` | backend/db/migrate/20251216012602_create_credit_application_events.rb:35-54 | an UPDATE of a record whose columns changed logs at least one field, and logs `status` exactly when the status changed |
| `CreditApplication.PageNumberOfNumeral` | backend/app/models/credit_application.rb:47 | a missing page is page 1, a printed positive number reads back as itself, and 0 becomes page 1 |
| `CreditApplication.TotalPages` | backend/app/models/credit_application.rb:64 | the page count is the fewest pages of `per_page` records that hold every record |
| `CreditApplication.EveryRecordOnAPage` | backend/app/models/credit_application.rb:47-64 | record i lies on page i / per_page + 1, which exists, between that page's offset and the next one |
| `CreditApplication.CountUnaffected` | backend/app/models/credit_application.rb:43-54 | two tables that agree on which records a filter selects give that filter the same count |
| `CreditApplication.BlankFilterNeverInvalidated` | backend/app/models/credit_application.rb:44-131 | as written, a blank country filter selects every record, yet its count key is never deleted by an insert, update or destroy |
| `CreditApplication.AllFilterCollides` | backend/app/models/credit_application.rb:37-73 | as written, the filter `country=all` shares the unfiltered listing's key although it selects no stored record |
| `CreditApplication.MatchesNormal` | backend/app/models/credit_application.rb:37-45 | the listing selects the same records whether a blank filter value is given or left out |
| `CreditApplication.ListingKeyAgrees` | backend/app/models/credit_application.rb:70-74 | for nil and present filter values the corrected key is the key as written |
| `CreditApplication.ListingKeyInvalidated` | backend/app/models/credit_application.rb:112-131 | an insert, update or destroy of a record that a filter selects deletes that filter's corrected key |
| `CreditApplication.ListingKeyInvalidatedBefore` | backend/app/models/credit_application.rb:126-131 | a status change also deletes the key of every filter that selected the record before the change |
| `CreditApplication.ListingKeyInjective` | backend/app/models/credit_application.rb:70-74 | filters that share a corrected key select the same records |
| `CreditApplication.StatusNamesHaveNoColon` | backend/app/models/credit_application.rb:10-21 | no status name contains `:` or equals `all`, so it cannot be confused with another key segment |
| `CreditApplication.CountryCodeRoundTrip` | backend/app/models/credit_application.rb:92-104 | a stored country reads back from its code, whatever the case of the code |
| `CreditApplication.CodeCountryRoundTrip` | backend/app/models/credit_application.rb:92-104 | a known code, in any case, reads back from its country in upper case |
| `CreditApplication.SaveKeepsInvariant` | backend/app/models/credit_application.rb:24-27 | saving a valid record keeps the store invariant and, with the status keys deleted, keeps every cached count correct |
| `CreditApplication.AttachKeepsInvariant` | backend/app/models/credit_application.rb:3 | attaching a document changes no row and no count |
| `CreditApplication.InsertKeepsInvariant` | backend/app/models/credit_application.rb:25 | inserting a valid record under a fresh id keeps the store invariant and, with its keys deleted, every cached count correct |
| `CreditApplication.DestroyKeepsInvariant` | backend/app/models/credit_application.rb:27 | destroying a record keeps the store invariant and, with its keys deleted, every cached count correct |
| `CreditApplication.SameSelectionSameCount` | backend/app/models/credit_application.rb:52-54 | filters that select the same records have the same count |
| `CreditApplication.EventsWithout` | backend/app/models/credit_application.rb:7 | `dependent: :destroy` removes exactly the events of the destroyed application |
| `CreditApplication.TalliesTotal` | backend/app/models/credit_application.rb:76-90 | a country's tallies add up to the number of its applications |
| `CreditApplication.Database.Find` | backend/app/jobs/credit_rules_validation/mexico/validation_job.rb:5 | `find(id)` returns a stored key with that id, or None exactly when no record has it |
| `CreditApplication.Database.Create` | backend/app/models/credit_application.rb:25-34 | an invalid record returns its messages and changes nothing; a country without a partition or a NULL status raises after using an id; otherwise the record is inserted under the next id with a `created` event and its keys deleted |
| `CreditApplication.Database.InsertNew` | backend/db/migrate/20251216012602_create_credit_application_events.rb:28-34 | the INSERT stores the built record under a fresh key, logs `created` with all its values and issues the next id |
| `CreditApplication.Database.Save` | backend/app/models/credit_application.rb:24-34 | `save` reports the validation errors; an invalid record changes nothing; a valid one is stored, logs an UPDATE when it changed, notifies iff the status changed and deletes the keys of a status change |
| `CreditApplication.Database.Commit` | backend/app/models/credit_application.rb:24-26 | a valid save stores the record with the audit events, the notification and the invalidation of its change, none when no column changed |
| `CreditApplication.Database.CommitChange` | backend/app/models/credit_application.rb:24-26 | a changed record is stored with one `updated` event, a notification iff the status moved, and the status keys deleted |
| `CreditApplication.Database.ApplyUpdate` | backend/db/migrate/20251216012602_create_credit_application_events.rb:35-54 | the UPDATE stores the record, logs its diff and keeps the store invariant |
| `CreditApplication.Database.Attach` | backend/app/services/create_credit_application_service.rb:42-44 | an attachment changes only the record's document; its touch of the record is logged as one `updated` event of the row, and no count is invalidated |
| `CreditApplication.Database.Touch` | backend/db/migrate/20251216012602_create_credit_application_events.rb:35-54 | a touch logs one `updated` event of the record and changes no record, id or count |
| `CreditApplication.TouchChangesNoColumn` | backend/db/migrate/20251216012602_create_credit_application_events.rb:35-54 | the touch's event is an `updated` event of the same id whose changed fields hold no column of the modelled row |
| `CreditApplication.Database.Destroy` | backend/app/models/credit_application.rb:7-27 | destroy removes the record and its events, logs `deleted` and deletes its count keys |
| `CreditApplication.Database.FilteredAndPaginated` | backend/app/models/credit_application.rb:42-67 | the total equals the number of matching records, the page and page count are as computed, and only the filter's corrected key is cached |
| `CreditApplication.Database.StatusCountsByCountry` | backend/app/models/credit_application.rb:76-90 | one entry per requested country, with its code and a tally of every status |
| `CreditApplication.SaveStored` | backend/app/jobs/credit_rules_validation/mexico/validation_job.rb:7-14 | `update` of the results or status of a stored record always saves, with the events, notification and invalidation of `Save` |
| `CreditApplication.SaveBanking` | backend/app/services/process_banking_data_webhook_service.rb:85-97 | `save!` of new banking data and income either raises with the validation errors and changes nothing, or stores the record and logs its change, with no notification and no cache change |
| `AuditTrigger.Diff` | backend/db/migrate/20251216012602_create_credit_application_events.rb:40-50 | every logged field is a column of NEW whose text changed, with NEW's value |
| `AuditTrigger.CollectChangedFields` | backend/db/migrate/20251216012602_create_credit_application_events.rb:41-50 | the loop over NEW's keys builds exactly `Diff` |
| `AuditTrigger.DiffReplay` | backend/db/migrate/20251216012602_create_credit_application_events.rb:40-54 | over the same columns, writing the logged new values over OLD rebuilds NEW |
| `AuditTrigger.DiffEmptyIff` | backend/db/migrate/20251216012602_create_credit_application_events.rb:40-50 | no field is logged exactly when no column's text changed |
| `AuditTrigger.LogChange` | backend/db/migrate/20251216012602_create_credit_application_events.rb:26-77 | the event is the trigger's event for the row change, keyed by NEW's id unless the row was deleted |
| `RuleResults.AllPassed` | backend/app/jobs/credit_rules_validation/mexico/validation_job.rb:32-37 | `all_validations_passed?` is true exactly when every result is true |
| `RuleResults.AggregateLaw` | backend/app/jobs/credit_rules_validation/mexico/validation_job.rb:11-15 | the status is `country_validated` exactly when every result passed, `country_invalidated` otherwise, and validated for no results |
| `RuleResults.FirstIndex` | backend/app/jobs/credit_rules_validation/portugal/validation_job.rb:62 | `find_index` gives the first entry with the name, or None when no entry has it |
| `RuleResults.UpsertShape` | backend/app/jobs/credit_rules_validation/portugal/validation_job.rb:61-70 | an existing name is updated in place with the length kept; a new name is appended at the end |
| `RuleResults.UpsertLookup` | backend/app/jobs/credit_rules_validation/portugal/validation_job.rb:61-70 | after the upsert the name reads back with the new result |
| `RuleResults.UpsertKeepsOthers` | backend/app/jobs/credit_rules_validation/portugal/validation_job.rb:61-70 | every other name reads back as before |
| `RuleResults.UpsertNames` | backend/app/jobs/credit_rules_validation/portugal/validation_job.rb:61-70 | the names after an upsert are the old names plus the upserted one |
| `RuleResults.UpsertDistinct` | backend/app/jobs/credit_rules_validation/portugal/validation_job.rb:61-70 | an upsert keeps the names distinct |
| `RuleResults.UpsertIdempotent` | backend/app/jobs/credit_rules_validation/portugal/validation_job.rb:61-70 | upserting the same result twice is upserting it once |
| `RuleResults.UpsertPresent` | backend/app/jobs/credit_rules_validation/portugal/validation_job.rb:61-70 | upserting a result already recorded changes nothing |
| `MexicoRules.IncomeRatioSatisfied` | backend/app/jobs/credit_rules_validation/mexico/requested_amount_monthly_income_specification.rb:4-11 | the rule holds exactly when an income is present and the amount is at most 0.3 times it |
| `MexicoRules.IncomeRatioReadsAmounts` | backend/app/jobs/credit_rules_validation/mexico/requested_amount_monthly_income_specification.rb:5-6 | the rule depends on the amount and the income alone |
| `MexicoRules.IncomeRatioBoundary` | backend/app/jobs/credit_rules_validation/mexico/requested_amount_monthly_income_specification.rb:10-11 | an amount of exactly 30 % passes, and one cent more fails |
| `MexicoRules.NormalizeNameIsSquishDowncase` | backend/app/jobs/credit_rules_validation/mexico/identity_document_fullname_specification.rb:13-14 | `squish.downcase.strip` equals squishing the down-cased name |
| `MexicoRules.NormalizeNameIgnoresCase` | backend/app/jobs/credit_rules_validation/mexico/identity_document_fullname_specification.rb:13-14 | normalisation ignores case, under the model's up-casing (which keeps `ß`, `ÿ`, `µ`; see "## Left out") |
| `MexicoRules.NormalizeNameIgnoresSpacing` | backend/app/jobs/credit_rules_validation/mexico/identity_document_fullname_specification.rb:13-14 | normalisation ignores the length and kind of every run of white space |
| `MexicoRules.FullnameMatches` | backend/app/jobs/credit_rules_validation/mexico/identity_document_fullname_specification.rb:4-16 | the rule holds exactly when the full name is not blank, the banking data is a hash whose name and lastname are both present, and `name lastname` as interpolation prints them equals the full name once both are squished and down-cased |
| `MexicoRules.NumberNameMatches` | backend/app/jobs/credit_rules_validation/mexico/identity_document_fullname_specification.rb:6-16 | a number in the banking data is compared as the digits it prints: name 5 and lastname `Perez` match the full name `5 Perez` |
| `MexicoRules.FullnameIgnoresCase` | backend/app/jobs/credit_rules_validation/mexico/identity_document_fullname_specification.rb:13-16 | the rule gives the same answer for the full name in any case, under the model's up-casing (which keeps `ß`, `ÿ`, `µ`; see "## Left out") |
| `MexicoRules.DocumentFormatValid` | backend/app/jobs/credit_rules_validation/mexico/identity_document_format_specification.rb:4-15 | the rule holds exactly when a document is attached, its down-cased name ends in `.file`, and its readable content up-cased contains `CURP` |
| `MexicoRules.DocumentFormatIgnoresCase` | backend/app/jobs/credit_rules_validation/mexico/identity_document_format_specification.rb:7-12 | the rule ignores the case of the file name and of the content |
| `MexicoRules.DocumentFormatExamples` | backend/app/jobs/credit_rules_validation/mexico/identity_document_format_specification.rb:5-12 | `ID.FILE` holding `curp: …` passes; a `.pdf` or a missing document fails |
| `MexicoValidationJob.MexicoValidatedStatus` | backend/app/jobs/credit_rules_validation/mexico/validation_job.rb:6-15 | the job promotes exactly when the document, name and income-ratio rules all pass, and otherwise invalidates |
| `MexicoValidationJob.MexicoChecksNames` | backend/app/jobs/credit_rules_validation/mexico/validation_job.rb:20-30 | the results carry the three rule names once each, in the registry's order |
| `MexicoValidationJob.MexicoValidatedFrame` | backend/app/jobs/credit_rules_validation/mexico/validation_job.rb:7-14 | the job changes only `validation_result` and `status` |
| `MexicoValidationJob.MexicoValidatedIdempotent` | backend/app/jobs/credit_rules_validation/mexico/validation_job.rb:4-15 | a second run computes the same record, logs no event and notifies nobody |
| `MexicoValidationJob.Perform` | backend/app/jobs/credit_rules_validation/mexico/validation_job.rb:4-15 | a missing id raises `RecordNotFound` and changes nothing; otherwise the record holds the results and their status, with the events, notification and invalidation of the two updates |
| `MexicoValidationJob.RecordRun` | backend/app/jobs/credit_rules_validation/mexico/validation_job.rb:7-14 | the two updates together store the results and the status they imply, with the effects of each save |
| `MexicoValidationJob.ResultsThenStatus` | backend/app/jobs/credit_rules_validation/mexico/validation_job.rb:7-14 | saving the results and then the status notifies and invalidates exactly as one save of both |
| `PortugalValidationJob.SelectRules` | backend/app/jobs/credit_rules_validation/portugal/validation_job.rb:19-32 | a rule is selected exactly when no names are given or its name is among them, in registry order |
| `PortugalValidationJob.SelectedNamesDistinct` | backend/app/jobs/credit_rules_validation/portugal/validation_job.rb:20-32 | the selected rules have distinct names |
| `PortugalValidationJob.RunSnoc` | backend/app/jobs/credit_rules_validation/portugal/validation_job.rb:35-42 | each rule is evaluated on the record as saved so far, then upserted and saved |
| `PortugalValidationJob.RunNames` | backend/app/jobs/credit_rules_validation/portugal/validation_job.rb:35-44 | the run returns one result per selected rule, named after it |
| `PortugalValidationJob.RunRecords` | backend/app/jobs/credit_rules_validation/portugal/validation_job.rb:35-42 | the stored list reads back each rule's result of this run and keeps every other entry |
| `PortugalValidationJob.UnknownNamesValidate` | backend/app/jobs/credit_rules_validation/portugal/validation_job.rb:26-32 | names that select no rule evaluate nothing, write nothing, and the application becomes `country_validated` |
| `PortugalValidationJob.PortugalStatus` | backend/app/jobs/credit_rules_validation/portugal/validation_job.rb:10-14 | the status is `country_validated` exactly when every result of this run passed |
| `PortugalValidationJob.ResultsFromStart` | backend/app/jobs/credit_rules_validation/portugal/validation_job.rb:35-42 | when the rules ignore what the job writes, each result is its rule evaluated on the starting record |
| `PortugalValidationJob.ValidatedHoldsResults` | backend/app/jobs/credit_rules_validation/portugal/validation_job.rb:35-42 | after the job, the stored list holds every selected rule's result on the final record |
| `PortugalValidationJob.PortugalIdempotent` | backend/app/jobs/credit_rules_validation/portugal/validation_job.rb:4-14 | a second run with the same names leaves the record unchanged and logs no event |
| `PortugalValidationJob.FindIndex` | backend/app/jobs/credit_rules_validation/portugal/validation_job.rb:62 | the loop returns the index of the first entry with the name, or None when there is none |
| `PortugalValidationJob.UpdateValidationResult` | backend/app/jobs/credit_rules_validation/portugal/validation_job.rb:47-74 | the reloaded list gets the upsert, and the save logs its change with no notification |
| `PortugalValidationJob.ValidateRules` | backend/app/jobs/credit_rules_validation/portugal/validation_job.rb:19-45 | the loop stores the run's record and events and returns its results |
| `PortugalValidationJob.Perform` | backend/app/jobs/credit_rules_validation/portugal/validation_job.rb:4-15 | a missing id raises and changes nothing; otherwise the run's records, events, notification and invalidation are stored |
| `PortugalValidationJob.RunAndSave` | backend/app/jobs/credit_rules_validation/portugal/validation_job.rb:6-14 | the run followed by the status update has the effects stated for `Perform` |
| `NotificationService.FallbackExactly` | backend/app/services/notification_service.rb:16-27 | the generic message is used exactly for `expired` and `cancelled` |
| `NotificationService.MessageIdentifiesStatus` | backend/app/services/notification_service.rb:16-27 | a descriptive message identifies its status |
| `NotificationService.NotificationFor` | backend/app/services/notification_service.rb:29-34 | the notification has type `status`, the application's `[id, country]` key (what `credit_application.id` returns under the composite primary key), its status name and the message for that status |
| `NotificationService.StreamIdentifiesUser` | backend/app/services/notification_service.rb:37-38 | the stream is `notifications:` followed by the user id, which reads back from it |
| `NotificationService.StreamsDistinct` | backend/app/services/notification_service.rb:37-38 | different users get different streams |
| `NotificationService.Cable.Send` | backend/app/services/notification_service.rb:37-43 | a broadcast is appended unless the channel fails, and the failure is reported |
| `NotificationService.NotifyStatusChange` | backend/app/services/notification_service.rb:12-44 | an application with a user gets one broadcast on its stream unless the channel fails; errors are swallowed |
| `Jobs.JobQueue.PerformLater` | backend/app/services/strategies/mexico_credit_strategy.rb:20-22 | `perform_later` appends the job to the queue |
| `Strategies.OutcomeReportsCountry` | backend/app/services/strategies/mexico_credit_strategy.rb:14 | a strategy reports success and its own country, with messages that differ between countries |
| `Strategies.ScheduledJobsShape` | backend/app/services/strategies/portugal_credit_strategy.rb:19-25 | a strategy enqueues two jobs for the application: its country's validation first, its banking simulation second |
| `Strategies.PortugalImmediateIsFormatOnly` | backend/app/services/strategies/portugal_credit_strategy.rb:20-21 | Portugal's immediate validation selects the document-format rule alone |
| `Strategies.Process` | backend/app/services/strategies/mexico_credit_strategy.rb:4-23 | `process` enqueues the strategy's jobs and returns its report |
| `StrategySelector.StrategyFor` | backend/app/services/credit_application_strategy_selector.rb:3-15 | a strategy is found exactly when the down-cased country is a registered one, and it is that country's; otherwise the error names the country |
| `StrategySelector.StrategyForIgnoresCase` | backend/app/services/credit_application_strategy_selector.rb:9-11 | the country's case does not matter, under the model's up-casing (which keeps `ß`, `ÿ`, `µ`; see "## Left out") |
| `StrategySelector.StoredCountryHasStrategy` | backend/app/services/credit_application_strategy_selector.rb:3-11 | every partitioned country has its own strategy |
| `StrategySelector.ErrorMessageNamesCountries` | backend/app/services/credit_application_strategy_selector.rb:14 | the error names the country and lists `mexico, portugal` at its end |
| `StrategySelector.Select` | backend/app/services/credit_application_strategy_selector.rb:8-21 | an unknown country raises and enqueues nothing; otherwise the strategy runs |
| `CreateService.StatusAttribute` | backend/app/services/create_credit_application_service.rb:36 | a blank status is nil, an enum name is that status, and any other value raises |
| `CreateService.CallOutcomes` | backend/app/services/create_credit_application_service.rb:9-27 | an invalid status raises; the strategy never fails for a saved record; a record is inserted exactly when the call reports it created, with the next id, the given status and document, no results, no income, and its strategy's jobs |
| `CreateService.Call` | backend/app/services/create_credit_application_service.rb:9-27 | nothing is written when no record is stored, apart from the id an INSERT that raises uses; a stored record comes with its `created` event, the touch's `updated` event when a document was sent, the `after_create` count keys deleted and one id used; the queue gets `CallJobs` |
| `CreateService.InsertAndSelect` | backend/app/services/create_credit_application_service.rb:12-26 | built attributes that fail validation change nothing; an INSERT that raises only uses an id; otherwise the record, with its document, is inserted under a fresh key with its `created` event, then the touch's event when a document was sent, its count keys are deleted, and the strategy's jobs are enqueued |
| `CreateService.AttachAndSelect` | backend/app/services/create_credit_application_service.rb:14-23 | the document is attached when present, with the touch's event and no cache change, and the strategy of the stored country runs |
| `JsonValues.DigInto` | backend/app/services/process_banking_data_webhook_service.rb:91 | `dig` into a hash reads its field |
| `WebhookService.CountryParam` | backend/app/services/process_banking_data_webhook_service.rb:44-53 | the country is nil for a missing parameter, otherwise the parameter, unwrapped from an array, printed by `to_s` and down-cased |
| `WebhookService.ReferenceId` | backend/app/services/process_banking_data_webhook_service.rb:43-48 | there is no reference id exactly when the unwrapped parameter is blank; the only failure is a `NoMethodError` from `to_i` |
| `WebhookService.ByReference` | backend/app/services/process_banking_data_webhook_service.rb:55-62 | the lookup by reference finds a record exactly when both id and country are given and that key is stored |
| `WebhookService.FallbackName` | backend/app/services/process_banking_data_webhook_service.rb:65-75 | the fallback name is the stripped `name lastname`, each part unwrapped from an array and printed as interpolation prints it (nil as nothing, numbers and booleans as `to_s`) |
| `WebhookService.Locate` | backend/app/services/process_banking_data_webhook_service.rb:40-83 | the lookup raises exactly when the reference id does; otherwise it returns a record allowed by `Resolution`: by reference first, then any name match, else nothing |
| `WebhookService.ReferenceFirst` | backend/app/services/process_banking_data_webhook_service.rb:55-61 | a stored reference id and country always win over the name |
| `WebhookService.CountryCaseless` | backend/app/services/process_banking_data_webhook_service.rb:51-53 | the country is read the same in any case and wrapped in an array, under the model's up-casing (which keeps `ß`, `ÿ`, `µ`; see "## Left out") |
| `WebhookService.ArraysUnwrapped` | backend/app/services/process_banking_data_webhook_service.rb:46-70 | a parameter wrapped in a one-element array reads as the bare value |
| `WebhookService.NothingToMatch` | backend/app/services/process_banking_data_webhook_service.rb:64-82 | without reference id and names no stored record is found |
| `WebhookService.BlankNameMatchesNothing` | backend/app/services/process_banking_data_webhook_service.rb:75-82 | an empty fallback name matches no valid record |
| `WebhookService.IncomeField` | backend/app/services/process_banking_data_webhook_service.rb:91-94 | the income field fails when `dig` fails, is absent when not present, and is a number when it is one |
| `WebhookService.Ingested` | backend/app/services/process_banking_data_webhook_service.rb:85-94 | the record gets the parameters as banking data and a numeric income, nothing else |
| `WebhookService.IngestErrorsOnlyIncome` | backend/app/services/process_banking_data_webhook_service.rb:85-96 | the save fails only for a non-positive or non-numeric income |
| `WebhookService.Ingest` | backend/app/services/process_banking_data_webhook_service.rb:85-97 | `update_credit_application` either fails with its error and changes nothing, or stores the new record and logs its change |
| `WebhookService.ValidatesNowMexicoOnly` | backend/app/services/process_banking_data_webhook_service.rb:100 | of the stored countries only Mexico runs the validation |
| `WebhookService.TriggerValidation` | backend/app/services/process_banking_data_webhook_service.rb:99-105 | a Mexico record is validated at once with all the job's effects; a Portugal record is left alone |
| `WebhookService.WebhookReplay` | backend/app/services/process_banking_data_webhook_service.rb:85-105 | delivering the same payload again changes nothing and notifies nobody |
| `WebhookService.Call` | backend/app/services/process_banking_data_webhook_service.rb:9-36 | every failure returns its message and leaves the store alone; a found record is ingested and, when Mexican, validated, and its `[id, country]` key returned as `credit_application_id` |
| `BankingPayload.FirstNameIsWord` | backend/app/jobs/banking_provider_simulation_job.rb:23-24 | the first name is always a single non-empty word without spaces, as `split` gives it |
| `BankingPayload.NameSplitKeepsWords` | backend/app/jobs/banking_provider_simulation_job.rb:23-25 | first and last name joined by a space split back into the full name's words |
| `BankingPayload.Email` | backend/app/jobs/banking_provider_simulation_job.rb:46 | the address ends in `@example.com` and has the length of `first.last` plus that domain |
| `BankingPayload.EmailHasNoSpace` | backend/app/jobs/banking_provider_simulation_job.rb:46 | the generated address contains no space |
| `BankingPayload.Phone` | backend/app/jobs/banking_provider_simulation_job.rb:47 | the phone is the prefix followed by digits only |
| `BankingPayload.AverageExpense` | backend/app/jobs/banking_provider_simulation_job.rb:40 | the expense is 60 % of the income to the nearest cent, halves rounded up |
| `BankingPayload.LoanBounds` | backend/app/jobs/banking_provider_simulation_job.rb:58-66 | a drawn loan leaves 3,000 to 24,000 remaining, below its amount, and pays 50 to 2,000 a month, the floor of remaining over months |
| `BankingPayload.ActiveLoans` | backend/app/jobs/banking_provider_simulation_job.rb:52-70 | one loan entry per draw, in order |
| `BankingPayload.PayloadFields` | backend/app/jobs/banking_provider_simulation_job.rb:31-42 | the payload carries the record's `[id, country]` key as `reference_id` (written as a two-element array), its country, split name and the monthly data |
| `BankingPayload.PayloadIncome` | backend/app/jobs/banking_provider_simulation_job.rb:29-39 | `monthly_data.income` of the payload is the drawn income |
| `MexicoBankingSimulation.WebhookAnswer` | backend/app/jobs/banking_provider_simulation_job.rb:84-95 | a 2xx status succeeds; any other status or a failed request raises with its message |
| `MexicoBankingSimulation.Perform` | backend/app/jobs/banking_provider_simulation_job.rb:7-17 | a missing id raises; otherwise the job fails exactly when the post does and returns the posted payload, whose `reference_id` is the record's `[id, country]` key |
| `MexicoBankingSimulation.PhoneDigits` | backend/app/jobs/banking_provider_simulation_job.rb:47 | the Mexico phone is `+52 ` and ten digits |
| `MexicoBankingSimulation.WebhookFindsRecord` | backend/app/jobs/banking_provider_simulation_job.rb:36-37 | the posted payload leads the webhook back to the record it was built from |
| `MexicoBankingSimulation.WebhookStoresIncome` | backend/app/jobs/banking_provider_simulation_job.rb:29-39 | the drawn income passes the webhook's save and becomes the record's monthly income |
| `PortugalBankingSimulation.PresentIncome` | backend/app/jobs/portugal_banking_provider_simulation_job.rb:78-79 | the income is taken exactly when `monthly_data.income` is a number |
| `PortugalBankingSimulation.DirectUpdate` | backend/app/jobs/portugal_banking_provider_simulation_job.rb:73-80 | the record gets the payload as banking data and the present income, nothing else |
| `PortugalBankingSimulation.Perform` | backend/app/jobs/portugal_banking_provider_simulation_job.rb:4-18 | a missing id raises; otherwise the payload, whose `reference_id` is the record's `[id, country]` key, is written, the income validation is enqueued even when the save raises, and the payload is returned |
| `PortugalBankingSimulation.UpdateDirect` | backend/app/jobs/portugal_banking_provider_simulation_job.rb:73-86 | the income validation is enqueued before `save!`, which raises or stores the record and logs its change |
| `PortugalBankingSimulation.PhoneDigits` | backend/app/jobs/portugal_banking_provider_simulation_job.rb:48 | the Portugal phone is `+351 ` and nine digits |
| `PortugalBankingSimulation.DirectModeOutcome` | backend/app/jobs/portugal_banking_provider_simulation_job.rb:73-85 | for a stored record the income is always found and saved, and exactly one validation, of the income rule alone, is enqueued |
| `Text.Downcase` | backend/app/services/credit_application_strategy_selector.rb:9 | `downcase` maps each character |
| `Text.DowncaseUpcase` | backend/app/models/credit_application.rb:92-104 | down-casing ignores a prior up-casing and the other way round, for the model's up-casing (which keeps `ß`, `ÿ`, `µ`; see "## Left out") |
| `Text.Words` | backend/app/jobs/banking_provider_simulation_job.rb:23 | `split` yields words only |
| `Text.WordsOfJoin` | backend/app/jobs/banking_provider_simulation_job.rb:25 | words joined by a space split back into themselves |
| `Text.CollapseDowncase` | backend/app/jobs/credit_rules_validation/mexico/identity_document_fullname_specification.rb:13-14 | `squish` and `downcase` commute |
| `Text.CollapseRun` | backend/app/jobs/credit_rules_validation/mexico/identity_document_fullname_specification.rb:13-14 | `squish` treats every run of white space alike |
| `Text.ContainsAt` | backend/app/jobs/credit_rules_validation/mexico/identity_document_format_specification.rb:12 | `include?` holds exactly when the pattern occurs at some position |
| `Text.ReplaceChar` | backend/app/jobs/banking_provider_simulation_job.rb:46 | `gsub(' ', '.')` replaces each space and keeps everything else |
| `Text.ParseNatToString` | backend/app/services/notification_service.rb:38 | a printed id reads back |
| `Text.NatToStringInjective` | backend/app/services/notification_service.rb:38 | different ids print differently |
| `Text.StringToIOfNat` | backend/app/services/process_banking_data_webhook_service.rb:48 | `to_i` of a printed id is the id |

## Left out

- Case mapping covers ASCII and Latin-1 letters only, and up-casing keeps three Latin-1 letters that Ruby changes: `ß` (U+00DF) becomes `SS`, `ÿ` (U+00FF) becomes `Ÿ` (U+0178) and `µ` (U+00B5) becomes `Μ` (U+039C). So `"Weiß".upcase` is `"WEISS"` in Ruby but `WEIß` here. Down-casing agrees with Ruby on all of Latin-1. For the `CURP` marker, the `.file` suffix, stored country names and codes, the result equals full Unicode case mapping. For names with those three letters, or in other scripts, it may not.
- Text.DowncaseUpcase: its first ensures (`Downcase(Upcase(s)) == Downcase(s)`) holds for Ruby's `upcase` and `downcase` only on strings without `ß` or `µ`: `"ß".upcase.downcase` is `"ss"` and `"µ".upcase.downcase` is `"μ"` (U+03BC). `ÿ` comes back through `Ÿ`. Outside Latin-1 there are more such letters, such as `ı` and `ſ`.
- MexicoRules.NormalizeNameIgnoresCase: holds for Ruby only on names without `ß` or `µ` (as for `Text.DowncaseUpcase`): `"Weiß".upcase` normalises to `weiss`, `"Weiß"` to `weiß`.
- MexicoRules.FullnameIgnoresCase: for the same reason the rule can answer differently for an up-cased full name that holds `ß` or `µ`, e.g. `WEISS` against a banking name `Weiß`.
- StrategySelector.StrategyForIgnoresCase: for a country holding `ß` or `µ` both calls fail, but Ruby's error message names `ss` or `μ` for the up-cased one, where the model's lemma says the messages are equal.
- WebhookService.CountryCaseless: for a `country` parameter holding `ß` or `µ`, Ruby reads the up-cased one with `ss` or `μ` in their place, where the lemma says it reads as the original down-cased.
- Randomness (`rand`, `sample`) and the clock are parameters of the simulators (`Draws`). Ruby's floats become exact hundredths:
  - `rand(2000.0..5000.0).round(2)` is a drawn number of cents;
  - `(base_income * 0.6).round(2)` is rounded on that exact value, halves up.
- The webhook's HTTP exchange is a parameter: the status code, or a failed connection. The URL and ENV configuration, the JSON encoding and the `sleep` are left out.
- Logging (`Rails.logger`) is left out.
- Controllers, authentication, routes and the front end are not part of this model. The listing is called with the controller's filter values and `per_page`.
- Concurrency is not modelled: jobs run one at a time against one store. The Portugal job's `reload` before each upsert reads the store as the job left it.
- Timestamps (`created_at`, `updated_at`) and the order of `recent` are not modelled. The listing returns its count, page and offset, not the rows of the page.
- The Portugal specification classes are not part of this model. Their `satisfied_by?` is the parameter `Specs`.
- `PortugalValidationJob.PortugalIdempotent`: holds only when the Portugal specifications ignore `validation_result` and `status` (`IgnoresResults`), since their source is not modelled.
- A change of country on update is excluded. No code in the core changes it; PostgreSQL would move the row between partitions.
- JSON objects are unordered maps, so key order in `banking_data` and in the audit metadata is not modelled.
- `JsonValues.Render`: an array or hash prints through `inspect`, which is not modelled. A JSON float with a zero fraction (`5.0`) prints as `5.0` in Ruby but as `5` here, since numbers are kept as exact hundredths. Floats from 1e16 up print in exponent form in Ruby; that form is not modelled.
- `MexicoRules.FullnameMatches`: a present name or lastname that is an array or hash is treated as matching no full name, since its `inspect` rendering is not modelled.
- `WebhookService.FallbackName`: a name or lastname that is still an array or hash after one unwrapping gives no fallback name, so it matches no record.
- `WebhookService.CountryParam`: a country that is still an array or hash after one unwrapping matches no record.
- `Text.StringToI`: Ruby's `to_i` reads underscores between digits (`"1_0".to_i` is 10); the model stops at the underscore and reads 1. This reaches `WebhookService.ReferenceId`.
- `CreditApplication.TouchChangesNoColumn`: the database records `updated_at` in the changed fields of the touch's event; the modelled row has no timestamps, so they are empty here.
- `Faults.Message`: the messages stand in for Ruby's and PostgreSQL's texts and name the same cause and argument, but their exact wording is not reproduced. Examples: `dig` through a string or an array raises a `TypeError` whose text depends on the receiver; the text of a `NoMethodError` names the receiver; ActiveRecord prefixes database errors with `PG::…: ERROR:`.
- `CreditApplication.Database.FilteredAndPaginated`: caches under the corrected `ListingCacheKey`, not under `count_cache_key` as written. See the two rows under "## Findings".
- `WebhookService.IncomeField`: a numeric string for `monthly_data.income` is treated as not a number, which fails validation. Rails would cast it.
- `PortugalBankingSimulation.PresentIncome`: a present income that is not a number is treated like an absent one.
- `WebhookService.Locate`: `find_by` on the name fallback has no defined order. The model allows any matching record rather than picking one.
- `ActiveStorage` attachments live outside the row. `download` is modelled as readable text or unreadable bytes.
- Rails' 5-minute expiry of cached counts is not modelled. A cached count stays until it is deleted.

Where the behaviour described for the system and the code disagree, the model follows the code:

- A Portugal validation run over a subset of the rules (the income rule after direct mode, or the document rule at creation) sets the status from that run's results alone (`backend/app/jobs/credit_rules_validation/portugal/validation_job.rb:10-14`).
- Names that select no rule make the run set `country_validated`.

## Findings

| source | as written | input that shows it | evidently intended | confidence | as-written member | corrected member |
|---|---|---|---|---|---|---|
| backend/app/models/credit_application.rb:44-131 | `count_cache_key` writes a blank filter value verbatim (`credit_applications_count::all`), while the listing treats it as no filter and `invalidate_count_cache` never deletes that key | `GET /credit_applications?country=` after any insert, status change or destroy: the cached total still counts the old table | a blank filter shares the key of the missing filter, so every change that moves a count deletes it | medium, not executed | `CreditApplication.BlankFilterNeverInvalidated` | `CreditApplication.ListingKeyInvalidated` |
| backend/app/models/credit_application.rb:70-74 | `count_cache_key` writes any filter value verbatim, so `country=all` gets the key `credit_applications_count:all:all`, the key of the unfiltered listing | `GET /credit_applications?country=all` after an unfiltered listing: `where(country: "all")` selects no record, yet the total read from the cache is the whole table's | a filter value that no record can carry never shares the key of another filter: filters that share a key select the same records | low, not executed | `CreditApplication.AllFilterCollides` | `CreditApplication.ListingKeyInjective` |
