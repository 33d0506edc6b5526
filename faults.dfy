/** The exceptions the core raises or rescues, with the messages they carry. */
module Faults {
  import opened Text

  datatype Fault =
    | NoMethodError(methodName: string)   // a method called on a value that lacks it (`true.to_i`)
    | TypeError                           // `dig` into a value that is not a hash
    | RecordNotFound(id: int)             // `CreditApplication.find` without a row
    | RecordInvalid(messages: seq<string>) // `save!` on a record that fails validation
    | InvalidStatus(value: string)        // assigning a string outside the status enum
    | NotNullViolation(column: string)    // INSERT of NULL into a NOT NULL column
    | NoPartition(country: string)        // INSERT of a country without a table partition
    | UnknownStrategy(message: string)    // the strategy selector's ArgumentError
    | WebhookCallFailed(code: int)        // the simulator's non-2xx webhook response
    | ConnectionError                     // the webhook request could not be sent

  /**
    A stand-in for `e.message`: each text names the cause and carries the
    exception's argument. The exact wording of Ruby's and PostgreSQL's
    messages (the receiver of a missing method, the text of each `dig`
    failure, the `PG::…: ERROR:` prefix) is not reproduced.
  */
  function Message(f: Fault): string
  {
    match f
    case NoMethodError(m) => "undefined method '" + m + "'"
    case TypeError => "no implicit conversion into Hash"
    case RecordNotFound(id) => "Couldn't find CreditApplication with 'id'=" + IntToString(id)
    case RecordInvalid(ms) => "Validation failed: " + Join(ms, ", ")
    case InvalidStatus(v) => "'" + v + "' is not a valid status"
    case NotNullViolation(c) => "null value in column \"" + c + "\" violates not-null constraint"
    case NoPartition(c) => "no partition of relation \"credit_applications\" found for row"
    case UnknownStrategy(m) => m
    case WebhookCallFailed(code) => "Webhook call failed with status " + IntToString(code)
    case ConnectionError => "Failed to open TCP connection"
  }
}
