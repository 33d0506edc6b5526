/** The stored shape of a credit application and its status enum. */
module Records {
  import opened Wrappers
  import opened JsonValues

  /** The status enum, in declaration order. */
  datatype Status =
    | Pending | Preapproved | ManualRequired | CountryValidated | CountryInvalidated
    | InReview | Approved | Rejected | Expired | Cancelled

  /** `statuses.keys`: every status, in declaration order. */
  const Statuses: seq<Status> := [Pending, Preapproved, ManualRequired, CountryValidated,
    CountryInvalidated, InReview, Approved, Rejected, Expired, Cancelled]

  /** The string stored in the `status` column. */
  function StatusName(s: Status): string
  {
    match s
    case Pending => "pending"
    case Preapproved => "preapproved"
    case ManualRequired => "manual_required"
    case CountryValidated => "country_validated"
    case CountryInvalidated => "country_invalidated"
    case InReview => "in_review"
    case Approved => "approved"
    case Rejected => "rejected"
    case Expired => "expired"
    case Cancelled => "cancelled"
  }

  /** Assigning a string to the enum attribute: None where Rails raises ArgumentError. */
  function ParseStatus(name: string): (r: Option<Status>)
    ensures r.Some? ==> StatusName(r.value) == name
    ensures r.None? ==> forall s: Status :: StatusName(s) != name
  {
    if name == "pending" then Some(Pending)
    else if name == "preapproved" then Some(Preapproved)
    else if name == "manual_required" then Some(ManualRequired)
    else if name == "country_validated" then Some(CountryValidated)
    else if name == "country_invalidated" then Some(CountryInvalidated)
    else if name == "in_review" then Some(InReview)
    else if name == "approved" then Some(Approved)
    else if name == "rejected" then Some(Rejected)
    else if name == "expired" then Some(Expired)
    else if name == "cancelled" then Some(Cancelled)
    else None
  }

  /** Every status reads back from its stored name. */
  lemma ParseStatusName(s: Status)
    ensures ParseStatus(StatusName(s)) == Some(s)
  {
  }

  /** `statuses.keys` lists each of the ten statuses exactly once. */
  lemma StatusesComplete()
    ensures |Statuses| == 10
    ensures forall s: Status :: s in Statuses
    ensures forall i, j :: 0 <= i < j < |Statuses| ==> Statuses[i] != Statuses[j]
  {
    forall s: Status ensures s in Statuses {
      match s
      case Pending => assert Statuses[0] == s;
      case Preapproved => assert Statuses[1] == s;
      case ManualRequired => assert Statuses[2] == s;
      case CountryValidated => assert Statuses[3] == s;
      case CountryInvalidated => assert Statuses[4] == s;
      case InReview => assert Statuses[5] == s;
      case Approved => assert Statuses[6] == s;
      case Rejected => assert Statuses[7] == s;
      case Expired => assert Statuses[8] == s;
      case Cancelled => assert Statuses[9] == s;
    }
  }

  /** A table row is addressed by its id and its partition column. */
  datatype Key = Key(id: int, country: string)

  /** One entry of `validation_result`. */
  datatype Check = Check(name: string, result: bool)

  /** The bytes of an attachment, when `download` can render them as text. */
  datatype Blob = Readable(text: string) | Unreadable

  datatype Document = Document(filename: string, content: Blob)

  /**
    A persisted credit application. Amounts are in cents; `bankingData` JNull is
    SQL NULL (Ruby reads a JSON null the same way); an empty `validationResult`
    stands for both NULL and `[]`.
  */
  datatype Application = Application(
    id: nat,
    country: string,
    fullName: string,
    requestedAmount: int,
    applicationDate: string,
    status: Status,
    monthlyIncome: Option<int>,
    bankingData: Json,
    validationResult: seq<Check>,
    identityDocument: Option<Document>,
    userId: Option<nat>)

  function KeyOf(a: Application): Key
  {
    Key(a.id, a.country)
  }

  /** The key as JSON writes it: the composite primary key's `[id, country]`. */
  function KeyJson(k: Key): Json
  {
    JArr([JNum(k.id * 100), JStr(k.country)])
  }

  /** The values of the LIST partitions of `credit_applications`. */
  predicate HasPartition(country: string)
  {
    country == "mexico" || country == "portugal"
  }
}
