/**
  `NotificationService.notify_status_change`: a status notification broadcast
  over ActionCable to the stream of the user who owns the application.
*/
module NotificationService {
  import opened Wrappers
  import opened Text
  import opened Records

  const FallbackMessage: string := "Estado actualizado"

  /**
    The message table: eight statuses have a descriptive message, the others
    get the generic one. The table is keyed by the stored status string, which
    is always one of the enum's names, so it is written here over the enum.
  */
  function MessageFor(s: Status): string
  {
    match s
    case Pending => "Solicitud de crédito pendiente"
    case Preapproved => "Solicitud preaprobada"
    case ManualRequired => "Revisión manual requerida"
    case CountryValidated => "Validaciones por país exitosas"
    case CountryInvalidated => "Validaciones por país fallidas"
    case InReview => "Solicitud en revisión"
    case Approved => "Solicitud aprobada"
    case Rejected => "Solicitud rechazada"
    case Expired | Cancelled => FallbackMessage
  }

  /** Only `expired` and `cancelled` fall back to the generic message. */
  lemma FallbackExactly(s: Status)
    ensures MessageFor(s) == FallbackMessage <==> s == Expired || s == Cancelled
  {
  }

  /** Every specific message names one status: a client can tell the status from it. */
  lemma MessageIdentifiesStatus(s: Status, t: Status)
    requires MessageFor(s) == MessageFor(t)
    requires MessageFor(s) != FallbackMessage
    ensures s == t
  {
  }

  /** The payload: type, application key (`credit_application.id` is `[id, country]` under the composite primary key), status and message. */
  datatype Notification = Notification(kind: string, creditApplicationId: Key, status: string, message: string)

  function NotificationFor(a: Application): (n: Notification)
    ensures n.kind == "status" && n.creditApplicationId == KeyOf(a)
    ensures n.status == StatusName(a.status) && n.message == MessageFor(a.status)
  {
    Notification("status", KeyOf(a), StatusName(a.status), MessageFor(a.status))
  }

  const StreamPrefix: string := "notifications:"

  /** `"notifications:#{user_id}"`. */
  function StreamFor(userId: nat): string
  {
    StreamPrefix + NatToString(userId)
  }

  /** The user id reads back from the stream name, so no two users share a stream. */
  lemma StreamIdentifiesUser(userId: nat)
    ensures |StreamFor(userId)| > |StreamPrefix|
    ensures StreamFor(userId)[..|StreamPrefix|] == StreamPrefix
    ensures ParseNat(StreamFor(userId)[|StreamPrefix|..]) == Some(userId)
  {
    assert StreamFor(userId)[|StreamPrefix|..] == NatToString(userId);
    ParseNatToString(userId);
  }

  lemma StreamsDistinct(u: nat, v: nat)
    requires u != v
    ensures StreamFor(u) != StreamFor(v)
  {
    StreamIdentifiesUser(u);
    StreamIdentifiesUser(v);
  }

  datatype Broadcast = Broadcast(stream: string, notification: Notification)

  /** `ActionCable.server`: what has been broadcast, and whether broadcasting raises. */
  class Cable {
    var broadcasts: seq<Broadcast>
    var failing: bool

    constructor(failing: bool)
      ensures broadcasts == [] && this.failing == failing
    {
      broadcasts := [];
      this.failing := failing;
    }

    /** `broadcast(stream, payload)`: false where the server raises. */
    method Send(stream: string, n: Notification) returns (ok: bool)
      modifies this
      ensures ok == !failing && failing == old(failing)
      ensures broadcasts == old(broadcasts) + (if ok then [Broadcast(stream, n)] else [])
    {
      ok := !failing;
      if ok {
        broadcasts := broadcasts + [Broadcast(stream, n)];
      }
    }
  }

  /** What one status change delivers: nothing without an owner or when the cable raises. */
  function Delivered(a: Application, failing: bool): seq<Broadcast>
  {
    if a.userId.Some? && !failing then [Broadcast(StreamFor(a.userId.value), NotificationFor(a))] else []
  }

  /** Errors of the broadcast are logged and swallowed: the caller never sees them. */
  method NotifyStatusChange(cable: Cable, a: Application)
    modifies cable
    ensures cable.failing == old(cable.failing)
    ensures cable.broadcasts == old(cable.broadcasts) + Delivered(a, old(cable.failing))
  {
    if a.userId.None? {
      return;
    }
    var _ := cable.Send(StreamFor(a.userId.value), NotificationFor(a));
  }
}
