/** The notification service's controllers: the `notifications` table, creating a
    notification, and the effect of an e-mail send on its status. */
module NotificationService {
  import opened Wrappers

  /** A row of the `notifications` table (its key, `id`, is the key of the map). */
  datatype Notification = Notification(userId: int, message: string, status: string)

  /** The fields a creation payload may carry; `status` is the column's default when absent. */
  datatype NotifPayload = NotifPayload(userId: int, message: string, status: Option<string>)

  /** What happened after the user lookup answered 200: the mail was built and handed
      to the SMTP server, or something on the way raised, with the exception's text. */
  datatype Delivery = Delivered | Refused(reason: string)

  /** The answer of `send_notification_email`: `(True, None)` or `(False, reason)`. */
  datatype SendResult = SendResult(ok: bool, error: Option<string>)

  const NotifNotFound: string := "Notification not found"
  const DefaultStatus: string := "pending"

  /** The status a send leaves behind: "sent" exactly when the user lookup answered 200
      and the mail went out; "failed" otherwise. */
  function SendStatus(lookup: Call, mail: Delivery): (s: string)
    ensures s == "sent" <==> lookup == Answered(200) && mail == Delivered
    ensures s == "sent" || s == "failed"
  {
    if lookup == Answered(200) && mail == Delivered then "sent" else "failed"
  }

  /** What `send_notification_email` returns: success with no error, or the reason. */
  function SendAnswer(lookup: Call, mail: Delivery): (r: SendResult)
    ensures r.ok <==> SendStatus(lookup, mail) == "sent"
    ensures r.ok <==> r.error.None?
    ensures lookup.Answered? && lookup.status != 200 ==> r == SendResult(false, Some("User not found"))
    ensures lookup.Raised? ==> r == SendResult(false, Some(lookup.reason))
    ensures lookup == Answered(200) && mail.Refused? ==> r == SendResult(false, Some(mail.reason))
  {
    match lookup
    case Raised(reason) => SendResult(false, Some(reason))
    case Answered(code) =>
      if code != 200 then SendResult(false, Some("User not found"))
      else if mail.Refused? then SendResult(false, Some(mail.reason))
      else SendResult(true, None)
  }

  class NotificationStore {
    var notes: map<int, Notification>
    /** The id the database hands to the next inserted row. */
    var nextId: int

    ghost predicate Valid()
      reads this
    {
      nextId >= 1 && forall id :: id in notes ==> 1 <= id < nextId
    }

    constructor ()
      ensures Valid() && notes == map[] && nextId == 1
    {
      notes := map[];
      nextId := 1;
    }

    /** `create_notification`: exactly one new row, "pending" unless the payload says
        otherwise; returns its id with 201. */
    method CreateNotification(p: NotifPayload) returns (r: Reply<int>)
      requires Valid()
      modifies this
      ensures Valid()
      ensures r == Ok(old(nextId), 201) && old(nextId) !in old(notes) && nextId == old(nextId) + 1
      ensures notes == old(notes)[r.value := Notification(p.userId, p.message,
                                                          if p.status.Some? then p.status.value else DefaultStatus)]
    {
      var id := nextId;
      notes := notes[id := Notification(p.userId, p.message, if p.status.Some? then p.status.value else DefaultStatus)];
      nextId := nextId + 1;
      return Ok(id, 201);
    }

    /** `send_notification_email` on row `id`: every exit path writes the status —
        "failed" when the lookup does not answer 200 or the mail does not go out,
        "sent" otherwise — and nothing else changes. */
    method SendEmail(id: int, lookup: Call, mail: Delivery) returns (r: SendResult)
      requires Valid() && id in notes
      modifies this
      ensures Valid() && nextId == old(nextId)
      ensures r == SendAnswer(lookup, mail)
      ensures notes == old(notes)[id := old(notes)[id].(status := SendStatus(lookup, mail))]
    {
      var n := notes[id];
      if lookup.Raised? {
        notes := notes[id := n.(status := "failed")];
        return SendResult(false, Some(lookup.reason));
      }
      if lookup.status != 200 {
        notes := notes[id := n.(status := "failed")];
        return SendResult(false, Some("User not found"));
      }
      if mail.Refused? {
        notes := notes[id := n.(status := "failed")];
        return SendResult(false, Some(mail.reason));
      }
      notes := notes[id := n.(status := "sent")];
      return SendResult(true, None);
    }
  }
}
