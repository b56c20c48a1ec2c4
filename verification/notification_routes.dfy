/** The notification service's HTTP handlers: create, edit, delete, send and resend. */
module NotificationRoutes {
  import opened Wrappers
  import opened NotificationService

  /** The JSON body of `POST /notifications`: each key present or absent. */
  datatype CreateBody = CreateBody(userId: Option<int>, message: Option<string>, status: Option<string>)

  /** `create_notif`: both `user_id` and `message` must be present; then the
      controller stores the row. */
  method CreateNotif(store: NotificationStore, body: CreateBody) returns (r: Reply<int>)
    requires store.Valid()
    modifies store
    ensures store.Valid()
    ensures body.userId.None? || body.message.None? ==>
              r == Err("user_id and message are required", 400)
              && store.notes == old(store.notes) && store.nextId == old(store.nextId)
    ensures body.userId.Some? && body.message.Some? ==>
              && r == Ok(old(store.nextId), 201) && old(store.nextId) !in old(store.notes)
              && store.notes == old(store.notes)[r.value := Notification(body.userId.value, body.message.value,
                                                   if body.status.Some? then body.status.value else DefaultStatus)]
  {
    if body.userId.None? || body.message.None? {
      return Err("user_id and message are required", 400);
    }
    r := store.CreateNotification(NotifPayload(body.userId.value, body.message.value, body.status));
  }

  /** `update_notif`: an unknown id gives 404; otherwise `message` and `status` are
      replaced when present and kept when absent, with no check on the status. */
  method UpdateNotif(store: NotificationStore, id: int, message: Option<string>, status: Option<string>)
    returns (r: Reply<Notification>)
    requires store.Valid()
    modifies store
    ensures store.Valid() && store.nextId == old(store.nextId)
    ensures id !in old(store.notes) ==> r == Err(NotifNotFound, 404) && store.notes == old(store.notes)
    ensures id in old(store.notes) ==>
      var was := old(store.notes)[id];
      && r.Ok? && r.code == 200 && store.notes == old(store.notes)[id := r.value]
      && r.value.userId == was.userId
      && r.value.message == (if message.Some? then message.value else was.message)
      && r.value.status == (if status.Some? then status.value else was.status)
  {
    if id !in store.notes {
      return Err(NotifNotFound, 404);
    }
    var n := store.notes[id];
    n := n.(message := if message.Some? then message.value else n.message);
    n := n.(status := if status.Some? then status.value else n.status);
    store.notes := store.notes[id := n];
    return Ok(n, 200);
  }

  /** `delete_notif`: an unknown id gives 404; otherwise exactly that row goes. */
  method DeleteNotif(store: NotificationStore, id: int) returns (r: Reply<bool>)
    requires store.Valid()
    modifies store
    ensures store.Valid() && store.nextId == old(store.nextId)
    ensures id !in old(store.notes) ==> r == Err(NotifNotFound, 404) && store.notes == old(store.notes)
    ensures id in old(store.notes) ==> r == Ok(true, 200) && store.notes == old(store.notes) - {id}
  {
    if id !in store.notes {
      return Err(NotifNotFound, 404);
    }
    store.notes := store.notes - {id};
    return Ok(true, 200);
  }

  /** The answer `send_notif` and `resend_notif` give once a send has run: 500 with the
      reason when it failed, 200 with the new status ("sent") when it succeeded. */
  function SendReply(s: SendResult, status: string): (r: Reply<string>)
    requires s.ok <==> s.error.None?
    ensures r.Ok? <==> s.ok
    ensures r.Ok? ==> r == Ok(status, 200)
    ensures r.Err? ==> r == Err(s.error.value, 500)
  {
    if s.ok then Ok(status, 200) else Err(s.error.value, 500)
  }

  /** `send_notif`: an unknown id gives 404; otherwise a send runs whatever the
      current status. */
  method SendNotif(store: NotificationStore, id: int, lookup: Call, mail: Delivery) returns (r: Reply<string>)
    requires store.Valid()
    modifies store
    ensures store.Valid() && store.nextId == old(store.nextId)
    ensures id !in old(store.notes) ==> r == Err(NotifNotFound, 404) && store.notes == old(store.notes)
    ensures id in old(store.notes) ==>
      && store.notes == old(store.notes)[id := old(store.notes)[id].(status := SendStatus(lookup, mail))]
      && r == SendReply(SendAnswer(lookup, mail), SendStatus(lookup, mail))
  {
    if id !in store.notes {
      return Err(NotifNotFound, 404);
    }
    var s := store.SendEmail(id, lookup, mail);
    return SendReply(s, store.notes[id].status);
  }

  /** `resend_notif`: an unknown id gives 404; a notification whose status is not
      "failed" is refused with 400, with no send and nothing changed; a failed one is
      sent again. */
  method ResendNotif(store: NotificationStore, id: int, lookup: Call, mail: Delivery) returns (r: Reply<string>)
    requires store.Valid()
    modifies store
    ensures store.Valid() && store.nextId == old(store.nextId)
    ensures id !in old(store.notes) ==> r == Err(NotifNotFound, 404) && store.notes == old(store.notes)
    ensures id in old(store.notes) && old(store.notes)[id].status != "failed" ==>
              r == Err("Only failed notifications can be resent", 400) && store.notes == old(store.notes)
    ensures id in old(store.notes) && old(store.notes)[id].status == "failed" ==>
      && store.notes == old(store.notes)[id := old(store.notes)[id].(status := SendStatus(lookup, mail))]
      && r == SendReply(SendAnswer(lookup, mail), SendStatus(lookup, mail))
  {
    if id !in store.notes {
      return Err(NotifNotFound, 404);
    }
    if store.notes[id].status != "failed" {
      return Err("Only failed notifications can be resent", 400);
    }
    var s := store.SendEmail(id, lookup, mail);
    return SendReply(s, store.notes[id].status);
  }
}
