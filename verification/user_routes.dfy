/** The user service's HTTP handlers that change the `users` table directly, without
    going through the controllers: registration, login, profile edit, deletion,
    top-up and debit by a logged-in user, and the balance endpoint other services call.
    The caller's identity is the id carried by the access token. */
module UserRoutes {
  import opened Wrappers
  import opened Text
  import opened UserLedger

  /** The JSON body of `POST /auth/register`. */
  datatype Signup = Signup(fullName: Option<string>, email: Option<string>, password: Option<string>,
                           role: Option<string>)

  /** The JSON body of `PUT /users/<id>`: each key present or absent. */
  datatype UserPatch = UserPatch(fullName: Option<string>, email: Option<string>, password: Option<string>,
                                 role: Option<string>, balance: Option<Amount>)

  /** `float(data.get("amount", 0))`: a missing amount reads as 0. */
  function AmountOrZero(a: Option<Amount>): (r: Amount)
    ensures a.None? ==> r == Number(0)
    ensures a.Some? ==> r == a.value
  {
    if a.None? then Number(0) else a.value
  }

  /** What `PUT /internal/users/<id>/balance` does to a balance once the token, the
      amount and the user have been accepted: "credit" adds, "debit" subtracts when the
      balance covers the amount, anything else is refused. The amount's sign is not
      checked. */
  function InternalBalance(action: Option<string>, balance: int, amount: int): (r: Reply<int>)
    ensures r.Ok? <==> action == Some("credit") || (action == Some("debit") && balance >= amount)
    ensures r.Ok? ==> r.code == 200
    // A credit of any amount, negative too, is applied as it stands.
    ensures action == Some("credit") ==> r.value == balance + amount
    ensures action == Some("debit") && r.Ok? ==> r.value == balance - amount
    ensures action == Some("debit") && balance < amount ==> r == Err("Insufficient balance", 400)
    ensures action != Some("credit") && action != Some("debit") ==> r == Err("Invalid action", 400)
  {
    if action == Some("credit") then Ok(balance + amount, 200)
    else if action == Some("debit") then
      if balance < amount then Err("Insufficient balance", 400) else Ok(balance - amount, 200)
    else Err("Invalid action", 400)
  }

  /** A debit through the internal endpoint never takes a non-negative balance below
      zero, whatever the amount. */
  lemma InternalDebitKeepsNonNegative(balance: int, amount: int)
    requires balance >= 0
    ensures var r := InternalBalance(Some("debit"), balance, amount);
            r.Ok? ==> r.value >= 0
  {
  }

  /** The balance a `debit_route` request leaves: refused with 400 when it is below
      the amount. */
  function RouteDebit(balance: int, amount: int): (r: Reply<int>)
    requires amount > 0
    ensures r.Ok? <==> balance >= amount
    ensures r.Ok? ==> r == Ok(balance - amount, 200) && r.value < balance
    ensures r.Err? ==> r == Err("Insufficient balance", 400)
    ensures balance >= 0 && r.Ok? ==> r.value >= 0
  {
    if balance < amount then Err("Insufficient balance", 400) else Ok(balance - amount, 200)
  }

  /** `register_route`: all three keys must be present and non-empty; the duplicate
      check looks up `email.lower().strip()`, and the row stores `email.strip().lower()`,
      which is the same string; the role is whatever the payload says, "user" when it
      is absent; the new user starts with balance 0. */
  method RegisterRoute(store: UserStore, data: Signup, hash: string -> string) returns (r: Reply<int>)
    requires store.Valid()
    modifies store
    ensures store.Valid()
    ensures !(Given(data.fullName) && Given(data.email) && Given(data.password)) ==>
              r == Err("full_name, email, and password are required", 400)
    ensures Given(data.fullName) && Given(data.email) && Given(data.password)
            && EmailTaken(old(store.users), NormalizeEmail(data.email.value)) ==>
              r == Err("Email already registered", 400)
    ensures r.Err? ==> store.users == old(store.users) && store.nextId == old(store.nextId)
    ensures r.Ok? <==> Given(data.fullName) && Given(data.email) && Given(data.password)
                       && !EmailTaken(old(store.users), NormalizeEmail(data.email.value))
    ensures r.Ok? ==>
      && r.code == 201 && r.value == old(store.nextId) && r.value !in old(store.users)
      && store.nextId == old(store.nextId) + 1
      && store.users == old(store.users)[r.value := User(Strip(data.fullName.value), NormalizeEmail(data.email.value),
                                                         hash(data.password.value), 0,
                                                         if data.role.Some? then data.role.value else "user")]
  {
    if !(Given(data.fullName) && Given(data.email) && Given(data.password)) {
      return Err("full_name, email, and password are required", 400);
    }
    StripLowerCommute(data.email.value);
    if EmailTaken(store.users, Strip(Lower(data.email.value))) {
      return Err("Email already registered", 400);
    }
    var e := NormalizeEmail(data.email.value);
    NormalizeShape(data.email.value);
    var role := if data.role.Some? then data.role.value else "user";
    var u := User(Strip(data.fullName.value), e, hash(data.password.value), 0, role);
    var id := store.Add(u);
    return Ok(id, 201);
  }

  /** `login_route`: the address is trimmed and lower-cased (a missing one reads as
      empty); an empty address or password is refused with 400; an unknown address or a
      hash that does not match gives 401. Returns the id the access token is issued for. */
  method LoginRoute(store: UserStore, email: Option<string>, password: Option<string>,
                    matches: (string, string) -> bool) returns (r: Reply<int>)
    requires store.Valid()
    ensures var e := NormalizeEmail(if email.Some? then email.value else "");
      && (e == [] || !Given(password) ==> r == Err("Email and password are required", 400))
      && (r.Ok? <==> e != [] && Given(password)
                     && exists id :: id in store.users && store.users[id].email == e
                                     && matches(store.users[id].passwordHash, password.value))
      && (r.Ok? ==> r.code == 200 && r.value in store.users && store.users[r.value].email == e)
      && (r.Err? && e != [] && Given(password) ==> r == Err("Invalid credentials", 401))
  {
    var e := NormalizeEmail(if email.Some? then email.value else "");
    if e == [] || !Given(password) {
      return Err("Email and password are required", 400);
    }
    if !EmailTaken(store.users, e) {
      return Err("Invalid credentials", 401);
    }
    var id :| id in store.users && store.users[id].email == e;
    assert forall other :: other in store.users && store.users[other].email == e ==> other == id;
    if !matches(store.users[id].passwordHash, password.value) {
      return Err("Invalid credentials", 401);
    }
    return Ok(id, 200);
  }

  /** `update_user_route`. A caller whose row is gone gets 403; a caller who is not an
      admin may edit only themselves. Name, e-mail and password are set when present
      (the password only when non-empty); role and balance are set only when the caller
      is an admin. When callers edit themselves, the caller's row IS the edited row, so
      a role set in the same request decides whether the balance may be set. A new
      address held by another user is refused with 400; a balance `float` cannot read
      raises, which nothing catches. The balance's sign is not checked. */
  method UpdateUserRoute(store: UserStore, callerId: int, targetId: int, data: UserPatch, hash: string -> string)
    returns (r: Reply<User>)
    requires store.Valid()
    modifies store
    ensures store.Valid() && store.nextId == old(store.nextId)
    ensures r.Err? ==> store.users == old(store.users)
    ensures callerId !in old(store.users) ==> r == Err("Unauthorized", 403)
    ensures callerId in old(store.users) && old(store.users)[callerId].role != "admin" && callerId != targetId ==>
              r == Err("Permission denied", 403)
    ensures (callerId in old(store.users) && (old(store.users)[callerId].role == "admin" || callerId == targetId)
             && targetId !in old(store.users)) ==> r == Err(UserNotFound, 404)
    ensures callerId in old(store.users) && targetId in old(store.users)
            && (old(store.users)[callerId].role == "admin" || callerId == targetId)
            && data.email.Some? && EmailTakenByOther(old(store.users), NormalizeEmail(data.email.value), targetId) ==>
              r == Err("Email already in use", 400)
    ensures r.Ok? <==>
      && callerId in old(store.users) && targetId in old(store.users)
      && (old(store.users)[callerId].role == "admin" || callerId == targetId)
      && !(data.email.Some? && EmailTakenByOther(old(store.users), NormalizeEmail(data.email.value), targetId))
      && (var callerAdmin := old(store.users)[callerId].role == "admin";
          var role := if data.role.Some? && callerAdmin then data.role.value else old(store.users)[targetId].role;
          var balanceAdmin := if callerId == targetId then role == "admin" else callerAdmin;
          data.balance.Some? && balanceAdmin ==> data.balance.value.Number?)
    ensures r.Ok? ==>
      var was := old(store.users)[targetId];
      var callerAdmin := old(store.users)[callerId].role == "admin";
      var role := if data.role.Some? && callerAdmin then data.role.value else was.role;
      var balanceAdmin := if callerId == targetId then role == "admin" else callerAdmin;
      && r.code == 200 && store.users == old(store.users)[targetId := r.value]
      && (data.balance.Some? && balanceAdmin ==> data.balance.value.Number?)
      && r.value.fullName == (if data.fullName.Some? then Strip(data.fullName.value) else was.fullName)
      && r.value.email == (if data.email.Some? then NormalizeEmail(data.email.value) else was.email)
      && r.value.passwordHash == (if Given(data.password) then hash(data.password.value) else was.passwordHash)
      && r.value.role == role
      && r.value.balance == (if data.balance.Some? && balanceAdmin then data.balance.value.value else was.balance)
    // What the permission rules promise, in their own words:
    ensures r.Ok? && old(store.users)[callerId].role != "admin" ==>
              r.value.role == old(store.users)[targetId].role && r.value.balance == old(store.users)[targetId].balance
    ensures r.Err? && callerId in old(store.users) && targetId in old(store.users)
            && (old(store.users)[callerId].role == "admin" || callerId == targetId) ==>
              r == Err("Email already in use", 400) || r == Err(InternalError, 500)
  {
    if callerId !in store.users {
      return Err("Unauthorized", 403);
    }
    var callerRole := store.users[callerId].role;
    if callerRole != "admin" && callerId != targetId {
      return Err("Permission denied", 403);
    }
    if targetId !in store.users {
      return Err(UserNotFound, 404);
    }
    var was := store.users[targetId];
    SameEmailKeepsTable(store.users, store.nextId, targetId, was);
    var u := was.(fullName := if data.fullName.Some? then Strip(data.fullName.value) else was.fullName);
    if data.email.Some? {
      var e := NormalizeEmail(data.email.value);
      if EmailTakenByOther(store.users, e, targetId) {
        return Err("Email already in use", 400);
      }
      NormalizeShape(data.email.value);
      u := u.(email := e);
    }
    u := u.(passwordHash := if Given(data.password) then hash(data.password.value) else u.passwordHash);
    u := u.(role := if data.role.Some? && callerRole == "admin" then data.role.value else u.role);
    // When callers edit themselves, `current` and `user` are the same row, so the
    // balance check below reads the role just assigned.
    var balanceAdmin := if callerId == targetId then u.role == "admin" else callerRole == "admin";
    if data.balance.Some? && balanceAdmin {
      if !data.balance.value.Number? {
        return Err(InternalError, 500);
      }
      u := u.(balance := data.balance.value.value);
    }
    store.Put(targetId, u);
    return Ok(u, 200);
  }

  /** `delete_user_route`: only an admin whose row exists may delete; an unknown target
      gives 404; otherwise exactly that row goes. */
  method DeleteUserRoute(store: UserStore, callerId: int, targetId: int) returns (r: Reply<bool>)
    requires store.Valid()
    modifies store
    ensures store.Valid() && store.nextId == old(store.nextId)
    ensures callerId !in old(store.users) || old(store.users)[callerId].role != "admin" ==>
              r == Err("Admin only", 403) && store.users == old(store.users)
    ensures callerId in old(store.users) && old(store.users)[callerId].role == "admin" ==>
              && (targetId !in old(store.users) ==> r == Err(UserNotFound, 404) && store.users == old(store.users))
              && (targetId in old(store.users) ==> r == Ok(true, 200) && store.users == old(store.users) - {targetId})
  {
    if callerId !in store.users || store.users[callerId].role != "admin" {
      return Err("Admin only", 403);
    }
    if targetId !in store.users {
      return Err(UserNotFound, 404);
    }
    store.Remove(targetId);
    return Ok(true, 200);
  }

  /** `topup_route`: any logged-in user may top up any user. A missing amount reads as
      0; an amount `float` cannot read gives 400 "Amount must be numeric", one it
      refuses with TypeError (null, a list, an object) escapes the handler as a 500, and
      one that is not positive gives 400 "Invalid amount"; all are checked before the
      target is looked up. Returns the new balance. */
  method TopupRoute(store: UserStore, callerId: int, targetId: int, amount: Option<Amount>) returns (r: Reply<int>)
    requires store.Valid()
    modifies store
    ensures store.Valid() && store.nextId == old(store.nextId)
    ensures r.Err? ==> store.users == old(store.users)
    ensures callerId !in old(store.users) ==> r == Err("Unauthorized", 403)
    ensures callerId in old(store.users) && AmountOrZero(amount).Garbage? ==> r == Err("Amount must be numeric", 400)
    ensures callerId in old(store.users) && AmountOrZero(amount).WrongType? ==> r == Err(InternalError, 500)
    ensures callerId in old(store.users) && AmountOrZero(amount).Number? && AmountOrZero(amount).value <= 0 ==>
              r == Err("Invalid amount", 400)
    ensures (callerId in old(store.users) && AmountOrZero(amount).Number? && AmountOrZero(amount).value > 0
             && targetId !in old(store.users)) ==> r == Err(UserNotFound, 404)
    ensures r.Ok? <==> callerId in old(store.users) && AmountOrZero(amount).Number? && AmountOrZero(amount).value > 0
                       && targetId in old(store.users)
    ensures r.Ok? ==>
      var was := old(store.users)[targetId];
      && r == Ok(was.balance + amount.value.value, 200)
      && store.users == old(store.users)[targetId := was.(balance := r.value)]
  {
    if callerId !in store.users {
      return Err("Unauthorized", 403);
    }
    var a := AmountOrZero(amount);
    if a.Garbage? {
      return Err("Amount must be numeric", 400);
    }
    if a.WrongType? {
      return Err(InternalError, 500);
    }
    if a.value <= 0 {
      return Err("Invalid amount", 400);
    }
    if targetId !in store.users {
      return Err(UserNotFound, 404);
    }
    var u := store.users[targetId];
    u := u.(balance := u.balance + a.value);
    SameEmailKeepsTable(store.users, store.nextId, targetId, u);
    store.Put(targetId, u);
    return Ok(u.balance, 200);
  }

  /** `debit_route`: as `topup_route`, and a balance below the amount is refused with
      400, so a balance that was not negative stays not negative. */
  method DebitRoute(store: UserStore, callerId: int, targetId: int, amount: Option<Amount>) returns (r: Reply<int>)
    requires store.Valid()
    modifies store
    ensures store.Valid() && store.nextId == old(store.nextId)
    ensures r.Err? ==> store.users == old(store.users)
    ensures callerId !in old(store.users) ==> r == Err("Unauthorized", 403)
    ensures callerId in old(store.users) && AmountOrZero(amount).Garbage? ==> r == Err("Amount must be numeric", 400)
    ensures callerId in old(store.users) && AmountOrZero(amount).WrongType? ==> r == Err(InternalError, 500)
    ensures callerId in old(store.users) && AmountOrZero(amount).Number? && AmountOrZero(amount).value <= 0 ==>
              r == Err("Invalid amount", 400)
    ensures (callerId in old(store.users) && AmountOrZero(amount).Number? && AmountOrZero(amount).value > 0
             && targetId !in old(store.users)) ==> r == Err(UserNotFound, 404)
    ensures (callerId in old(store.users) && AmountOrZero(amount).Number? && AmountOrZero(amount).value > 0
             && targetId in old(store.users)) ==> r == RouteDebit(old(store.users)[targetId].balance, amount.value.value)
    ensures r.Ok? <==> callerId in old(store.users) && AmountOrZero(amount).Number? && AmountOrZero(amount).value > 0
                       && targetId in old(store.users) && old(store.users)[targetId].balance >= amount.value.value
    ensures r.Ok? ==>
      store.users == old(store.users)[targetId := old(store.users)[targetId].(balance := r.value)]
  {
    if callerId !in store.users {
      return Err("Unauthorized", 403);
    }
    var a := AmountOrZero(amount);
    if a.Garbage? {
      return Err("Amount must be numeric", 400);
    }
    if a.WrongType? {
      return Err(InternalError, 500);
    }
    if a.value <= 0 {
      return Err("Invalid amount", 400);
    }
    if targetId !in store.users {
      return Err(UserNotFound, 404);
    }
    r := RouteDebit(store.users[targetId].balance, a.value);
    if r.Err? {
      return;
    }
    var u := store.users[targetId].(balance := r.value);
    SameEmailKeepsTable(store.users, store.nextId, targetId, u);
    store.Put(targetId, u);
  }

  /** `internal_update_balance`: the `X-Service-Token` header must equal the configured
      service token (both may be absent) before anything is read; a missing amount reads
      as 0 and is used whatever its sign; an amount `float` cannot read gives 400, one
      it refuses with TypeError escapes as a 500; then the user must exist, and the action
      decides as `InternalBalance` says. */
  method InternalUpdateBalance(store: UserStore, token: Option<string>, serviceToken: Option<string>,
                               id: int, action: Option<string>, amount: Option<Amount>) returns (r: Reply<User>)
    requires store.Valid()
    modifies store
    ensures store.Valid() && store.nextId == old(store.nextId)
    ensures r.Err? ==> store.users == old(store.users)
    ensures token != serviceToken ==> r == Err("Unauthorized", 403)
    ensures token == serviceToken && AmountOrZero(amount).Garbage? ==> r == Err("Amount must be numeric", 400)
    ensures token == serviceToken && AmountOrZero(amount).WrongType? ==> r == Err(InternalError, 500)
    ensures token == serviceToken && AmountOrZero(amount).Number? && id !in old(store.users) ==>
              r == Err(UserNotFound, 404)
    ensures token == serviceToken && AmountOrZero(amount).Number? && id in old(store.users) ==>
      var b := InternalBalance(action, old(store.users)[id].balance, AmountOrZero(amount).value);
      && (b.Err? ==> r == Err(b.message, b.code))
      && (b.Ok? ==> r == Ok(old(store.users)[id].(balance := b.value), 200)
                    && store.users == old(store.users)[id := r.value])
  {
    if token != serviceToken {
      return Err("Unauthorized", 403);
    }
    var a := AmountOrZero(amount);
    if a.Garbage? {
      return Err("Amount must be numeric", 400);
    }
    if a.WrongType? {
      return Err(InternalError, 500);
    }
    if id !in store.users {
      return Err(UserNotFound, 404);
    }
    var b := InternalBalance(action, store.users[id].balance, a.value);
    if b.Err? {
      return Err(b.message, b.code);
    }
    var u := store.users[id].(balance := b.value);
    SameEmailKeepsTable(store.users, store.nextId, id, u);
    store.Put(id, u);
    return Ok(u, 200);
  }
}
