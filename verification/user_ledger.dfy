/** The user service's controllers: the `users` table, the balance each user owns,
    the password guards, and the create / register / update / delete / top-up / debit
    operations on that table. */
module UserLedger {
  import opened Wrappers
  import opened Text

  /** A row of the `users` table (its key, `id`, is the key of the map that holds it). */
  datatype User = User(fullName: string, email: string, passwordHash: string, balance: int, role: string)

  const UserNotFound: string := "User not found"
  const EmptyPassword: string := "Password cannot be empty"

  /** bcrypt reads at most this many bytes of a password. */
  const PasswordByteLimit: nat := 72

  // ---------------------------------------------------------------------------
  // Password guards
  // ---------------------------------------------------------------------------

  /** `hash_password` up to the hashing call, AS WRITTEN: an empty or whitespace-only
      password raises ValueError (None here); a password of more than 72 UTF-8 bytes is
      cut to its first 72 CHARACTERS; the result is what the hashing library receives. */
  function PreparePassword(p: string): (r: Option<string>)
    ensures r.None? <==> AllSpace(p)
    ensures r.Some? ==> r.value <= p
    ensures r.Some? && Utf8Length(p) <= PasswordByteLimit ==> r.value == p
    ensures r.Some? && Utf8Length(p) > PasswordByteLimit ==>
              |r.value| == (if |p| < PasswordByteLimit then |p| else PasswordByteLimit)
  {
    StripEmpty(p);
    if Strip(p) == [] then None
    else if Utf8Length(p) > PasswordByteLimit then
      Some(p[..if |p| < PasswordByteLimit then |p| else PasswordByteLimit])
    else Some(p)
  }

  /** A string of two-byte characters takes two bytes per character. */
  lemma {:induction false} TwoByteLength(s: string)
    requires forall i :: 0 <= i < |s| ==> Utf8Width(s[i]) == 2
    ensures Utf8Length(s) == 2 * |s|
  {
    if s != [] {
      assert forall i :: 0 <= i < |s[1..]| ==> s[1..][i] == s[i + 1];
      TwoByteLength(s[1..]);
    }
  }

  /** The cut counts characters where the guard counts bytes: a password of 37 to 72
      two-byte characters passes the guard as over the limit and is handed on whole,
      still over 72 bytes. Forty copies of 'é' (80 bytes) is one such password. */
  lemma PasswordCutMissesByteLimit(p: string)
    requires 36 < |p| <= 72 && !AllSpace(p)
    requires forall i :: 0 <= i < |p| ==> Utf8Width(p[i]) == 2
    ensures PreparePassword(p) == Some(p)
    ensures Utf8Length(PreparePassword(p).value) > PasswordByteLimit
  {
    TwoByteLength(p);
    StripEmpty(p);
    assert p[..|p|] == p;
  }

  /** The longest prefix of `s` whose UTF-8 encoding fits in `limit` bytes. */
  function CutToBytes(s: string, limit: nat): (r: string)
    ensures r <= s
    ensures Utf8Length(r) <= limit
    ensures Utf8Length(s) <= limit ==> r == s
    ensures r == s || Utf8Length(r) + Utf8Width(s[|r|]) > limit
  {
    if s == [] then []
    else if Utf8Width(s[0]) > limit then
      assert Utf8Length(s) >= Utf8Width(s[0]);
      []
    else
      var rest := CutToBytes(s[1..], limit - Utf8Width(s[0]));
      var r := [s[0]] + rest;
      assert r[0] == s[0] && r[1..] == rest;
      assert s == [s[0]] + s[1..];
      r
  }

  /** On ASCII text a byte is a character, so the byte cut is the character cut. */
  lemma {:induction false} CutToBytesAscii(s: string, limit: nat)
    requires IsAscii(s)
    ensures CutToBytes(s, limit) == s[..if |s| < limit then |s| else limit]
  {
    if s != [] && limit > 0 {
      var t := s[1..];
      assert IsAscii(t) by {
        forall i | 0 <= i < |t| ensures (t[i] as int) < 0x80 {
          assert t[i] == s[i + 1];
        }
      }
      assert Utf8Width(s[0]) == 1;
      CutToBytesAscii(t, limit - 1);
      var n := if |s| < limit then |s| else limit;
      assert CutToBytes(s, limit) == [s[0]] + t[..n - 1];
      assert s[..n] == [s[0]] + t[..n - 1];
    }
  }

  /** `hash_password` up to the hashing call, CORRECTED: the same guard, and a cut to
      the longest prefix that fits in 72 bytes, which is what the byte-counting guard
      evidently intends. The rest of this model uses this version. */
  function PreparePasswordCorrected(p: string): (r: Option<string>)
    ensures r.None? <==> AllSpace(p)
    ensures r.Some? ==> r.value <= p && Utf8Length(r.value) <= PasswordByteLimit
    ensures r.Some? && Utf8Length(p) <= PasswordByteLimit ==> r.value == p
  {
    StripEmpty(p);
    if Strip(p) == [] then None else Some(CutToBytes(p, PasswordByteLimit))
  }

  /** The correction changes nothing for ASCII passwords. */
  lemma PrepareAgreesOnAscii(p: string)
    requires IsAscii(p)
    ensures PreparePasswordCorrected(p) == PreparePassword(p)
  {
    AsciiUtf8Length(p);
    CutToBytesAscii(p, PasswordByteLimit);
    StripEmpty(p);
    if Utf8Length(p) <= PasswordByteLimit {
      assert p[..|p|] == p;
    }
  }

  /** `verify_password`: an empty password or an empty stored hash is rejected without
      asking the hashing library (`matches`); otherwise the library decides. It never raises. */
  function VerifyPassword(p: string, hashed: string, matches: (string, string) -> bool): (r: bool)
    ensures p == [] || hashed == [] ==> !r
    ensures p != [] && hashed != [] ==> r == matches(p, hashed)
  {
    if p == [] || hashed == [] then false else matches(p, hashed)
  }

  // ---------------------------------------------------------------------------
  // The users table
  // ---------------------------------------------------------------------------

  /** The `unique=True` constraint on `users.email`. */
  ghost predicate EmailsUnique(users: map<int, User>) {
    forall a, b :: a in users && b in users && users[a].email == users[b].email ==> a == b
  }

  /** `User.query.filter_by(email=e).first()` finds a row. */
  predicate EmailTaken(users: map<int, User>, e: string) {
    exists id :: id in users && users[id].email == e
  }

  /** `User.query.filter(User.email == e, User.id != id).first()` finds a row. */
  predicate EmailTakenByOther(users: map<int, User>, e: string, id: int) {
    exists other :: other in users && other != id && users[other].email == e
  }

  /** What `update_user` receives: each key present or absent. */
  datatype UserEdit = UserEdit(fullName: Option<string>, email: Option<string>,
                               password: Option<string>, balance: Option<Amount>)

  /** What `register_user` receives. */
  datatype Registration = Registration(fullName: Option<string>, email: Option<string>, password: Option<string>)

  /** What `create_user` receives. */
  datatype NewUser = NewUser(fullName: Option<string>, email: Option<string>, balance: Option<Amount>)

  predicate Given(s: Option<string>) {
    s.Some? && s.value != []
  }

  /** `update_user` finds the normalised new address held by another user. */
  predicate EmailClash(users: map<int, User>, id: int, edit: UserEdit) {
    Given(edit.email) && EmailTakenByOther(users, NormalizeEmail(edit.email.value), id)
  }

  /** `update_user` is handed a new password that `hash_password` rejects. */
  predicate PasswordRejected(edit: UserEdit) {
    Given(edit.password) && PreparePasswordCorrected(edit.password.value).None?
  }

  /** The invariant of the `users` table: every key was handed out before `next`,
      every stored address is in normal form, and no two users share an address. */
  ghost predicate TableOk(users: map<int, User>, next: int) {
    && next >= 1
    && (forall id :: id in users ==> 1 <= id < next)
    && (forall id :: id in users ==> IsNormalEmail(users[id].email))
    && EmailsUnique(users)
  }

  lemma UniqueAfterReplace(users: map<int, User>, id: int, u: User)
    requires EmailsUnique(users) && id in users
    requires !EmailTakenByOther(users, u.email, id)
    ensures EmailsUnique(users[id := u])
  {
  }

  lemma NormalizedAfterReplace(users: map<int, User>, id: int, u: User)
    requires forall k :: k in users ==> IsNormalEmail(users[k].email)
    requires IsNormalEmail(u.email)
    ensures var t := users[id := u]; forall k :: k in t ==> IsNormalEmail(t[k].email)
  {
  }

  /** Replacing a row keeps the invariant when its new address is in normal form and
      held by nobody else. */
  lemma ReplaceKeepsTable(users: map<int, User>, next: int, id: int, u: User)
    requires TableOk(users, next) && id in users
    requires IsNormalEmail(u.email) && !EmailTakenByOther(users, u.email, id)
    ensures TableOk(users[id := u], next)
  {
    UniqueAfterReplace(users, id, u);
    NormalizedAfterReplace(users, id, u);
    KeysAfterReplace(users, next, id, u);
    TableOkIntro(users[id := u], next);
  }

  lemma TableOkIntro(t: map<int, User>, next: int)
    requires next >= 1
    requires forall k :: k in t ==> 1 <= k < next
    requires forall k :: k in t ==> IsNormalEmail(t[k].email)
    requires EmailsUnique(t)
    ensures TableOk(t, next)
  {
  }

  lemma KeysAfterReplace(users: map<int, User>, next: int, id: int, u: User)
    requires (forall k :: k in users ==> 1 <= k < next) && id in users
    ensures var t := users[id := u]; forall k :: k in t ==> 1 <= k < next
  {
  }

  /** Changing only a balance (or any field but the address) keeps the invariant: the
      row's address is already in normal form and held by nobody else. */
  lemma SameEmailKeepsTable(users: map<int, User>, next: int, id: int, u: User)
    requires TableOk(users, next) && id in users && u.email == users[id].email
    ensures IsNormalEmail(u.email) && !EmailTakenByOther(users, u.email, id)
    ensures TableOk(users[id := u], next)
  {
    ReplaceKeepsTable(users, next, id, u);
  }

  /** Inserting under the next id keeps the invariant when the address is in normal
      form and not in use. */
  lemma InsertKeepsTable(users: map<int, User>, next: int, u: User)
    requires TableOk(users, next)
    requires IsNormalEmail(u.email) && !EmailTaken(users, u.email)
    ensures next !in users
    ensures TableOk(users[next := u], next + 1)
  {
    UniqueAfterInsert(users, next, u);
    NormalizedAfterReplace(users, next, u);
    KeysAfterInsert(users, next, u);
    TableOkIntro(users[next := u], next + 1);
  }

  lemma UniqueAfterInsert(users: map<int, User>, next: int, u: User)
    requires EmailsUnique(users) && next !in users && !EmailTaken(users, u.email)
    ensures EmailsUnique(users[next := u])
  {
    var t := users[next := u];
    forall a, b | a in t && b in t && t[a].email == t[b].email ensures a == b {
      if a != next && b != next {
        assert users[a].email == users[b].email;
      }
    }
  }

  lemma KeysAfterInsert(users: map<int, User>, next: int, u: User)
    requires forall k :: k in users ==> 1 <= k < next
    requires next >= 1
    ensures next !in users
    ensures var t := users[next := u]; forall k :: k in t ==> 1 <= k < next + 1
  {
  }

  lemma RemoveKeepsTable(users: map<int, User>, next: int, id: int)
    requires TableOk(users, next)
    ensures TableOk(users - {id}, next)
  {
  }

  /** The duplicate check of `create_user` compares the address as given, so it never
      finds an address that is not in normal form ... */
  lemma RawEmailCheckMisses(users: map<int, User>, next: int, e: string)
    requires TableOk(users, next) && !IsNormalEmail(e)
    ensures !EmailTaken(users, e)
  {
  }

  /** ... although its normal form may be taken: " a" passes the check while "a" is
      registered. A leading space counts under every collation a database may apply. */
  lemma RawEmailCheckMissesExample()
    ensures var users := map[1 := User("n", "a", "h", 0, "user")];
      && TableOk(users, 2)
      && !EmailTaken(users, " a")
      && EmailTaken(users, NormalizeEmail(" a"))
  {
    var users := map[1 := User("n", "a", "h", 0, "user")];
    assert Strip(" a") == "a" by {
      assert " a"[1..] == "a";
      assert TrimStart(" a") == "a";
      assert TrimEnd("a") == "a";
    }
    assert Lower("a") == "a";
    assert users[1].email != " a";
  }

  class UserStore {
    var users: map<int, User>
    /** The id the database hands to the next inserted row. */
    var nextId: int

    ghost predicate Valid()
      reads this
    {
      TableOk(users, nextId)
    }

    constructor ()
      ensures Valid() && users == map[] && nextId == 1
    {
      users := map[];
      nextId := 1;
    }

    /** `db.session.add(row)` and a commit: the row is stored under the next id. */
    method Add(u: User) returns (id: int)
      requires Valid() && IsNormalEmail(u.email) && !EmailTaken(users, u.email)
      modifies this
      ensures Valid()
      ensures id == old(nextId) && id !in old(users) && users == old(users)[id := u] && nextId == old(nextId) + 1
    {
      InsertKeepsTable(users, nextId, u);
      id := nextId;
      users := users[id := u];
      nextId := nextId + 1;
    }

    /** Assigning the fields of row `id` and committing. */
    method Put(id: int, u: User)
      requires Valid() && id in users && IsNormalEmail(u.email) && !EmailTakenByOther(users, u.email, id)
      modifies this
      ensures Valid() && users == old(users)[id := u] && nextId == old(nextId)
    {
      ReplaceKeepsTable(users, nextId, id, u);
      users := users[id := u];
    }

    /** `db.session.delete(row)` and a commit. */
    method Remove(id: int)
      requires Valid()
      modifies this
      ensures Valid() && users == old(users) - {id} && nextId == old(nextId)
    {
      RemoveKeepsTable(users, nextId, id);
      users := users - {id};
    }

    /** `get_balance`. */
    method GetBalance(id: int) returns (r: Reply<int>)
      ensures id !in users ==> r == Err(UserNotFound, 404)
      ensures id in users ==> r == Ok(users[id].balance, 200)
    {
      if id !in users {
        return Err(UserNotFound, 404);
      }
      return Ok(users[id].balance, 200);
    }

    /** `topup`: an unknown user, an amount `float` cannot read (ValueError and TypeError
        are both caught), or a non-positive
        amount leave the table alone; otherwise exactly that user's balance grows by
        the amount. */
    method Topup(id: int, amount: Amount) returns (r: Reply<User>)
      requires Valid()
      modifies this
      ensures Valid() && nextId == old(nextId)
      ensures id !in old(users) ==> r == Err(UserNotFound, 404)
      ensures id in old(users) && !amount.Number? ==> r == Err("Invalid amount", 400)
      ensures id in old(users) && amount.Number? && amount.value <= 0 ==> r == Err("Amount must be positive", 400)
      ensures r.Err? ==> users == old(users)
      ensures r.Ok? <==> id in old(users) && amount.Number? && amount.value > 0
      ensures r.Ok? ==> && users == old(users)[id := old(users)[id].(balance := old(users)[id].balance + amount.value)]
                        && r == Ok(users[id], 200)
    {
      if id !in users {
        return Err(UserNotFound, 404);
      }
      if !amount.Number? {
        return Err("Invalid amount", 400);
      }
      if amount.value <= 0 {
        return Err("Amount must be positive", 400);
      }
      var u := users[id];
      u := u.(balance := u.balance + amount.value);
      SameEmailKeepsTable(users, nextId, id, u);
      Put(id, u);
      return Ok(u, 200);
    }

    /** `debit`: as `topup`, and a balance below the amount is refused with 402, so a
        balance that was not negative stays not negative. */
    method Debit(id: int, amount: Amount) returns (r: Reply<User>)
      requires Valid()
      modifies this
      ensures Valid() && nextId == old(nextId)
      ensures id !in old(users) ==> r == Err(UserNotFound, 404)
      ensures id in old(users) && !amount.Number? ==> r == Err("Invalid amount", 400)
      ensures id in old(users) && amount.Number? && amount.value <= 0 ==> r == Err("Amount must be positive", 400)
      ensures id in old(users) && amount.Number? && 0 < amount.value && old(users)[id].balance < amount.value ==>
                r == Err("Insufficient balance", 402)
      ensures r.Err? ==> users == old(users)
      ensures r.Ok? <==> id in old(users) && amount.Number? && 0 < amount.value <= old(users)[id].balance
      ensures r.Ok? ==> && users == old(users)[id := old(users)[id].(balance := old(users)[id].balance - amount.value)]
                        && r == Ok(users[id], 200)
      ensures id in old(users) && old(users)[id].balance >= 0 ==> users[id].balance >= 0
    {
      if id !in users {
        return Err(UserNotFound, 404);
      }
      if !amount.Number? {
        return Err("Invalid amount", 400);
      }
      if amount.value <= 0 {
        return Err("Amount must be positive", 400);
      }
      if users[id].balance < amount.value {
        return Err("Insufficient balance", 402);
      }
      var u := users[id];
      u := u.(balance := u.balance - amount.value);
      SameEmailKeepsTable(users, nextId, id, u);
      Put(id, u);
      return Ok(u, 200);
    }

    /** `update_user`. Fields are applied in the order name, e-mail, password, balance;
        the first refusal returns before the commit, so nothing is stored. A balance key
        without `allow_balance` is refused with 403, a negative one with 400; a new
        address (trimmed, lower-cased) held by another user is refused with 400; a
        blank password makes `hash_password` raise, which nothing catches, and so does a
        balance `float` refuses with TypeError (only ValueError is caught). */
    method UpdateUser(id: int, edit: UserEdit, allowBalance: bool, hash: string -> string) returns (r: Reply<User>)
      requires Valid()
      modifies this
      ensures Valid() && nextId == old(nextId)
      ensures r.Err? ==> users == old(users)
      ensures id !in old(users) ==> r == Err(UserNotFound, 404)
      ensures id in old(users) && EmailClash(old(users), id, edit) ==> r == Err("Email already used", 400)
      ensures id in old(users) && !EmailClash(old(users), id, edit) && PasswordRejected(edit) ==>
                r == Err(InternalError, 500)
      ensures id in old(users) && !EmailClash(old(users), id, edit) && !PasswordRejected(edit)
              && edit.balance.Some? ==>
                && (!allowBalance ==> r == Err("Not allowed to change balance here", 403))
                && (allowBalance && edit.balance.value.Garbage? ==> r == Err("Invalid balance value", 400))
                && (allowBalance && edit.balance.value.WrongType? ==> r == Err(InternalError, 500))
                && (allowBalance && edit.balance.value.Number? && edit.balance.value.value < 0 ==>
                      r == Err("Balance cannot be negative", 400))
      ensures r.Ok? <==> id in old(users) && !EmailClash(old(users), id, edit) && !PasswordRejected(edit)
                         && (edit.balance.Some? ==> allowBalance && edit.balance.value.Number? && edit.balance.value.value >= 0)
      ensures r.Ok? ==>
        var was := old(users)[id];
        && r.code == 200 && users == old(users)[id := r.value]
        && r.value.fullName == (if Given(edit.fullName) then Strip(edit.fullName.value) else was.fullName)
        && r.value.email == (if Given(edit.email) then NormalizeEmail(edit.email.value) else was.email)
        && r.value.passwordHash == (if Given(edit.password) then hash(PreparePasswordCorrected(edit.password.value).value)
                                    else was.passwordHash)
        && r.value.balance == (if edit.balance.Some? then edit.balance.value.value else was.balance)
        && r.value.role == was.role
    {
      if id !in users {
        return Err(UserNotFound, 404);
      }
      var u := users[id];
      if Given(edit.fullName) {
        u := u.(fullName := Strip(edit.fullName.value));
      }
      if Given(edit.email) {
        var e := NormalizeEmail(edit.email.value);
        if EmailTakenByOther(users, e, id) {
          return Err("Email already used", 400);
        }
        NormalizeShape(edit.email.value);
        u := u.(email := e);
      }
      if Given(edit.password) {
        var prepared := PreparePasswordCorrected(edit.password.value);
        if prepared.None? {
          return Err(InternalError, 500);
        }
        u := u.(passwordHash := hash(prepared.value));
      }
      if edit.balance.Some? {
        if !allowBalance {
          return Err("Not allowed to change balance here", 403);
        }
        if edit.balance.value.Garbage? {
          return Err("Invalid balance value", 400);
        }
        if edit.balance.value.WrongType? {
          return Err(InternalError, 500);
        }
        if edit.balance.value.value < 0 {
          return Err("Balance cannot be negative", 400);
        }
        u := u.(balance := edit.balance.value.value);
      }
      assert !EmailTakenByOther(users, u.email, id) && IsNormalEmail(u.email);
      Put(id, u);
      return Ok(u, 200);
    }

    /** `register_user`: all three keys are required; the address is stored trimmed and
        lower-cased and must not be in use; a blank password is refused with 400; a new
        user starts with balance 0 and role "user". Returns the new user's id. */
    method RegisterUser(reg: Registration, hash: string -> string) returns (r: Reply<int>)
      requires Valid()
      modifies this
      ensures Valid()
      ensures reg.fullName.None? || reg.email.None? || reg.password.None? ==>
                r == Err("full_name, email, and password are required", 400)
      ensures reg.fullName.Some? && reg.email.Some? && reg.password.Some? ==>
                && (EmailTaken(old(users), NormalizeEmail(reg.email.value)) ==> r == Err("Email already exists", 400))
                && (!EmailTaken(old(users), NormalizeEmail(reg.email.value)) && AllSpace(reg.password.value) ==>
                      r == Err(EmptyPassword, 400))
      ensures r.Err? ==> users == old(users) && nextId == old(nextId)
      ensures r.Ok? <==> reg.fullName.Some? && reg.email.Some? && reg.password.Some?
                         && !EmailTaken(old(users), NormalizeEmail(reg.email.value)) && !AllSpace(reg.password.value)
      ensures r.Ok? ==>
        && r.code == 201 && r.value == old(nextId) && r.value !in old(users) && nextId == old(nextId) + 1
        && users == old(users)[r.value := User(Strip(reg.fullName.value), NormalizeEmail(reg.email.value),
                                               hash(PreparePasswordCorrected(reg.password.value).value), 0, "user")]
    {
      if reg.fullName.None? || reg.email.None? || reg.password.None? {
        return Err("full_name, email, and password are required", 400);
      }
      var e := NormalizeEmail(reg.email.value);
      if EmailTaken(users, e) {
        return Err("Email already exists", 400);
      }
      var prepared := PreparePasswordCorrected(reg.password.value);
      if prepared.None? {
        return Err(EmptyPassword, 400);
      }
      NormalizeShape(reg.email.value);
      var id := Add(User(Strip(reg.fullName.value), e, hash(prepared.value), 0, "user"));
      return Ok(id, 201);
    }

    /** `create_user` AS WRITTEN. The duplicate check looks up the address as given,
        not in the trimmed, lower-cased form it would store; and the new row gets no
        `password_hash`, which the table declares NOT NULL, so the commit fails and is
        rolled back with 500. No call adds a user. */
    method CreateUser(data: NewUser) returns (r: Reply<int>)
      requires Valid()
      modifies this
      ensures Valid() && users == old(users) && nextId == old(nextId)
      ensures r.Err?
      ensures r.code == 400 <==> data.fullName.None? || data.email.None? || EmailTaken(users, data.email.value)
      ensures r.code != 400 ==> r.code == 500
    {
      if data.fullName.None? || data.email.None? {
        return Err("full_name and email are required", 400);
      }
      if EmailTaken(users, data.email.value) {
        return Err("Email already exists", 400);
      }
      if data.balance.Some? && !data.balance.value.Number? {
        return Err(InternalError, 500);
      }
      // The INSERT sends NULL for password_hash; the database refuses it and the
      // session is rolled back.
      return Err("Database error", 500);
    }

    /** `create_user` CORRECTED: the duplicate check uses the stored form of the address,
        and a user created without a password gets an empty hash, which
        `verify_password` never accepts. */
    method CreateUserCorrected(data: NewUser) returns (r: Reply<int>)
      requires Valid()
      modifies this
      ensures Valid()
      ensures data.fullName.None? || data.email.None? ==> r == Err("full_name and email are required", 400)
      ensures data.fullName.Some? && data.email.Some? && EmailTaken(old(users), NormalizeEmail(data.email.value)) ==>
                r == Err("Email already exists", 400)
      ensures r.Err? ==> users == old(users) && nextId == old(nextId)
      ensures r.Ok? <==> data.fullName.Some? && data.email.Some?
                         && !EmailTaken(old(users), NormalizeEmail(data.email.value))
                         && (data.balance.Some? ==> data.balance.value.Number?)
      ensures r.Ok? ==>
        && r.code == 201 && r.value == old(nextId) && r.value !in old(users) && nextId == old(nextId) + 1
        && users == old(users)[r.value := User(Strip(data.fullName.value), NormalizeEmail(data.email.value), "",
                                               if data.balance.Some? then data.balance.value.value else 0, "user")]
    {
      if data.fullName.None? || data.email.None? {
        return Err("full_name and email are required", 400);
      }
      var e := NormalizeEmail(data.email.value);
      if EmailTaken(users, e) {
        return Err("Email already exists", 400);
      }
      if data.balance.Some? && !data.balance.value.Number? {
        return Err(InternalError, 500);
      }
      NormalizeShape(data.email.value);
      var balance := if data.balance.Some? then data.balance.value.value else 0;
      var id := Add(User(Strip(data.fullName.value), e, "", balance, "user"));
      return Ok(id, 201);
    }

    /** `delete_user`: an unknown id gives 404; otherwise that user alone is removed. */
    method DeleteUser(id: int) returns (r: Reply<bool>)
      requires Valid()
      modifies this
      ensures Valid() && nextId == old(nextId)
      ensures id !in old(users) ==> r == Err(UserNotFound, 404) && users == old(users)
      ensures id in old(users) ==> r == Ok(true, 200) && users == old(users) - {id}
    {
      if id !in users {
        return Err(UserNotFound, 404);
      }
      Remove(id);
      return Ok(true, 200);
    }

    /** `authenticate_user`: both fields are required; the address is looked up in
        normal form; an unknown address and a wrong password both give 401. */
    method AuthenticateUser(email: string, password: string, matches: (string, string) -> bool) returns (r: Reply<int>)
      requires Valid()
      ensures email == [] || password == [] ==> r == Err("Email and password are required", 400)
      ensures r.Ok? <==> email != [] && password != []
                         && (exists id :: id in users && users[id].email == NormalizeEmail(email)
                                          && VerifyPassword(password, users[id].passwordHash, matches))
      ensures r.Ok? ==> r.code == 200 && r.value in users && users[r.value].email == NormalizeEmail(email)
      ensures r.Err? && email != [] && password != [] ==> r == Err("Invalid credentials", 401)
    {
      if email == [] || password == [] {
        return Err("Email and password are required", 400);
      }
      var e := NormalizeEmail(email);
      if !EmailTaken(users, e) {
        return Err("Invalid credentials", 401);
      }
      var id :| id in users && users[id].email == e;
      if !VerifyPassword(password, users[id].passwordHash, matches) {
        return Err("Invalid credentials", 401);
      }
      return Ok(id, 200);
    }
  }
}
