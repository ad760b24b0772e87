/** The user-management logic the admin, manager and employee routers each repeat
    for their own role: editing one's profile, resetting one's password, creating
    a user one level down, and switching a subordinate's `is_active` flag. Each
    is a specification function over the users table (the outcome, or the HTTP
    error in the order the router raises it) and a method that performs it on
    the store; the router modules call these with their own roles and keys. */
module Accounts {
  import opened Domain
  import opened Text
  import opened Queries
  import opened Store

  /** The widths of the users table's text columns, `String(150)` and `String(255)`. */
  const UsernameWidth: nat := 150
  const EmailWidth: nat := 255
  const FullNameWidth: nat := 255

  /** Some submitted field, stripped as it would be stored, is wider than its column.
      No handler checks this: the write fails at commit, inside `except Exception`. */
  predicate TooWide(p: Payload) {
    || (Given(Get(p, "username")) && |Strip(p["username"])| > UsernameWidth)
    || (Given(Get(p, "email")) && |Strip(p["email"])| > EmailWidth)
    || (Given(Get(p, "full_name")) && |Strip(p["full_name"])| > FullNameWidth)
  }

  // ================= update_*_profile =================

  /** The self-conflict query: a row with this id whose email, lower-cased, equals
      the submitted one lower-cased. It filters on `User.id == <own id>`, so it can
      only ever find the caller's own row. */
  predicate EmailTakenBySelf(users: seq<User>, id: Uuid, email: string) {
    exists i :: 0 <= i < |users| && users[i].id == id && Lower(users[i].email) == Lower(email)
  }

  predicate UsernameTakenBySelf(users: seq<User>, id: Uuid, username: string) {
    exists i :: 0 <= i < |users| && users[i].id == id && Lower(users[i].username) == Lower(username)
  }

  /** The profile edit once the caller is authorised and the payload is not empty:
      404 when no row has the id; for a non-empty email, 400 unless the stripped
      text is an email and 409 when the own row already has it; for a non-empty
      username, 409 when the own row already has it; 500 when a value is wider than
      its column; otherwise the row with the email stored stripped and lower-cased,
      the username and full name stripped, and every other column as it was. */
  function ProfileEdit(env: Env, users: seq<User>, id: Uuid, p: Payload): (r: Result<User>)
    ensures FirstUser(users, ById(id)).None? <==> r == Err(NotFound)
    ensures r == Err(BadRequest) <==>
      FirstUser(users, ById(id)).Some? && Given(Get(p, "email")) && !env.isEmail(Strip(p["email"]))
    ensures r == Err(Conflict) <==>
      FirstUser(users, ById(id)).Some? && !(Given(Get(p, "email")) && !env.isEmail(Strip(p["email"])))
      && ((Given(Get(p, "email")) && EmailTakenBySelf(users, id, Strip(p["email"])))
          || (Given(Get(p, "username")) && UsernameTakenBySelf(users, id, Strip(p["username"]))))
    ensures r.Ok? <==>
      FirstUser(users, ById(id)).Some? && !(Given(Get(p, "email")) && !env.isEmail(Strip(p["email"])))
      && !(Given(Get(p, "email")) && EmailTakenBySelf(users, id, Strip(p["email"])))
      && !(Given(Get(p, "username")) && UsernameTakenBySelf(users, id, Strip(p["username"])))
      && !TooWide(p)
    ensures r.Err? ==> r.error in {NotFound, BadRequest, Conflict, InternalError}
    ensures r.Ok? ==>
      var was := users[FirstUser(users, ById(id)).value];
      && r.value.id == was.id && r.value.role == was.role && r.value.createdBy == was.createdBy
      && r.value.isActive == was.isActive && r.value.passwordHash == was.passwordHash
      && r.value.createdAt == was.createdAt
      && r.value.email == (if Given(Get(p, "email")) then Lower(Strip(p["email"])) else was.email)
      && r.value.username == (if Given(Get(p, "username")) then Strip(p["username"]) else was.username)
      && r.value.fullName == (if Given(Get(p, "full_name")) then Some(Strip(p["full_name"])) else was.fullName)
  {
    match FirstUser(users, ById(id))
    case None => Err(NotFound)
    case Some(i) =>
      var was := users[i];
      var email, username, fullName := Get(p, "email"), Get(p, "username"), Get(p, "full_name");
      if Given(email) && !env.isEmail(Strip(email.value)) then Err(BadRequest)
      else if Given(email) && EmailTakenBySelf(users, id, Strip(email.value)) then Err(Conflict)
      else if Given(username) && UsernameTakenBySelf(users, id, Strip(username.value)) then Err(Conflict)
      else if TooWide(p) then Err(InternalError)
      else Ok(was.(
        email := if Given(email) then Lower(Strip(email.value)) else was.email,
        username := if Given(username) then Strip(username.value) else was.username,
        fullName := if Given(fullName) then Some(Strip(fullName.value)) else was.fullName))
  }

  /** Resubmitting an accepted profile request is a 409: the stored email (or
      username) is exactly what the self-conflict query compares against. */
  lemma RepeatedEditConflicts(env: Env, users: seq<User>, id: Uuid, p: Payload)
    requires ProfileEdit(env, users, id, p).Ok?
    requires Given(Get(p, "email")) || Given(Get(p, "username"))
    ensures var i := FirstUser(users, ById(id)).value;
            ProfileEdit(env, ReplaceUser(users, i, ProfileEdit(env, users, id, p).value), id, p) == Err(Conflict)
  {
    var i := FirstUser(users, ById(id)).value;
    var row := ProfileEdit(env, users, id, p).value;
    var users' := ReplaceUser(users, i, row);
    assert UserMatches(ById(id), users'[i]);
    assert FirstUser(users', ById(id)) == Some(i);
    if Given(Get(p, "email")) {
      var e := Strip(p["email"]);
      StripIdempotent(p["email"]);
      LowerIdempotent(e);
      assert Lower(users'[i].email) == Lower(e);
      assert EmailTakenBySelf(users', id, e);
    } else {
      var u := Strip(p["username"]);
      assert users'[i].username == u;
      assert UsernameTakenBySelf(users', id, u);
    }
  }

  /** Another user's rows never decide the outcome: adding a user with a different
      id, whatever its email and username are, leaves the result as it was. */
  lemma OtherUsersIgnored(env: Env, users: seq<User>, id: Uuid, p: Payload, other: User)
    requires other.id != id
    ensures ProfileEdit(env, users + [other], id, p) == ProfileEdit(env, users, id, p)
  {
    var users' := users + [other];
    assert !UserMatches(ById(id), other);
    FirstUserAppendMiss(users, other, ById(id));
    var a, b := ProfileEdit(env, users', id, p), ProfileEdit(env, users, id, p);
    var f := FirstUser(users, ById(id));
    if f.Some? {
      assert users'[f.value] == users[f.value];
      if "email" in p {
        SelfQueryIgnoresOthers(users, id, Strip(p["email"]), other);
      }
      if "username" in p {
        SelfQueryIgnoresOthers(users, id, Strip(p["username"]), other);
      }
      assert a.Ok? == b.Ok?;
      if a.Ok? {
        assert a.value == b.value;
      } else {
        assert a.error == b.error;
      }
    }
  }

  lemma SelfQueryIgnoresOthers(users: seq<User>, id: Uuid, s: string, other: User)
    requires other.id != id
    ensures EmailTakenBySelf(users + [other], id, s) == EmailTakenBySelf(users, id, s)
    ensures UsernameTakenBySelf(users + [other], id, s) == UsernameTakenBySelf(users, id, s)
  {
    var users' := users + [other];
    assert forall j :: 0 <= j < |users| ==> users'[j] == users[j];
    assert users'[|users|] == other;
  }

  /** The shared body of the three profile endpoints after their own 403 and 400
      checks: the row is locked, the fields are checked and set one by one, and the
      row is written back only when every check passed. */
  method EditProfile(db: Db, env: Env, id: Uuid, p: Payload) returns (r: Result<User>)
    modifies db`users
    ensures r == ProfileEdit(env, old(db.users), id, p)
    ensures r.Ok? ==> db.users == ReplaceUser(old(db.users), FirstUser(old(db.users), ById(id)).value, r.value)
    ensures r.Err? ==> db.users == old(db.users)
    ensures old(db.Valid()) ==> db.Valid()
  {
    var found := FirstUser(db.users, ById(id));
    if found.None? {
      return Err(NotFound);
    }
    var i := found.value;
    var row := db.users[i];
    var email, username, fullName := Get(p, "email"), Get(p, "username"), Get(p, "full_name");
    if Given(email) {
      var e := Strip(email.value);
      if !env.isEmail(e) {
        return Err(BadRequest);
      }
      if EmailTakenBySelf(db.users, id, e) {
        return Err(Conflict);
      }
      // The source strips a second time before lowering; stripping is idempotent.
      StripIdempotent(email.value);
      row := row.(email := Lower(Strip(e)));
    }
    if Given(username) {
      var u := Strip(username.value);
      if UsernameTakenBySelf(db.users, id, u) {
        return Err(Conflict);
      }
      row := row.(username := u);
    }
    if Given(fullName) {
      row := row.(fullName := Some(Strip(fullName.value)));
    }
    if TooWide(p) {
      // The UPDATE is refused at commit (a DataError), caught by `except Exception`.
      return Err(InternalError);
    }
    ghost var was := db.users;
    db.users := ReplaceUser(db.users, i, row);
    SameShapeKeepsConsistent(was, db.users, db.tasks, db.taskLogs);
    r := Ok(row);
  }

  // ================= reset_*_password =================

  /** The password reset: 403 unless the caller is the path user with the router's
      role; 400 on an empty payload, on a missing new password (read from `newKey`)
      and on a missing current password; 403 when the current password does not
      verify against the caller's hash; then the row's hash is replaced. A missing
      row raises a 404 inside `try ... except Exception`, so it leaves as a 500. */
  function PasswordReset(env: Env, users: seq<User>, actor: User, id: Uuid, role: UserRole,
                         p: Payload, newKey: string): (r: Result<User>)
    ensures !ActsAs(actor, id, role) ==> r == Err(Forbidden)
    ensures ActsAs(actor, id, role) && p == map[] ==> r == Err(BadRequest)
    ensures ActsAs(actor, id, role) && p != map[] && !Given(Get(p, newKey)) ==> r == Err(BadRequest)
    ensures (ActsAs(actor, id, role) && p != map[] && Given(Get(p, newKey)) && !Given(Get(p, "current_password")))
            ==> r == Err(BadRequest)
    ensures (ActsAs(actor, id, role) && p != map[] && Given(Get(p, newKey)) && Given(Get(p, "current_password"))
             && !env.verify(p["current_password"], actor.passwordHash)) ==> r == Err(Forbidden)
    ensures r.Ok? <==>
      ActsAs(actor, id, role) && p != map[] && Given(Get(p, newKey))
      && Given(Get(p, "current_password")) && env.verify(p["current_password"], actor.passwordHash)
      && FirstUser(users, ById(id)).Some?
    ensures r.Ok? ==> r.value == users[FirstUser(users, ById(id)).value].(passwordHash := env.hash(p[newKey]))
    ensures r == Err(InternalError) <==>
      ActsAs(actor, id, role) && p != map[] && Given(Get(p, newKey))
      && Given(Get(p, "current_password")) && env.verify(p["current_password"], actor.passwordHash)
      && FirstUser(users, ById(id)).None?
  {
    if !ActsAs(actor, id, role) then Err(Forbidden)
    else if p == map[] then Err(BadRequest)
    else if !Given(Get(p, newKey)) then Err(BadRequest)
    else if !Given(Get(p, "current_password")) then Err(BadRequest)
    else if !env.verify(p["current_password"], actor.passwordHash) then Err(Forbidden)
    else match FirstUser(users, ById(id))
      case None => Err(InternalError)
      case Some(i) => Ok(users[i].(passwordHash := env.hash(p[newKey])))
  }

  /** A wrong current password is refused before the store is read, whatever the
      new password is. */
  lemma WrongPasswordRefused(env: Env, users: seq<User>, actor: User, id: Uuid, role: UserRole,
                             p: Payload, newKey: string)
    requires ActsAs(actor, id, role) && Given(Get(p, newKey)) && Given(Get(p, "current_password"))
    requires !env.verify(p["current_password"], actor.passwordHash)
    ensures PasswordReset(env, users, actor, id, role, p, newKey) == Err(Forbidden)
  {
    assert newKey in p;
  }

  method ResetPassword(db: Db, env: Env, actor: User, id: Uuid, role: UserRole, p: Payload, newKey: string)
    returns (r: Result<Uuid>)
    modifies db`users
    ensures var spec := PasswordReset(env, old(db.users), actor, id, role, p, newKey);
            && (spec.Err? ==> r == Err(spec.error) && db.users == old(db.users))
            && (spec.Ok? ==>
                  r == Ok(id) && db.users == ReplaceUser(old(db.users), FirstUser(old(db.users), ById(id)).value, spec.value))
    ensures old(db.Valid()) ==> db.Valid()
  {
    if actor.id != id || actor.role != role {
      return Err(Forbidden);
    }
    if p == map[] {
      return Err(BadRequest);
    }
    var current, newPassword := Get(p, "current_password"), Get(p, newKey);
    if !Given(newPassword) {
      return Err(BadRequest);
    }
    if Given(current) {
      if !env.verify(current.value, actor.passwordHash) {
        return Err(Forbidden);
      }
    } else {
      return Err(BadRequest);
    }
    var found := FirstUser(db.users, ById(id));
    if found.None? {
      // HTTPException(404) raised inside the try is caught by `except Exception`.
      return Err(InternalError);
    }
    var i := found.value;
    ghost var was := db.users;
    db.users := ReplaceUser(db.users, i, db.users[i].(passwordHash := env.hash(newPassword.value)));
    SameShapeKeepsConsistent(was, db.users, db.tasks, db.taskLogs);
    r := Ok(id);
  }

  // ================= create_manager / create_employee =================

  /** The duplicate query: some row whose email or username equals the submitted
      one, both sides lower-cased (the submitted values are not stripped here). */
  predicate Taken(users: seq<User>, email: string, username: string) {
    exists i :: 0 <= i < |users| &&
      (Lower(users[i].email) == Lower(email) || Lower(users[i].username) == Lower(username))
  }

  /** Creating a user one level down: 403 unless the caller is the path user with
      `actorRole`; 400 on an empty payload or a missing username, email or
      password; 400 when the email (as submitted) is not an email; 409 when the
      email or username is taken; 500 when a value is wider than its column;
      otherwise the new row. */
  function Provision(env: Env, users: seq<User>, actor: User, ownerId: Uuid, actorRole: UserRole,
                     newRole: UserRole, p: Payload, newId: Uuid, now: Instant): (r: Result<User>)
    ensures r == Err(Forbidden) <==> !ActsAs(actor, ownerId, actorRole)
    ensures r == Err(BadRequest) <==>
      ActsAs(actor, ownerId, actorRole)
      && (p == map[] || !(Given(Get(p, "username")) && Given(Get(p, "email")) && Given(Get(p, "password")))
          || !env.isEmail(p["email"]))
    ensures r == Err(Conflict) <==>
      ActsAs(actor, ownerId, actorRole) && p != map[]
      && Given(Get(p, "username")) && Given(Get(p, "email")) && Given(Get(p, "password"))
      && env.isEmail(p["email"]) && Taken(users, p["email"], p["username"])
    ensures r == Err(InternalError) <==>
      ActsAs(actor, ownerId, actorRole) && p != map[]
      && Given(Get(p, "username")) && Given(Get(p, "email")) && Given(Get(p, "password"))
      && env.isEmail(p["email"]) && !Taken(users, p["email"], p["username"]) && TooWide(p)
    ensures r.Ok? <==>
      ActsAs(actor, ownerId, actorRole) && p != map[]
      && Given(Get(p, "username")) && Given(Get(p, "email")) && Given(Get(p, "password"))
      && env.isEmail(p["email"]) && !Taken(users, p["email"], p["username"]) && !TooWide(p)
    ensures r.Err? ==> r.error in {Forbidden, BadRequest, Conflict, InternalError}
    ensures r.Ok? ==>
      && r.value.id == newId && r.value.role == newRole && r.value.isActive
      && r.value.createdBy == Some(actor.id) && r.value.createdAt == now
      && r.value.username == Strip(p["username"])
      && r.value.email == Lower(Strip(p["email"]))
      && r.value.passwordHash == env.hash(p["password"])
      && r.value.fullName == (if Given(Get(p, "full_name")) then Some(Strip(p["full_name"])) else None)
  {
    if !ActsAs(actor, ownerId, actorRole) then Err(Forbidden)
    else if p == map[] then Err(BadRequest)
    else
      var username, email, password, fullName := Get(p, "username"), Get(p, "email"), Get(p, "password"), Get(p, "full_name");
      if !Given(username) || !Given(email) || !Given(password) then Err(BadRequest)
      else if !env.isEmail(email.value) then Err(BadRequest)
      else if Taken(users, email.value, username.value) then Err(Conflict)
      else if TooWide(p) then Err(InternalError)
      else Ok(User(
        id := newId,
        username := Strip(username.value),
        email := Lower(Strip(email.value)),
        passwordHash := env.hash(password.value),
        fullName := if Given(fullName) then Some(Strip(fullName.value)) else None,
        role := newRole,
        createdBy := Some(actor.id),
        createdAt := now,
        isActive := true))
  }

  /** Sending the same creation request again is a 409 when the username (or the
      email) was submitted without surrounding white space, since what was stored
      then lower-cases to what the duplicate query compares with. */
  lemma RepeatedProvisionConflicts(env: Env, users: seq<User>, actor: User, ownerId: Uuid,
                                   actorRole: UserRole, newRole: UserRole, p: Payload,
                                   newId: Uuid, now: Instant, laterId: Uuid, later: Instant)
    requires Provision(env, users, actor, ownerId, actorRole, newRole, p, newId, now).Ok?
    requires Strip(p["username"]) == p["username"] || Strip(p["email"]) == p["email"]
    ensures var u := Provision(env, users, actor, ownerId, actorRole, newRole, p, newId, now).value;
            Provision(env, users + [u], actor, ownerId, actorRole, newRole, p, laterId, later) == Err(Conflict)
  {
    var u := Provision(env, users, actor, ownerId, actorRole, newRole, p, newId, now).value;
    var users' := users + [u];
    assert users'[|users|] == u;
    if Strip(p["email"]) == p["email"] {
      LowerIdempotent(p["email"]);
    }
    assert Taken(users', p["email"], p["username"]);
  }

  /** The shared body of `create_manager` and `create_employee`: the checks, then
      the insert of the new row. `newId` and `now` stand for the generated UUID and
      `datetime.now()`. */
  method ProvisionUser(db: Db, env: Env, actor: User, ownerId: Uuid, actorRole: UserRole,
                       newRole: UserRole, p: Payload, newId: Uuid, now: Instant)
    returns (r: Result<User>)
    modifies db`users
    ensures r == Provision(env, old(db.users), actor, ownerId, actorRole, newRole, p, newId, now)
    ensures r.Ok? ==> db.users == old(db.users) + [r.value]
    ensures r.Err? ==> db.users == old(db.users)
    ensures old(db.Valid()) && actor in old(db.users) && FreshUserId(old(db.users), newId)
            && ((actorRole == Admin && newRole == Manager) || (actorRole == Manager && newRole == Employee))
            ==> db.Valid()
  {
    if actor.id != ownerId || actor.role != actorRole {
      return Err(Forbidden);
    }
    if p == map[] {
      return Err(BadRequest);
    }
    var username, email, password := Get(p, "username"), Get(p, "email"), Get(p, "password");
    var fullName := Get(p, "full_name");
    if !Given(username) || !Given(email) || !Given(password) {
      return Err(BadRequest);
    }
    if !env.isEmail(email.value) {
      return Err(BadRequest);
    }
    if Taken(db.users, email.value, username.value) {
      return Err(Conflict);
    }
    if TooWide(p) {
      // The INSERT is refused at commit (a DataError, not an IntegrityError): a 500.
      return Err(InternalError);
    }
    var row := User(
      id := newId,
      username := Strip(username.value),
      email := Lower(Strip(email.value)),
      passwordHash := env.hash(password.value),
      fullName := if Given(fullName) then Some(Strip(fullName.value)) else None,
      role := newRole,
      createdBy := Some(actor.id),
      createdAt := now,
      isActive := true);
    ghost var was := db.users;
    db.users := db.users + [row];
    if Consistent(was, db.tasks, db.taskLogs) && actor in was && FreshUserId(was, newId)
       && ((actorRole == Admin && newRole == Manager) || (actorRole == Manager && newRole == Employee)) {
      ProvisionedCreatorOk(was, actor, row);
      AddUserKeepsConsistent(was, db.tasks, db.taskLogs, row);
    }
    r := Ok(row);
  }

  // ================= deactivate_* / activate_* =================

  /** The users table with row `i`'s `is_active` set to `flag` and nothing else changed. */
  function SetActive(users: seq<User>, i: nat, flag: bool): (r: seq<User>)
    requires i < |users|
    ensures SameShape(users, r) && r[i].isActive == flag
    ensures r[i] == users[i].(isActive := flag)
    ensures forall j :: 0 <= j < |users| && j != i ==> r[j] == users[j]
  {
    ReplaceUser(users, i, users[i].(isActive := flag))
  }

  /** The chain of checks before a flag switch, in the router's order: 403 unless
      the caller is the path user with `actorRole`; 400 when the target is the
      caller; 404 when no row has the target id and `targetRole`; 403 when the
      target was created by someone else; 403 when its flag already is `activate`.
      On success, the index of the row to switch. */
  function ActivationGate(users: seq<User>, actor: User, actorRole: UserRole, ownerId: Uuid,
                          targetId: Uuid, targetRole: UserRole, activate: bool): (r: Result<nat>)
    ensures !ActsAs(actor, ownerId, actorRole) ==> r == Err(Forbidden)
    ensures r == Err(BadRequest) <==> ActsAs(actor, ownerId, actorRole) && ownerId == targetId
    ensures r.Err? ==> r.error in {Forbidden, BadRequest, NotFound}
    ensures r == Err(NotFound) <==>
      ActsAs(actor, ownerId, actorRole) && ownerId != targetId
      && FirstUser(users, ByIdRole(targetId, targetRole)).None?
    ensures r.Ok? ==>
      && r.value == FirstUser(users, ByIdRole(targetId, targetRole)).value
      && users[r.value].id == targetId && users[r.value].role == targetRole
      && users[r.value].createdBy == Some(ownerId) && users[r.value].isActive == !activate
    ensures r.Ok? <==>
      ActsAs(actor, ownerId, actorRole) && ownerId != targetId
      && FirstUser(users, ByIdRole(targetId, targetRole)).Some?
      && users[FirstUser(users, ByIdRole(targetId, targetRole)).value].createdBy == Some(ownerId)
      && users[FirstUser(users, ByIdRole(targetId, targetRole)).value].isActive != activate
  {
    if !ActsAs(actor, ownerId, actorRole) then Err(Forbidden)
    else if ownerId == targetId then Err(BadRequest)
    else match FirstUser(users, ByIdRole(targetId, targetRole))
      case None => Err(NotFound)
      case Some(i) =>
        if users[i].createdBy != Some(ownerId) then Err(Forbidden)
        else if users[i].isActive == activate then Err(Forbidden)
        else Ok(i)
  }

  /** Deactivating and then activating the same user succeeds and gives back the
      table exactly as it was. */
  lemma DeactivateThenActivate(users: seq<User>, actor: User, actorRole: UserRole, ownerId: Uuid,
                               targetId: Uuid, targetRole: UserRole)
    requires ActivationGate(users, actor, actorRole, ownerId, targetId, targetRole, false).Ok?
    ensures var i := ActivationGate(users, actor, actorRole, ownerId, targetId, targetRole, false).value;
            && ActivationGate(SetActive(users, i, false), actor, actorRole, ownerId, targetId, targetRole, true) == Ok(i)
            && SetActive(SetActive(users, i, false), i, true) == users
  {
    var i := ActivationGate(users, actor, actorRole, ownerId, targetId, targetRole, false).value;
    var users' := SetActive(users, i, false);
    assert UserMatches(ByIdRole(targetId, targetRole), users'[i]);
    assert forall j :: 0 <= j < i ==> users'[j] == users[j];
    assert FirstUser(users', ByIdRole(targetId, targetRole)) == Some(i);
  }

  /** A switch that succeeded cannot be repeated: the second request meets the
      "already inactive" (or "already active") 403. */
  lemma SwitchNotRepeatable(users: seq<User>, actor: User, actorRole: UserRole, ownerId: Uuid,
                            targetId: Uuid, targetRole: UserRole, activate: bool)
    requires ActivationGate(users, actor, actorRole, ownerId, targetId, targetRole, activate).Ok?
    ensures var i := ActivationGate(users, actor, actorRole, ownerId, targetId, targetRole, activate).value;
            ActivationGate(SetActive(users, i, activate), actor, actorRole, ownerId, targetId, targetRole, activate)
              == Err(Forbidden)
  {
    var i := ActivationGate(users, actor, actorRole, ownerId, targetId, targetRole, activate).value;
    var users' := SetActive(users, i, activate);
    assert UserMatches(ByIdRole(targetId, targetRole), users'[i]);
    assert forall j :: 0 <= j < i ==> users'[j] == users[j];
    assert FirstUser(users', ByIdRole(targetId, targetRole)) == Some(i);
  }

  /** The shared body of the four activation endpoints. */
  method SwitchActive(db: Db, actor: User, actorRole: UserRole, ownerId: Uuid,
                      targetId: Uuid, targetRole: UserRole, activate: bool) returns (r: Result<Uuid>)
    modifies db`users
    ensures var gate := ActivationGate(old(db.users), actor, actorRole, ownerId, targetId, targetRole, activate);
            && (gate.Err? ==> r == Err(gate.error) && db.users == old(db.users))
            && (gate.Ok? ==> r == Ok(targetId) && db.users == SetActive(old(db.users), gate.value, activate))
    ensures old(db.Valid()) ==> db.Valid()
  {
    if actor.id != ownerId || actor.role != actorRole {
      return Err(Forbidden);
    }
    if ownerId == targetId {
      return Err(BadRequest);
    }
    var found := FirstUser(db.users, ByIdRole(targetId, targetRole));
    if found.None? {
      return Err(NotFound);
    }
    var i := found.value;
    if db.users[i].createdBy != Some(ownerId) {
      return Err(Forbidden);
    }
    if db.users[i].isActive == activate {
      return Err(Forbidden);
    }
    ghost var was := db.users;
    db.users := SetActive(db.users, i, activate);
    SameShapeKeepsConsistent(was, db.users, db.tasks, db.taskLogs);
    r := Ok(targetId);
  }
}
